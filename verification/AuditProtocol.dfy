/**
 The audit queue as a state machine.  Request threads, the drainer, the
 deliveries of a round, the compactor and the end of the process are steps that
 interleave freely; a step carries what the environment chose.
 */
module AuditProtocol {
  import opened Basics
  import opened WalLines
  import opened WalBytes
  import opened WalBatch
  import opened WalEvents
  import opened AuditQueue

  datatype Config = Config(
    isEvent: Bytes -> bool, readable: Bytes -> bool,
    batchSize: nat, channelCap: nat, concurrency: nat,
    initialDelay: int, maxDelay: int)

  ghost predicate Good(c: Config) {
    && Encodes(c.isEvent, c.readable) && NestingFree(c.isEvent)
    && c.batchSize >= 1 && c.concurrency >= 1
    && 1 <= c.initialDelay <= c.maxDelay
  }

  /** Where the drainer goroutine stands. */
  datatype Drainer =
    | Top                                                           // about to read a batch
    | Working(batch: seq<Entry>, lo: nat, hi: nat, progressed: bool)  // a round batch[lo..hi] is out
    | Delaying(batch: seq<Entry>, hi: nat, progressed: bool)          // waiting after a stalled round
    | Returning(batch: seq<Entry>, next: nat, progressed: bool, stop: bool)
    | Waiting                                                       // blocked on wakeCh and stopCh
    | Done

  /** What happened so far, text by text. */
  datatype History = History(
    appended: multiset<Bytes>,    // appends that returned success
    torn: multiset<Bytes>,        // what cut appends left in the log
    struck: multiset<Bytes>,      // events whose tombstone reached the log, and buried lines
    settledMem: multiset<Bytes>,  // memory events delivered or refused
    accepted: multiset<Bytes>,    // 2xx answers of the sink
    dead: multiset<Bytes>,        // records in the dead-letter file
    unwritten: multiset<Bytes>,   // dead-letter records that could not be written
    memIn: multiset<Bytes>,       // events whose append failed, so that memory had to take them
    memLost: multiset<Bytes>)     // those of them dropped by a full channel, at Enqueue or later, or by a crash

  datatype State = State(
    wal: Bytes, mem: seq<Bytes>, wake: bool,
    wakers: nat,                  // Enqueue calls past their critical section, before their wake
    closing: bool, backlog: int, delay: int,
    stalled: nat,                 // stalled rounds since the last progress
    passes: nat,                  // batches read
    drainer: Drainer, history: History)

  datatype Step =
    | Append(line: Bytes)
    | AppendFails(line: Bytes, cut: nat)
    | Wake
    | Close
    | Compact
    | Bury(i: nat, cut: nat, recorded: bool)
    | ReadBatch
    | ReadFails
    | NothingRead
    | TakeWake
    | StopWaiting
    | SinkAccepts(i: nat)
    | SinkRefuses(i: nat, recorded: bool)
    | SinkFails(i: nat)
    | Settle(i: nat)
    | SettleFails(i: nat, cut: nat)
    | EndRound
    | DelayOver
    | DelayStopped
    | ReturnOne
    | EndPass
    | Crash
    | CrashInAppend(line: Bytes, cut: nat)
    | CrashInSettle(i: nat, cut: nat)

  /** Steps of the request threads, the compactor and the process. */
  predicate OutsideStep(step: Step) {
    || step.Append? || step.AppendFails? || step.Wake? || step.Close? || step.Compact?
    || step.Crash? || step.CrashInAppend? || step.CrashInSettle?
  }

  /** Steps of the deliveries of a round. */
  predicate DeliveryStep(step: Step) {
    step.SinkAccepts? || step.SinkRefuses? || step.SinkFails? || step.Settle? || step.SettleFails?
  }

  /** Steps of the drainer between two rounds. */
  predicate RoundStep(step: Step) {
    step.EndRound? || step.DelayOver? || step.DelayStopped?
  }

  // -------------------------------------------------------------- parts of it

  function Finished(p: Phase): bool { p.Settled? || p.Failed? }
  function Answered(p: Phase): bool { p.Accepted? || p.Refused? }

  /** Pending events a read pass would see. */
  function PendingNow(c: Config, s: State): nat { Pending(Complete(Lines(s.wal)), c.readable) }

  function RoundEnd(c: Config, batch: seq<Entry>, lo: nat): nat { Min(lo + c.concurrency, |batch|) }

  ghost predicate RoundDelivered(d: Drainer)
    requires d.Working? && d.hi <= |d.batch|
  {
    exists i :: d.lo <= i < d.hi && d.batch[i].phase.Settled?
  }

  function Batched(c: Config, s: State): seq<Entry> {
    WalEntries(Batch(s.wal, c.batchSize, c.readable)) + MemoryEntries(s.mem)
  }

  predicate GoesBack(e: Entry) { e.fromMemory && !e.phase.Settled? }

  // ------------------------------------------------------------------ enabled

  ghost predicate Enabled(c: Config, s: State, step: Step) {
    var d := s.drainer;
    match step
    case Append(line) => c.isEvent(line)
    case AppendFails(line, cut) => c.isEvent(line) && cut < |AppendOut(s.wal, line)|
    case Wake => s.wakers > 0
    case Close => true
    case Compact => true
    case Bury(i, cut, _) =>
      && d.Top? && i < |Complete(Lines(s.wal))|
      && IsUnreadable(Lines(s.wal)[i], c.readable) && cut <= |Lines(s.wal)[i]|
    case ReadBatch => d.Top?
    case ReadFails => d.Top?
    case NothingRead => d.Working? && d.batch == []
    case TakeWake => d.Waiting? && s.wake
    case StopWaiting => d.Waiting? && s.closing
    case SinkAccepts(i) => d.Working? && d.lo <= i < d.hi <= |d.batch| && d.batch[i].phase.Sent?
    case SinkRefuses(i, _) => d.Working? && d.lo <= i < d.hi <= |d.batch| && d.batch[i].phase.Sent?
    case SinkFails(i) => d.Working? && d.lo <= i < d.hi <= |d.batch| && d.batch[i].phase.Sent?
    case Settle(i) => d.Working? && d.lo <= i < d.hi <= |d.batch| && Answered(d.batch[i].phase)
    case SettleFails(i, cut) =>
      && d.Working? && d.lo <= i < d.hi <= |d.batch| && Answered(d.batch[i].phase)
      && !d.batch[i].fromMemory && cut < |d.batch[i].line|
    case EndRound =>
      && d.Working? && d.batch != [] && d.hi <= |d.batch|
      && forall i :: d.lo <= i < d.hi ==> Finished(d.batch[i].phase)
    case DelayOver => d.Delaying?
    case DelayStopped => d.Delaying? && s.closing
    case ReturnOne => d.Returning? && d.next < |d.batch|
    case EndPass => d.Returning? && d.next >= |d.batch|
    case Crash => true
    case CrashInAppend(line, cut) => c.isEvent(line) && cut <= |AppendOut(s.wal, line)|
    case CrashInSettle(i, cut) =>
      && d.Working? && d.lo <= i < d.hi <= |d.batch| && Answered(d.batch[i].phase)
      && !d.batch[i].fromMemory && 1 <= cut
  }

  // ------------------------------------------------------------------- effect

  function One(line: Bytes): multiset<Bytes> { multiset{line} }

  function AfterAppend(s: State, line: Bytes): State {
    s.(wal := Appended(s.wal, line), backlog := s.backlog + 1, wakers := s.wakers + 1,
       history := s.history.(appended := s.history.appended + One(line)))
  }

  /** The log and the books after `cut` bytes of an append. */
  function TornState(s: State, line: Bytes, cut: nat): State
    requires cut <= |AppendOut(s.wal, line)|
  {
    s.(wal := TornAppend(s.wal, line, cut),
       history := s.history.(torn := s.history.torn + Texts(Fragment(s.wal, line, cut))))
  }

  function AfterAppendFails(c: Config, s: State, line: Bytes, cut: nat): State
    requires cut <= |AppendOut(s.wal, line)|
  {
    var torn := TornState(s, line, cut);
    var h := torn.history.(memIn := s.history.memIn + One(line));
    var s' := torn.(wakers := s.wakers + 1, history := h);
    if |s.mem| >= c.channelCap then s'.(history := h.(memLost := h.memLost + One(line)))
    else s'.(mem := s.mem + [line], backlog := s.backlog + 1)
  }

  function AfterBury(s: State, i: nat, cut: nat, recorded: bool): State
    requires i < |Lines(s.wal)| && cut <= |Lines(s.wal)[i]|
  {
    var text := One(Trim(Lines(s.wal)[i]));
    var h := Recorded(s.history, text, recorded);
    s.(wal := BuriedAtOffset(s.wal, i, cut),
       history := if cut >= 1 then h.(struck := h.struck + text) else h)
  }

  /** The log after `cut` bytes of a tombstone were written over line `i`. */
  function BuriedAtOffset(data: Bytes, i: nat, cut: nat): Bytes
    requires i < |Lines(data)| && cut <= |Lines(data)[i]|
  {
    TornTombstoneLines(data, i, cut);
    WriteAt(data, Separated.Offset(Lines(data), i), TombstoneBytes(|Lines(data)[i]|)[..cut])
  }

  function Recorded(h: History, text: multiset<Bytes>, recorded: bool): History {
    if recorded then h.(dead := h.dead + text) else h.(unwritten := h.unwritten + text)
  }

  function Started(c: Config, s: State, batch: seq<Entry>, pending: nat): State {
    s.(mem := [], backlog := pending + |s.mem|, passes := s.passes + 1,
       drainer := Working(batch, 0, RoundEnd(c, batch, 0), false))
  }

  function SetPhase(d: Drainer, i: nat, p: Phase): Drainer
    requires d.Working? && i < |d.batch|
  {
    Working(d.batch[i := d.batch[i].(phase := p)], d.lo, d.hi, d.progressed)
  }

  function AfterSettle(s: State, i: nat): State
    requires s.drainer.Working? && i < |s.drainer.batch|
  {
    var e, h := s.drainer.batch[i], s.history;
    var s' := s.(backlog := s.backlog - 1, drainer := SetPhase(s.drainer, i, Phase.Settled));
    if e.fromMemory then s'.(history := h.(settledMem := h.settledMem + One(e.line)))
    else s'.(wal := WalBytes.Settled(s.wal, e.line, e.offset), history := h.(struck := h.struck + One(e.line)))
  }

  /** A tombstone of which only `cut` bytes reached the log. */
  function Cut(s: State, i: nat, cut: nat): State
    requires s.drainer.Working? && i < |s.drainer.batch|
  {
    var e, h := s.drainer.batch[i], s.history;
    if cut == 0 then s
    else s.(wal := Struck(s.wal, e.line, e.offset, cut), history := h.(struck := h.struck + One(e.line)))
  }

  /** The round after this one, or the end of the pass. */
  function NextRound(c: Config, batch: seq<Entry>, hi: nat, progressed: bool): Drainer {
    if hi < |batch| then Working(batch, hi, RoundEnd(c, batch, hi), progressed)
    else Returning(batch, 0, progressed, false)
  }

  ghost function AfterEndRound(c: Config, s: State): State
    requires s.drainer.Working? && s.drainer.hi <= |s.drainer.batch|
  {
    var d := s.drainer;
    if RoundDelivered(d) then
      s.(delay := c.initialDelay, stalled := 0, drainer := NextRound(c, d.batch, d.hi, true))
    else if s.closing then s.(drainer := Returning(d.batch, 0, d.progressed, true))
    else s.(drainer := Delaying(d.batch, d.hi, d.progressed))
  }

  function AfterReturnOne(c: Config, s: State): State
    requires s.drainer.Returning? && s.drainer.next < |s.drainer.batch|
  {
    var d, h := s.drainer, s.history;
    var e := d.batch[d.next];
    var s' := s.(drainer := d.(next := d.next + 1));
    if !GoesBack(e) then s'
    else if |s.mem| < c.channelCap then s'.(mem := s.mem + [e.line])
    else s'.(history := h.(memLost := h.memLost + One(e.line)))
  }

  function AfterEndPass(s: State): State
    requires s.drainer.Returning?
  {
    var d := s.drainer;
    s.(drainer := if d.stop || (s.closing && !d.progressed) then Done else Top)
  }

  /** A new process on the same files: Replay, then Start. */
  function Restarted(c: Config, s: State): State {
    var h := s.history;
    State(s.wal, [], false, 0, false, Pending(Complete(Lines(s.wal)), c.readable), c.initialDelay, 0, s.passes, Top,
          h.(memLost := h.memLost + multiset(s.mem) + HeldBy(s.drainer)))
  }

  ghost function Apply(c: Config, s: State, step: Step): State
    requires Enabled(c, s, step)
  {
    var d, h := s.drainer, s.history;
    match step
    case Append(line) => AfterAppend(s, line)
    case AppendFails(line, cut) => AfterAppendFails(c, s, line, cut)
    case Wake => s.(wake := true, wakers := s.wakers - 1)
    case Close => s.(closing := true)
    case Compact => s.(wal := Compacted(s.wal))
    case Bury(i, cut, recorded) => AfterBury(s, i, cut, recorded)
    case ReadBatch => Started(c, s, Batched(c, s), PendingNow(c, s))
    case ReadFails => Started(c, s, MemoryEntries(s.mem), 0)
    case NothingRead => s.(drainer := if s.closing then Done else Waiting)
    case TakeWake => s.(wake := false, drainer := Top)
    case StopWaiting => s.(drainer := Done)
    case SinkAccepts(i) =>
      s.(drainer := SetPhase(d, i, Accepted), history := h.(accepted := h.accepted + One(d.batch[i].line)))
    case SinkRefuses(i, recorded) =>
      s.(drainer := SetPhase(d, i, Refused), history := Recorded(h, One(d.batch[i].line), recorded))
    case SinkFails(i) => s.(drainer := SetPhase(d, i, Failed))
    case Settle(i) => AfterSettle(s, i)
    case SettleFails(i, cut) => Cut(s, i, cut).(drainer := SetPhase(d, i, Failed))
    case EndRound => AfterEndRound(c, s)
    case DelayOver =>
      s.(delay := NextRetryDelay(s.delay, c.maxDelay), stalled := s.stalled + 1,
         drainer := NextRound(c, d.batch, d.hi, d.progressed))
    case DelayStopped => s.(drainer := Returning(d.batch, 0, d.progressed, true))
    case ReturnOne => AfterReturnOne(c, s)
    case EndPass => AfterEndPass(s)
    case Crash => Restarted(c, s)
    case CrashInAppend(line, cut) => Restarted(c, TornState(s, line, cut))
    case CrashInSettle(i, cut) => Restarted(c, Cut(s, i, cut))
  }

  // --------------------------------------------------------------------- runs

  function Init(c: Config, wal: Bytes): State {
    var none: multiset<Bytes> := multiset{};
    State(wal, [], false, 0, false, Pending(Complete(Lines(wal)), c.readable), c.initialDelay, 0, 0, Top,
          History(Texts(Lines(wal)), none, none, none, none, none, none, none, none))
  }

  ghost predicate Legal(c: Config, s: State, steps: seq<Step>)
    decreases |steps|
  {
    steps == [] || (Enabled(c, s, steps[0]) && Legal(c, Apply(c, s, steps[0]), steps[1..]))
  }

  ghost function Exec(c: Config, s: State, steps: seq<Step>): State
    requires Legal(c, s, steps)
    decreases |steps|
  {
    if steps == [] then s else Exec(c, Apply(c, s, steps[0]), steps[1..])
  }

  lemma RunCons(c: Config, s: State, step: Step, rest: seq<Step>)
    requires Enabled(c, s, step) && Legal(c, Apply(c, s, step), rest)
    ensures Legal(c, s, [step] + rest)
    ensures Exec(c, s, [step] + rest) == Exec(c, Apply(c, s, step), rest)
  {
    assert ([step] + rest)[1..] == rest;
  }

  lemma {:induction false} RunConcat(c: Config, s: State, a: seq<Step>, b: seq<Step>)
    requires Legal(c, s, a) && Legal(c, Exec(c, s, a), b)
    ensures Legal(c, s, a + b) && Exec(c, s, a + b) == Exec(c, Exec(c, s, a), b)
    decreases |a|
  {
    if a == [] {
      assert a + b == b;
    } else {
      assert (a + b)[1..] == a[1..] + b;
      RunConcat(c, Apply(c, s, a[0]), a[1..], b);
    }
  }

  lemma RunTwo(c: Config, s: State, a: Step, b: Step)
    requires Enabled(c, s, a) && Enabled(c, Apply(c, s, a), b)
    ensures Legal(c, s, [a, b]) && Exec(c, s, [a, b]) == Apply(c, Apply(c, s, a), b)
  {
    RunCons(c, Apply(c, s, a), b, []);
    RunCons(c, s, a, [b]);
    assert [b] + [] == [b] && [a] + [b] == [a, b];
  }

  // ---------------------------------------------------------- bags of entries

  /** Entries by what may still happen to them. */
  datatype Kind =
    | Open        // log entries whose tombstone may still be written
    | Replied     // entries the sink answered, not yet settled
    | Held        // memory events neither settled nor put back

  predicate Is(kind: Kind, e: Entry) {
    match kind
    case Open => !e.fromMemory && !Finished(e.phase)
    case Replied => Answered(e.phase)
    case Held => GoesBack(e)
  }

  function Share(kind: Kind, e: Entry): multiset<Bytes> {
    if Is(kind, e) then multiset{e.line} else multiset{}
  }

  /** The lines of the entries of a kind, with multiplicity. */
  function Bag(kind: Kind, batch: seq<Entry>): multiset<Bytes> {
    if batch == [] then multiset{} else Share(kind, batch[0]) + Bag(kind, batch[1..])
  }

  function BatchOf(d: Drainer): seq<Entry> {
    match d
    case Working(batch, _, _, _) => batch
    case Delaying(batch, _, _) => batch
    case Returning(batch, _, _, _) => batch
    case _ => []
  }

  /** The part of the batch whose memory events the drainer still holds. */
  function HeldPart(d: Drainer): seq<Entry> {
    if d.Returning? then (if d.next <= |d.batch| then d.batch[d.next..] else []) else BatchOf(d)
  }

  /** Memory events taken from the channel and neither settled nor put back. */
  function HeldBy(d: Drainer): multiset<Bytes> {
    Bag(Held, HeldPart(d))
  }

  lemma {:induction false} BagConcat(kind: Kind, a: seq<Entry>, b: seq<Entry>)
    ensures Bag(kind, a + b) == Bag(kind, a) + Bag(kind, b)
  {
    if a == [] {
      assert a + b == b;
    } else {
      assert (a + b)[1..] == a[1..] + b;
      BagConcat(kind, a[1..], b);
    }
  }

  lemma BagAround(kind: Kind, batch: seq<Entry>, i: nat)
    requires i < |batch|
    ensures Bag(kind, batch) == Bag(kind, batch[..i]) + Share(kind, batch[i]) + Bag(kind, batch[i + 1..])
  {
    assert batch == batch[..i] + batch[i..];
    assert batch[i..][1..] == batch[i + 1..];
    BagConcat(kind, batch[..i], batch[i..]);
  }

  /** Replacing one entry exchanges its own share and nothing else. */
  lemma BagReplace(kind: Kind, batch: seq<Entry>, i: nat, e: Entry)
    requires i < |batch|
    ensures Bag(kind, batch[i := e]) + Share(kind, batch[i]) == Bag(kind, batch) + Share(kind, e)
  {
    BagAround(kind, batch, i);
    BagAround(kind, batch[i := e], i);
    assert batch[i := e][..i] == batch[..i];
    assert batch[i := e][i + 1..] == batch[i + 1..];
  }

  lemma BagMember(kind: Kind, batch: seq<Entry>, i: nat)
    requires i < |batch| && Is(kind, batch[i])
    ensures batch[i].line in Bag(kind, batch)
  {
    BagAround(kind, batch, i);
  }
}
