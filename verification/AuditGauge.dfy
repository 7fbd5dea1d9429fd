/**
 The backlog gauge against what it is meant to show: pending log lines plus the
 memory events queued and held.  `Drift` is the difference; each step moves it
 by an exact amount and a successful read pass sets it to zero.
 */
module AuditGauge {
  import opened WalLines
  import opened WalBytes
  import opened WalBatch
  import opened WalEvents
  import opened AuditQueue
  import opened AuditProtocol
  import opened AuditSafety
  import opened AuditWake

  function Drift(c: Config, s: State): int {
    s.backlog - PendingNow(c, s) - |s.mem| - |HeldBy(s.drainer)|
  }

  function TailCounts(c: Config, s: State): int {
    if TailPending(c, s) then 1 else 0
  }

  /** Entry `i` would be settled on the unterminated tail of the log. */
  predicate OnTail(s: State, i: nat)
    requires s.drainer.Working? && i < |s.drainer.batch|
  {
    var e := s.drainer.batch[i];
    !e.fromMemory && LocatedIndex(s.wal, e.line, e.offset) == |Lines(s.wal)| - 1
  }

  /** By how much a step moves the gauge away from what it shows. */
  function StepDrift(c: Config, s: State, step: Step): int {
    var d := s.drainer;
    match step
    case Append(_) => -TailCounts(c, s)
    case AppendFails(_, cut) => if cut >= 1 then -TailCounts(c, s) else 0
    case Compact => -TailCounts(c, s)
    case Settle(i) => if d.Working? && i < |d.batch| && OnTail(s, i) then -1 else 0
    case SettleFails(i, cut) => if cut >= 1 && d.Working? && i < |d.batch| && !OnTail(s, i) then 1 else 0
    case ReturnOne =>
      if d.Returning? && d.next < |d.batch| && GoesBack(d.batch[d.next]) && |s.mem| >= c.channelCap then 1 else 0
    case ReadBatch => -Drift(c, s)
    case ReadFails => 0 - PendingNow(c, s) - Drift(c, s)
    case Crash => -Drift(c, s)
    case CrashInAppend(_, _) => -Drift(c, s)
    case CrashInSettle(_, _) => -Drift(c, s)
    case _ => 0
  }

  // ------------------------------------------------------------ pending counts

  lemma AppendPending(c: Config, data: Bytes, line: Bytes)
    requires Good(c) && c.isEvent(line)
    ensures Pending(Complete(Lines(Appended(data, line))), c.readable)
         == Pending(Complete(Lines(data)), c.readable) + PendingOne(Tail(Lines(data)), c.readable) + 1
  {
    var lines := Lines(data);
    var none: seq<Bytes> := [];
    EventFacts(line, c.isEvent, c.readable);
    AppendLines(data, line);
    assert Complete(Closed(lines) + [line, []]) == Closed(lines) + [line];
    PendingConcat(Closed(lines), [line], c.readable);
    assert [line][1..] == none;
    ClosedCarries(lines, c.readable);
  }

  lemma TornPending(c: Config, data: Bytes, line: Bytes, cut: nat)
    requires Good(c) && c.isEvent(line) && cut < |AppendOut(data, line)|
    ensures Pending(Complete(Lines(TornAppend(data, line, cut))), c.readable)
         == Pending(Complete(Lines(data)), c.readable)
            + (if cut >= 1 then PendingOne(Tail(Lines(data)), c.readable) else 0)
  {
    var lines := Lines(data);
    EventFacts(line, c.isEvent, c.readable);
    TornAppendLines(data, line, cut);
    ClosedCarries(lines, c.readable);
    TailEmpty(data);
    BlankLine();
    if cut >= |Seal(data)| {
      var part := Fragment(data, line, cut)[0];
      assert Complete(Closed(lines) + [part]) == Closed(lines);
    }
  }

  /** Burying an unreadable line leaves the pending lines alone. */
  lemma BuryPending(c: Config, data: Bytes, i: nat, cut: nat)
    requires i < |Complete(Lines(data))| && IsUnreadable(Lines(data)[i], c.readable) && cut <= |Lines(data)[i]|
    ensures Pending(Complete(Lines(BuriedAtOffset(data, i, cut))), c.readable)
         == Pending(Complete(Lines(data)), c.readable)
  {
    var lines := Lines(data);
    var after := BuriedCut(lines[i], cut);
    BuryLines(data, i, cut);
    WalEvents.ReplaceParts(lines, i, after, c.readable);
    if cut == 0 {
      assert after == lines[i];
    } else {
      TornTombstoneReads(lines[i], cut);
    }
  }

  // ---------------------------------------------------------------- the steps

  lemma SameParts(c: Config, s: State, s': State)
    requires s'.wal == s.wal && s'.mem == s.mem && HeldPart(s'.drainer) == HeldPart(s.drainer)
    requires s'.backlog == s.backlog
    ensures Drift(c, s') == Drift(c, s)
  {
  }

  lemma AppendDrift(c: Config, s: State, line: Bytes)
    requires Good(c) && c.isEvent(line)
    ensures Drift(c, AfterAppend(s, line)) == Drift(c, s) + StepDrift(c, s, Append(line))
  {
    AppendPending(c, s.wal, line);
  }

  lemma AppendFailsDrift(c: Config, s: State, line: Bytes, cut: nat)
    requires Good(c) && c.isEvent(line) && cut < |AppendOut(s.wal, line)|
    ensures Drift(c, AfterAppendFails(c, s, line, cut)) == Drift(c, s) + StepDrift(c, s, AppendFails(line, cut))
  {
    TornPending(c, s.wal, line, cut);
  }

  lemma CompactDrift(c: Config, s: State)
    ensures Drift(c, s.(wal := Compacted(s.wal))) == Drift(c, s) + StepDrift(c, s, Compact)
  {
    CompactPending(s.wal, c.readable);
  }

  lemma BuryDrift(c: Config, s: State, i: nat, cut: nat, recorded: bool)
    requires s.drainer.Top? && i < |Complete(Lines(s.wal))|
    requires IsUnreadable(Lines(s.wal)[i], c.readable) && cut <= |Lines(s.wal)[i]|
    ensures Drift(c, AfterBury(s, i, cut, recorded)) == Drift(c, s)
  {
    BuryPending(c, s.wal, i, cut);
  }

  /** A successful read pass makes the gauge exact, whatever happened before. */
  lemma ReadMakesExact(c: Config, s: State)
    requires s.drainer.Top?
    ensures Drift(c, Started(c, s, Batched(c, s), PendingNow(c, s))) == 0
  {
    var s' := Started(c, s, Batched(c, s), PendingNow(c, s));
    ReadHeld(c, s);
    assert HeldPart(s'.drainer) == Batched(c, s) && PendingNow(c, s') == PendingNow(c, s);
    assert |HeldBy(s'.drainer)| == |multiset(s.mem)| == |s.mem|;
  }

  lemma ReadFailsDrift(c: Config, s: State)
    requires s.drainer.Top?
    ensures Drift(c, Started(c, s, MemoryEntries(s.mem), 0)) == 0 - PendingNow(c, s)
  {
    FreshHeld(s.mem);
  }

  lemma HeldSizes(d: Drainer, i: nat, p: Phase)
    requires d.Working? && i < |d.batch|
    ensures var e := d.batch[i];
            |HeldBy(SetPhase(d, i, p))| + |Share(Held, e)| == |HeldBy(d)| + |Share(Held, e.(phase := p))|
  {
    var e' := d.batch[i].(phase := p);
    BagReplace(Held, d.batch, i, e');
    assert |Bag(Held, d.batch[i := e']) + Share(Held, d.batch[i])| == |Bag(Held, d.batch) + Share(Held, e')|;
  }

  lemma PhaseDrift(c: Config, s: State, s': State, i: nat, p: Phase)
    requires s.drainer.Working? && i < |s.drainer.batch| && !Finished(s.drainer.batch[i].phase) && !p.Settled?
    requires s'.drainer == SetPhase(s.drainer, i, p)
    requires s'.wal == s.wal && s'.mem == s.mem && s'.backlog == s.backlog
    ensures Drift(c, s') == Drift(c, s)
  {
    HeldSizes(s.drainer, i, p);
  }

  lemma SettleMemoryDrift(c: Config, s: State, i: nat)
    requires s.drainer.Working? && i < |s.drainer.batch| && Answered(s.drainer.batch[i].phase)
    requires s.drainer.batch[i].fromMemory
    ensures Drift(c, AfterSettle(s, i)) == Drift(c, s)
  {
    HeldSizes(s.drainer, i, Phase.Settled);
  }

  /** What a tombstone of an answered entry does to the two counts of pending lines. */
  lemma StrikeCounts(c: Config, s: State, i: nat, cut: nat)
    requires Good(c) && Inv(c, s)
    requires s.drainer.Working? && i < |s.drainer.batch| && Answered(s.drainer.batch[i].phase)
    requires !s.drainer.batch[i].fromMemory && cut >= 1
    ensures var e := s.drainer.batch[i];
            var lines, after := Lines(s.wal), Lines(Struck(s.wal, e.line, e.offset, cut));
            && Pending(after, c.readable) == Pending(lines, c.readable) - 1
            && Pending(Complete(after), c.readable)
               == Pending(Complete(lines), c.readable) - (if OnTail(s, i) then 0 else 1)
  {
    var e := s.drainer.batch[i];
    AnsweredIsLive(c, s, i);
    StrikeRemovesOne(s.wal, e.line, e.offset, cut, c.isEvent, c.readable);
  }

  lemma StrikeDrift(c: Config, s: State, s': State, i: nat, cut: nat, p: Phase)
    requires Good(c) && Inv(c, s)
    requires s.drainer.Working? && i < |s.drainer.batch| && Answered(s.drainer.batch[i].phase)
    requires !s.drainer.batch[i].fromMemory && cut >= 1
    requires s'.drainer == SetPhase(s.drainer, i, p) && s'.mem == s.mem
    requires s'.wal == Struck(s.wal, s.drainer.batch[i].line, s.drainer.batch[i].offset, cut)
    ensures Drift(c, s') == Drift(c, s) + s'.backlog - s.backlog + (if OnTail(s, i) then 0 else 1)
  {
    StrikeCounts(c, s, i, cut);
    HeldSizes(s.drainer, i, p);
  }

  lemma SettleLogDrift(c: Config, s: State, i: nat)
    requires Good(c) && Inv(c, s)
    requires s.drainer.Working? && i < |s.drainer.batch| && Answered(s.drainer.batch[i].phase)
    requires !s.drainer.batch[i].fromMemory
    ensures Drift(c, AfterSettle(s, i)) == Drift(c, s) + (if OnTail(s, i) then -1 else 0)
  {
    LogIsNonEmpty(c, s, i);
    StrikeDrift(c, s, AfterSettle(s, i), i, |s.wal|, Phase.Settled);
  }

  lemma LogIsNonEmpty(c: Config, s: State, i: nat)
    requires Good(c) && Inv(c, s)
    requires s.drainer.Working? && i < |s.drainer.batch| && Answered(s.drainer.batch[i].phase)
    requires !s.drainer.batch[i].fromMemory
    ensures |s.wal| >= 1
  {
    AnsweredIsLive(c, s, i);
    EventFacts(s.drainer.batch[i].line, c.isEvent, c.readable);
  }

  lemma SettleDrift(c: Config, s: State, i: nat)
    requires Good(c) && Inv(c, s)
    requires s.drainer.Working? && i < |s.drainer.batch| && Answered(s.drainer.batch[i].phase)
    ensures Drift(c, AfterSettle(s, i)) == Drift(c, s) + (if OnTail(s, i) then -1 else 0)
  {
    if s.drainer.batch[i].fromMemory { SettleMemoryDrift(c, s, i); } else { SettleLogDrift(c, s, i); }
  }

  lemma SettleFailsDrift(c: Config, s: State, s': State, i: nat, cut: nat)
    requires Good(c) && Inv(c, s)
    requires s.drainer.Working? && i < |s.drainer.batch| && Answered(s.drainer.batch[i].phase)
    requires !s.drainer.batch[i].fromMemory
    requires s'.drainer == SetPhase(s.drainer, i, Failed) && s'.mem == s.mem && s'.backlog == s.backlog
    requires s'.wal == Cut(s, i, cut).wal
    ensures Drift(c, s') == Drift(c, s) + (if cut >= 1 && !OnTail(s, i) then 1 else 0)
  {
    if cut == 0 { PhaseDrift(c, s, s', i, Failed); } else { StrikeDrift(c, s, s', i, cut, Failed); }
  }

  lemma ReturnOneDrift(c: Config, s: State)
    requires s.drainer.Returning? && s.drainer.next < |s.drainer.batch|
    ensures Drift(c, AfterReturnOne(c, s)) == Drift(c, s) + StepDrift(c, s, ReturnOne)
  {
    var s' := AfterReturnOne(c, s);
    HeldStep(s.drainer, s'.drainer);
    assert |HeldBy(s.drainer)| == |Share(Held, s.drainer.batch[s.drainer.next])| + |HeldBy(s'.drainer)|;
    assert PendingNow(c, s') == PendingNow(c, s);
  }

  lemma RestartExact(c: Config, s: State)
    ensures Drift(c, Restarted(c, s)) == 0
  {
    assert HeldPart(Restarted(c, s).drainer) == [];
  }

  // ----------------------------------------------------------- every step, run

  lemma OutsideDrift(c: Config, s: State, step: Step)
    requires Good(c) && Inv(c, s) && Enabled(c, s, step)
    requires OutsideStep(step)
    ensures Drift(c, Apply(c, s, step)) == Drift(c, s) + StepDrift(c, s, step)
  {
    match step
    case Append(line) => AppendDrift(c, s, line);
    case AppendFails(line, cut) => AppendFailsDrift(c, s, line, cut);
    case Wake => SameParts(c, s, Apply(c, s, step));
    case Close => SameParts(c, s, Apply(c, s, step));
    case Compact => CompactDrift(c, s);
    case Crash => RestartExact(c, s);
    case CrashInAppend(line, cut) => RestartExact(c, TornState(s, line, cut));
    case CrashInSettle(i, cut) => RestartExact(c, Cut(s, i, cut));
  }

  lemma DeliveryDrift(c: Config, s: State, step: Step)
    requires Good(c) && Inv(c, s) && Enabled(c, s, step)
    requires DeliveryStep(step)
    ensures Drift(c, Apply(c, s, step)) == Drift(c, s) + StepDrift(c, s, step)
  {
    match step
    case SinkAccepts(i) => PhaseDrift(c, s, Apply(c, s, step), i, Accepted);
    case SinkRefuses(i, _) => PhaseDrift(c, s, Apply(c, s, step), i, Refused);
    case SinkFails(i) => PhaseDrift(c, s, Apply(c, s, step), i, Failed);
    case Settle(i) => SettleDrift(c, s, i);
    case SettleFails(i, cut) => SettleFailsDrift(c, s, Apply(c, s, step), i, cut);
  }

  lemma PassDrift(c: Config, s: State, step: Step)
    requires Good(c) && Inv(c, s) && Enabled(c, s, step)
    requires step.Bury? || step.ReadBatch? || step.ReadFails? || step.ReturnOne?
    ensures Drift(c, Apply(c, s, step)) == Drift(c, s) + StepDrift(c, s, step)
  {
    match step
    case Bury(i, cut, recorded) => BuryDrift(c, s, i, cut, recorded);
    case ReadBatch => ReadMakesExact(c, s);
    case ReadFails => ReadFailsDrift(c, s);
    case ReturnOne => ReturnOneDrift(c, s);
  }

  lemma IdleDrift(c: Config, s: State, step: Step)
    requires Good(c) && Inv(c, s) && Enabled(c, s, step)
    requires step.NothingRead? || step.TakeWake? || step.StopWaiting? || step.EndPass?
    ensures Drift(c, Apply(c, s, step)) == Drift(c, s) + StepDrift(c, s, step)
  {
    SameParts(c, s, Apply(c, s, step));
  }

  lemma RoundDrift(c: Config, s: State, step: Step)
    requires Good(c) && Inv(c, s) && Enabled(c, s, step)
    requires RoundStep(step)
    ensures Drift(c, Apply(c, s, step)) == Drift(c, s) + StepDrift(c, s, step)
  {
    RoundKeepsParts(c, s, step);
    SameParts(c, s, Apply(c, s, step));
  }

  /** Every step moves the gauge by exactly `StepDrift`. */
  lemma GaugeStep(c: Config, s: State, step: Step)
    requires Good(c) && Inv(c, s) && Enabled(c, s, step)
    ensures Drift(c, Apply(c, s, step)) == Drift(c, s) + StepDrift(c, s, step)
  {
    if OutsideStep(step) {
      OutsideDrift(c, s, step);
    } else if DeliveryStep(step) {
      DeliveryDrift(c, s, step);
    } else if RoundStep(step) {
      RoundDrift(c, s, step);
    } else if step.Bury? || step.ReadBatch? || step.ReadFails? || step.ReturnOne? {
      PassDrift(c, s, step);
    } else {
      IdleDrift(c, s, step);
    }
  }

  /** The gauge is exact. */
  predicate Exact(c: Config, s: State) {
    Drift(c, s) == 0
  }

  /** No write is cut, no read fails, and the channel has room for what comes back. */
  predicate Smooth(c: Config, s: State, step: Step) {
    match step
    case AppendFails(_, cut) => cut == 0
    case CrashInAppend(_, cut) => cut == 0
    case SettleFails(_, cut) => cut == 0
    case ReadFails => false
    case ReturnOne => |s.mem| < c.channelCap
    case _ => true
  }

  ghost predicate SmoothRun(c: Config, s: State, steps: seq<Step>)
    requires Legal(c, s, steps)
    decreases |steps|
  {
    steps == [] || (Smooth(c, s, steps[0]) && SmoothRun(c, Apply(c, s, steps[0]), steps[1..]))
  }

  // ------------------------------------------- without cuts, no open last line

  lemma StrikeTail(c: Config, data: Bytes, t: Bytes, hint: int, cut: nat)
    requires Good(c) && WellFormed(Lines(data), c.isEvent) && c.isEvent(t) && t in Texts(Lines(data))
    requires Tail(Lines(data)) == []
    ensures Tail(Lines(Struck(data, t, hint, cut))) == []
    ensures LocatedIndex(data, t, hint) != |Lines(data)| - 1
  {
    var i := LocatedIndex(data, t, hint);
    LocateWhole(data, t, hint, c.isEvent, c.readable);
    EventFacts(t, c.isEvent, c.readable);
    StrikeLines(data, t, hint, cut, i);
    TailStays(Lines(data), i, StruckLine(t, cut));
  }

  lemma TailStays(lines: seq<Bytes>, i: nat, line: Bytes)
    requires i < |lines| && lines[i] != [] && Tail(lines) == []
    ensures i != |lines| - 1 && Tail(lines[i := line]) == []
  {
  }

  lemma NotOnTail(c: Config, s: State, i: nat, cut: nat)
    requires Good(c) && Inv(c, s) && Tail(Lines(s.wal)) == []
    requires s.drainer.Working? && i < |s.drainer.batch| && Answered(s.drainer.batch[i].phase)
    requires !s.drainer.batch[i].fromMemory
    ensures !OnTail(s, i) && Tail(Lines(Cut(s, i, cut).wal)) == [] && Tail(Lines(AfterSettle(s, i).wal)) == []
  {
    var e := s.drainer.batch[i];
    AnsweredIsLive(c, s, i);
    StrikeTail(c, s.wal, e.line, e.offset, cut);
    StrikeTail(c, s.wal, e.line, e.offset, |s.wal|);
  }

  lemma AppendTail(c: Config, data: Bytes, line: Bytes)
    requires Good(c) && c.isEvent(line) && Tail(Lines(data)) == []
    ensures Tail(Lines(Appended(data, line))) == [] && TornAppend(data, line, 0) == data
  {
    EventFacts(line, c.isEvent, c.readable);
    AppendLines(data, line);
  }

  lemma BuryTail(data: Bytes, i: nat, cut: nat)
    requires i < |Complete(Lines(data))| && cut <= |Lines(data)[i]|
    ensures Tail(Lines(BuriedAtOffset(data, i, cut))) == Tail(Lines(data))
  {
    BuryLines(data, i, cut);
  }

  lemma OutsideTail(c: Config, s: State, step: Step)
    requires Good(c) && Inv(c, s) && Enabled(c, s, step) && Smooth(c, s, step) && Tail(Lines(s.wal)) == []
    requires step.Append? || step.AppendFails? || step.CrashInAppend? || step.Compact? || step.Bury?
    ensures Tail(Lines(Apply(c, s, step).wal)) == []
  {
    match step
    case Append(line) => AppendTail(c, s.wal, line);
    case AppendFails(line, _) => AppendTail(c, s.wal, line);
    case CrashInAppend(line, _) => AppendTail(c, s.wal, line);
    case Compact => CompactPending(s.wal, c.readable);
    case Bury(i, cut, _) => BuryTail(s.wal, i, cut);
  }

  lemma DeliveryTail(c: Config, s: State, step: Step)
    requires Good(c) && Inv(c, s) && Enabled(c, s, step) && Smooth(c, s, step) && Tail(Lines(s.wal)) == []
    requires step.Settle? || step.SettleFails? || step.CrashInSettle?
    ensures Tail(Lines(Apply(c, s, step).wal)) == [] && StepDrift(c, s, step) == (if step.CrashInSettle? then -Drift(c, s) else 0)
  {
    var i := step.i;
    if !s.drainer.batch[i].fromMemory { NotOnTail(c, s, i, if step.CrashInSettle? then step.cut else 0); }
  }

  lemma ReaderTail(c: Config, s: State, step: Step)
    requires Enabled(c, s, step) && Smooth(c, s, step) && Exact(c, s)
    requires step.Wake? || step.Close? || step.ReadBatch? || step.NothingRead? || step.TakeWake?
             || step.StopWaiting? || step.ReturnOne? || step.EndPass? || step.Crash?
    ensures Apply(c, s, step).wal == s.wal && StepDrift(c, s, step) == 0
  {
  }

  lemma RoundTail(c: Config, s: State, step: Step)
    requires Enabled(c, s, step)
    requires step.SinkAccepts? || step.SinkRefuses? || step.SinkFails? || step.EndRound?
             || step.DelayOver? || step.DelayStopped?
    ensures Apply(c, s, step).wal == s.wal && StepDrift(c, s, step) == 0
  {
  }

  /** A smooth step over a log that ends with a newline keeps both the newline and the gauge. */
  lemma SmoothStep(c: Config, s: State, step: Step)
    requires Good(c) && Inv(c, s) && Enabled(c, s, step) && Smooth(c, s, step)
    requires Tail(Lines(s.wal)) == [] && Exact(c, s)
    ensures Tail(Lines(Apply(c, s, step).wal)) == [] && StepDrift(c, s, step) == 0
  {
    BlankLine();
    if step.Append? || step.AppendFails? || step.CrashInAppend? || step.Compact? || step.Bury? {
      OutsideTail(c, s, step);
    } else if step.Settle? || step.SettleFails? || step.CrashInSettle? {
      DeliveryTail(c, s, step);
    } else if DeliveryStep(step) || RoundStep(step) {
      RoundTail(c, s, step);
    } else {
      ReaderTail(c, s, step);
    }
  }

  lemma {:induction false} SmoothRunExact(c: Config, s: State, steps: seq<Step>)
    requires Good(c) && Inv(c, s) && Legal(c, s, steps) && SmoothRun(c, s, steps)
    requires Tail(Lines(s.wal)) == [] && Exact(c, s)
    ensures Exact(c, Exec(c, s, steps))
    decreases |steps|
  {
    if steps != [] {
      SmoothStep(c, s, steps[0]);
      GaugeStep(c, s, steps[0]);
      StepKeeps(c, s, steps[0]);
      SmoothRunExact(c, Apply(c, s, steps[0]), steps[1..]);
    }
  }

  /**
   After every step of every interleaving without cut writes, failed reads or
   channel overflow, the gauge equals the pending log lines plus the memory
   events queued and held.
   */
  lemma GaugeExact(c: Config, wal: Bytes, steps: seq<Step>)
    requires Good(c) && WellFormed(Lines(wal), c.isEvent) && EndsLine(wal)
    requires Legal(c, Init(c, wal), steps) && SmoothRun(c, Init(c, wal), steps)
    ensures var s := Exec(c, Init(c, wal), steps);
            s.backlog == PendingNow(c, s) + |s.mem| + |HeldBy(s.drainer)|
  {
    InitInv(c, wal);
    TailEmpty(wal);
    assert HeldPart(Init(c, wal).drainer) == [];
    SmoothRunExact(c, Init(c, wal), steps);
  }
}
