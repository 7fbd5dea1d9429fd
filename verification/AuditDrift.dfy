/**
 Runs in which the gauge drifts, one for each kind of step that a smooth run leaves
 out: a cut tombstone, a cut append, a failed read and a full memory channel.
 */
module AuditDrift {
  import opened WalLines
  import opened WalBytes
  import opened WalBatch
  import opened WalEvents
  import opened AuditQueue
  import opened AuditProtocol
  import opened AuditSafety
  import opened AuditWake
  import opened AuditGauge

  /** The invariant and the gauge's error after one step. */
  lemma OneStep(c: Config, s: State, step: Step)
    requires Good(c) && Inv(c, s) && Enabled(c, s, step)
    ensures Inv(c, Apply(c, s, step))
    ensures Drift(c, Apply(c, s, step)) == Drift(c, s) + StepDrift(c, s, step)
  {
    StepKeeps(c, s, step);
    GaugeStep(c, s, step);
  }

  lemma EmptyStart(c: Config)
    requires Good(c)
    ensures Lines([]) == [[]] && Tail(Lines([])) == [] && !IsPending([], c.readable)
    ensures Inv(c, Init(c, [])) && Drift(c, Init(c, [])) == 0 && PendingNow(c, Init(c, [])) == 0
  {
    var none: Bytes := [];
    assert Lines(none) == [none];
    BlankLine();
    EmptyLineShaped(c.isEvent, c.readable);
    InitInv(c, none);
    assert Complete(Lines(none)) == [];
    assert HeldPart(Init(c, none).drainer) == [];
  }

  /** One event appended to an empty log. */
  lemma OneAppended(c: Config, e: Bytes)
    requires Good(c) && c.isEvent(e)
    ensures var s := AfterAppend(Init(c, []), e);
            && Lines(s.wal) == [e, []] && Inv(c, s) && Drift(c, s) == 0
            && PendingNow(c, s) == 1 && s.backlog == 1 && s.mem == [] && s.drainer.Top?
  {
    var s0 := Init(c, []);
    EmptyStart(c);
    EventFacts(e, c.isEvent, c.readable);
    AppendLines([], e);
    assert Complete([[]]) == [];
    OneStep(c, s0, Append(e));
    var s := AfterAppend(s0, e);
    assert Lines(s.wal) == [e, []];
    assert HeldPart(s.drainer) == [];
    assert Drift(c, s) == s.backlog - PendingNow(c, s);
  }

  lemma OneRead(c: Config, s: State, e: Bytes)
    requires Good(c) && c.isEvent(e) && Lines(s.wal) == [e, []] && s.mem == [] && s.drainer.Top?
    ensures Batched(c, s) == [Entry(e, 0, false, Sent)]
  {
    EventFacts(e, c.isEvent, c.readable);
    var lines := Complete(Lines(s.wal));
    assert lines == [e] && lines[1..] == [];
    assert PendingItems(lines, 0, c.readable) == [Item(e, 0)];
  }

  /** The steps are a run to a state that shows `extra` events more than anybody has. */
  ghost predicate RunsTo(c: Config, s: State, steps: seq<Step>, backlog: int, extra: int) {
    && Legal(c, s, steps)
    && var s' := Exec(c, s, steps); s'.backlog == backlog && Drift(c, s') == extra && HeldPart(s'.drainer) == []
  }

  lemma RunsToCons(c: Config, s: State, step: Step, rest: seq<Step>, backlog: int, extra: int)
    requires Enabled(c, s, step) && RunsTo(c, Apply(c, s, step), rest, backlog, extra)
    ensures RunsTo(c, s, [step] + rest, backlog, extra)
  {
    RunCons(c, s, step, rest);
  }

  ghost predicate OneInRound(c: Config, s: State, e: Bytes, p: Phase) {
    && Lines(s.wal) == [e, []] && Inv(c, s) && Drift(c, s) == 0 && s.mem == [] && s.backlog == 1
    && s.drainer == Working([Entry(e, 0, false, p)], 0, 1, false)
  }

  lemma CutInRound(c: Config, s: State, e: Bytes)
    requires Good(c) && c.isEvent(e) && |e| >= 2 && OneInRound(c, s, e, Accepted)
    ensures Enabled(c, s, SettleFails(0, 1))
    ensures var s' := Apply(c, s, SettleFails(0, 1));
            s'.backlog == 1 && PendingNow(c, s') == 0 && s'.mem == [] && |HeldBy(s'.drainer)| == 0
  {
    NotOnTail(c, s, 0, 1);
    OneStep(c, s, SettleFails(0, 1));
  }

  lemma AcceptInRound(c: Config, s: State, e: Bytes)
    requires Good(c) && OneInRound(c, s, e, Sent)
    ensures Enabled(c, s, SinkAccepts(0)) && OneInRound(c, Apply(c, s, SinkAccepts(0)), e, Accepted)
  {
    OneStep(c, s, SinkAccepts(0));
  }

  lemma ReadIntoRound(c: Config, s: State, e: Bytes)
    requires Good(c) && c.isEvent(e) && Lines(s.wal) == [e, []] && Inv(c, s) && s.mem == [] && s.drainer.Top?
    requires PendingNow(c, s) == 1
    ensures OneInRound(c, Apply(c, s, ReadBatch), e, Sent)
  {
    OneRead(c, s, e);
    OneStep(c, s, ReadBatch);
  }

  /**
   A tombstone cut after its first byte: the line is gone, the entry counts as failed,
   and the gauge still shows one event although nothing is pending, queued or held.
   */
  lemma CutTombstoneDrifts(c: Config, e: Bytes)
    requires Good(c) && c.isEvent(e) && |e| >= 2
    ensures var steps := [Append(e), ReadBatch, SinkAccepts(0), SettleFails(0, 1)];
            && Legal(c, Init(c, []), steps)
            && var s := Exec(c, Init(c, []), steps);
               s.backlog == 1 && PendingNow(c, s) == 0 && s.mem == [] && |HeldBy(s.drainer)| == 0
  {
    var s0 := Init(c, []);
    AppendThenRead(c, e);
    AcceptThenCut(c, Exec(c, s0, [Append(e), ReadBatch]), e);
    RunConcat(c, s0, [Append(e), ReadBatch], [SinkAccepts(0), SettleFails(0, 1)]);
    assert [Append(e), ReadBatch, SinkAccepts(0), SettleFails(0, 1)]
        == [Append(e), ReadBatch] + [SinkAccepts(0), SettleFails(0, 1)];
  }

  lemma AppendThenRead(c: Config, e: Bytes)
    requires Good(c) && c.isEvent(e)
    ensures Legal(c, Init(c, []), [Append(e), ReadBatch])
    ensures OneInRound(c, Exec(c, Init(c, []), [Append(e), ReadBatch]), e, Sent)
  {
    OneAppended(c, e);
    ReadIntoRound(c, Apply(c, Init(c, []), Append(e)), e);
    RunTwo(c, Init(c, []), Append(e), ReadBatch);
  }

  lemma AcceptThenCut(c: Config, s: State, e: Bytes)
    requires Good(c) && c.isEvent(e) && |e| >= 2 && OneInRound(c, s, e, Sent)
    ensures Legal(c, s, [SinkAccepts(0), SettleFails(0, 1)])
    ensures var s' := Exec(c, s, [SinkAccepts(0), SettleFails(0, 1)]);
            s'.backlog == 1 && PendingNow(c, s') == 0 && s'.mem == [] && |HeldBy(s'.drainer)| == 0
  {
    AcceptInRound(c, s, e);
    CutInRound(c, Apply(c, s, SinkAccepts(0)), e);
    RunTwo(c, s, SinkAccepts(0), SettleFails(0, 1));
  }

  /** A read that fails over a pending line: the gauge shows nothing. */
  lemma FailedReadDrifts(c: Config, e: Bytes)
    requires Good(c) && c.isEvent(e)
    ensures var steps := [Append(e), ReadFails];
            && Legal(c, Init(c, []), steps)
            && var s := Exec(c, Init(c, []), steps); s.backlog == 0 && PendingNow(c, s) == 1
  {
    OneAppended(c, e);
    RunTwo(c, Init(c, []), Append(e), ReadFails);
  }

  /** An append cut before its newline and completed by a compaction: pending, and not on the gauge. */
  lemma CutAppendDrifts(c: Config, e: Bytes)
    requires Good(c) && c.isEvent(e)
    ensures var steps := [CrashInAppend(e, |e|), Compact];
            && Legal(c, Init(c, []), steps)
            && var s := Exec(c, Init(c, []), steps); s.backlog == 0 && PendingNow(c, s) == 1 && s.mem == []
  {
    var s0 := Init(c, []);
    CrashedAppend(c, e);
    var s1 := Apply(c, s0, CrashInAppend(e, |e|));
    OneStep(c, s1, Compact);
    assert HeldPart(Apply(c, s1, Compact).drainer) == [];
    RunTwo(c, s0, CrashInAppend(e, |e|), Compact);
  }

  lemma CrashedAppend(c: Config, e: Bytes)
    requires Good(c) && c.isEvent(e)
    ensures Enabled(c, Init(c, []), CrashInAppend(e, |e|))
    ensures var s := Apply(c, Init(c, []), CrashInAppend(e, |e|));
            Inv(c, s) && Drift(c, s) == 0 && s.backlog == 0 && s.mem == [] && s.drainer.Top? && TailPending(c, s)
  {
    var s0 := Init(c, []);
    EmptyStart(c);
    DiesBeforeNewline(c, s0, e);
    CutBeforeNewline(c, e);
    OneStep(c, s0, CrashInAppend(e, |e|));
    assert Complete([e]) == [];
  }

  // ------------------------------------------------------------ a full channel

  /** `n` Enqueue calls whose append fails before its first byte. */
  function Unlogged(e: Bytes, n: nat): seq<Step> {
    if n == 0 then [] else [AppendFails(e, 0)] + Unlogged(e, n - 1)
  }

  /** Only the memory channel and the gauge moved, and together. */
  ghost predicate Queued(c: Config, s: State, s': State, n: nat) {
    && s'.wal == s.wal && s'.drainer == s.drainer && s'.closing == s.closing
    && |s'.mem| == |s.mem| + n && Inv(c, s') && Drift(c, s') == Drift(c, s)
  }

  lemma UnloggedOne(c: Config, s: State, e: Bytes)
    requires Good(c) && c.isEvent(e) && Inv(c, s) && |s.mem| < c.channelCap
    ensures Enabled(c, s, AppendFails(e, 0)) && Queued(c, s, Apply(c, s, AppendFails(e, 0)), 1)
    ensures Apply(c, s, AppendFails(e, 0)).mem == s.mem + [e]
  {
    EventFacts(e, c.isEvent, c.readable);
    assert |AppendOut(s.wal, e)| > 0;
    assert TornAppend(s.wal, e, 0) == s.wal;
    OneStep(c, s, AppendFails(e, 0));
  }

  lemma {:induction false} UnloggedRun(c: Config, s: State, e: Bytes, n: nat)
    requires Good(c) && c.isEvent(e) && Inv(c, s) && |s.mem| + n <= c.channelCap
    ensures Legal(c, s, Unlogged(e, n)) && Queued(c, s, Exec(c, s, Unlogged(e, n)), n)
    decreases n
  {
    if n > 0 {
      UnloggedOne(c, s, e);
      var s' := Apply(c, s, AppendFails(e, 0));
      UnloggedRun(c, s', e, n - 1);
      RunCons(c, s, AppendFails(e, 0), Unlogged(e, n - 1));
    }
  }

  /** A memory event was taken, and its channel filled up behind it. */
  lemma TakeThenFill(c: Config, e: Bytes)
    requires Good(c) && c.isEvent(e) && c.channelCap >= 1
    ensures var steps := [AppendFails(e, 0), ReadBatch] + Unlogged(e, c.channelCap);
            && Legal(c, Init(c, []), steps)
            && var s := Exec(c, Init(c, []), steps);
               Stalled(c, s) && s.drainer == Working([Entry(e, 0, true, Sent)], 0, 1, false)
  {
    var s0 := Init(c, []);
    EmptyStart(c);
    UnloggedOne(c, s0, e);
    var s1 := Apply(c, s0, AppendFails(e, 0));
    TakeOne(c, s1, e);
    RunTwo(c, s0, AppendFails(e, 0), ReadBatch);
    UnloggedRun(c, Apply(c, s1, ReadBatch), e, c.channelCap);
    RunConcat(c, s0, [AppendFails(e, 0), ReadBatch], Unlogged(e, c.channelCap));
  }

  lemma TakeOne(c: Config, s: State, e: Bytes)
    requires Good(c) && Inv(c, s) && s.wal == [] && s.mem == [e] && s.drainer.Top? && !s.closing
    ensures var s' := Apply(c, s, ReadBatch);
            && s'.drainer == Working([Entry(e, 0, true, Sent)], 0, 1, false) && !s'.closing
            && s'.mem == [] && Inv(c, s') && Drift(c, s') == 0
  {
    TakenBatch(c, s, e);
    OneStep(c, s, ReadBatch);
    ReadMakesExact(c, s);
  }

  lemma TakenBatch(c: Config, s: State, e: Bytes)
    requires Good(c) && s.wal == [] && s.mem == [e]
    ensures var batch := Batched(c, s); batch == [Entry(e, 0, true, Sent)] && RoundEnd(c, batch, 0) == 1
  {
    NothingLogged(c, s);
    assert MemoryEntries([e]) == [Entry(e, 0, true, Sent)];
  }

  lemma NothingLogged(c: Config, s: State)
    requires s.wal == []
    ensures Batched(c, s) == MemoryEntries(s.mem)
  {
    var none: Bytes := [];
    assert Lines(none) == [none] && Complete([none]) == [];
    assert Batch(s.wal, c.batchSize, c.readable) == [];
  }

  /** The one memory event of the batch was not delivered, and its channel is full. */
  ghost predicate Stalled(c: Config, s: State) {
    Good(c) && Inv(c, s) && Drift(c, s) == 0 && !s.closing && |s.mem| >= c.channelCap
  }

  lemma ReturnLost(c: Config, s: State, e: Bytes)
    requires Stalled(c, s) && s.drainer == Returning([Entry(e, 0, true, Failed)], 0, false, false)
    ensures RunsTo(c, s, [ReturnOne], s.backlog, 1)
  {
    OneStep(c, s, ReturnOne);
    var s' := Apply(c, s, ReturnOne);
    assert RunsTo(c, s', [], s.backlog, 1);
    RunsToCons(c, s, ReturnOne, [], s.backlog, 1);
    assert [ReturnOne] + [] == [ReturnOne];
  }

  /** A step of the stalled pass: the drainer moves on and nothing else does. */
  ghost predicate MovesTo(c: Config, s: State, step: Step, d: Drainer) {
    && Enabled(c, s, step)
    && var s' := Apply(c, s, step); Stalled(c, s') && s'.drainer == d && s'.backlog == s.backlog
  }

  lemma SinkFailsMoves(c: Config, s: State, e: Bytes)
    requires Stalled(c, s) && s.drainer == Working([Entry(e, 0, true, Sent)], 0, 1, false)
    ensures MovesTo(c, s, SinkFails(0), Working([Entry(e, 0, true, Failed)], 0, 1, false))
  {
    OneStep(c, s, SinkFails(0));
  }

  lemma EndRoundMoves(c: Config, s: State, e: Bytes)
    requires Stalled(c, s) && s.drainer == Working([Entry(e, 0, true, Failed)], 0, 1, false)
    ensures MovesTo(c, s, EndRound, Delaying([Entry(e, 0, true, Failed)], 1, false))
  {
    OneStep(c, s, EndRound);
  }

  lemma DelayOverMoves(c: Config, s: State, e: Bytes)
    requires Stalled(c, s) && s.drainer == Delaying([Entry(e, 0, true, Failed)], 1, false)
    ensures MovesTo(c, s, DelayOver, Returning([Entry(e, 0, true, Failed)], 0, false, false))
  {
    OneStep(c, s, DelayOver);
  }

  lemma DelayThenLost(c: Config, s: State, e: Bytes)
    requires Stalled(c, s) && s.drainer == Delaying([Entry(e, 0, true, Failed)], 1, false)
    ensures RunsTo(c, s, [DelayOver, ReturnOne], s.backlog, 1)
  {
    DelayOverMoves(c, s, e);
    ReturnLost(c, Apply(c, s, DelayOver), e);
    RunsToCons(c, s, DelayOver, [ReturnOne], s.backlog, 1);
    assert [DelayOver] + [ReturnOne] == [DelayOver, ReturnOne];
  }

  lemma RoundThenLost(c: Config, s: State, e: Bytes)
    requires Stalled(c, s) && s.drainer == Working([Entry(e, 0, true, Failed)], 0, 1, false)
    ensures RunsTo(c, s, [EndRound, DelayOver, ReturnOne], s.backlog, 1)
  {
    EndRoundMoves(c, s, e);
    DelayThenLost(c, Apply(c, s, EndRound), e);
    RunsToCons(c, s, EndRound, [DelayOver, ReturnOne], s.backlog, 1);
    assert [EndRound] + [DelayOver, ReturnOne] == [EndRound, DelayOver, ReturnOne];
  }

  /** A stalled round of one memory event that finds the channel full: the event is lost and stays on the gauge. */
  lemma StalledRound(c: Config, s: State, e: Bytes)
    requires Stalled(c, s) && s.drainer == Working([Entry(e, 0, true, Sent)], 0, 1, false)
    ensures RunsTo(c, s, [SinkFails(0), EndRound, DelayOver, ReturnOne], s.backlog, 1)
  {
    SinkFailsMoves(c, s, e);
    RoundThenLost(c, Apply(c, s, SinkFails(0)), e);
    RunsToCons(c, s, SinkFails(0), [EndRound, DelayOver, ReturnOne], s.backlog, 1);
    assert [SinkFails(0)] + [EndRound, DelayOver, ReturnOne] == [SinkFails(0), EndRound, DelayOver, ReturnOne];
  }

  /** For every channel capacity, a run that ends with one event on the gauge that nobody has. */
  lemma FullChannelDrifts(c: Config, e: Bytes)
    requires Good(c) && c.isEvent(e) && c.channelCap >= 1
    ensures var steps := [AppendFails(e, 0), ReadBatch] + Unlogged(e, c.channelCap)
                         + [SinkFails(0), EndRound, DelayOver, ReturnOne];
            && Legal(c, Init(c, []), steps)
            && var s := Exec(c, Init(c, []), steps);
               s.backlog == PendingNow(c, s) + |s.mem| + |HeldBy(s.drainer)| + 1
  {
    var fill := [AppendFails(e, 0), ReadBatch] + Unlogged(e, c.channelCap);
    TakeThenFill(c, e);
    StalledRound(c, Exec(c, Init(c, []), fill), e);
    RunConcat(c, Init(c, []), fill, [SinkFails(0), EndRound, DelayOver, ReturnOne]);
  }
}
