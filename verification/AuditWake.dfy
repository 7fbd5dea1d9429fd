/**
 The capacity-1 wake channel: when a blocked drainer with work to do is always
 about to be woken, and exactly which steps break that.
 */
module AuditWake {
  import opened WalLines
  import opened WalBytes
  import opened WalBatch
  import opened WalEvents
  import opened AuditQueue
  import opened AuditProtocol
  import opened AuditSafety

  /** The drainer waits for a wake, or is past a read that gave it nothing. */
  predicate Blocked(d: Drainer) {
    d.Waiting? || (d.Working? && d.batch == [])
  }

  ghost predicate HasWork(c: Config, s: State) {
    PendingNow(c, s) > 0 || s.mem != []
  }

  predicate WakeComing(s: State) {
    s.wake || s.wakers > 0
  }

  ghost predicate NoLostWake(c: Config, s: State) {
    Blocked(s.drainer) && HasWork(c, s) ==> WakeComing(s)
  }

  /** The tail is a whole event that only lacks its newline. */
  predicate TailPending(c: Config, s: State) {
    IsPending(Tail(Lines(s.wal)), c.readable)
  }

  /**
   The two steps that can lose a wake: a compaction that turns such a tail into a
   pending line while the drainer sleeps, and a read pass that could not read a
   log with pending lines.
   */
  ghost predicate LosesWake(c: Config, s: State, step: Step) {
    && !WakeComing(s)
    && match step
       case Compact => Blocked(s.drainer) && TailPending(c, s)
       case ReadFails => s.mem == [] && PendingNow(c, s) > 0
       case _ => false
  }

  /** A compaction makes the tail count and changes nothing else. */
  lemma CompactPending(data: Bytes, readable: Bytes -> bool)
    ensures Pending(Complete(Lines(Compacted(data))), readable)
         == Pending(Complete(Lines(data)), readable) + PendingOne(Tail(Lines(data)), readable)
    ensures Tail(Lines(Compacted(data))) == []
  {
    var lines := Lines(data);
    CompactedIsTerminated(data);
    assert Complete(Kept(lines) + [[]]) == Kept(lines);
    KeptCarries(lines, readable);
    ClosedCarries(lines, readable);
  }

  /** A batch is empty only when there was nothing to read. */
  lemma EmptyBatch(c: Config, s: State)
    requires c.batchSize >= 1
    ensures Batched(c, s) == [] <==> !HasWork(c, s)
  {
    BatchExact(s.wal, c.batchSize, c.readable);
  }

  lemma CompactWake(c: Config, s: State)
    requires NoLostWake(c, s)
    ensures NoLostWake(c, s.(wal := Compacted(s.wal))) <==> !LosesWake(c, s, Compact)
  {
    CompactPending(s.wal, c.readable);
  }

  lemma ReadWake(c: Config, s: State)
    requires Good(c)
    ensures NoLostWake(c, Started(c, s, Batched(c, s), PendingNow(c, s)))
  {
    EmptyBatch(c, s);
  }

  lemma ReadFailsWake(c: Config, s: State)
    ensures NoLostWake(c, Started(c, s, MemoryEntries(s.mem), 0)) <==> !LosesWake(c, s, ReadFails)
  {
  }

  /** The steps after which the drainer is not blocked, or a wake is on its way. */
  lemma OtherWake(c: Config, s: State, s': State)
    requires NoLostWake(c, s)
    requires || !Blocked(s'.drainer)
             || WakeComing(s')
             || (s'.wal == s.wal && s'.mem == s.mem && Blocked(s.drainer) && (WakeComing(s) ==> WakeComing(s')))
    ensures NoLostWake(c, s')
  {
  }

  lemma OutsideWake(c: Config, s: State, step: Step)
    requires NoLostWake(c, s) && Enabled(c, s, step)
    requires OutsideStep(step) && !step.Compact?
    ensures NoLostWake(c, Apply(c, s, step))
  {
    OtherWake(c, s, Apply(c, s, step));
  }

  lemma DeliveryWake(c: Config, s: State, step: Step)
    requires NoLostWake(c, s) && Enabled(c, s, step)
    requires DeliveryStep(step)
    ensures NoLostWake(c, Apply(c, s, step))
  {
    OtherWake(c, s, Apply(c, s, step));
  }

  lemma RoundUnblocked(c: Config, s: State, step: Step)
    requires Good(c) && DrainerOk(c, s.drainer) && Enabled(c, s, step) && RoundStep(step)
    ensures !Blocked(Apply(c, s, step).drainer)
  {
  }

  lemma ReaderWake(c: Config, s: State, step: Step)
    requires Good(c) && NoLostWake(c, s) && Enabled(c, s, step)
    requires step.Bury? || step.NothingRead? || step.TakeWake? || step.StopWaiting? || step.ReturnOne? || step.EndPass?
    ensures NoLostWake(c, Apply(c, s, step))
  {
    OtherWake(c, s, Apply(c, s, step));
  }

  lemma PassWake(c: Config, s: State, step: Step)
    requires Good(c) && DrainerOk(c, s.drainer) && NoLostWake(c, s) && Enabled(c, s, step)
    requires !OutsideStep(step) && !DeliveryStep(step) && !step.ReadBatch? && !step.ReadFails?
    ensures NoLostWake(c, Apply(c, s, step))
  {
    if RoundStep(step) {
      RoundUnblocked(c, s, step);
    } else {
      ReaderWake(c, s, step);
    }
  }

  /** A step keeps the drainer from sleeping over work exactly when it is not one of the two. */
  lemma WakeStep(c: Config, s: State, step: Step)
    requires Good(c) && DrainerOk(c, s.drainer) && NoLostWake(c, s) && Enabled(c, s, step)
    ensures NoLostWake(c, Apply(c, s, step)) <==> !LosesWake(c, s, step)
  {
    if step.Compact? {
      CompactWake(c, s);
    } else if step.ReadBatch? {
      ReadWake(c, s);
    } else if step.ReadFails? {
      ReadFailsWake(c, s);
    } else if OutsideStep(step) {
      OutsideWake(c, s, step);
    } else if DeliveryStep(step) {
      DeliveryWake(c, s, step);
    } else {
      PassWake(c, s, step);
    }
  }

  /** No step of the run loses a wake. */
  ghost predicate Wakeful(c: Config, s: State, steps: seq<Step>)
    requires Legal(c, s, steps)
    decreases |steps|
  {
    steps == [] || (!LosesWake(c, s, steps[0]) && Wakeful(c, Apply(c, s, steps[0]), steps[1..]))
  }

  lemma {:induction false} WakeRun(c: Config, s: State, steps: seq<Step>)
    requires Good(c) && Inv(c, s) && NoLostWake(c, s) && Legal(c, s, steps) && Wakeful(c, s, steps)
    ensures NoLostWake(c, Exec(c, s, steps))
    decreases |steps|
  {
    if steps != [] {
      WakeStep(c, s, steps[0]);
      StepKeeps(c, s, steps[0]);
      WakeRun(c, Apply(c, s, steps[0]), steps[1..]);
    }
  }

  /**
   In every run without such a step, a blocked drainer with a pending event in
   the log or in memory has a wake token or an Enqueue about to send one.
   */
  lemma NoWakeLost(c: Config, wal: Bytes, steps: seq<Step>)
    requires Good(c) && WellFormed(Lines(wal), c.isEvent) && Legal(c, Init(c, wal), steps)
    requires Wakeful(c, Init(c, wal), steps)
    ensures NoLostWake(c, Exec(c, Init(c, wal), steps))
  {
    InitInv(c, wal);
    WakeRun(c, Init(c, wal), steps);
  }

  /** The log an append of `e` to an empty file leaves when cut right before the newline. */
  lemma CutBeforeNewline(c: Config, e: Bytes)
    requires Good(c) && c.isEvent(e)
    ensures TornAppend([], e, |e|) == e && Lines(e) == [e]
    ensures Batch(e, c.batchSize, c.readable) == [] && IsPending(e, c.readable)
  {
    EventFacts(e, c.isEvent, c.readable);
    assert AppendOut([], e)[..|e|] == e;
    Separated.SplitWithout(e, NL);
    assert Complete([e]) == [];
  }

  /**
   A wake can be lost: an append dies right before its newline, the restarted
   drainer reads nothing and blocks, and a compaction then completes the line.
   */
  lemma WakeCanBeLost(c: Config, e: Bytes)
    requires Good(c) && c.isEvent(e)
    ensures var steps := [CrashInAppend(e, |e|), ReadBatch, NothingRead, Compact];
            Legal(c, Init(c, []), steps) && !NoLostWake(c, Exec(c, Init(c, []), steps))
  {
    var rest := [ReadBatch, NothingRead, Compact];
    var s := Init(c, []);
    DiesBeforeNewline(c, s, e);
    SleepsOverTail(c, Apply(c, s, CrashInAppend(e, |e|)), e);
    RunCons(c, s, CrashInAppend(e, |e|), rest);
    assert [CrashInAppend(e, |e|), ReadBatch, NothingRead, Compact] == [CrashInAppend(e, |e|)] + rest;
  }

  lemma DiesBeforeNewline(c: Config, s: State, e: Bytes)
    requires Good(c) && c.isEvent(e) && s.wal == []
    ensures Enabled(c, s, CrashInAppend(e, |e|))
    ensures var s' := Apply(c, s, CrashInAppend(e, |e|));
            s'.wal == e && s'.mem == [] && s'.drainer.Top? && !s'.closing && !WakeComing(s')
  {
    CutBeforeNewline(c, e);
    assert |AppendOut(s.wal, e)| == |e| + 1;
    assert Apply(c, s, CrashInAppend(e, |e|)) == Restarted(c, TornState(s, e, |e|));
  }

  lemma SleepsOverTail(c: Config, s: State, e: Bytes)
    requires Good(c) && c.isEvent(e) && s.wal == e && s.mem == [] && s.drainer.Top?
    requires !s.closing && !WakeComing(s)
    ensures var steps := [ReadBatch, NothingRead, Compact];
            Legal(c, s, steps) && !NoLostWake(c, Exec(c, s, steps))
  {
    ReadsNothing(c, s, e);
    var asleep := Apply(c, Apply(c, s, ReadBatch), NothingRead);
    OverslepByCompaction(c, asleep, e);
    RunTwo(c, s, ReadBatch, NothingRead);
    RunConcat(c, s, [ReadBatch, NothingRead], [Compact]);
    assert [ReadBatch, NothingRead, Compact] == [ReadBatch, NothingRead] + [Compact];
  }

  lemma ReadsNothing(c: Config, s: State, e: Bytes)
    requires Good(c) && c.isEvent(e) && s.wal == e && s.mem == [] && s.drainer.Top?
    requires !s.closing && !WakeComing(s)
    ensures Enabled(c, Apply(c, s, ReadBatch), NothingRead)
    ensures var asleep := Apply(c, Apply(c, s, ReadBatch), NothingRead);
            asleep.wal == e && asleep.mem == [] && asleep.drainer.Waiting? && !WakeComing(asleep)
  {
    CutBeforeNewline(c, e);
    assert Apply(c, s, ReadBatch).drainer.batch == [];
  }

  lemma OverslepByCompaction(c: Config, s: State, e: Bytes)
    requires Good(c) && c.isEvent(e) && s.wal == e && s.mem == [] && s.drainer.Waiting? && !WakeComing(s)
    ensures Legal(c, s, [Compact]) && !NoLostWake(c, Exec(c, s, [Compact]))
  {
    CutBeforeNewline(c, e);
    assert PendingNow(c, s) == 0;
    assert LosesWake(c, s, Compact);
    CompactWake(c, s);
    assert [Compact][1..] == [];
    assert Legal(c, Apply(c, s, Compact), []);
    assert Exec(c, s, [Compact]) == s.(wal := Compacted(s.wal));
  }
}
