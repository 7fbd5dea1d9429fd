/**
 The drainer ends after Close: it is never stuck, and a rank that falls with each
 of its steps bounds them all, whatever the sink answers and however the compactor
 and the remaining wakers interleave.
 */
module AuditTermination {
  import opened Numerals
  import opened WalLines
  import opened WalBytes
  import opened WalBatch
  import opened WalEvents
  import opened AuditQueue
  import opened AuditProtocol
  import opened AuditSafety
  import opened AuditShutdown

  /** Steps of the drainer and of its deliveries. */
  predicate DrainerStep(step: Step) {
    || DeliveryStep(step) || RoundStep(step)
    || step.ReadBatch? || step.ReadFails? || step.NothingRead? || step.TakeWake? || step.StopWaiting?
    || step.ReturnOne? || step.EndPass?
  }

  // ---------------------------------------------------------------- never stuck

  /** A step the drainer can take while closing. */
  ghost predicate CanGoOn(c: Config, s: State, step: Step) {
    Enabled(c, s, step) && DrainerStep(step) && Quiet(step)
  }

  lemma RoundGoesOn(c: Config, s: State) returns (step: Step)
    requires DrainerOk(c, s.drainer) && s.drainer.Working? && s.drainer.batch != []
    ensures CanGoOn(c, s, step)
  {
    var d := s.drainer;
    if i :| d.lo <= i < d.hi && !Finished(d.batch[i].phase) {
      if d.batch[i].phase.Sent? {
        step := SinkFails(i);
      } else {
        step := Settle(i);
      }
    } else {
      step := EndRound;
    }
  }

  /** While closing and not done, some step of the drainer is enabled. */
  lemma NeverStuck(c: Config, s: State) returns (step: Step)
    requires DrainerOk(c, s.drainer) && s.closing && !s.drainer.Done?
    ensures CanGoOn(c, s, step)
  {
    match s.drainer
    case Top => step := ReadBatch;
    case Working(batch, _, _, _) =>
      if batch == [] { step := NothingRead; } else { step := RoundGoesOn(c, s); }
    case Delaying(_, _, _) => step := DelayOver;
    case Returning(batch, next, _, _) =>
      if next < |batch| { step := ReturnOne; } else { step := EndPass; }
    case Waiting => step := StopWaiting;
  }

  // ----------------------------------------------------------------------- rank

  /** Replies and settlements an entry still waits for. */
  function Waits(e: Entry): nat { if e.phase.Sent? then 2 else if Answered(e.phase) then 1 else 0 }

  function Weight(batch: seq<Entry>): nat {
    if batch == [] then 0 else Waits(batch[0]) + Weight(batch[1..])
  }

  /** Steps left in the pass, and a little more for what may follow it. */
  function Rank(d: Drainer): int {
    match d
    case Top => 1
    case Working(batch, lo, _, _) => Weight(batch) + 2 * (|batch| - lo) + |batch| + 4
    case Delaying(batch, hi, _) => Weight(batch) + 2 * (|batch| - hi) + |batch| + 5
    case Returning(batch, next, _, _) => |batch| - next + 3
    case Waiting => 2
    case Done => 0
  }

  lemma {:induction false} WeightReplace(batch: seq<Entry>, i: nat, e: Entry)
    requires i < |batch|
    ensures Weight(batch[i := e]) + Waits(batch[i]) == Weight(batch) + Waits(e)
    decreases |batch|
  {
    if i == 0 {
      assert batch[0 := e][1..] == batch[1..];
    } else {
      assert batch[i := e][1..] == batch[1..][i - 1 := e];
      WeightReplace(batch[1..], i - 1, e);
    }
  }

  lemma {:induction false} WeightBound(batch: seq<Entry>)
    ensures Weight(batch) <= 2 * |batch|
    decreases |batch|
  {
    if batch != [] { WeightBound(batch[1..]); }
  }

  lemma RankPositive(c: Config, d: Drainer)
    requires DrainerOk(c, d)
    ensures Rank(d) >= 0
  {
  }

  /** A changed phase that brings an entry forward lowers the rank. */
  lemma PhaseFalls(d: Drainer, i: nat, p: Phase)
    requires d.Working? && i < |d.batch| && Waits(d.batch[i].(phase := p)) < Waits(d.batch[i])
    ensures Rank(SetPhase(d, i, p)) < Rank(d)
  {
    WeightReplace(d.batch, i, d.batch[i].(phase := p));
  }

  lemma DeliveryFalls(c: Config, s: State, step: Step)
    requires Enabled(c, s, step) && DeliveryStep(step)
    ensures Rank(Apply(c, s, step).drainer) < Rank(s.drainer) && Apply(c, s, step).passes == s.passes
  {
    match step
    case SinkAccepts(i) => PhaseFalls(s.drainer, i, Accepted);
    case SinkRefuses(i, _) => PhaseFalls(s.drainer, i, Refused);
    case SinkFails(i) => PhaseFalls(s.drainer, i, Failed);
    case Settle(i) => PhaseFalls(s.drainer, i, Phase.Settled);
    case SettleFails(i, _) => PhaseFalls(s.drainer, i, Failed);
  }

  lemma RoundFalls(c: Config, s: State, step: Step)
    requires DrainerOk(c, s.drainer) && Enabled(c, s, step) && RoundStep(step)
    ensures Rank(Apply(c, s, step).drainer) < Rank(s.drainer) && Apply(c, s, step).passes == s.passes
  {
  }

  lemma PassFalls(c: Config, s: State, step: Step)
    requires DrainerOk(c, s.drainer) && Enabled(c, s, step)
    requires step.NothingRead? || step.TakeWake? || step.StopWaiting? || step.ReturnOne? || step.EndPass?
    ensures Rank(Apply(c, s, step).drainer) < Rank(s.drainer) && Apply(c, s, step).passes == s.passes
  {
  }

  /** A batch never holds more entries than there are outstanding events. */
  lemma BatchWithinOutstanding(c: Config, s: State)
    ensures |Batched(c, s)| <= Outstanding(c, s)
  {
    BatchExact(s.wal, c.batchSize, c.readable);
    PendingSplits(Lines(s.wal), c.readable);
  }

  lemma ReadRank(c: Config, s: State, step: Step)
    requires Enabled(c, s, step) && (step.ReadBatch? || step.ReadFails?)
    ensures var s' := Apply(c, s, step);
            s'.passes == s.passes + 1 && Rank(s'.drainer) <= 5 * Outstanding(c, s) + 4
  {
    BatchWithinOutstanding(c, s);
    WeightBound(Batched(c, s));
    WeightBound(MemoryEntries(s.mem));
  }

  lemma OtherKeepsRank(c: Config, s: State, step: Step)
    requires Enabled(c, s, step) && Quiet(step) && !DrainerStep(step)
    ensures Apply(c, s, step).drainer == s.drainer && Apply(c, s, step).passes == s.passes
  {
  }

  // -------------------------------------------------------------------- measure

  /** Passes that may still start, each of at most so many steps, and the rest of this one. */
  function Total(left: int, most: nat, rank: int): int
    decreases left
  {
    if left <= 0 then rank else 5 * most + 5 + Total(left - 1, most, rank)
  }

  function Measure(s: State, bound: int, most: nat): int { Total(bound - s.passes, most, Rank(s.drainer)) }

  /** The potential stays below `bound`, and so outstanding events below `most`. */
  ghost predicate Closing(c: Config, s: State, bound: int, most: nat) {
    && Good(c) && Inv(c, s) && s.closing
    && Potential(c, s) <= bound && bound - s.passes <= most
  }

  lemma {:induction false} TotalShift(left: int, most: nat, rank: int, rank': int)
    ensures Total(left, most, rank') == Total(left, most, rank) + rank' - rank
    decreases left
  {
    if left > 0 { TotalShift(left - 1, most, rank, rank'); }
  }

  lemma {:induction false} TotalIs(left: nat, most: nat, rank: int)
    ensures Total(left, most, rank) == left * (5 * most + 5) + rank
    decreases left
  {
    if left > 0 {
      TotalIs(left - 1, most, rank);
      Unroll(left, 5 * most + 5);
    }
  }

  lemma Unroll(left: nat, k: nat)
    requires left > 0
    ensures left * k == (left - 1) * k + k
  {
  }

  lemma ReadFalls(c: Config, s: State, step: Step, bound: int, most: nat)
    requires Closing(c, s, bound, most) && Enabled(c, s, step) && (step.ReadBatch? || step.ReadFails?)
    ensures Measure(Apply(c, s, step), bound, most) < Measure(s, bound, most)
  {
    var s' := Apply(c, s, step);
    PotentialStep(c, s, step);
    ReadRank(c, s, step);
    NextPass(s, s', bound, most);
  }

  lemma NextPass(s: State, s': State, bound: int, most: nat)
    requires s'.passes == s.passes + 1 <= bound && Rank(s'.drainer) <= 5 * most + 4 && Rank(s.drainer) >= 1
    ensures Measure(s', bound, most) < Measure(s, bound, most)
  {
    TotalShift(bound - s'.passes, most, Rank(s.drainer), Rank(s'.drainer));
  }

  lemma RankFalls(c: Config, s: State, step: Step)
    requires DrainerOk(c, s.drainer) && Enabled(c, s, step) && DrainerStep(step) && !step.ReadBatch? && !step.ReadFails?
    ensures Rank(Apply(c, s, step).drainer) < Rank(s.drainer) && Apply(c, s, step).passes == s.passes
  {
    if DeliveryStep(step) {
      DeliveryFalls(c, s, step);
    } else if RoundStep(step) {
      RoundFalls(c, s, step);
    } else {
      PassFalls(c, s, step);
    }
  }

  lemma DrainerStepFalls(c: Config, s: State, step: Step, bound: int, most: nat)
    requires Closing(c, s, bound, most) && Enabled(c, s, step) && DrainerStep(step)
    ensures Measure(Apply(c, s, step), bound, most) < Measure(s, bound, most)
  {
    if step.ReadBatch? || step.ReadFails? {
      ReadFalls(c, s, step, bound, most);
    } else {
      SamePassFalls(c, s, step, bound, most);
    }
  }

  lemma SamePassFalls(c: Config, s: State, step: Step, bound: int, most: nat)
    requires DrainerOk(c, s.drainer) && Enabled(c, s, step) && DrainerStep(step) && !step.ReadBatch? && !step.ReadFails?
    ensures Measure(Apply(c, s, step), bound, most) < Measure(s, bound, most)
  {
    RankFalls(c, s, step);
    SmallerRank(s, Apply(c, s, step), bound, most);
  }

  lemma SmallerRank(s: State, s': State, bound: int, most: nat)
    requires Rank(s'.drainer) < Rank(s.drainer) && s'.passes == s.passes
    ensures Measure(s', bound, most) < Measure(s, bound, most)
  {
    TotalShift(bound - s.passes, most, Rank(s.drainer), Rank(s'.drainer));
  }

  lemma StaysClosing(c: Config, s: State, step: Step, bound: int, most: nat)
    requires Closing(c, s, bound, most) && Enabled(c, s, step) && Quiet(step)
    ensures Closing(c, Apply(c, s, step), bound, most)
  {
    StepKeeps(c, s, step);
    PotentialStep(c, s, step);
    PassesGrow(c, s, step);
  }

  lemma PassesGrow(c: Config, s: State, step: Step)
    requires Enabled(c, s, step)
    ensures Apply(c, s, step).passes >= s.passes
  {
  }

  lemma {:induction false} TotalPositive(left: int, most: nat, rank: int)
    requires rank >= 0
    ensures Total(left, most, rank) >= 0
    decreases left
  {
    if left > 0 { TotalPositive(left - 1, most, rank); }
  }

  lemma MeasurePositive(c: Config, s: State, bound: int, most: nat)
    requires Closing(c, s, bound, most)
    ensures Measure(s, bound, most) >= 0
  {
    RankPositive(c, s.drainer);
    TotalPositive(bound - s.passes, most, Rank(s.drainer));
  }

  /** A quiet step does not raise the measure, and one of the drainer lowers it. */
  lemma MeasureStep(c: Config, s: State, step: Step, bound: int, most: nat)
    requires Closing(c, s, bound, most) && Enabled(c, s, step) && Quiet(step)
    ensures Measure(Apply(c, s, step), bound, most) + (if DrainerStep(step) then 1 else 0) <= Measure(s, bound, most)
  {
    if DrainerStep(step) {
      DrainerStepFalls(c, s, step, bound, most);
    } else {
      OtherKeepsMeasure(c, s, step, bound, most);
    }
  }

  lemma OtherKeepsMeasure(c: Config, s: State, step: Step, bound: int, most: nat)
    requires Enabled(c, s, step) && Quiet(step) && !DrainerStep(step)
    ensures Measure(Apply(c, s, step), bound, most) == Measure(s, bound, most)
  {
    OtherKeepsRank(c, s, step);
    SameMeasure(s, Apply(c, s, step), bound, most);
  }

  lemma SameMeasure(s: State, s': State, bound: int, most: nat)
    requires s'.drainer == s.drainer && s'.passes == s.passes
    ensures Measure(s', bound, most) == Measure(s, bound, most)
  {
  }

  function DrainerSteps(steps: seq<Step>): nat {
    if steps == [] then 0 else (if DrainerStep(steps[0]) then 1 else 0) + DrainerSteps(steps[1..])
  }

  lemma {:induction false} StepsAreBounded(c: Config, s: State, steps: seq<Step>, bound: int, most: nat)
    requires Closing(c, s, bound, most) && Legal(c, s, steps) && QuietRun(steps)
    ensures DrainerSteps(steps) <= Measure(s, bound, most)
    decreases |steps|
  {
    MeasurePositive(c, s, bound, most);
    if steps != [] {
      var s' := Apply(c, s, steps[0]);
      StaysClosing(c, s, steps[0], bound, most);
      MeasureStep(c, s, steps[0], bound, most);
      assert forall i :: 0 <= i < |steps[1..]| ==> steps[1..][i] == steps[i + 1];
      StepsAreBounded(c, s', steps[1..], bound, most);
    }
  }

  /** With `n` passes that may still start, the most steps the drainer can take. */
  ghost function StepBound(c: Config, s: State): int {
    var n := Outstanding(c, s) + Credit(s.drainer);
    n * (5 * n + 5) + Rank(s.drainer)
  }

  /**
   After Close, without further Enqueue calls, every run has at most so many steps of
   the drainer and its deliveries, and until it is done some such step is enabled.
   */
  lemma ShutdownEnds(c: Config, wal: Bytes, before: seq<Step>, after: seq<Step>) returns (next: Step)
    requires Good(c) && WellFormed(Lines(wal), c.isEvent) && Legal(c, Init(c, wal), before)
    requires var s := Exec(c, Init(c, wal), before); s.closing && Legal(c, s, after) && QuietRun(after)
    ensures var s := Exec(c, Init(c, wal), before);
            && DrainerSteps(after) <= StepBound(c, s)
            && (!Exec(c, s, after).drainer.Done? ==> CanGoOn(c, Exec(c, s, after), next))
  {
    InitInv(c, wal);
    RunKeeps(c, Init(c, wal), before);
    var s := Exec(c, Init(c, wal), before);
    var n := Outstanding(c, s) + Credit(s.drainer);
    BoundFromHere(c, s, after, n);
    StaysClosingRun(c, s, after, Potential(c, s), n);
    next := Compact;
    if !Exec(c, s, after).drainer.Done? {
      next := NeverStuck(c, Exec(c, s, after));
    }
  }

  lemma BoundFromHere(c: Config, s: State, after: seq<Step>, n: nat)
    requires Good(c) && Inv(c, s) && s.closing && Legal(c, s, after) && QuietRun(after)
    requires n == Outstanding(c, s) + Credit(s.drainer)
    ensures DrainerSteps(after) <= StepBound(c, s)
  {
    StepsAreBounded(c, s, after, Potential(c, s), n);
    MeasureIs(c, s, n);
  }

  lemma MeasureIs(c: Config, s: State, n: nat)
    requires n == Outstanding(c, s) + Credit(s.drainer)
    ensures Measure(s, Potential(c, s), n) == StepBound(c, s)
  {
    TotalIs(n, n, Rank(s.drainer));
  }

  lemma {:induction false} StaysClosingRun(c: Config, s: State, steps: seq<Step>, bound: int, most: nat)
    requires Closing(c, s, bound, most) && Legal(c, s, steps) && QuietRun(steps)
    ensures Closing(c, Exec(c, s, steps), bound, most)
    decreases |steps|
  {
    if steps != [] {
      StaysClosing(c, s, steps[0], bound, most);
      assert forall i :: 0 <= i < |steps[1..]| ==> steps[1..][i] == steps[i + 1];
      StaysClosingRun(c, Apply(c, s, steps[0]), steps[1..], bound, most);
    }
  }

  /** So the drainer alone gets to its end. */
  lemma {:induction false} GetsDone(c: Config, s: State, bound: int, most: nat) returns (steps: seq<Step>)
    requires Closing(c, s, bound, most)
    ensures Legal(c, s, steps) && QuietRun(steps) && Exec(c, s, steps).drainer.Done?
    decreases Measure(s, bound, most)
  {
    MeasurePositive(c, s, bound, most);
    if s.drainer.Done? {
      steps := [];
    } else {
      var step := NeverStuck(c, s);
      StaysClosing(c, s, step, bound, most);
      DrainerStepFalls(c, s, step, bound, most);
      MeasurePositive(c, Apply(c, s, step), bound, most);
      var rest := GetsDone(c, Apply(c, s, step), bound, most);
      RunCons(c, s, step, rest);
      steps := [step] + rest;
    }
  }

  /** From every reachable closing state there is a run to the end of the drainer. */
  lemma ShutdownReachesDone(c: Config, wal: Bytes, before: seq<Step>) returns (after: seq<Step>)
    requires Good(c) && WellFormed(Lines(wal), c.isEvent) && Legal(c, Init(c, wal), before)
    requires Exec(c, Init(c, wal), before).closing
    ensures var s := Exec(c, Init(c, wal), before);
            Legal(c, s, after) && QuietRun(after) && Exec(c, s, after).drainer.Done?
  {
    InitInv(c, wal);
    RunKeeps(c, Init(c, wal), before);
    var s := Exec(c, Init(c, wal), before);
    after := GetsDone(c, s, Potential(c, s), Outstanding(c, s) + Credit(s.drainer));
  }
}
