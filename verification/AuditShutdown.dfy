/**
 Shutdown and back-off of the drainer: how many passes it can still make once
 Close was called, and what the delay after stalled rounds is.
 */
module AuditShutdown {
  import opened Basics
  import opened Numerals
  import opened WalLines
  import opened WalBytes
  import opened WalBatch
  import opened WalEvents
  import opened AuditQueue
  import opened AuditProtocol
  import opened AuditSafety
  import opened AuditWake
  import opened AuditGauge

  /** Events not yet settled: in the log (an unterminated last line included), in memory, or held. */
  function Outstanding(c: Config, s: State): nat {
    Pending(Lines(s.wal), c.readable) + |s.mem| + |HeldBy(s.drainer)|
  }

  /** A pass the drainer may start without settling another event first. */
  ghost function Credit(d: Drainer): nat {
    if d.Top? || d.Waiting? || SomeSettled(BatchOf(d)) then 1 else 0
  }

  ghost function Potential(c: Config, s: State): nat {
    s.passes + Outstanding(c, s) + Credit(s.drainer)
  }

  /** Neither an Enqueue nor a new process. */
  predicate Quiet(step: Step) {
    !step.Append? && !step.AppendFails? && !step.Crash? && !step.CrashInAppend? && !step.CrashInSettle?
  }

  // ----------------------------------------------------------------- log steps

  lemma CompactOutstanding(c: Config, s: State)
    ensures Potential(c, s.(wal := Compacted(s.wal))) == Potential(c, s)
  {
    CompactPending(s.wal, c.readable);
    ClosedCarries(Lines(s.wal), c.readable);
    ClosedCarries(Lines(Compacted(s.wal)), c.readable);
    BlankLine();
  }

  lemma BuryOutstanding(c: Config, s: State, i: nat, cut: nat, recorded: bool)
    requires s.drainer.Top? && i < |Complete(Lines(s.wal))|
    requires IsUnreadable(Lines(s.wal)[i], c.readable) && cut <= |Lines(s.wal)[i]|
    ensures Potential(c, AfterBury(s, i, cut, recorded)) == Potential(c, s)
  {
    var data := BuriedAtOffset(s.wal, i, cut);
    BuryPending(c, s.wal, i, cut);
    BuryTail(s.wal, i, cut);
    ClosedCarries(Lines(s.wal), c.readable);
    ClosedCarries(Lines(data), c.readable);
  }

  // ---------------------------------------------------------------- deliveries

  lemma SettledStays(batch: seq<Entry>, i: nat, p: Phase)
    requires i < |batch| && !batch[i].phase.Settled?
    ensures SomeSettled(batch) ==> SomeSettled(batch[i := batch[i].(phase := p)])
    ensures !p.Settled? && SomeSettled(batch[i := batch[i].(phase := p)]) ==> SomeSettled(batch)
  {
    var batch' := batch[i := batch[i].(phase := p)];
    if SomeSettled(batch) {
      var k :| 0 <= k < |batch| && batch[k].phase.Settled?;
      assert batch'[k].phase.Settled?;
    }
    if !p.Settled? && SomeSettled(batch') {
      var k :| 0 <= k < |batch'| && batch'[k].phase.Settled?;
      assert batch[k].phase.Settled?;
    }
  }

  /** An answer, or an entry given up for this pass, changes nothing that counts. */
  lemma PhasePotential(c: Config, s: State, s': State, i: nat, p: Phase)
    requires s.drainer.Working? && i < |s.drainer.batch| && !Finished(s.drainer.batch[i].phase) && !p.Settled?
    requires s'.drainer == SetPhase(s.drainer, i, p)
    requires s'.wal == s.wal && s'.mem == s.mem && s'.passes == s.passes
    ensures Potential(c, s') == Potential(c, s)
  {
    HeldSizes(s.drainer, i, p);
    SettledStays(s.drainer.batch, i, p);
  }

  /** A struck line is one outstanding event less. */
  lemma StrikeOutstanding(c: Config, s: State, s': State, i: nat, cut: nat, p: Phase)
    requires Good(c) && Inv(c, s)
    requires s.drainer.Working? && i < |s.drainer.batch| && Answered(s.drainer.batch[i].phase)
    requires !s.drainer.batch[i].fromMemory && cut >= 1
    requires s'.drainer == SetPhase(s.drainer, i, p) && s'.mem == s.mem
    requires s'.wal == Struck(s.wal, s.drainer.batch[i].line, s.drainer.batch[i].offset, cut)
    ensures Outstanding(c, s') == Outstanding(c, s) - 1
  {
    StrikeCounts(c, s, i, cut);
    HeldSizes(s.drainer, i, p);
  }

  /** One outstanding event less pays for one more pass. */
  lemma StrikePotential(c: Config, s: State, s': State, i: nat, cut: nat, p: Phase)
    requires Good(c) && Inv(c, s)
    requires s.drainer.Working? && i < |s.drainer.batch| && Answered(s.drainer.batch[i].phase)
    requires !s.drainer.batch[i].fromMemory && cut >= 1
    requires s'.drainer == SetPhase(s.drainer, i, p) && s'.mem == s.mem && s'.passes == s.passes
    requires s'.wal == Struck(s.wal, s.drainer.batch[i].line, s.drainer.batch[i].offset, cut)
    ensures Outstanding(c, s') == Outstanding(c, s) - 1
    ensures Potential(c, s') <= Potential(c, s)
  {
    StrikeOutstanding(c, s, s', i, cut, p);
    assert Credit(s'.drainer) <= 1;
  }

  lemma SettleMemoryPotential(c: Config, s: State, s': State, i: nat)
    requires s.drainer.Working? && i < |s.drainer.batch| && Answered(s.drainer.batch[i].phase)
    requires s.drainer.batch[i].fromMemory && s' == AfterSettle(s, i)
    ensures Outstanding(c, s') == Outstanding(c, s) - 1
    ensures Potential(c, s') <= Potential(c, s)
  {
    HeldSizes(s.drainer, i, Phase.Settled);
    SettledStays(s.drainer.batch, i, Phase.Settled);
  }

  lemma SettlePotential(c: Config, s: State, s': State, i: nat)
    requires Good(c) && Inv(c, s)
    requires s.drainer.Working? && i < |s.drainer.batch| && Answered(s.drainer.batch[i].phase)
    requires s' == AfterSettle(s, i)
    ensures Outstanding(c, s') == Outstanding(c, s) - 1
    ensures Potential(c, s') <= Potential(c, s)
  {
    if s.drainer.batch[i].fromMemory {
      SettleMemoryPotential(c, s, s', i);
    } else {
      LogIsNonEmpty(c, s, i);
      StrikePotential(c, s, s', i, |s.wal|, Phase.Settled);
    }
  }

  lemma SettleFailsPotential(c: Config, s: State, s': State, i: nat, cut: nat)
    requires Good(c) && Inv(c, s)
    requires s.drainer.Working? && i < |s.drainer.batch| && Answered(s.drainer.batch[i].phase)
    requires !s.drainer.batch[i].fromMemory
    requires s'.drainer == SetPhase(s.drainer, i, Failed) && s'.mem == s.mem && s'.passes == s.passes
    requires s'.wal == Cut(s, i, cut).wal
    ensures Potential(c, s') <= Potential(c, s)
  {
    if cut == 0 { PhasePotential(c, s, s', i, Failed); } else { StrikePotential(c, s, s', i, cut, Failed); }
  }

  lemma DeliveryPotential(c: Config, s: State, step: Step)
    requires Good(c) && Inv(c, s) && Enabled(c, s, step) && DeliveryStep(step)
    ensures Potential(c, Apply(c, s, step)) <= Potential(c, s)
  {
    match step
    case SinkAccepts(i) => PhasePotential(c, s, Apply(c, s, step), i, Accepted);
    case SinkRefuses(i, _) => PhasePotential(c, s, Apply(c, s, step), i, Refused);
    case SinkFails(i) => PhasePotential(c, s, Apply(c, s, step), i, Failed);
    case Settle(i) => SettlePotential(c, s, Apply(c, s, step), i);
    case SettleFails(i, cut) => SettleFailsPotential(c, s, Apply(c, s, step), i, cut);
  }

  // -------------------------------------------------------------------- passes

  /** Starting a pass spends the credit. */
  lemma StartedPotential(c: Config, s: State, s': State, batch: seq<Entry>)
    requires s.drainer.Top? && UntouchedFrom(batch, 0) && Bag(Held, batch) == multiset(s.mem)
    requires BatchOf(s'.drainer) == batch && HeldPart(s'.drainer) == batch && s'.drainer.Working?
    requires s'.wal == s.wal && s'.mem == [] && s'.passes == s.passes + 1
    ensures Potential(c, s') == Potential(c, s)
  {
    assert !SomeSettled(batch);
    assert HeldPart(s.drainer) == [];
  }

  lemma ReadBatchPotential(c: Config, s: State)
    requires Good(c) && Inv(c, s) && s.drainer.Top?
    ensures Potential(c, Started(c, s, Batched(c, s), PendingNow(c, s))) == Potential(c, s)
  {
    ReadHeld(c, s);
    ReadShapes(c, s);
    StartedPotential(c, s, Started(c, s, Batched(c, s), PendingNow(c, s)), Batched(c, s));
  }

  lemma ReadFailsPotential(c: Config, s: State)
    requires s.drainer.Top?
    ensures Potential(c, Started(c, s, MemoryEntries(s.mem), 0)) == Potential(c, s)
  {
    FreshHeld(s.mem);
    StartedPotential(c, s, Started(c, s, MemoryEntries(s.mem), 0), MemoryEntries(s.mem));
  }

  lemma SameBatchPotential(c: Config, s: State, s': State)
    requires s'.wal == s.wal && s'.mem == s.mem && s'.passes == s.passes
    requires BatchOf(s'.drainer) == BatchOf(s.drainer) && HeldPart(s'.drainer) == HeldPart(s.drainer)
    requires s'.drainer.Top? ==> s.drainer.Top?
    requires s'.drainer.Waiting? ==> s.drainer.Waiting?
    ensures Potential(c, s') <= Potential(c, s)
  {
  }

  lemma RoundPotential(c: Config, s: State, step: Step)
    requires Good(c) && Inv(c, s) && Enabled(c, s, step) && RoundStep(step)
    ensures Potential(c, Apply(c, s, step)) <= Potential(c, s)
  {
    RoundKeepsParts(c, s, step);
    SameBatchPotential(c, s, Apply(c, s, step));
  }

  lemma ReturnOnePotential(c: Config, s: State)
    requires s.drainer.Returning? && s.drainer.next < |s.drainer.batch|
    ensures Potential(c, AfterReturnOne(c, s)) <= Potential(c, s)
  {
    var s' := AfterReturnOne(c, s);
    HeldStep(s.drainer, s'.drainer);
    assert |HeldBy(s.drainer)| == |Share(Held, s.drainer.batch[s.drainer.next])| + |HeldBy(s'.drainer)|;
    assert BatchOf(s'.drainer) == BatchOf(s.drainer);
  }

  /** While closing, the drainer goes back to the top only after a pass that settled something. */
  lemma EndPassPotential(c: Config, s: State)
    requires Inv(c, s) && s.closing && s.drainer.Returning? && s.drainer.next >= |s.drainer.batch|
    ensures Potential(c, AfterEndPass(s)) <= Potential(c, s)
    ensures AfterEndPass(s).drainer.Top? ==> SomeSettled(s.drainer.batch)
  {
    assert HeldPart(s.drainer) == [];
    assert HeldPart(AfterEndPass(s).drainer) == [];
  }

  lemma IdlePotential(c: Config, s: State, step: Step)
    requires Good(c) && Inv(c, s) && s.closing && Enabled(c, s, step)
    requires step.Wake? || step.Close? || step.NothingRead? || step.TakeWake? || step.StopWaiting?
    ensures Potential(c, Apply(c, s, step)) <= Potential(c, s)
  {
    assert BatchOf(Apply(c, s, step).drainer) == BatchOf(s.drainer);
  }

  lemma PassPotential(c: Config, s: State, step: Step)
    requires Good(c) && Inv(c, s) && s.closing && Enabled(c, s, step)
    requires step.Compact? || step.Bury? || step.ReadBatch? || step.ReadFails? || step.ReturnOne? || step.EndPass?
    ensures Apply(c, s, step).closing
    ensures Potential(c, Apply(c, s, step)) <= Potential(c, s)
  {
    match step
    case Compact => CompactOutstanding(c, s);
    case Bury(i, cut, recorded) => BuryOutstanding(c, s, i, cut, recorded);
    case ReadBatch => ReadBatchPotential(c, s);
    case ReadFails => ReadFailsPotential(c, s);
    case ReturnOne => ReturnOnePotential(c, s);
    case EndPass => EndPassPotential(c, s);
  }

  /** While closing, no quiet step raises the potential. */
  lemma PotentialStep(c: Config, s: State, step: Step)
    requires Good(c) && Inv(c, s) && s.closing && Enabled(c, s, step) && Quiet(step)
    ensures Apply(c, s, step).closing
    ensures Potential(c, Apply(c, s, step)) <= Potential(c, s)
  {
    if DeliveryStep(step) {
      DeliveryPotential(c, s, step);
    } else if RoundStep(step) {
      RoundPotential(c, s, step);
    } else if step.Compact? || step.Bury? || step.ReadBatch? || step.ReadFails? || step.ReturnOne? || step.EndPass? {
      PassPotential(c, s, step);
    } else {
      IdlePotential(c, s, step);
    }
  }

  ghost predicate QuietRun(steps: seq<Step>) {
    forall i :: 0 <= i < |steps| ==> Quiet(steps[i])
  }

  lemma {:induction false} PotentialRun(c: Config, s: State, steps: seq<Step>)
    requires Good(c) && Inv(c, s) && s.closing && Legal(c, s, steps) && QuietRun(steps)
    ensures Potential(c, Exec(c, s, steps)) <= Potential(c, s)
    decreases |steps|
  {
    if steps != [] {
      PotentialStep(c, s, steps[0]);
      StepKeeps(c, s, steps[0]);
      PotentialRun(c, Apply(c, s, steps[0]), steps[1..]);
    }
  }

  /**
   From any reachable state in which Close was called, without further Enqueue
   calls, the drainer starts at most outstanding-events-plus-one further passes,
   whatever the sink answers and however the steps interleave.
   */
  lemma BoundedShutdown(c: Config, wal: Bytes, before: seq<Step>, after: seq<Step>)
    requires Good(c) && WellFormed(Lines(wal), c.isEvent) && Legal(c, Init(c, wal), before)
    requires var s := Exec(c, Init(c, wal), before); s.closing && Legal(c, s, after) && QuietRun(after)
    ensures var s := Exec(c, Init(c, wal), before);
            Exec(c, s, after).passes - s.passes <= Outstanding(c, s) + 1
  {
    InitInv(c, wal);
    RunKeeps(c, Init(c, wal), before);
    PotentialRun(c, Exec(c, Init(c, wal), before), after);
  }

  // ------------------------------------------------------------------ back-off

  /** The delay after `k` consecutive stalled rounds. */
  function Backoff(c: Config, k: nat): int {
    Min(c.initialDelay * Pow(2, k), c.maxDelay)
  }

  lemma BackoffStep(c: Config, k: nat)
    requires 1 <= c.initialDelay <= c.maxDelay
    ensures NextRetryDelay(Backoff(c, k), c.maxDelay) == Backoff(c, k + 1)
    ensures 1 <= Backoff(c, k) <= c.maxDelay
  {
    PowPositive(2, k);
    var grown := c.initialDelay * Pow(2, k);
    assert c.initialDelay * Pow(2, k + 1) == 2 * grown;
    assert grown >= c.initialDelay;
  }

  lemma DelayStep(c: Config, s: State, step: Step)
    requires Good(c) && s.delay == Backoff(c, s.stalled) && Enabled(c, s, step)
    ensures Apply(c, s, step).delay == Backoff(c, Apply(c, s, step).stalled)
  {
    BackoffStep(c, s.stalled);
    assert Backoff(c, 0) == c.initialDelay;
    if step.DelayOver? {
    } else if step.EndRound? {
    } else if OutsideStep(step) {
      OutsideDelay(c, s, step);
    } else {
      InsideDelay(c, s, step);
    }
  }

  lemma OutsideDelay(c: Config, s: State, step: Step)
    requires Enabled(c, s, step) && OutsideStep(step)
    ensures var s' := Apply(c, s, step);
            (s'.delay == s.delay && s'.stalled == s.stalled) || (s'.delay == c.initialDelay && s'.stalled == 0)
  {
  }

  lemma InsideDelay(c: Config, s: State, step: Step)
    requires Enabled(c, s, step) && !OutsideStep(step) && !step.DelayOver? && !step.EndRound?
    ensures Apply(c, s, step).delay == s.delay && Apply(c, s, step).stalled == s.stalled
  {
  }

  lemma {:induction false} DelayRun(c: Config, s: State, steps: seq<Step>)
    requires Good(c) && s.delay == Backoff(c, s.stalled) && Legal(c, s, steps)
    ensures Exec(c, s, steps).delay == Backoff(c, Exec(c, s, steps).stalled)
    decreases |steps|
  {
    if steps != [] {
      DelayStep(c, s, steps[0]);
      DelayRun(c, Apply(c, s, steps[0]), steps[1..]);
    }
  }

  /** In every run the delay is the initial one doubled once per stalled round since the last progress, capped. */
  lemma DelayLaw(c: Config, wal: Bytes, steps: seq<Step>)
    requires Good(c) && Legal(c, Init(c, wal), steps)
    ensures var s := Exec(c, Init(c, wal), steps); s.delay == Backoff(c, s.stalled) <= c.maxDelay
  {
    assert Backoff(c, 0) == c.initialDelay;
    DelayRun(c, Init(c, wal), steps);
    BackoffStep(c, Exec(c, Init(c, wal), steps).stalled);
  }
}
