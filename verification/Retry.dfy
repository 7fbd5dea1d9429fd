/**
 The first reconciliation of the Kong syncer: exponential back-off with jitter under
 an optional time budget.  Durations are nanoseconds.  What the outside decides
 (whether attempt `k` succeeds and how long it takes, the random number, how late a
 timer fires, whether the context ends during wait `k`) is given by functions.
 */
module Retry {
  import opened Basics
  import opened Numerals

  const MAX_BACKOFF: nat := 256_000_000_000

  datatype World = World(ok: nat -> bool, took: nat -> nat, roll: (nat, nat) -> nat, late: nat -> nat, ends: nat -> bool)

  datatype Outcome = Reconciled | Exhausted | Cancelled

  /** The back-off before attempt `k + 1`, as the loop doubles and caps it. */
  function Backoff(base: nat, k: nat): nat {
    if k == 0 then base else Min(2 * Backoff(base, k - 1), MAX_BACKOFF)
  }

  function Sum(xs: seq<nat>): nat {
    if xs == [] then 0 else Sum(xs[..|xs| - 1]) + xs[|xs| - 1]
  }

  /** The random source returns a number below its argument. */
  ghost predicate Rolls(w: World) {
    forall k, n :: n > 0 ==> w.roll(k, n) < n
  }

  /** Between three and five quarters of the back-off. */
  predicate Jittered(sleep: nat, backoff: nat) {
    3 * backoff <= 4 * sleep && 4 * sleep <= 5 * backoff
  }

  /** Every wait is jittered, except that the last may be cut short by the budget. */
  ghost predicate Waits(base: nat, sleeps: seq<nat>) {
    && (forall k :: 0 <= k < |sleeps| - 1 ==> Jittered(sleeps[k], Backoff(base, k)))
    && (sleeps != [] ==> 4 * sleeps[|sleeps| - 1] <= 5 * Backoff(base, |sleeps| - 1))
  }

  /**
   `initialReconcileWithRetry`, with the completed waits.  `stop` bounds the runs without a
   budget: they end only by a success or by the context.
   */
  method InitialReconcile(w: World, base: nat, budget: int, ghost stop: nat)
    returns (outcome: Outcome, attempts: nat, sleeps: seq<nat>, elapsed: nat)
    requires Rolls(w) && base >= 2
    requires budget > 0 || w.ok(stop) || w.ends(stop)
    ensures attempts == |sleeps| + 1
    ensures FailedSoFar(w, attempts - 1)
    ensures outcome.Reconciled? <==> w.ok(attempts - 1)
    ensures outcome.Exhausted? ==> budget > 0 && elapsed >= budget
    ensures outcome.Cancelled? ==> w.ends(attempts - 1) && (budget > 0 ==> elapsed < budget)
    ensures Waits(base, sleeps) && Sum(sleeps) <= elapsed
    ensures budget > 0 ==> Sum(sleeps) <= budget
  {
    var backoff: nat := base;
    attempts, sleeps, elapsed := 1, [], 0;
    while true
      invariant attempts == |sleeps| + 1 && FailedSoFar(w, |sleeps|) && Going(base, budget, stop, sleeps, elapsed, backoff)
      decreases Left(budget, elapsed, stop, |sleeps|)
    {
      var k := attempts - 1;
      elapsed := elapsed + w.took(k);
      if w.ok(k) { outcome := Reconciled; return; }
      if budget > 0 && elapsed >= budget { outcome := Exhausted; return; }
      if w.ends(k) { outcome := Cancelled; return; }
      sleeps, elapsed, backoff := Wait(base, budget, stop, sleeps, elapsed, backoff, w.roll(k, backoff / 2), w.late(k));
      attempts := attempts + 1;
    }
  }

  /** The end of the loop body: one wait, and the doubled back-off. */
  method Wait(ghost base: nat, budget: int, ghost stop: nat, sleeps0: seq<nat>, elapsed0: nat, backoff0: nat, roll: nat,
              late: nat)
    returns (sleeps: seq<nat>, elapsed: nat, backoff: nat)
    requires Going(base, budget, stop, sleeps0, elapsed0, backoff0) && roll < backoff0 / 2
    requires if budget > 0 then elapsed0 < budget else |sleeps0| < stop
    ensures Going(base, budget, stop, sleeps, elapsed, backoff)
    ensures |sleeps| == |sleeps0| + 1 && sleeps[..|sleeps0|] == sleeps0
    ensures elapsed == elapsed0 + sleeps[|sleeps0|] + late > elapsed0
  {
    var sleep := NextSleep(backoff0, roll, budget, elapsed0);
    GoesOn(base, budget, stop, sleeps0, elapsed0, backoff0, sleep, late);
    sleeps, elapsed, backoff := sleeps0 + [sleep], elapsed0 + sleep + late, 2 * backoff0;
    if backoff > MAX_BACKOFF { backoff := MAX_BACKOFF; }
  }

  /** What bounds the loop: the budget, or the attempt that ends it. */
  function Left(budget: int, elapsed: int, stop: int, done: int): int {
    if budget > 0 then (if elapsed < budget then budget - elapsed else 0) else stop - done
  }

  /** Between two attempts: the waits so far, the next back-off, and the budget still kept. */
  ghost predicate Going(base: nat, budget: int, stop: nat, sleeps: seq<nat>, elapsed: nat, backoff: nat) {
    && backoff == Backoff(base, |sleeps|) && backoff >= 2
    && Sum(sleeps) <= elapsed && (budget > 0 ==> Sum(sleeps) <= budget)
    && Waits(base, sleeps)
    && (sleeps != [] && (budget <= 0 || elapsed < budget) ==>
          Jittered(sleeps[|sleeps| - 1], Backoff(base, |sleeps| - 1)))
    && (budget <= 0 ==> |sleeps| <= stop)
  }

  lemma GoesOn(base: nat, budget: int, stop: nat, sleeps: seq<nat>, elapsed: nat, backoff: nat, sleep: nat, late: nat)
    requires Going(base, budget, stop, sleeps, elapsed, backoff)
    requires budget <= 0 ==> |sleeps| < stop
    requires budget > 0 ==> elapsed < budget && sleep <= budget - elapsed
    requires 4 * sleep <= 5 * backoff && (Jittered(sleep, backoff) || (budget > 0 && sleep == budget - elapsed))
    ensures Going(base, budget, stop, sleeps + [sleep], elapsed + sleep + late,
                  if 2 * backoff > MAX_BACKOFF then MAX_BACKOFF else 2 * backoff)
  {
    WaitsGrow(base, sleeps, sleep);
  }

  ghost predicate FailedSoFar(w: World, n: nat) {
    forall k :: 0 <= k < n ==> !w.ok(k) && !w.ends(k)
  }

  /** One wait: the back-off with a quarter of jitter either way, cut to what is left of the budget. */
  method NextSleep(backoff: nat, roll: nat, budget: int, elapsed: nat) returns (r: nat)
    requires backoff >= 2 && roll < backoff / 2 && (budget > 0 ==> elapsed < budget)
    ensures r > 0 && 4 * r <= 5 * backoff
    ensures budget > 0 ==> r <= budget - elapsed
    ensures Jittered(r, backoff) || (budget > 0 && r == budget - elapsed)
  {
    JitterRange(backoff, roll);
    var sleep: int := backoff + roll - backoff / 4;
    if sleep < 0 { sleep := backoff; }
    if budget > 0 {
      var remaining := budget - elapsed;
      if sleep > remaining { sleep := remaining; }
    }
    return sleep;
  }

  lemma JitterRange(backoff: nat, roll: nat)
    requires backoff >= 2 && roll < backoff / 2
    ensures var sleep := backoff + roll - backoff / 4; sleep >= 1 && Jittered(sleep, backoff)
  {
  }

  lemma WaitsGrow(base: nat, sleeps: seq<nat>, sleep: nat)
    requires Waits(base, sleeps) && 4 * sleep <= 5 * Backoff(base, |sleeps|)
    requires sleeps != [] ==> Jittered(sleeps[|sleeps| - 1], Backoff(base, |sleeps| - 1))
    ensures Waits(base, sleeps + [sleep]) && Sum(sleeps + [sleep]) == Sum(sleeps) + sleep
  {
    assert (sleeps + [sleep])[..|sleeps|] == sleeps;
  }

  // ------------------------------------------------------------ the back-off law

  /** The back-off doubles from the base up to 256 s and stays there. */
  lemma {:induction false} BackoffLaw(base: nat, k: nat)
    requires base <= MAX_BACKOFF
    ensures Backoff(base, k) == Min(base * Pow(2, k), MAX_BACKOFF)
    decreases k
  {
    if k > 0 {
      BackoffLaw(base, k - 1);
      Doubled(base, Pow(2, k - 1));
    }
  }

  lemma Doubled(base: nat, p: nat)
    ensures base * (2 * p) == 2 * (base * p)
  {
  }

  lemma {:induction false} BackoffAtLeast(base: nat, k: nat)
    ensures Backoff(base, k) >= Min(base, MAX_BACKOFF)
    decreases k
  {
    if k > 0 {
      BackoffAtLeast(base, k - 1);
    }
  }

  lemma {:induction false} WaitsAddUp(least: nat, sleeps: seq<nat>)
    requires forall k :: 0 <= k < |sleeps| ==> least <= 4 * sleeps[k]
    ensures least * |sleeps| <= 4 * Sum(sleeps)
    decreases |sleeps|
  {
    if sleeps != [] {
      var n := |sleeps| - 1;
      WaitsAddUp(least, sleeps[..n]);
      assert least * (n + 1) == least * n + least;
    }
  }

  /** Within a budget there are at most 4/3 of it over the base, plus two, attempts. */
  lemma AttemptsAreBounded(base: nat, sleeps: seq<nat>, budget: nat)
    requires Waits(base, sleeps) && Sum(sleeps) <= budget && 2 <= base <= MAX_BACKOFF
    ensures |sleeps| + 1 <= 4 * budget / (3 * base) + 2
  {
    if sleeps != [] {
      var most, least := sleeps[..|sleeps| - 1], 3 * base;
      forall k | 0 <= k < |most| ensures least <= 4 * most[k] {
        BackoffAtLeast(base, k);
        assert Jittered(sleeps[k], Backoff(base, k));
      }
      WaitsAddUp(least, most);
      DivisionBound(|most|, least, 4 * budget);
    }
  }

  lemma DivisionBound(n: nat, d: nat, v: nat)
    requires d > 0 && d * n <= v
    ensures n <= v / d
  {
    Division(v, d);
    if v / d < n {
      Scale(v / d, n, d);
    }
  }
}
