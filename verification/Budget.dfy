/**
 The call budget of the proxy plugin: one upsert and, when it returns no row, one
 select on the budget_counters table.  The two statements of a Check are two
 atomic steps, so any number of Checks interleave between them.
 */
module Budget {
  import opened Basics
  import opened Period

  /** Primary key of a counter: permission and period start. */
  type Key = (string, int)

  datatype Row = Row(periodEnd: int, ceiling: int, used: int)

  /** What a Check returns: the counts, an exhausted budget, or a failed select. */
  datatype Verdict = Passed(used: int, ceiling: int) | Exceeded(used: int, ceiling: int, periodEnd: int) | NoRow

  predicate Matches(rows: map<Key, Row>, perm: string, dbNow: int, start: int) {
    (perm, start) in rows && start <= dbNow <= rows[(perm, start)].periodEnd
  }

  function Upserted(rows: map<Key, Row>, key: Key, periodEnd: int, ceiling: int): map<Key, Row> {
    if key !in rows then rows[key := Row(periodEnd, ceiling, 1)]
    else if rows[key].used < rows[key].ceiling then rows[key := rows[key].(used := rows[key].used + 1)]
    else rows
  }

  /** The upsert returns a row unless the stored counter is exhausted. */
  predicate UpsertReturns(rows: map<Key, Row>, key: Key) {
    key !in rows || rows[key].used < rows[key].ceiling
  }

  function VerdictOf(row: Row): Verdict {
    if row.used >= row.ceiling then Exceeded(row.used, row.ceiling, row.periodEnd) else Passed(row.used, row.ceiling)
  }

  /** The table, and Check with nothing in between its statements. */
  class Counters {
    var rows: map<Key, Row>

    constructor ()
      ensures rows == map[]
    {
      rows := map[];
    }

    method Upsert(perm: string, start: int, periodEnd: int, ceiling: int) returns (r: Option<Row>)
      modifies this
      ensures rows == Upserted(old(rows), (perm, start), periodEnd, ceiling)
      ensures r.Some? <==> UpsertReturns(old(rows), (perm, start))
      ensures r.Some? ==> (perm, start) in rows && r.value == rows[(perm, start)]
    {
      var key := (perm, start);
      if key !in rows {
        rows := rows[key := Row(periodEnd, ceiling, 1)];
        return Some(rows[key]);
      }
      if rows[key].used < rows[key].ceiling {
        rows := rows[key := rows[key].(used := rows[key].used + 1)];
        return Some(rows[key]);
      }
      return None;
    }

    /** A row of the permission whose period holds the database's clock, boundaries included. */
    method Select(perm: string, dbNow: int) returns (r: Option<Row>)
      ensures r.Some? ==> exists start :: Matches(rows, perm, dbNow, start) && r.value == rows[(perm, start)]
      ensures r.None? ==> forall start :: !Matches(rows, perm, dbNow, start)
    {
      var left := rows.Keys;
      while left != {}
        invariant left <= rows.Keys
        invariant forall start :: Matches(rows, perm, dbNow, start) ==> (perm, start) in left
        decreases left
      {
        var key :| key in left;
        if key.0 == perm && key.1 <= dbNow <= rows[key].periodEnd {
          assert Matches(rows, perm, dbNow, key.1);
          return Some(rows[key]);
        }
        left := left - {key};
      }
      return None;
    }

    method Check(perm: string, period: string, ceiling: int, now: int, dbNow: int) returns (v: Verdict)
      modifies this
      ensures var b := PeriodBounds(period, now);
              && rows == Upserted(old(rows), (perm, b.start), b.end, ceiling)
              && (UpsertReturns(old(rows), (perm, b.start)) ==>
                    v == Passed(rows[(perm, b.start)].used, rows[(perm, b.start)].ceiling))
              && (!UpsertReturns(old(rows), (perm, b.start)) ==>
                    || (v.NoRow? && forall start :: !Matches(rows, perm, dbNow, start))
                    || exists start :: Matches(rows, perm, dbNow, start) && v == VerdictOf(rows[(perm, start)]))
    {
      var b := PeriodBounds(period, now);
      var row := Upsert(perm, b.start, b.end, ceiling);
      if row.Some? { return Passed(row.value.used, row.value.ceiling); }
      var found := Select(perm, dbNow);
      if found.None? { return NoRow; }
      if found.value.used >= found.value.ceiling {
        return Exceeded(found.value.used, found.value.ceiling, found.value.periodEnd);
      }
      return Passed(found.value.used, found.value.ceiling);
    }
  }

  // ------------------------------------------------------------- interleavings

  /**
   The Checks of one counter so far.  `leaked` are the passes among `passed` that the
   select let through although the upsert had refused.
   */
  datatype Tally = Tally(started: nat, passed: nat, selecting: nat, refused: nat, failed: nat, leaked: nat, first: int)

  datatype System = System(rows: map<Key, Row>, tallies: map<Key, Tally>)

  datatype Step =
    | FirstStatement(perm: string, period: string, now: int, ceiling: int)
    | SecondStatement(perm: string, start: int, dbNow: int, chosen: Option<int>)

  function Init(): System { System(map[], map[]) }

  function TallyOf(s: System, key: Key): Tally {
    if key in s.tallies then s.tallies[key] else Tally(0, 0, 0, 0, 0, 0, 0)
  }

  /**
   The database's clock may read anything, also an instant outside the period of
   the upsert.  The select returns any matching row, and no row when none matches.
   */
  ghost predicate Enabled(s: System, step: Step) {
    match step
    case FirstStatement(_, _, _, _) => true
    case SecondStatement(perm, start, dbNow, chosen) =>
      && TallyOf(s, (perm, start)).selecting > 0
      && (chosen.Some? ==> Matches(s.rows, perm, dbNow, chosen.value))
      && (chosen.None? ==> forall other :: !Matches(s.rows, perm, dbNow, other))
  }

  function AfterFirst(s: System, key: Key, periodEnd: int, ceiling: int): System {
    var t := TallyOf(s, key);
    var counted := t.(started := t.started + 1, first := if key in s.rows then t.first else ceiling);
    System(Upserted(s.rows, key, periodEnd, ceiling),
           s.tallies[key := if UpsertReturns(s.rows, key) then counted.(passed := t.passed + 1)
                            else counted.(selecting := t.selecting + 1)])
  }

  function SelectVerdict(s: System, perm: string, chosen: Option<int>): Verdict {
    if chosen.Some? && (perm, chosen.value) in s.rows then VerdictOf(s.rows[(perm, chosen.value)]) else NoRow
  }

  function AfterSecond(s: System, key: Key, v: Verdict): System
    requires TallyOf(s, key).selecting > 0
  {
    var t := TallyOf(s, key);
    var done := t.(selecting := t.selecting - 1);
    s.(tallies := s.tallies[key := match v
                                   case Passed(_, _) => done.(passed := t.passed + 1, leaked := t.leaked + 1)
                                   case Exceeded(_, _, _) => done.(refused := t.refused + 1)
                                   case NoRow => done.(failed := t.failed + 1)])
  }

  /** Every Check carries its period: a permission's period may change between two of them. */
  ghost function Apply(s: System, step: Step): System
    requires Enabled(s, step)
  {
    match step
    case FirstStatement(perm, period, now, ceiling) =>
      var b := PeriodBounds(period, now);
      AfterFirst(s, (perm, b.start), b.end, ceiling)
    case SecondStatement(perm, start, _, chosen) => AfterSecond(s, (perm, start), SelectVerdict(s, perm, chosen))
  }

  function AtLeastOne(ceiling: int): int { if ceiling < 1 then 1 else ceiling }

  /** What the counter of `key` promises at every moment. */
  predicate CounterOk(s: System, key: Key) {
    var t := TallyOf(s, key);
    && t.started == t.passed + t.selecting + t.refused + t.failed
    && t.passed == Min(t.started, AtLeastOne(t.first)) + t.leaked
    && (key in s.rows <==> t.started > 0)
    && (key in s.rows ==> s.rows[key].used == t.passed - t.leaked && s.rows[key].ceiling == t.first)
    && (t.selecting > 0 ==> t.passed - t.leaked >= t.first)
  }

  ghost predicate Inv(s: System) {
    forall key: Key :: CounterOk(s, key)
  }

  lemma FirstCounts(s: System, at: Key, periodEnd: int, ceiling: int, key: Key)
    requires CounterOk(s, key)
    ensures CounterOk(AfterFirst(s, at, periodEnd, ceiling), key)
  {
  }

  lemma SecondCounts(s: System, at: Key, v: Verdict, key: Key)
    requires CounterOk(s, key) && TallyOf(s, at).selecting > 0
    ensures CounterOk(AfterSecond(s, at, v), key)
  {
  }

  lemma StepKeeps(s: System, step: Step)
    requires Inv(s) && Enabled(s, step)
    ensures Inv(Apply(s, step))
  {
    forall key: Key ensures CounterOk(Apply(s, step), key) {
      assert CounterOk(s, key);
      match step
      case FirstStatement(perm, period, now, ceiling) =>
        var b := PeriodBounds(period, now);
        FirstCounts(s, (perm, b.start), b.end, ceiling, key);
      case SecondStatement(perm, start, _, chosen) =>
        SecondCounts(s, (perm, start), SelectVerdict(s, perm, chosen), key);
    }
  }

  ghost predicate Legal(s: System, steps: seq<Step>)
    decreases |steps|
  {
    steps == [] || (Enabled(s, steps[0]) && Legal(Apply(s, steps[0]), steps[1..]))
  }

  ghost function Exec(s: System, steps: seq<Step>): System
    requires Legal(s, steps)
    decreases |steps|
  {
    if steps == [] then s else Exec(Apply(s, steps[0]), steps[1..])
  }

  lemma {:induction false} RunKeeps(s: System, steps: seq<Step>)
    requires Inv(s) && Legal(s, steps)
    ensures Inv(Exec(s, steps))
    decreases |steps|
  {
    if steps != [] {
      StepKeeps(s, steps[0]);
      RunKeeps(Apply(s, steps[0]), steps[1..]);
    }
  }

  lemma StartsOk()
    ensures Inv(Init())
  {
  }

  /**
   In every interleaving, with any database clock and any periods, of n Checks that
   reached one counter exactly min(n, max(1, C)) pass beside the leaked ones and
   `used` is their number, where C is the ceiling the first of them stored, whatever
   ceilings and periods the others carry.
   */
  lemma BudgetIsExact(steps: seq<Step>, perm: string, start: int)
    requires Legal(Init(), steps)
    ensures var s := Exec(Init(), steps);
            var t := TallyOf(s, (perm, start));
            && t.passed == Min(t.started, AtLeastOne(t.first)) + t.leaked
            && t.started == t.passed + t.selecting + t.refused + t.failed
            && (t.started > 0 ==> (perm, start) in s.rows && s.rows[(perm, start)].used == t.passed - t.leaked)
            && (t.first >= 1 ==> t.passed == Min(t.started, t.first) + t.leaked)
  {
    StartsOk();
    RunKeeps(Init(), steps);
    assert CounterOk(Exec(Init(), steps), (perm, start));
  }

  // --------------------------------------------------------------------- leaks

  predicate HasRoom(s: System, perm: string, start: int) {
    (perm, start) in s.rows && s.rows[(perm, start)].used < s.rows[(perm, start)].ceiling
  }

  /** The step passes a Check that its upsert had refused. */
  ghost predicate Leaks(s: System, step: Step)
    requires step.SecondStatement? && Enabled(s, step)
  {
    TallyOf(Apply(s, step), (step.perm, step.start)).leaked > TallyOf(s, (step.perm, step.start)).leaked
  }

  /** The counter of a Check whose upsert refused is exhausted, so its own row never leaks. */
  lemma OwnRowRefuses(s: System, perm: string, start: int)
    requires Inv(s) && TallyOf(s, (perm, start)).selecting > 0
    ensures (perm, start) in s.rows && !HasRoom(s, perm, start)
  {
    assert CounterOk(s, (perm, start));
  }

  lemma LeaksIfOther(s: System, step: Step)
    requires Inv(s) && step.SecondStatement? && Enabled(s, step)
    ensures Leaks(s, step) <==>
            step.chosen.Some? && step.chosen.value != step.start && HasRoom(s, step.perm, step.chosen.value)
  {
    OwnRowRefuses(s, step.perm, step.start);
  }

  /** A row of another period that the select can return at `dbNow`, and that has room. */
  ghost predicate CanLeak(s: System, perm: string, start: int, dbNow: int, other: int) {
    other != start && Matches(s.rows, perm, dbNow, other) && HasRoom(s, perm, other)
  }

  /**
   In every run, after a refused upsert: the select passes the Check if and only if it
   returns the row of another period with room; and it can do so at an instant if and only
   if the table holds such a row whose bounds include that instant.
   */
  lemma LeaksExactly(steps: seq<Step>, perm: string, start: int, dbNow: int)
    requires Legal(Init(), steps) && TallyOf(Exec(Init(), steps), (perm, start)).selecting > 0
    ensures var s := Exec(Init(), steps);
            && (forall chosen: Option<int> :: Enabled(s, SecondStatement(perm, start, dbNow, chosen)) ==>
                  (Leaks(s, SecondStatement(perm, start, dbNow, chosen)) <==>
                   chosen.Some? && CanLeak(s, perm, start, dbNow, chosen.value)))
            && ((exists chosen: Option<int> ::
                   && Enabled(s, SecondStatement(perm, start, dbNow, chosen))
                   && Leaks(s, SecondStatement(perm, start, dbNow, chosen)))
                <==> exists other :: CanLeak(s, perm, start, dbNow, other))
  {
    var s := Exec(Init(), steps);
    StartsOk();
    RunKeeps(Init(), steps);
    forall chosen: Option<int> | Enabled(s, SecondStatement(perm, start, dbNow, chosen))
      ensures Leaks(s, SecondStatement(perm, start, dbNow, chosen)) <==>
              chosen.Some? && CanLeak(s, perm, start, dbNow, chosen.value)
    {
      LeaksIfOther(s, SecondStatement(perm, start, dbNow, chosen));
    }
    if other :| CanLeak(s, perm, start, dbNow, other) {
      var step := SecondStatement(perm, start, dbNow, Some(other));
      assert Enabled(s, step) && Leaks(s, step);
    }
  }

  // ---------------------------------------------------------------- one period

  /** All Checks of the permission carry the same period. */
  ghost predicate OnePeriod(steps: seq<Step>, perm: string, period: string) {
    forall i :: 0 <= i < |steps| && steps[i].FirstStatement? && steps[i].perm == perm ==> steps[i].period == period
  }

  /** So its rows are periods of that kind. */
  ghost predicate RowsAre(s: System, perm: string, period: string) {
    forall start :: (perm, start) in s.rows ==>
      PeriodBounds(period, start) == Bounds(start, s.rows[(perm, start)].periodEnd)
  }

  lemma StepRows(s: System, step: Step, perm: string, period: string)
    requires RowsAre(s, perm, period) && Enabled(s, step)
    requires step.FirstStatement? && step.perm == perm ==> step.period == period
    ensures RowsAre(Apply(s, step), perm, period)
  {
    if step.FirstStatement? {
      var b := PeriodBounds(step.period, step.now);
      PeriodIsShared(step.period, step.now, step.now);
      PeriodIsShared(step.period, step.now, b.start);
      UpsertRows(s.rows, (step.perm, b.start), b, step.ceiling, perm, period);
    }
  }

  lemma UpsertRows(rows: map<Key, Row>, key: Key, b: Bounds, ceiling: int, perm: string, period: string)
    requires key.1 == b.start && (key.0 == perm ==> PeriodBounds(period, b.start) == b)
    requires forall start :: (perm, start) in rows ==>
               PeriodBounds(period, start) == Bounds(start, rows[(perm, start)].periodEnd)
    ensures var rows' := Upserted(rows, key, b.end, ceiling);
            forall start :: (perm, start) in rows' ==>
              PeriodBounds(period, start) == Bounds(start, rows'[(perm, start)].periodEnd)
  {
  }

  lemma {:induction false} RunRows(s: System, steps: seq<Step>, perm: string, period: string)
    requires RowsAre(s, perm, period) && Legal(s, steps) && OnePeriod(steps, perm, period)
    ensures RowsAre(Exec(s, steps), perm, period)
    decreases |steps|
  {
    if steps != [] {
      StepRows(s, steps[0], perm, period);
      assert forall i :: 0 <= i < |steps[1..]| ==> steps[1..][i] == steps[i + 1];
      RunRows(Apply(s, steps[0]), steps[1..], perm, period);
    }
  }

  /** Within a period, after its first instant, only that period's row matches. */
  lemma OnlyOwnRowMatches(s: System, perm: string, period: string, start: int, dbNow: int, chosen: int)
    requires RowsAre(s, perm, period) && (perm, start) in s.rows
    requires start < dbNow < PeriodBounds(period, start).end && Matches(s.rows, perm, dbNow, chosen)
    ensures chosen == start
  {
    PeriodsDisjoint(period, start, chosen);
  }

  /** At its first instant, the row of the period before it may match as well, and no other. */
  lemma StartMatches(s: System, perm: string, period: string, start: int, chosen: int)
    requires RowsAre(s, perm, period) && (perm, start) in s.rows && Matches(s.rows, perm, start, chosen)
    ensures chosen == start || s.rows[(perm, chosen)].periodEnd == start
  {
    PeriodsDisjoint(period, start, chosen);
    PeriodIsShared(period, start, start);
  }

  lemma OnePeriodCanLeak(s: System, perm: string, period: string, start: int, dbNow: int, other: int)
    requires RowsAre(s, perm, period) && (perm, start) in s.rows
    requires start <= dbNow < PeriodBounds(period, start).end
    ensures CanLeak(s, perm, start, dbNow, other) <==>
            dbNow == start && HasRoom(s, perm, other) && s.rows[(perm, other)].periodEnd == start
  {
    if (perm, other) in s.rows {
      PeriodIsShared(period, other, other);
      if dbNow == start && Matches(s.rows, perm, start, other) {
        StartMatches(s, perm, period, start, other);
      } else if dbNow > start && Matches(s.rows, perm, dbNow, other) {
        OnlyOwnRowMatches(s, perm, period, start, dbNow, other);
      }
    }
  }

  /**
   With one period for all Checks of the permission and the database's clock in the period
   of the upsert, that is: the clock reads the period's first instant, and the row of the
   period just ended is in the table and has room.
   */
  lemma OnePeriodLeaks(steps: seq<Step>, perm: string, period: string, start: int, dbNow: int)
    requires Legal(Init(), steps) && OnePeriod(steps, perm, period)
    requires TallyOf(Exec(Init(), steps), (perm, start)).selecting > 0
    requires start <= dbNow < PeriodBounds(period, start).end
    ensures var s := Exec(Init(), steps);
            (exists chosen: Option<int> ::
               && Enabled(s, SecondStatement(perm, start, dbNow, chosen))
               && Leaks(s, SecondStatement(perm, start, dbNow, chosen)))
            <==> dbNow == start
                 && exists other :: HasRoom(s, perm, other) && s.rows[(perm, other)].periodEnd == start
  {
    var s := Exec(Init(), steps);
    StartsOk();
    RunKeeps(Init(), steps);
    RunRows(Init(), steps, perm, period);
    OwnRowRefuses(s, perm, start);
    LeaksExactly(steps, perm, start, dbNow);
    forall other
      ensures CanLeak(s, perm, start, dbNow, other) <==>
              dbNow == start && HasRoom(s, perm, other) && s.rows[(perm, other)].periodEnd == start
    {
      OnePeriodCanLeak(s, perm, period, start, dbNow, other);
    }
  }

  /** No select of the permission reads the first instant of the period it checks, or an instant outside it. */
  ghost predicate Interior(steps: seq<Step>, perm: string, period: string) {
    forall i :: 0 <= i < |steps| && steps[i].SecondStatement? && steps[i].perm == perm ==>
      steps[i].start < steps[i].dbNow < PeriodBounds(period, steps[i].start).end
  }

  ghost predicate NothingLeaked(s: System, perm: string) {
    forall start :: TallyOf(s, (perm, start)).leaked == 0
  }

  lemma InteriorStep(s: System, step: Step, perm: string, period: string)
    requires Inv(s) && RowsAre(s, perm, period) && NothingLeaked(s, perm) && Enabled(s, step)
    requires step.SecondStatement? && step.perm == perm ==>
               step.start < step.dbNow < PeriodBounds(period, step.start).end
    ensures NothingLeaked(Apply(s, step), perm)
  {
    if step.SecondStatement? && step.perm == perm {
      LeaksIfOther(s, step);
      OwnRowRefuses(s, perm, step.start);
      if step.chosen.Some? {
        OnlyOwnRowMatches(s, perm, period, step.start, step.dbNow, step.chosen.value);
      }
      assert !Leaks(s, step);
    }
    forall start ensures TallyOf(Apply(s, step), (perm, start)).leaked == 0 {
      assert TallyOf(s, (perm, start)).leaked == 0;
    }
  }

  lemma {:induction false} InteriorRun(s: System, steps: seq<Step>, perm: string, period: string)
    requires Inv(s) && RowsAre(s, perm, period) && NothingLeaked(s, perm)
    requires Legal(s, steps) && OnePeriod(steps, perm, period) && Interior(steps, perm, period)
    ensures NothingLeaked(Exec(s, steps), perm)
    decreases |steps|
  {
    if steps != [] {
      InteriorStep(s, steps[0], perm, period);
      StepKeeps(s, steps[0]);
      StepRows(s, steps[0], perm, period);
      assert forall i :: 0 <= i < |steps[1..]| ==> steps[1..][i] == steps[i + 1];
      InteriorRun(Apply(s, steps[0]), steps[1..], perm, period);
    }
  }

  /**
   So the ceiling of a permission is kept as promised in every run in which its Checks carry
   one period and its selects stay strictly inside theirs, whatever other permissions do.
   */
  lemma CeilingIsKept(steps: seq<Step>, perm: string, period: string, start: int)
    requires Legal(Init(), steps) && OnePeriod(steps, perm, period) && Interior(steps, perm, period)
    ensures var s := Exec(Init(), steps);
            var t := TallyOf(s, (perm, start));
            && t.passed == Min(t.started, AtLeastOne(t.first))
            && (t.started > 0 ==> (perm, start) in s.rows && s.rows[(perm, start)].used == t.passed)
  {
    BudgetIsExact(steps, perm, start);
    StartsOk();
    InteriorRun(Init(), steps, perm, period);
    assert TallyOf(Exec(Init(), steps), (perm, start)).leaked == 0;
  }

  // ----------------------------------------------------------------- leaky runs

  /** `n` Checks at `now`, each refused by its counter and passed by a select that returns row `other`. */
  function LeakyChecks(perm: string, period: string, now: int, start: int, other: int, n: nat): seq<Step> {
    if n == 0 then []
    else [FirstStatement(perm, period, now, 1), SecondStatement(perm, start, now, Some(other))]
         + LeakyChecks(perm, period, now, start, other, n - 1)
  }

  /** A counter at its ceiling, beside a row of another period that holds `now` and has room. */
  ghost predicate Leaky(s: System, perm: string, start: int, now: int, other: int) {
    && (perm, start) in s.rows && s.rows[(perm, start)].used >= s.rows[(perm, start)].ceiling
    && CanLeak(s, perm, start, now, other)
  }

  /** One Check whose select passes it: from `s` to `s2`, with one pass more and the same rows. */
  ghost predicate PassesOne(s: System, s2: System, first: Step, second: Step, key: Key) {
    && Enabled(s, first) && Enabled(Apply(s, first), second)
    && s2 == Apply(Apply(s, first), second) && s2.rows == s.rows
    && TallyOf(s2, key).passed == TallyOf(s, key).passed + 1 && TallyOf(s2, key).first == TallyOf(s, key).first
  }

  lemma LeakyCheck(s: System, perm: string, period: string, now: int, start: int, other: int) returns (s2: System)
    requires start == PeriodBounds(period, now).start && Leaky(s, perm, start, now, other)
    ensures PassesOne(s, s2, FirstStatement(perm, period, now, 1), SecondStatement(perm, start, now, Some(other)),
                      (perm, start))
    ensures Leaky(s2, perm, start, now, other)
  {
    var s1 := Apply(s, FirstStatement(perm, period, now, 1));
    assert s1.rows == s.rows && TallyOf(s1, (perm, start)).selecting > 0;
    assert Matches(s1.rows, perm, now, other);
    s2 := Apply(s1, SecondStatement(perm, start, now, Some(other)));
  }

  /** From `s` the steps are a run that passes `n` more Checks of the counter and changes no row. */
  ghost predicate PassesMore(s: System, steps: seq<Step>, key: Key, n: nat) {
    && Legal(s, steps)
    && var s' := Exec(s, steps);
       && s'.rows == s.rows
       && TallyOf(s', key).passed == TallyOf(s, key).passed + n
       && TallyOf(s', key).first == TallyOf(s, key).first
  }

  lemma PassesOneMore(s: System, s2: System, first: Step, second: Step, rest: seq<Step>, key: Key, n: nat)
    requires PassesOne(s, s2, first, second, key) && PassesMore(s2, rest, key, n)
    ensures PassesMore(s, [first, second] + rest, key, n + 1)
  {
    RunTwo(s, first, second, rest);
  }

  lemma {:induction false} LeakyRun(s: System, perm: string, period: string, now: int, start: int, other: int, n: nat)
    requires start == PeriodBounds(period, now).start && Leaky(s, perm, start, now, other)
    ensures PassesMore(s, LeakyChecks(perm, period, now, start, other, n), (perm, start), n)
    decreases n
  {
    if n == 0 {
      PassesNoMore(s, (perm, start));
    } else {
      var s2 := LeakyCheck(s, perm, period, now, start, other);
      LeakyRun(s2, perm, period, now, start, other, n - 1);
      PassesOneMore(s, s2, FirstStatement(perm, period, now, 1), SecondStatement(perm, start, now, Some(other)),
                    LeakyChecks(perm, period, now, start, other, n - 1), (perm, start), n - 1);
    }
  }

  lemma PassesNoMore(s: System, key: Key)
    ensures PassesMore(s, [], key, 0)
  {
  }

  lemma RunCons(s: System, step: Step, rest: seq<Step>)
    requires Enabled(s, step) && Legal(Apply(s, step), rest)
    ensures Legal(s, [step] + rest)
    ensures Exec(s, [step] + rest) == Exec(Apply(s, step), rest)
  {
    assert ([step] + rest)[1..] == rest;
  }

  lemma RunTwo(s: System, first: Step, second: Step, rest: seq<Step>)
    requires Enabled(s, first) && Enabled(Apply(s, first), second)
    requires Legal(Apply(Apply(s, first), second), rest)
    ensures Legal(s, [first, second] + rest)
    ensures Exec(s, [first, second] + rest) == Exec(Apply(Apply(s, first), second), rest)
  {
    RunCons(Apply(s, first), second, rest);
    RunCons(s, first, [second] + rest);
    assert [first, second] + rest == [first] + ([second] + rest);
  }

  /** A row of the earlier period with room, a counter of the later one with a ceiling of one, and `n` leaky Checks. */
  function LeakySteps(perm: string, earlier: string, before: int, later: string, now: int, n: nat): seq<Step> {
    [FirstStatement(perm, earlier, before, 2), FirstStatement(perm, later, now, 1)]
    + LeakyChecks(perm, later, now, PeriodBounds(later, now).start, PeriodBounds(earlier, before).start, n)
  }

  /** The steps are a run after which `n + 1` Checks passed under a ceiling of one, and the row counts one. */
  ghost predicate ExceedsBy(steps: seq<Step>, key: Key, n: nat) {
    && Legal(Init(), steps)
    && var s := Exec(Init(), steps);
       var t := TallyOf(s, key);
       t.first == 1 && t.passed == 1 + n && key in s.rows && s.rows[key].used == 1
  }

  /**
   The ceiling is not kept beside an older row: for any two periods and instants such that the
   bounds of the first hold the second instant and the two start apart, a run in which any
   number of Checks pass under a ceiling of one.
   */
  lemma OlderRowLeaks(perm: string, earlier: string, before: int, later: string, now: int, n: nat)
    requires var a, b := PeriodBounds(earlier, before), PeriodBounds(later, now);
             a.start != b.start && a.start <= now <= a.end
    ensures ExceedsBy(LeakySteps(perm, earlier, before, later, now, n), (perm, PeriodBounds(later, now).start), n)
  {
    var a, b := PeriodBounds(earlier, before), PeriodBounds(later, now);
    var first, second := FirstStatement(perm, earlier, before, 2), FirstStatement(perm, later, now, 1);
    var s1 := Apply(Init(), first);
    assert s1.rows == map[(perm, a.start) := Row(a.end, 2, 1)];
    var s2 := Apply(s1, second);
    assert (perm, b.start) !in s1.rows;
    assert s2.rows[(perm, a.start)] == Row(a.end, 2, 1) && s2.rows[(perm, b.start)].used == 1;
    LeakyRun(s2, perm, later, now, b.start, a.start, n);
    RunTwo(Init(), first, second, LeakyChecks(perm, later, now, b.start, a.start, n));
  }

  /** Without a change of period: at the first instant of the next period. */
  lemma BoundaryLeaks(perm: string, period: string, now: int, n: nat)
    ensures var b := PeriodBounds(period, now);
            ExceedsBy(LeakySteps(perm, period, now, period, b.end, n), (perm, b.end), n)
  {
    PeriodIsShared(period, now, now);
    PeriodsTile(period, now);
    OlderRowLeaks(perm, period, now, period, PeriodBounds(period, now).end, n);
  }

  /**
   With a change of period: at every instant of the day after its first hour, from daily to
   hourly, also strictly inside the hour.
   */
  lemma ChangedPeriodLeaks(perm: string, now: int, n: nat)
    requires now % DAY >= HOUR
    ensures ExceedsBy(LeakySteps(perm, "daily", now, "hourly", now, n), (perm, PeriodBounds("hourly", now).start), n)
  {
    BoundsAre("daily", now);
    BoundsAre("hourly", now);
    PeriodIsShared("daily", now, now);
    StartsApart(now);
    OlderRowLeaks(perm, "daily", now, "hourly", now, n);
  }

  lemma StartsApart(now: int)
    requires now % DAY >= HOUR
    ensures now / DAY * DAY != now / HOUR * HOUR
  {
    assert now == now / DAY * DAY + now % DAY;
    assert now == now / HOUR * HOUR + now % HOUR;
  }

  /** A ceiling below one is exceeded: its first Check passes. */
  lemma CeilingBelowOne(perm: string, period: string, now: int, ceiling: int)
    requires ceiling < 1
    ensures var s := Apply(Init(), FirstStatement(perm, period, now, ceiling));
            TallyOf(s, (perm, PeriodBounds(period, now).start)).passed == 1 > ceiling
  {
  }
}
