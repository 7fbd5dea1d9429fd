/**
 The sliding-window rate limiter of the email proxy.  `Allow` prunes the list of
 a key in place; the reference it is measured against is the full history of
 allowed calls, which the limiter never keeps.
 */
module RateLimit {
  const MINUTE: int := 60_000_000_000

  /** The calls after a cutoff, in order. */
  function After(ts: seq<int>, cutoff: int): seq<int> {
    if ts == [] then [] else (if ts[0] > cutoff then [ts[0]] else []) + After(ts[1..], cutoff)
  }

  function KeyOf(agent: string, service: string): string {
    agent + "\0" + service
  }

  lemma {:induction false} AfterConcat(a: seq<int>, b: seq<int>, cutoff: int)
    ensures After(a + b, cutoff) == After(a, cutoff) + After(b, cutoff)
  {
    if a == [] {
      assert a + b == b;
    } else {
      assert (a + b)[1..] == a[1..] + b;
      AfterConcat(a[1..], b, cutoff);
    }
  }

  lemma AfterSnoc(ts: seq<int>, i: nat, cutoff: int)
    requires i < |ts|
    ensures After(ts[..i + 1], cutoff) == After(ts[..i], cutoff) + (if ts[i] > cutoff then [ts[i]] else [])
  {
    assert ts[..i + 1] == ts[..i] + [ts[i]];
    AfterConcat(ts[..i], [ts[i]], cutoff);
    assert [ts[i]][1..] == [];
  }

  lemma {:induction false} AfterLength(ts: seq<int>, cutoff: int)
    ensures |After(ts, cutoff)| <= |ts|
  {
    if ts != [] { AfterLength(ts[1..], cutoff); }
  }

  /** Prunes the first `n` elements of `a` over the same array, as appending to `ts[:0]` does. */
  method PruneInPlace(a: array<int>, n: nat, cutoff: int) returns (kept: nat)
    requires n <= a.Length
    modifies a
    ensures kept <= n && a[..kept] == After(old(a[..n]), cutoff)
  {
    ghost var ts := a[..n];
    kept := 0;
    var i := 0;
    while i < n
      invariant 0 <= kept <= i <= n
      invariant a[..kept] == After(ts[..i], cutoff)
      invariant a[i..n] == ts[i..]
    {
      AfterSnoc(ts, i, cutoff);
      var t := a[i];
      assert t == a[i..n][0] == ts[i..][0];
      assert a[i + 1..n] == a[i..n][1..];
      if t > cutoff {
        ghost var before := a[..kept];
        a[kept] := t;
        assert a[..kept + 1] == before + [t];
        kept := kept + 1;
      }
      i := i + 1;
    }
    assert ts[..n] == ts;
  }

  class RateLimiter {
    var windows: map<string, seq<int>>

    constructor ()
      ensures windows == map[]
    {
      windows := map[];
    }

    /** `Allow`: true when the call is within the limit. */
    method Allow(agent: string, service: string, limit: int, now: int) returns (ok: bool)
      modifies this
      ensures var key := KeyOf(agent, service);
              var ts := if key in old(windows) then old(windows)[key] else [];
              var live := After(ts, now - MINUTE);
              && (limit == 0 ==> !ok && windows == old(windows))
              && (limit != 0 ==> ok == (|live| < limit))
              && (limit != 0 ==> windows == old(windows)[key := if ok then live + [now] else live])
    {
      if limit == 0 { return false; }
      var key := KeyOf(agent, service);
      var ts := if key in windows then windows[key] else [];
      var a := new int[|ts|](i requires 0 <= i < |ts| => ts[i]);
      assert a[..|ts|] == ts;
      var kept := PruneInPlace(a, |ts|, now - MINUTE);
      var pruned := a[..kept];
      if |pruned| >= limit {
        windows := windows[key := pruned];
        return false;
      }
      windows := windows[key := pruned + [now]];
      return true;
    }
  }

  // ------------------------------------------------ the limiter and the history

  /** A call with the clock reading it took before the lock. */
  datatype Call = Call(agent: string, service: string, limit: int, now: int)

  /**
   The limiter, with what it does not store, by key: all allowed calls, those of them
   it has pruned, and the latest cutoff used.
   */
  datatype State = State(windows: map<string, seq<int>>, history: map<string, seq<int>>, dropped: map<string, seq<int>>,
                         cutoffs: map<string, int>)

  function Init(): State { State(map[], map[], map[], map[]) }

  function Window(s: State, key: string): seq<int> { if key in s.windows then s.windows[key] else [] }
  function History(s: State, key: string): seq<int> { if key in s.history then s.history[key] else [] }
  function Dropped(s: State, key: string): seq<int> { if key in s.dropped then s.dropped[key] else [] }

  /** The calls up to a cutoff, in order: what pruning takes away. */
  function Until(ts: seq<int>, cutoff: int): seq<int> {
    if ts == [] then [] else (if ts[0] > cutoff then [] else [ts[0]]) + Until(ts[1..], cutoff)
  }

  /** `Allow`'s decision, on the pruned list. */
  predicate Allows(s: State, call: Call) {
    call.limit != 0 && |After(Window(s, KeyOf(call.agent, call.service)), call.now - MINUTE)| < call.limit
  }

  /** The decision a limiter with the whole history would take. */
  predicate ReferenceAllows(s: State, call: Call) {
    call.limit != 0 && |After(History(s, KeyOf(call.agent, call.service)), call.now - MINUTE)| < call.limit
  }

  function Apply(s: State, call: Call): State {
    var key, cutoff := KeyOf(call.agent, call.service), call.now - MINUTE;
    var live := After(Window(s, key), cutoff);
    if call.limit == 0 then s
    else
      var ok := Allows(s, call);
      State(s.windows[key := if ok then live + [call.now] else live],
            if ok then s.history[key := History(s, key) + [call.now]] else s.history,
            s.dropped[key := Dropped(s, key) + Until(Window(s, key), cutoff)],
            s.cutoffs[key := if key in s.cutoffs && s.cutoffs[key] > cutoff then s.cutoffs[key] else cutoff])
  }

  function Exec(s: State, calls: seq<Call>): State
    decreases |calls|
  {
    if calls == [] then s else Exec(Apply(s, calls[0]), calls[1..])
  }

  /** The list is the history after the latest cutoff; it is empty for a key never seen. */
  predicate Pruned(s: State, key: string) {
    if key in s.cutoffs then Window(s, key) == After(History(s, key), s.cutoffs[key])
    else Window(s, key) == [] && History(s, key) == []
  }

  lemma {:induction false} AfterTwice(ts: seq<int>, a: int, b: int)
    ensures After(After(ts, a), b) == After(ts, if a > b then a else b)
  {
    if ts != [] {
      AfterTwice(ts[1..], a, b);
      var rest := After(ts[1..], a);
      if ts[0] > a {
        assert After(ts, a) == [ts[0]] + rest;
        AfterConcat([ts[0]], rest, b);
        assert [ts[0]][1..] == [];
      } else {
        assert After(ts, a) == rest;
      }
    }
  }

  /** No call lies in (a, b]. */
  predicate NoneIn(ts: seq<int>, a: int, b: int) {
    forall i :: 0 <= i < |ts| ==> !(a < ts[i] <= b)
  }

  lemma NoneInCons(ts: seq<int>, a: int, b: int)
    requires ts != []
    ensures NoneIn(ts, a, b) <==> !(a < ts[0] <= b) && NoneIn(ts[1..], a, b)
  {
    assert forall i :: 1 <= i < |ts| ==> ts[i] == ts[1..][i - 1];
  }

  lemma {:induction false} SameAfter(ts: seq<int>, a: int, b: int)
    requires a <= b
    ensures |After(ts, b)| <= |After(ts, a)|
    ensures |After(ts, a)| == |After(ts, b)| <==> NoneIn(ts, a, b)
  {
    if ts != [] {
      SameAfter(ts[1..], a, b);
      NoneInCons(ts, a, b);
    }
  }

  /** As long as no reading is a minute behind an earlier one, the list stays the history after the latest cutoff. */
  lemma StepPruned(s: State, call: Call, key: string)
    requires Pruned(s, key)
    requires key == KeyOf(call.agent, call.service) && key in s.cutoffs ==> call.now > s.cutoffs[key]
    ensures Pruned(Apply(s, call), key)
  {
    StepEffect(s, call, key);
    if KeyOf(call.agent, call.service) == key && call.limit != 0 {
      var cutoff := Apply(s, call).cutoffs[key];
      if key in s.cutoffs { AfterTwice(History(s, key), s.cutoffs[key], call.now - MINUTE); }
      assert After(Window(s, key), call.now - MINUTE) == After(History(s, key), cutoff);
      LastKept(History(s, key), call.now, cutoff);
    }
  }

  /** What a call does to the books of one key. */
  lemma StepEffect(s: State, call: Call, key: string)
    ensures var s', cutoff := Apply(s, call), call.now - MINUTE;
            if KeyOf(call.agent, call.service) == key && call.limit != 0 then
              var live := After(Window(s, key), cutoff);
              && Window(s', key) == (if Allows(s, call) then live + [call.now] else live)
              && History(s', key) == (if Allows(s, call) then History(s, key) + [call.now] else History(s, key))
              && Dropped(s', key) == Dropped(s, key) + Until(Window(s, key), cutoff)
              && key in s'.cutoffs
              && s'.cutoffs[key] == (if key in s.cutoffs && s.cutoffs[key] > cutoff then s.cutoffs[key] else cutoff)
            else
              && Window(s', key) == Window(s, key) && History(s', key) == History(s, key)
              && Dropped(s', key) == Dropped(s, key)
              && (key in s'.cutoffs <==> key in s.cutoffs) && (key in s.cutoffs ==> s'.cutoffs[key] == s.cutoffs[key])
  {
  }

  lemma LastKept(ts: seq<int>, now: int, cutoff: int)
    requires now > cutoff
    ensures After(ts + [now], cutoff) == After(ts, cutoff) + [now]
  {
    AfterConcat(ts, [now], cutoff);
    assert [now][1..] == [];
  }

  // ---------------------------------------------------------- any clock at all

  lemma {:induction false} PruneSplits(ts: seq<int>, cutoff: int, x: int)
    ensures |After(After(ts, cutoff), x)| + |After(Until(ts, cutoff), x)| == |After(ts, x)|
    decreases |ts|
  {
    if ts != [] {
      PruneSplits(ts[1..], cutoff, x);
      var kept, gone := After(ts[1..], cutoff), Until(ts[1..], cutoff);
      var none: seq<int> := [];
      assert none + kept == kept && none + gone == gone;
      AfterConcat([ts[0]], kept, x);
      AfterConcat([ts[0]], gone, x);
      assert [ts[0]][1..] == [];
    }
  }

  /** Whatever the readings, an allowed call is in the list or among the dropped ones. */
  ghost predicate Book(s: State, key: string, x: int) {
    |After(Window(s, key), x)| + |After(Dropped(s, key), x)| == |After(History(s, key), x)|
  }

  lemma StepBook(s: State, call: Call, key: string, x: int)
    requires Book(s, key, x)
    ensures Book(Apply(s, call), key, x)
  {
    var cutoff := call.now - MINUTE;
    StepEffect(s, call, key);
    if KeyOf(call.agent, call.service) == key && call.limit != 0 {
      PruneSplits(Window(s, key), cutoff, x);
      AfterConcat(Dropped(s, key), Until(Window(s, key), cutoff), x);
      AfterConcat(After(Window(s, key), cutoff), [call.now], x);
      AfterConcat(History(s, key), [call.now], x);
    }
  }

  lemma {:induction false} RunBook(s: State, calls: seq<Call>, key: string, x: int)
    requires Book(s, key, x)
    ensures Book(Exec(s, calls), key, x)
    decreases |calls|
  {
    if calls != [] {
      StepBook(s, calls[0], key, x);
      RunBook(Apply(s, calls[0]), calls[1..], key, x);
    }
  }

  lemma {:induction false} AfterIsEmpty(ts: seq<int>, x: int)
    ensures After(ts, x) == [] <==> UpTo(ts, x)
    decreases |ts|
  {
    if ts != [] {
      AfterIsEmpty(ts[1..], x);
      assert forall i :: 1 <= i < |ts| ==> ts[i] == ts[1..][i - 1];
    }
  }

  /**
   In every run, whatever its clock readings: the list counts the caller's minute as the
   whole history does if and only if no call pruned so far lies in that minute.
   */
  lemma CountAgrees(calls: seq<Call>, call: Call)
    ensures var s, key, cutoff := Exec(Init(), calls), KeyOf(call.agent, call.service), call.now - MINUTE;
            |After(Window(s, key), cutoff)| == |After(History(s, key), cutoff)| <==> UpTo(Dropped(s, key), cutoff)
  {
    var s, key, cutoff := Exec(Init(), calls), KeyOf(call.agent, call.service), call.now - MINUTE;
    RunBook(Init(), calls, key, cutoff);
    AfterIsEmpty(Dropped(s, key), cutoff);
  }

  /** For readings less than a minute behind: no allowed call lies between this cutoff and the latest one. */
  lemma PrunedCount(s: State, call: Call)
    requires Pruned(s, KeyOf(call.agent, call.service))
    ensures var key, cutoff := KeyOf(call.agent, call.service), call.now - MINUTE;
            |After(Window(s, key), cutoff)| == |After(History(s, key), cutoff)| <==>
            (key in s.cutoffs ==> NoneIn(History(s, key), cutoff, s.cutoffs[key]))
  {
    var key, cutoff := KeyOf(call.agent, call.service), call.now - MINUTE;
    if key in s.cutoffs {
      AfterTwice(History(s, key), s.cutoffs[key], cutoff);
      if cutoff <= s.cutoffs[key] { SameAfter(History(s, key), cutoff, s.cutoffs[key]); }
    }
  }

  // --------------------------------------------------- non-decreasing readings

  predicate Ordered(calls: seq<Call>) {
    forall i, j :: 0 <= i < j < |calls| ==> calls[i].now <= calls[j].now
  }

  predicate UpTo(ts: seq<int>, last: int) {
    forall i :: 0 <= i < |ts| ==> ts[i] <= last
  }

  predicate Sorted(ts: seq<int>) {
    forall i, j :: 0 <= i < j < |ts| ==> ts[i] <= ts[j]
  }

  /** The clock has reached `clock`: cutoffs are a minute behind it and allowed calls are in its past. */
  ghost predicate Behind(s: State, clock: int) {
    && (forall key: string :: key in s.cutoffs ==> s.cutoffs[key] <= clock - MINUTE)
    && (forall key: string :: Pruned(s, key) && Sorted(History(s, key)) && UpTo(History(s, key), clock))
  }

  /** With non-decreasing readings the decision on the pruned list is the decision on the whole history. */
  lemma DecisionAgrees(s: State, call: Call, clock: int)
    requires Behind(s, clock) && clock <= call.now
    ensures Allows(s, call) <==> ReferenceAllows(s, call)
  {
    assert Pruned(s, KeyOf(call.agent, call.service));
    PrunedCount(s, call);
  }

  lemma StepBehind(s: State, call: Call, clock: int)
    requires Behind(s, clock) && clock <= call.now
    ensures Behind(Apply(s, call), call.now)
  {
    var s' := Apply(s, call);
    forall key: string ensures Pruned(s', key) && Sorted(History(s', key)) && UpTo(History(s', key), call.now) {
      assert Pruned(s, key) && Sorted(History(s, key)) && UpTo(History(s, key), clock);
      StepPruned(s, call, key);
      StepSorted(s, call, clock, key);
    }
    forall key: string | key in s'.cutoffs ensures s'.cutoffs[key] <= call.now - MINUTE {
      assert key in s.cutoffs ==> s.cutoffs[key] <= clock - MINUTE;
    }
  }

  lemma StepSorted(s: State, call: Call, clock: int, key: string)
    requires Sorted(History(s, key)) && UpTo(History(s, key), clock) && clock <= call.now
    ensures var h := History(Apply(s, call), key); Sorted(h) && UpTo(h, call.now)
  {
    StepEffect(s, call, key);
    SortedSnoc(History(s, key), clock, call.now);
  }

  lemma SortedSnoc(h: seq<int>, clock: int, now: int)
    requires Sorted(h) && UpTo(h, clock) && clock <= now
    ensures UpTo(h, now) && Sorted(h + [now]) && UpTo(h + [now], now)
  {
  }

  /** The limiter that keeps everything, as a function of the history alone. */
  function RefExec(s: State, calls: seq<Call>): map<string, seq<int>>
    decreases |calls|
  {
    if calls == [] then s.history
    else
      var call := calls[0];
      var key := KeyOf(call.agent, call.service);
      if ReferenceAllows(s, call) then RefExec(s.(history := s.history[key := History(s, key) + [call.now]]), calls[1..])
      else RefExec(s, calls[1..])
  }

  lemma {:induction false} RefIgnoresWindows(a: State, b: State, calls: seq<Call>)
    requires a.history == b.history
    ensures RefExec(a, calls) == RefExec(b, calls)
    decreases |calls|
  {
    if calls != [] {
      var call := calls[0];
      var key := KeyOf(call.agent, call.service);
      var h := a.history[key := History(a, key) + [call.now]];
      if ReferenceAllows(a, call) {
        RefIgnoresWindows(a.(history := h), b.(history := h), calls[1..]);
      } else {
        RefIgnoresWindows(a, b, calls[1..]);
      }
    }
  }

  function LastReading(calls: seq<Call>, clock: int): int {
    if calls == [] then clock else calls[|calls| - 1].now
  }

  lemma {:induction false} RunAgrees(s: State, calls: seq<Call>, clock: int)
    requires Behind(s, clock) && Ordered(calls) && (forall i :: 0 <= i < |calls| ==> clock <= calls[i].now)
    ensures Exec(s, calls).history == RefExec(s, calls)
    ensures Behind(Exec(s, calls), LastReading(calls, clock))
    decreases |calls|
  {
    if calls != [] {
      var call := calls[0];
      var key := KeyOf(call.agent, call.service);
      DecisionAgrees(s, call, clock);
      StepBehind(s, call, clock);
      RunAgrees(Apply(s, call), calls[1..], call.now);
      if Allows(s, call) {
        RefIgnoresWindows(Apply(s, call), s.(history := s.history[key := History(s, key) + [call.now]]), calls[1..]);
      } else {
        RefIgnoresWindows(Apply(s, call), s, calls[1..]);
      }
    }
  }

  /** In every ordered run the limiter allows exactly the calls the full history allows. */
  lemma LimiterIsExact(calls: seq<Call>)
    requires Ordered(calls)
    ensures Exec(Init(), calls).history == RefExec(Init(), calls)
  {
    if calls != [] {
      StartsBehind(calls[0].now);
      RunAgrees(Init(), calls, calls[0].now);
    }
  }

  lemma StartsBehind(clock: int)
    ensures Behind(Init(), clock)
  {
  }

  lemma {:induction false} ExecConcat(s: State, a: seq<Call>, b: seq<Call>)
    ensures Exec(s, a + b) == Exec(Exec(s, a), b)
    decreases |a|
  {
    if a == [] {
      assert a + b == b;
    } else {
      assert (a + b)[1..] == a[1..] + b;
      ExecConcat(Apply(s, a[0]), a[1..], b);
    }
  }

  ghost predicate NotBefore(calls: seq<Call>, clock: int) {
    forall i :: 0 <= i < |calls| ==> clock <= calls[i].now
  }

  lemma DropDenied(s: State, call: Call, after: seq<Call>, clock: int)
    requires Behind(s, clock) && clock <= call.now && !Allows(s, call)
    requires Ordered(after) && NotBefore(after, call.now)
    ensures Exec(s, [call] + after).history == Exec(s, after).history
  {
    StepBehind(s, call, clock);
    RunAgrees(Apply(s, call), after, call.now);
    RunAgrees(s, after, clock);
    RefIgnoresWindows(Apply(s, call), s, after);
    assert ([call] + after)[1..] == after;
  }

  lemma OrderedParts(before: seq<Call>, call: Call, after: seq<Call>)
    requires Ordered(before + ([call] + after))
    ensures Ordered(before) && Ordered(after) && NotBefore(after, call.now)
    ensures LastReading(before, call.now) <= call.now
    ensures before != [] ==> NotBefore(before, before[0].now)
  {
    var calls := before + ([call] + after);
    assert forall i :: 0 <= i < |before| ==> calls[i] == before[i];
    assert forall i :: 0 <= i < |after| ==> calls[|before| + 1 + i] == after[i];
    assert calls[|before|] == call;
  }

  /** A denied call uses no quota: an ordered run without it allows the same calls. */
  lemma DeniedUsesNoQuota(before: seq<Call>, call: Call, after: seq<Call>)
    requires Ordered(before + ([call] + after)) && !Allows(Exec(Init(), before), call)
    ensures Exec(Init(), before + ([call] + after)).history == Exec(Init(), before + after).history
  {
    OrderedParts(before, call, after);
    var start := if before == [] then call.now else before[0].now;
    StartsBehind(start);
    RunAgrees(Init(), before, start);
    DropDenied(Exec(Init(), before), call, after, LastReading(before, start));
    ExecConcat(Init(), before, [call] + after);
    ExecConcat(Init(), before, after);
  }

  // ------------------------------------------------------------ the window law

  /** How many calls fall in the half-open minute that starts after `a`. */
  function InMinute(ts: seq<int>, a: int): nat {
    if ts == [] then 0
    else InMinute(ts[..|ts| - 1], a) + (if a < ts[|ts| - 1] <= a + MINUTE then 1 else 0)
  }

  /** Each call found at most `limit` calls, itself included, in the minute up to it. */
  ghost predicate Trailing(ts: seq<int>, limit: int) {
    forall j :: 0 <= j < |ts| ==> |After(ts[..j + 1], ts[j] - MINUTE)| <= limit
  }

  lemma {:induction false} InMinuteIsAfter(ts: seq<int>, a: int)
    requires UpTo(ts, a + MINUTE)
    ensures InMinute(ts, a) == |After(ts, a)|
  {
    if ts != [] {
      var n := |ts| - 1;
      InMinuteIsAfter(ts[..n], a);
      AfterSnoc(ts, n, a);
      assert ts[..n + 1] == ts;
    }
  }

  lemma TrailingPrefix(ts: seq<int>, limit: int, n: nat)
    requires Trailing(ts, limit) && n <= |ts|
    ensures Trailing(ts[..n], limit)
  {
    forall j | 0 <= j < n ensures |After(ts[..n][..j + 1], ts[..n][j] - MINUTE)| <= limit {
      assert ts[..n][..j + 1] == ts[..j + 1];
    }
  }

  lemma {:induction false} MinuteBound(ts: seq<int>, limit: int, a: int)
    requires Sorted(ts) && Trailing(ts, limit) && limit >= 0
    ensures InMinute(ts, a) <= limit
  {
    if ts != [] {
      var n := |ts| - 1;
      if ts[n] > a + MINUTE {
        TrailingPrefix(ts, limit, n);
        MinuteBound(ts[..n], limit, a);
      } else {
        LastMinute(ts, limit, a);
      }
    }
  }

  lemma LastMinute(ts: seq<int>, limit: int, a: int)
    requires ts != [] && Sorted(ts) && Trailing(ts, limit) && ts[|ts| - 1] <= a + MINUTE
    ensures InMinute(ts, a) <= limit
  {
    var n := |ts| - 1;
    assert ts[..n + 1] == ts;
    assert |After(ts[..n + 1], ts[n] - MINUTE)| <= limit;
    InMinuteIsAfter(ts, a);
    SameAfter(ts, ts[n] - MINUTE, a);
  }

  ghost predicate Within(s: State, key: string, limit: int) {
    Trailing(History(s, key), limit)
  }

  lemma StepWithin(s: State, call: Call, key: string, limit: int, clock: int)
    requires Behind(s, clock) && clock <= call.now && Within(s, key, limit)
    requires KeyOf(call.agent, call.service) == key ==> call.limit <= limit
    ensures Within(Apply(s, call), key, limit)
  {
    StepEffect(s, call, key);
    if KeyOf(call.agent, call.service) == key && Allows(s, call) {
      DecisionAgrees(s, call, clock);
      TrailingSnoc(History(s, key), call.now, limit);
    }
  }

  lemma TrailingSnoc(ts: seq<int>, now: int, limit: int)
    requires Trailing(ts, limit) && |After(ts, now - MINUTE)| < limit
    ensures Trailing(ts + [now], limit)
  {
    var ts' := ts + [now];
    LastKept(ts, now, now - MINUTE);
    forall j | 0 <= j < |ts'| ensures |After(ts'[..j + 1], ts'[j] - MINUTE)| <= limit {
      if j < |ts| {
        assert ts'[..j + 1] == ts[..j + 1];
      } else {
        assert ts'[..j + 1] == ts';
      }
    }
  }

  lemma {:induction false} RunWithin(s: State, calls: seq<Call>, key: string, limit: int, clock: int)
    requires Behind(s, clock) && Ordered(calls) && (forall i :: 0 <= i < |calls| ==> clock <= calls[i].now)
    requires Within(s, key, limit)
    requires forall i :: 0 <= i < |calls| && KeyOf(calls[i].agent, calls[i].service) == key ==> calls[i].limit <= limit
    ensures Within(Exec(s, calls), key, limit) && Sorted(History(Exec(s, calls), key))
    decreases |calls|
  {
    if calls == [] {
      assert Sorted(History(s, key));
    } else {
      StepWithin(s, calls[0], key, limit, clock);
      StepBehind(s, calls[0], clock);
      RunWithin(Apply(s, calls[0]), calls[1..], key, limit, calls[0].now);
    }
  }

  /**
   In every ordered run in which the calls of a key carry at most the limit L, no
   half-open minute (a, a + 1 min] ever holds more than L allowed calls.
   */
  lemma NoMinuteExceedsLimit(calls: seq<Call>, key: string, limit: int, a: int)
    requires Ordered(calls) && limit >= 0
    requires forall i :: 0 <= i < |calls| && KeyOf(calls[i].agent, calls[i].service) == key ==> calls[i].limit <= limit
    ensures InMinute(History(Exec(Init(), calls), key), a) <= limit
  {
    if calls != [] {
      StartsBehind(calls[0].now);
      RunWithin(Init(), calls, key, limit, calls[0].now);
    }
    MinuteBound(History(Exec(Init(), calls), key), limit, a);
  }

  /**
   A reading that goes back lets a minute exceed the limit, because the later
   reading pruned what the earlier one should count: with a limit of two, three
   calls pass within one minute.
   */
  lemma BackwardClockExceeds(agent: string, service: string)
    ensures var at := (now: int) => Call(agent, service, 2, now);
            var calls := [at(0), at(0), at(MINUTE), at(1)];
            InMinute(History(Exec(Init(), calls), KeyOf(agent, service)), -1) == 3
  {
    var key := KeyOf(agent, service);
    var c0, c2, c3 := Call(agent, service, 2, 0), Call(agent, service, 2, MINUTE), Call(agent, service, 2, 1);
    var s1 := Apply(Init(), c0);
    var s2 := Apply(s1, c0);
    TwoAtZero(agent, service);
    var s3 := Apply(s2, c2);
    var s4 := Apply(s3, c3);
    AfterPruning(s2, agent, service);
    ThreeInMinute();
    assert Exec(s3, [c3]) == s4 by { assert [c3][1..] == []; }
    assert Exec(s2, [c2, c3]) == s4 by { assert [c2, c3][1..] == [c3]; }
    assert Exec(s1, [c0, c2, c3]) == s4 by { assert [c0, c2, c3][1..] == [c2, c3]; }
    assert Exec(Init(), [c0, c0, c2, c3]) == s4 by { assert [c0, c0, c2, c3][1..] == [c0, c2, c3]; }
  }

  lemma TwoAtZero(agent: string, service: string)
    ensures var c0, key := Call(agent, service, 2, 0), KeyOf(agent, service);
            var s := Apply(Apply(Init(), c0), c0);
            Window(s, key) == [0, 0] && History(s, key) == [0, 0]
  {
    var s1 := Apply(Init(), Call(agent, service, 2, 0));
    assert Window(s1, KeyOf(agent, service)) == [0];
    assert After([0], -MINUTE) == [0];
  }

  lemma AfterPruning(s: State, agent: string, service: string)
    requires Window(s, KeyOf(agent, service)) == [0, 0] && History(s, KeyOf(agent, service)) == [0, 0]
    ensures var s' := Apply(Apply(s, Call(agent, service, 2, MINUTE)), Call(agent, service, 2, 1));
            History(s', KeyOf(agent, service)) == [0, 0, MINUTE, 1]
  {
    var s3 := Apply(s, Call(agent, service, 2, MINUTE));
    assert [0, 0][1..] == [0] && After([0, 0], 0) == [];
    assert Window(s3, KeyOf(agent, service)) == [MINUTE];
    assert After([MINUTE], 1 - MINUTE) == [MINUTE];
  }

  lemma ThreeInMinute()
    ensures InMinute([0, 0, MINUTE, 1], -1) == 3
  {
    var ts := [0, 0, MINUTE, 1];
    assert ts[..3] == [0, 0, MINUTE] && ts[..3][..2] == [0, 0] && ts[..3][..2][..1] == [0];
    assert InMinute([0], -1) == 1 && InMinute([0, 0], -1) == 2 && InMinute(ts[..3], -1) == 2;
  }

  // ------------------------------------------------------------------ the keys

  /** Agents without a NUL never share a key, whatever their services. */
  lemma {:induction false} KeysAreDistinct(a: string, s: string, b: string, t: string)
    requires '\0' !in a && '\0' !in b
    ensures KeyOf(a, s) == KeyOf(b, t) <==> a == b && s == t
  {
    if KeyOf(a, s) == KeyOf(b, t) {
      var k := KeyOf(a, s);
      assert k[|a|] == '\0' && k[|b|] == '\0';
      assert forall i :: 0 <= i < |a| ==> k[i] == a[i];
      assert forall i :: 0 <= i < |b| ==> k[i] == b[i];
      assert |a| == |b|;
      assert a == k[..|a|] && b == k[..|b|] && s == k[|a| + 1..] && t == k[|b| + 1..];
    }
  }

  /** The calls of one pair, in order. */
  function OfPair(calls: seq<Call>, agent: string, service: string): seq<Call> {
    if calls == [] then []
    else (if calls[0].agent == agent && calls[0].service == service then [calls[0]] else [])
         + OfPair(calls[1..], agent, service)
  }

  ghost predicate SameKey(s: State, t: State, key: string) {
    Window(s, key) == Window(t, key) && History(s, key) == History(t, key)
  }

  /** A call leaves the list and the history of every other key alone, and looks at its own only. */
  lemma StepOfKey(s: State, t: State, call: Call, key: string)
    requires SameKey(s, t, key)
    ensures KeyOf(call.agent, call.service) != key ==> SameKey(Apply(s, call), t, key)
    ensures KeyOf(call.agent, call.service) == key ==>
              SameKey(Apply(s, call), Apply(t, call), key) && (Allows(s, call) <==> Allows(t, call))
  {
  }

  lemma {:induction false} RunOfPair(s: State, t: State, calls: seq<Call>, agent: string, service: string)
    requires SameKey(s, t, KeyOf(agent, service)) && '\0' !in agent
    requires forall i :: 0 <= i < |calls| ==> '\0' !in calls[i].agent
    ensures SameKey(Exec(s, calls), Exec(t, OfPair(calls, agent, service)), KeyOf(agent, service))
    decreases |calls|
  {
    if calls != [] {
      var call, rest := calls[0], OfPair(calls[1..], agent, service);
      StepOfKey(s, t, call, KeyOf(agent, service));
      KeysAreDistinct(agent, service, call.agent, call.service);
      assert forall i :: 0 <= i < |calls[1..]| ==> calls[1..][i] == calls[i + 1];
      if call.agent == agent && call.service == service {
        RunOfPair(Apply(s, call), Apply(t, call), calls[1..], agent, service);
        assert ([call] + rest)[1..] == rest;
      } else {
        RunOfPair(Apply(s, call), t, calls[1..], agent, service);
        var none: seq<Call> := [];
        assert none + rest == rest;
      }
    }
  }

  /**
   Agents without a NUL: in every run, the decisions for a pair are those of the run
   with this pair's calls alone.
   */
  lemma PairsDoNotInterfere(calls: seq<Call>, call: Call)
    requires '\0' !in call.agent && forall i :: 0 <= i < |calls| ==> '\0' !in calls[i].agent
    ensures var own, key := OfPair(calls, call.agent, call.service), KeyOf(call.agent, call.service);
            && (Allows(Exec(Init(), calls), call) <==> Allows(Exec(Init(), own), call))
            && History(Exec(Init(), calls), key) == History(Exec(Init(), own), key)
  {
    RunOfPair(Init(), Init(), calls, call.agent, call.service);
    StepOfKey(Exec(Init(), calls), Exec(Init(), OfPair(calls, call.agent, call.service)), call,
              KeyOf(call.agent, call.service));
  }
}
