/**
 The JWKS cache of the email proxy: the refresh and force-refresh limits and the
 freshness of the keys it hands out.  Instants are nanoseconds; a zero `time.Time`
 is `None`, and the network is a parameter.
 */
module Jwks {
  import opened Basics

  const SECOND: int := 1_000_000_000
  const REFRESH: int := 30 * SECOND
  const FORCE: int := 5 * SECOND
  const TTL: int := 300 * SECOND

  type PublicKey = seq<int>

  /** One key of the document; `x` is the decoded material, if it decodes. */
  datatype Jwk = Jwk(kid: string, kty: string, crv: string, x: Option<PublicKey>)

  /** What the GET gave: a failure of the request, the status or the body, or the parsed keys. */
  datatype Response = Failed | Document(jwks: seq<Jwk>)

  predicate IsEd25519(k: Jwk) { k.kty == "OKP" && k.crv == "Ed25519" }

  predicate IsUsable(k: Jwk) { k.x.Some? && |k.x.value| == 32 }

  /** Every Ed25519 key of the document is usable. */
  ghost predicate Accepted(r: Response) {
    r.Document? && forall i :: 0 <= i < |r.jwks| && IsEd25519(r.jwks[i]) ==> IsUsable(r.jwks[i])
  }

  /** `keys` holds, for each key id, the last Ed25519 key with that id, and nothing else. */
  ghost predicate KeysOf(jwks: seq<Jwk>, keys: map<string, PublicKey>) {
    && (forall kid :: kid in keys <==> exists i :: 0 <= i < |jwks| && IsEd25519(jwks[i]) && jwks[i].kid == kid)
    && (forall i :: 0 <= i < |jwks| && IsEd25519(jwks[i]) && IsUsable(jwks[i])
          && (forall j :: i < j < |jwks| && IsEd25519(jwks[j]) ==> jwks[j].kid != jwks[i].kid)
          ==> jwks[i].kid in keys && keys[jwks[i].kid] == jwks[i].x.value)
  }

  class Cache {
    var keys: map<string, PublicKey>
    var lastFetch: Option<int>
    var lastForceRefresh: Option<int>

    constructor ()
      ensures keys == map[] && lastFetch == None && lastForceRefresh == None
    {
      keys, lastFetch, lastForceRefresh := map[], None, None;
    }

    /** `Refresh`: at most one fetch per 30 s; any failure leaves the cache as it was. */
    method Refresh(now: int, response: Response, done: int) returns (ok: bool)
      modifies this`keys, this`lastFetch
      ensures var skips := old(lastFetch).Some? && now - old(lastFetch).value < REFRESH;
              && ok == (skips || Accepted(response))
              && (skips || !Accepted(response) ==> keys == old(keys) && lastFetch == old(lastFetch))
              && (!skips && Accepted(response) ==> lastFetch == Some(done) && KeysOf(response.jwks, keys))
    {
      if lastFetch.Some? && now - lastFetch.value < REFRESH { return true; }
      if response.Failed? { return false; }
      var jwks := response.jwks;
      var newKeys: map<string, PublicKey> := map[];
      var i := 0;
      while i < |jwks|
        invariant 0 <= i <= |jwks|
        invariant forall j :: 0 <= j < i && IsEd25519(jwks[j]) ==> IsUsable(jwks[j])
        invariant KeysOf(jwks[..i], newKeys)
        invariant keys == old(keys) && lastFetch == old(lastFetch)
      {
        if IsEd25519(jwks[i]) {
          if !(jwks[i].x.Some? && |jwks[i].x.value| == 32) { return false; }
          KeysStep(jwks, i, newKeys);
          newKeys := newKeys[jwks[i].kid := jwks[i].x.value];
        } else {
          KeysSkip(jwks, i, newKeys);
        }
        i := i + 1;
      }
      assert jwks[..i] == jwks;
      keys, lastFetch := newKeys, Some(done);
      return true;
    }

    /** The first critical section of `ForceRefresh`; the caller then runs Refresh unless throttled. */
    method BeginForce(now: int, later: int) returns (throttled: bool)
      modifies this`lastFetch, this`lastForceRefresh
      ensures throttled <==> old(lastForceRefresh).Some? && now - old(lastForceRefresh).value < FORCE
      ensures throttled ==> lastFetch == old(lastFetch) && lastForceRefresh == old(lastForceRefresh)
      ensures !throttled ==> lastFetch == None && lastForceRefresh == Some(later)
    {
      if lastForceRefresh.Some? && now - lastForceRefresh.value < FORCE { return true; }
      lastFetch, lastForceRefresh := None, Some(later);
      return false;
    }

    /** `GetKey` with nothing in between its critical sections. */
    method GetKey(kid: string, now: int, check: int, response: Response, done: int) returns (key: Option<PublicKey>)
      requires now <= check <= done
      modifies this`keys, this`lastFetch
      ensures key.Some? ==> kid in keys && key.value == keys[kid] && lastFetch.Some?
      ensures var fast := kid in old(keys) && old(lastFetch).Some? && now - old(lastFetch).value <= TTL;
              var skips := old(lastFetch).Some? && check - old(lastFetch).value < REFRESH;
              && (fast || skips || !Accepted(response) ==> keys == old(keys) && lastFetch == old(lastFetch))
              && (!fast && !skips && Accepted(response) ==> lastFetch == Some(done) && KeysOf(response.jwks, keys))
              && (key.Some? <==> fast || ((skips || Accepted(response)) && kid in keys))
              && (key.Some? ==> if fast then now - lastFetch.value <= TTL else check - lastFetch.value < REFRESH)
    {
      if kid in keys && lastFetch.Some? && now - lastFetch.value <= TTL { return Some(keys[kid]); }
      var ok := Refresh(check, response, done);
      if !ok { return None; }
      if kid !in keys { return None; }
      return Some(keys[kid]);
    }
  }

  lemma KeysStep(jwks: seq<Jwk>, n: nat, keys: map<string, PublicKey>)
    requires n < |jwks| && KeysOf(jwks[..n], keys) && IsEd25519(jwks[n]) && IsUsable(jwks[n])
    ensures KeysOf(jwks[..n + 1], keys[jwks[n].kid := jwks[n].x.value])
  {
    var keys', part, part' := keys[jwks[n].kid := jwks[n].x.value], jwks[..n], jwks[..n + 1];
    forall kid
      ensures kid in keys' <==> exists i :: 0 <= i < |part'| && IsEd25519(part'[i]) && part'[i].kid == kid
    {
      if kid in keys {
        var i :| 0 <= i < |part| && IsEd25519(part[i]) && part[i].kid == kid;
        assert part'[i] == part[i];
      }
      if i :| 0 <= i < |part'| && IsEd25519(part'[i]) && part'[i].kid == kid {
        if i < n { assert part[i] == part'[i]; }
      }
      assert part'[n] == jwks[n];
    }
    forall i | 0 <= i < |part'| && IsEd25519(part'[i]) && IsUsable(part'[i])
               && (forall j :: i < j < |part'| && IsEd25519(part'[j]) ==> part'[j].kid != part'[i].kid)
      ensures part'[i].kid in keys' && keys'[part'[i].kid] == part'[i].x.value
    {
      if i < n {
        assert part'[n] == jwks[n];
        assert part[i] == part'[i];
        forall j | i < j < |part| && IsEd25519(part[j]) ensures part[j].kid != part[i].kid {
          assert part'[j] == part[j];
        }
      }
    }
  }

  lemma KeysSkip(jwks: seq<Jwk>, n: nat, keys: map<string, PublicKey>)
    requires n < |jwks| && KeysOf(jwks[..n], keys) && !IsEd25519(jwks[n])
    ensures KeysOf(jwks[..n + 1], keys)
  {
    var part, part' := jwks[..n], jwks[..n + 1];
    assert forall i :: 0 <= i < n ==> part'[i] == part[i];
    forall kid
      ensures kid in keys <==> exists i :: 0 <= i < |part'| && IsEd25519(part'[i]) && part'[i].kid == kid
    {
      if kid in keys {
        var i :| 0 <= i < |part| && IsEd25519(part[i]) && part[i].kid == kid;
        assert part'[i] == part[i];
      }
      if i :| 0 <= i < |part'| && IsEd25519(part'[i]) && part'[i].kid == kid {
        assert part[i] == part'[i];
      }
    }
    forall i | 0 <= i < |part'| && IsEd25519(part'[i]) && IsUsable(part'[i])
               && (forall j :: i < j < |part'| && IsEd25519(part'[j]) ==> part'[j].kid != part'[i].kid)
      ensures part'[i].kid in keys && keys[part'[i].kid] == part'[i].x.value
    {
      assert part[i] == part'[i];
      forall j | i < j < |part| && IsEd25519(part[j]) ensures part[j].kid != part[i].kid {
        assert part'[j] == part[j];
      }
    }
  }

  // ------------------------------------------------------------ every interleaving

  /** What an outside observer sees: a fetch that succeeded, one that failed, an unthrottled force. */
  datatype Event =
    | Fetched(at: int, keys: map<string, PublicKey>)
    | Missed(at: int)
    | Forced(at: int)

  /** The cache, the last clock reading, and everything that happened so far. */
  datatype State = State(keys: map<string, PublicKey>, lastFetch: Option<int>, lastForce: Option<int>,
                         clock: int, log: seq<Event>)

  /** One critical section of some caller: that of Refresh, or the first one of ForceRefresh. */
  datatype Step =
    | CallRefresh(now: int, response: Response, keys: map<string, PublicKey>, done: int)
    | CallForce(now: int, done: int)

  function Init(clock: int): State { State(map[], None, None, clock, []) }

  /** The lock orders the sections, so the readings of a monotonic clock are ordered as they are. */
  ghost predicate Enabled(s: State, step: Step) {
    && s.clock <= step.now <= step.done
    && (step.CallRefresh? && Accepted(step.response) ==> KeysOf(step.response.jwks, step.keys))
  }

  predicate Skips(s: State, now: int) { s.lastFetch.Some? && now - s.lastFetch.value < REFRESH }

  predicate Throttled(s: State, now: int) { s.lastForce.Some? && now - s.lastForce.value < FORCE }

  ghost function Apply(s: State, step: Step): State {
    match step
    case CallRefresh(now, response, keys, done) =>
      if Skips(s, now) then s.(clock := done)
      else if Accepted(response) then
        s.(keys := keys, lastFetch := Some(done), clock := done, log := s.log + [Fetched(done, keys)])
      else s.(clock := done, log := s.log + [Missed(done)])
    case CallForce(now, done) =>
      if Throttled(s, now) then s.(clock := done)
      else s.(lastFetch := None, lastForce := Some(done), clock := done, log := s.log + [Forced(done)])
  }

  ghost predicate Legal(s: State, steps: seq<Step>)
    decreases |steps|
  {
    steps == [] || (Enabled(s, steps[0]) && Legal(Apply(s, steps[0]), steps[1..]))
  }

  ghost function Exec(s: State, steps: seq<Step>): State
    decreases |steps|
  {
    if steps == [] then s else Exec(Apply(s, steps[0]), steps[1..])
  }

  // ------------------------------------------------------------ what a log says

  function Front(log: seq<Event>): seq<Event>
    requires log != []
  {
    log[..|log| - 1]
  }

  function Last(log: seq<Event>): Event
    requires log != []
  {
    log[|log| - 1]
  }

  /** The time of the last successful fetch, unless an unthrottled force followed it. */
  function OpenFetch(log: seq<Event>): Option<int> {
    if log == [] then None
    else match Last(log)
         case Fetched(at, _) => Some(at)
         case Missed(_) => OpenFetch(Front(log))
         case Forced(_) => None
  }

  function LastForce(log: seq<Event>): Option<int> {
    if log == [] then None else if Last(log).Forced? then Some(Last(log).at) else LastForce(Front(log))
  }

  /** The position of the last successful fetch, or -1. */
  function Latest(log: seq<Event>): (k: int)
    ensures -1 <= k < |log|
    ensures k >= 0 ==> log[k].Fetched?
    ensures forall j :: k < j < |log| ==> !log[j].Fetched?
  {
    if log == [] then -1 else if Last(log).Fetched? then |log| - 1 else Latest(Front(log))
  }

  /** The limits: an event respects every earlier one of the log. */
  predicate Limited(log: seq<Event>) {
    log == [] ||
    (&& Limited(Front(log))
     && (forall i :: 0 <= i < |log| - 1 ==> log[i].at <= Last(log).at)
     && (Last(log).Fetched? ==> var f := OpenFetch(Front(log)); f.Some? ==> Last(log).at - f.value >= REFRESH)
     && (Last(log).Forced? ==> var g := LastForce(Front(log)); g.Some? ==> Last(log).at - g.value >= FORCE))
  }

  ghost predicate Inv(s: State) {
    && s.lastFetch == OpenFetch(s.log)
    && s.lastForce == LastForce(s.log)
    && s.keys == (if Latest(s.log) == -1 then map[] else s.log[Latest(s.log)].keys)
    && (forall i :: 0 <= i < |s.log| ==> s.log[i].at <= s.clock)
    && Limited(s.log)
  }

  lemma StepKeeps(s: State, step: Step)
    requires Inv(s) && Enabled(s, step)
    ensures Inv(Apply(s, step))
  {
    var s' := Apply(s, step);
    if s'.log != s.log {
      assert Front(s'.log) == s.log;
    }
  }

  /** Every interleaving of Refresh and ForceRefresh keeps the limits and the link to the log. */
  lemma {:induction false} RunKeeps(s: State, steps: seq<Step>)
    requires Inv(s) && Legal(s, steps)
    ensures Inv(Exec(s, steps))
    ensures s.log <= Exec(s, steps).log && s.clock <= Exec(s, steps).clock
    decreases |steps|
  {
    if steps != [] {
      StepKeeps(s, steps[0]);
      RunKeeps(Apply(s, steps[0]), steps[1..]);
    }
  }

  // ------------------------------------------------------------ the limits

  lemma {:induction false} OpenUnlessForced(log: seq<Event>, i: nat)
    requires i < |log| && log[i].Fetched? && Limited(log)
    requires forall k :: i < k < |log| ==> !log[k].Forced?
    ensures OpenFetch(log).Some? && log[i].at <= OpenFetch(log).value
    decreases |log|
  {
    if i < |log| - 1 {
      OpenUnlessForced(Front(log), i);
    }
  }

  lemma {:induction false} LimitedPrefix(log: seq<Event>, n: nat)
    requires n <= |log| && Limited(log)
    ensures Limited(log[..n])
    decreases |log|
  {
    if n == |log| {
      assert log[..n] == log;
    } else {
      LimitedPrefix(Front(log), n);
      assert Front(log)[..n] == log[..n];
    }
  }

  /** Two successful fetches less than 30 s apart have an unthrottled force between them. */
  lemma CloseFetchesWereForced(clock: int, steps: seq<Step>, i: nat, j: nat)
    requires Legal(Init(clock), steps)
    requires var log := Exec(Init(clock), steps).log;
             i < j < |log| && log[i].Fetched? && log[j].Fetched? && log[j].at - log[i].at < REFRESH
    ensures var log := Exec(Init(clock), steps).log; exists k :: i < k < j && log[k].Forced?
  {
    RunKeeps(Init(clock), steps);
    var log := Exec(Init(clock), steps).log;
    LimitedPrefix(log, j + 1);
    assert Front(log[..j + 1]) == log[..j];
    if forall k :: i < k < j ==> !log[k].Forced? {
      OpenUnlessForced(log[..j], i);
      assert false;
    }
  }

  function Fetches(log: seq<Event>): nat {
    if log == [] then 0 else Fetches(Front(log)) + if Last(log).Fetched? then 1 else 0
  }

  function Forces(log: seq<Event>): nat {
    if log == [] then 0 else Forces(Front(log)) + if Last(log).Forced? then 1 else 0
  }

  lemma {:induction false} LimitedSuffix(log: seq<Event>, i: nat)
    requires i <= |log| && Limited(log)
    ensures Limited(log[i..])
    ensures OpenFetch(log[i..]).Some? ==> OpenFetch(log[i..]) == OpenFetch(log)
    ensures LastForce(log[i..]).Some? ==> LastForce(log[i..]) == LastForce(log)
    decreases |log|
  {
    if i < |log| {
      LimitedSuffix(Front(log), i);
      assert Front(log[i..]) == Front(log)[i..];
    }
  }

  /** Forces are 5 s apart; fetches beyond one more than the forces are 30 s apart. */
  lemma {:induction false} Spread(log: seq<Event>, low: int)
    requires Limited(log) && (forall i :: 0 <= i < |log| ==> low <= log[i].at)
    ensures Forces(log) > 0 <==> LastForce(log).Some?
    ensures LastForce(log).Some? ==> low <= LastForce(log).value && FORCE * (Forces(log) - 1) <= LastForce(log).value - low
    ensures OpenFetch(log).Some? ==> REFRESH * (Fetches(log) - 1 - Forces(log)) <= OpenFetch(log).value - low
    ensures log == [] ==> Fetches(log) == Forces(log) == 0
    ensures log != [] && OpenFetch(log).None? ==> REFRESH * (Fetches(log) - Forces(log)) <= Last(log).at - low
    decreases |log|
  {
    if log != [] {
      Spread(Front(log), low);
      OpenIsLogged(Front(log));
    }
  }

  /** Over any stretch of the log that lasts at most `width`, the two limits bound the fetches that succeed. */
  lemma FetchesAreLimited(clock: int, steps: seq<Step>, i: nat, j: nat, low: int, width: nat)
    requires Legal(Init(clock), steps) && i <= j <= |Exec(Init(clock), steps).log|
    requires var log := Exec(Init(clock), steps).log; forall k :: i <= k < j ==> low <= log[k].at <= low + width
    ensures Fetches(Exec(Init(clock), steps).log[i..j]) <= width / REFRESH + width / FORCE + 2
    ensures Forces(Exec(Init(clock), steps).log[i..j]) <= width / FORCE + 1
  {
    RunKeeps(Init(clock), steps);
    var log := Exec(Init(clock), steps).log;
    LimitedPrefix(log, j);
    LimitedSuffix(log[..j], i);
    var part := log[i..j];
    assert part == log[..j][i..];
    assert forall k :: 0 <= k < |part| ==> part[k] == log[i + k];
    WindowBound(part, low, width);
  }

  lemma WindowBound(log: seq<Event>, low: int, width: nat)
    requires Limited(log) && (forall k :: 0 <= k < |log| ==> low <= log[k].at <= low + width)
    ensures Fetches(log) <= width / REFRESH + width / FORCE + 2
    ensures Forces(log) <= width / FORCE + 1
  {
    Spread(log, low);
    OpenIsLogged(log);
    var n: int, g: int := Fetches(log), Forces(log);
    assert REFRESH * (n - 1 - g) <= width;
    assert FORCE * (g - 1) <= width;
  }

  lemma {:induction false} OpenIsLogged(log: seq<Event>)
    ensures OpenFetch(log).Some? ==> exists k :: 0 <= k < |log| && log[k].at == OpenFetch(log).value
    ensures LastForce(log).Some? ==> exists k :: 0 <= k < |log| && log[k].at == LastForce(log).value
    decreases |log|
  {
    if log != [] {
      OpenIsLogged(Front(log));
      assert forall k :: 0 <= k < |log| - 1 ==> Front(log)[k] == log[k];
      assert log[|log| - 1] == Last(log);
    }
  }

  // ------------------------------------------------------------ failed fetches

  function Failing(now: int, n: nat): seq<Step> {
    seq(n, _ => CallRefresh(now, Failed, map[], now))
  }

  /** The limit is on success only: `n` calls at one instant make `n` requests when they fail. */
  lemma {:induction false} FailuresAreNotLimited(s: State, n: nat)
    requires !Skips(s, s.clock)
    ensures Legal(s, Failing(s.clock, n))
    ensures |Exec(s, Failing(s.clock, n)).log| == |s.log| + n && !Skips(Exec(s, Failing(s.clock, n)), s.clock)
    decreases n
  {
    if n > 0 {
      var steps := Failing(s.clock, n);
      assert steps[1..] == Failing(s.clock, n - 1);
      FailuresAreNotLimited(Apply(s, steps[0]), n - 1);
    }
  }

  // ------------------------------------------------------------ unknown key ids

  /** A successful fetch less than 30 s before `now`, and no unthrottled force since. */
  ghost predicate RecentFetch(log: seq<Event>, now: int, i: int) {
    0 <= i < |log| && log[i].Fetched? && now - log[i].at < REFRESH && forall k :: i < k < |log| ==> !log[k].Forced?
  }

  lemma {:induction false} OpenIsUnforced(log: seq<Event>) returns (i: int)
    requires OpenFetch(log).Some?
    ensures 0 <= i < |log| && log[i].Fetched? && log[i].at == OpenFetch(log).value
    ensures forall k :: i < k < |log| ==> !log[k].Forced?
    decreases |log|
  {
    if Last(log).Fetched? {
      i := |log| - 1;
    } else {
      i := OpenIsUnforced(Front(log));
      assert forall k :: i < k < |log| - 1 ==> log[k] == Front(log)[k];
    }
  }

  lemma SkipsIffRecent(s: State, now: int)
    requires Inv(s)
    ensures Skips(s, now) <==> exists i :: RecentFetch(s.log, now, i)
  {
    if Skips(s, now) {
      var i := OpenIsUnforced(s.log);
      assert RecentFetch(s.log, now, i);
    }
    if i :| RecentFetch(s.log, now, i) {
      OpenUnlessForced(s.log, i);
    }
  }

  /**
   GetKey does not force a refresh for an unknown key id.  In every reachable state without the
   id, its Refresh makes a request if and only if no successful fetch of the last 30 s is left
   unforced; otherwise the log and the keys stay and the id stays unknown, whatever the endpoint
   would have answered.
   */
  lemma UnknownKeyWaits(clock: int, steps: seq<Step>, call: Step, kid: string)
    requires Legal(Init(clock), steps) && call.CallRefresh? && Enabled(Exec(Init(clock), steps), call)
    requires kid !in Exec(Init(clock), steps).keys
    ensures var s := Exec(Init(clock), steps);
            var s' := Apply(s, call);
            && (|s'.log| > |s.log| <==> !exists i :: RecentFetch(s.log, call.now, i))
            && (|s'.log| > |s.log| || (s'.log == s.log && s'.keys == s.keys && kid !in s'.keys))
  {
    RunKeeps(Init(clock), steps);
    SkipsIffRecent(Exec(Init(clock), steps), call.now);
  }

  /** An input where the id stays unknown although the endpoint has its key: two calls within 30 s. */
  lemma KnownUpstreamStaysUnknown(clock: int, kid: string, response: Response, keys: map<string, PublicKey>, now: int, done: int)
    requires clock <= now <= done && now - clock < REFRESH
    requires Accepted(response) ==> KeysOf(response.jwks, keys)
    ensures var steps := [CallRefresh(clock, Document([]), map[], clock), CallRefresh(now, response, keys, done)];
            && Legal(Init(clock), steps)
            && var s := Exec(Init(clock), steps); |s.log| == 1 && kid !in s.keys
  {
    var first, second := CallRefresh(clock, Document([]), map[], clock), CallRefresh(now, response, keys, done);
    var steps := [first, second];
    var s1 := Apply(Init(clock), first);
    assert Enabled(Init(clock), first) && Skips(s1, now);
    assert steps[1..] == [second] && [second][1..] == [];
    assert Legal(Apply(s1, second), []);
    assert Exec(s1, [second]) == Apply(s1, second);
  }

  // ------------------------------------------------------------ freshness

  /** The fast path of GetKey: the key is from the latest successful fetch, made at most five minutes ago. */
  lemma FastPathIsFresh(clock: int, steps: seq<Step>, kid: string, now: int)
    requires Legal(Init(clock), steps)
    requires var s := Exec(Init(clock), steps); kid in s.keys && s.lastFetch.Some? && now - s.lastFetch.value <= TTL
    ensures var s := Exec(Init(clock), steps); var k := Latest(s.log);
            k >= 0 && s.keys == s.log[k].keys && now - s.log[k].at <= TTL
  {
    RunKeeps(Init(clock), steps);
    OpenIsLatest(Exec(Init(clock), steps).log);
  }

  lemma {:induction false} OpenIsLatest(log: seq<Event>)
    ensures OpenFetch(log).Some? ==> Latest(log) >= 0 && log[Latest(log)].at == OpenFetch(log).value
    decreases |log|
  {
    if log != [] && !Last(log).Fetched? {
      OpenIsLatest(Front(log));
    }
  }

  /**
   The slow path: after a Refresh that returned no error, whatever other callers do before the second
   look, the key found is from the latest successful fetch and that fetch is less than 30 s older than
   the clock reading of the Refresh's own check.
   */
  lemma SlowPathIsFresh(clock: int, before: seq<Step>, call: Step, after: seq<Step>)
    requires Legal(Init(clock), before) && call.CallRefresh? && Enabled(Exec(Init(clock), before), call)
    requires Skips(Exec(Init(clock), before), call.now) || Accepted(call.response)
    requires Legal(Apply(Exec(Init(clock), before), call), after)
    ensures var s := Exec(Apply(Exec(Init(clock), before), call), after); var k := Latest(s.log);
            k >= 0 && s.keys == s.log[k].keys && call.now - s.log[k].at < REFRESH
  {
    var s := Exec(Init(clock), before);
    RunKeeps(Init(clock), before);
    StepKeeps(s, call);
    var mid := Apply(s, call);
    RunKeeps(mid, after);
    OpenIsLatest(mid.log);
    LatestGrows(mid.log, Exec(mid, after).log);
  }

  lemma LatestGrows(early: seq<Event>, late: seq<Event>)
    requires early <= late && Limited(late) && Latest(early) >= 0
    ensures Latest(late) >= Latest(early) && late[Latest(late)].at >= early[Latest(early)].at
  {
    assert late[Latest(early)] == early[Latest(early)];
    if Latest(late) > Latest(early) {
      LimitedPrefix(late, Latest(late) + 1);
    }
  }
}
