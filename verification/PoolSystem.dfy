/**
 Many goroutines on one connection pool.  Each critical section of Get, Release
 and Close is one step; a caller may still hold a pool that rotation or Close
 replaced, so a lease or a release can reach any pool ever created.
 */
module PoolSystem {
  import opened Basics
  import opened ImapPool

  /** A PerServicePool, current or replaced. */
  datatype Rec = Rec(key: Key, creds: Creds, idle: seq<Pooled>, active: int)

  datatype System = System(
    pools: seq<Rec>,             // every pool ever created
    current: map<Key, nat>,      // Pool.pools
    leased: map<Conn, Key>,      // clients handed out, by the key they were asked for
    closed: set<Conn>,
    dialled: set<Conn>,
    gone: map<Conn, Key>)        // clients closed on release because their key had no pool

  datatype Config = Config(maxConns: nat, idleTimeout: int)

  datatype Step =
    | Lookup(key: Key, creds: Creds)                           // getOrCreateServicePool
    | Lease(pool: nat, now: int, dial: Option<Conn>)           // sp.get; dial is what dialling would give
    | Return(conn: Conn, pool: nat, healthy: bool, now: int)   // sp.release
    | ReturnGone(conn: Conn)                                   // Release without a pool
    | CloseIdle(pool: nat)                                     // closeAll
    | Forget                                                   // the end of Close

  function Init(): System { System([], map[], map[], {}, {}, map[]) }

  predicate Enabled(s: System, step: Step) {
    match step
    case Lookup(_, _) => true
    case Lease(pool, _, conn) => pool < |s.pools| && (conn.Some? ==> conn.value !in s.dialled)
    case Return(conn, pool, _, _) => conn in s.leased && pool < |s.pools| && s.pools[pool].key == s.leased[conn]
    case ReturnGone(conn) => conn in s.leased && s.leased[conn] !in s.current
    case CloseIdle(pool) => pool < |s.pools|
    case Forget => true
  }

  function SetOf(idle: seq<Pooled>): set<Conn> {
    set pc | pc in idle :: pc.client
  }

  predicate HasPool(s: System, key: Key) {
    key in s.current && s.current[key] < |s.pools|
  }

  function AfterLookup(s: System, key: Key, creds: Creds): System {
    if HasPool(s, key) && s.pools[s.current[key]].creds == creds then s
    else
      var s' := if HasPool(s, key) then AfterCloseIdle(s, s.current[key]) else s;
      s'.(pools := s'.pools + [Rec(key, creds, [], 0)], current := s.current[key := |s.pools|])
  }

  function AfterCloseIdle(s: System, pool: nat): (r: System)
    requires pool < |s.pools|
    ensures |r.pools| == |s.pools|
  {
    var rec := s.pools[pool];
    s.(pools := s.pools[pool := rec.(idle := [])], closed := s.closed + SetOf(rec.idle))
  }

  function AfterLease(c: Config, s: System, pool: nat, now: int, conn: Option<Conn>): System
    requires pool < |s.pools|
  {
    var rec := s.pools[pool];
    var live := Part(rec.idle, now, c.idleTimeout, true);
    var s' := s.(closed := s.closed + SetOf(Part(rec.idle, now, c.idleTimeout, false)));
    if live != [] then
      var taken := live[|live| - 1].client;
      s'.(pools := s.pools[pool := rec.(idle := live[..|live| - 1], active := rec.active + 1)],
          leased := s.leased[taken := rec.key])
    else if rec.active >= c.maxConns || conn.None? then
      s'.(pools := s.pools[pool := rec.(idle := [])])
    else
      s'.(pools := s.pools[pool := rec.(idle := [], active := rec.active + 1)],
          leased := s.leased[conn.value := rec.key], dialled := s.dialled + {conn.value})
  }

  function AfterReturn(s: System, conn: Conn, pool: nat, healthy: bool, now: int): System
    requires pool < |s.pools|
  {
    var rec := s.pools[pool];
    var s' := s.(leased := s.leased - {conn});
    if healthy then
      s'.(pools := s.pools[pool := rec.(idle := rec.idle + [Pooled(conn, now)], active := rec.active - 1)])
    else
      s'.(pools := s.pools[pool := rec.(active := rec.active - 1)], closed := s.closed + {conn})
  }

  function Apply(c: Config, s: System, step: Step): System
    requires Enabled(s, step)
  {
    match step
    case Lookup(key, creds) => AfterLookup(s, key, creds)
    case Lease(pool, now, conn) => AfterLease(c, s, pool, now, conn)
    case Return(conn, pool, healthy, now) => AfterReturn(s, conn, pool, healthy, now)
    case ReturnGone(conn) =>
      s.(leased := s.leased - {conn}, closed := s.closed + {conn}, gone := s.gone[conn := s.leased[conn]])
    case CloseIdle(pool) => AfterCloseIdle(s, pool)
    case Forget => s.(current := map[])
  }

  // ---------------------------------------------------------------- invariant

  predicate CurrentOk(s: System) {
    forall k :: k in s.current ==> s.current[k] < |s.pools| && s.pools[s.current[k]].key == k
  }

  function Occurrences(idle: seq<Pooled>, x: Conn): nat {
    if idle == [] then 0 else (if idle[0].client == x then 1 else 0) + Occurrences(idle[1..], x)
  }

  /** How often connection `x` sits idle, over all pools. */
  function IdleCount(pools: seq<Rec>, x: Conn): nat {
    if pools == [] then 0 else Occurrences(pools[0].idle, x) + IdleCount(pools[1..], x)
  }

  function One(b: bool): nat { if b then 1 else 0 }

  /** Connection `x` is in exactly one place if it was dialled, and nowhere otherwise. */
  predicate OnePlace(s: System, x: Conn) {
    One(x in s.leased) + IdleCount(s.pools, x) + One(x in s.closed) == One(x in s.dialled)
  }

  predicate Capped(c: Config, pools: seq<Rec>) {
    forall i :: 0 <= i < |pools| ==> pools[i].active + |pools[i].idle| <= c.maxConns
  }

  /** The sum of the active counters of a key's pools, replaced ones included. */
  function ActiveSum(pools: seq<Rec>, key: Key): int {
    if pools == [] then 0 else (if pools[0].key == key then pools[0].active else 0) + ActiveSum(pools[1..], key)
  }

  function Holders(m: map<Conn, Key>, key: Key): set<Conn> {
    set x | x in m && m[x] == key
  }

  /** The active counters of a key add up to its leased clients and those closed without a pool. */
  predicate ActiveBalanced(s: System, key: Key) {
    ActiveSum(s.pools, key) == |Holders(s.leased, key)| + |Holders(s.gone, key)|
  }

  ghost predicate Inv(c: Config, s: System) {
    && CurrentOk(s)
    && Capped(c, s.pools)
    && (forall x :: x in s.gone ==> x in s.closed)
    && (forall x: Conn :: OnePlace(s, x))
    && (forall key: Key :: ActiveBalanced(s, key))
  }

  // ------------------------------------------------------------------ counting

  lemma {:induction false} OccursInSet(idle: seq<Pooled>, x: Conn)
    ensures Occurrences(idle, x) > 0 <==> x in SetOf(idle)
  {
    if idle != [] {
      OccursInSet(idle[1..], x);
      assert idle == [idle[0]] + idle[1..];
    }
  }

  lemma {:induction false} OccurrencesConcat(a: seq<Pooled>, b: seq<Pooled>, x: Conn)
    ensures Occurrences(a + b, x) == Occurrences(a, x) + Occurrences(b, x)
  {
    if a == [] {
      assert a + b == b;
    } else {
      assert (a + b)[1..] == a[1..] + b;
      OccurrencesConcat(a[1..], b, x);
    }
  }

  lemma {:induction false} PartsCount(idle: seq<Pooled>, now: int, timeout: int, x: Conn)
    ensures Occurrences(Part(idle, now, timeout, true), x) + Occurrences(Part(idle, now, timeout, false), x)
         == Occurrences(idle, x)
    ensures |Part(idle, now, timeout, true)| + |Part(idle, now, timeout, false)| == |idle|
  {
    if idle != [] {
      PartsCount(idle[1..], now, timeout, x);
      var a, b := Part(idle[1..], now, timeout, true), Part(idle[1..], now, timeout, false);
      assert ([idle[0]] + a)[1..] == a && ([idle[0]] + b)[1..] == b;
      if IsLive(idle[0], now, timeout) {
        assert Part(idle, now, timeout, true) == [idle[0]] + a && Part(idle, now, timeout, false) == b;
      } else {
        assert Part(idle, now, timeout, true) == a && Part(idle, now, timeout, false) == [idle[0]] + b;
      }
    }
  }

  lemma LastOccurrence(live: seq<Pooled>, x: Conn)
    requires live != []
    ensures Occurrences(live, x)
         == Occurrences(live[..|live| - 1], x) + One(x == live[|live| - 1].client)
  {
    assert live == live[..|live| - 1] + [live[|live| - 1]];
    OccurrencesConcat(live[..|live| - 1], [live[|live| - 1]], x);
  }

  lemma {:induction false} IdleReplace(pools: seq<Rec>, i: nat, rec: Rec, x: Conn)
    requires i < |pools|
    ensures IdleCount(pools[i := rec], x) + Occurrences(pools[i].idle, x)
         == IdleCount(pools, x) + Occurrences(rec.idle, x)
  {
    if i == 0 {
      assert pools[0 := rec][1..] == pools[1..];
    } else {
      assert pools[i := rec][1..] == pools[1..][i - 1 := rec];
      IdleReplace(pools[1..], i - 1, rec, x);
    }
  }

  lemma {:induction false} IdleSnoc(pools: seq<Rec>, rec: Rec, x: Conn, key: Key)
    requires rec.idle == [] && rec.active == 0
    ensures IdleCount(pools + [rec], x) == IdleCount(pools, x)
    ensures ActiveSum(pools + [rec], key) == ActiveSum(pools, key)
  {
    if pools == [] {
      assert pools + [rec] == [rec] && [rec][1..] == [];
    } else {
      assert (pools + [rec])[1..] == pools[1..] + [rec];
      IdleSnoc(pools[1..], rec, x, key);
    }
  }

  lemma {:induction false} ActiveReplace(pools: seq<Rec>, i: nat, rec: Rec, key: Key)
    requires i < |pools| && rec.key == pools[i].key
    ensures ActiveSum(pools[i := rec], key)
         == ActiveSum(pools, key) + (if rec.key == key then rec.active - pools[i].active else 0)
  {
    if i == 0 {
      assert pools[0 := rec][1..] == pools[1..];
    } else {
      assert pools[i := rec][1..] == pools[1..][i - 1 := rec];
      ActiveReplace(pools[1..], i - 1, rec, key);
    }
  }

  lemma HoldersAdd(m: map<Conn, Key>, x: Conn, k: Key, key: Key)
    requires x !in m
    ensures |Holders(m[x := k], key)| == |Holders(m, key)| + One(k == key)
  {
    if k == key {
      assert Holders(m[x := k], key) == Holders(m, key) + {x};
    } else {
      assert Holders(m[x := k], key) == Holders(m, key);
    }
  }

  lemma HoldersDrop(m: map<Conn, Key>, x: Conn, key: Key)
    requires x in m
    ensures |Holders(m - {x}, key)| == |Holders(m, key)| - One(m[x] == key)
  {
    if m[x] == key {
      assert Holders(m, key) == Holders(m - {x}, key) + {x};
    } else {
      assert Holders(m - {x}, key) == Holders(m, key);
    }
  }

  // --------------------------------------------------------------------- steps

  lemma CloseIdlePlaces(s: System, pool: nat, x: Conn)
    requires pool < |s.pools| && OnePlace(s, x)
    ensures OnePlace(AfterCloseIdle(s, pool), x)
  {
    var rec := s.pools[pool];
    IdleReplace(s.pools, pool, rec.(idle := []), x);
    OccursInSet(rec.idle, x);
  }

  lemma CloseIdleKeeps(c: Config, s: System, pool: nat)
    requires Inv(c, s) && pool < |s.pools|
    ensures Inv(c, AfterCloseIdle(s, pool))
  {
    var s' := AfterCloseIdle(s, pool);
    forall x: Conn ensures OnePlace(s', x) { CloseIdlePlaces(s, pool, x); }
    forall key: Key ensures ActiveBalanced(s', key) {
      assert ActiveBalanced(s, key);
      ActiveReplace(s.pools, pool, s.pools[pool].(idle := []), key);
    }
  }

  lemma AddPoolKeeps(c: Config, s: System, key: Key, creds: Creds)
    requires Inv(c, s)
    ensures Inv(c, s.(pools := s.pools + [Rec(key, creds, [], 0)], current := s.current[key := |s.pools|]))
  {
    var rec := Rec(key, creds, [], 0);
    var s' := s.(pools := s.pools + [rec], current := s.current[key := |s.pools|]);
    forall x: Conn ensures OnePlace(s', x) {
      assert OnePlace(s, x);
      IdleSnoc(s.pools, rec, x, key);
    }
    forall k: Key ensures ActiveBalanced(s', k) {
      assert ActiveBalanced(s, k);
      IdleSnoc(s.pools, rec, 0, k);
    }
  }

  lemma LookupKeeps(c: Config, s: System, key: Key, creds: Creds)
    requires Inv(c, s)
    ensures Inv(c, AfterLookup(s, key, creds))
  {
    if key in s.current && s.pools[s.current[key]].creds == creds {
    } else if key in s.current {
      CloseIdleKeeps(c, s, s.current[key]);
      AddPoolKeeps(c, AfterCloseIdle(s, s.current[key]), key, creds);
    } else {
      AddPoolKeeps(c, s, key, creds);
    }
  }

  /** A lease: expired connections move to closed, and one connection from idle or the network to leased. */
  lemma LeasePlaces(c: Config, s: System, pool: nat, now: int, conn: Option<Conn>, x: Conn)
    requires pool < |s.pools| && OnePlace(s, x) && (conn.Some? ==> conn.value !in s.dialled)
    ensures OnePlace(AfterLease(c, s, pool, now, conn), x)
  {
    var rec, s' := s.pools[pool], AfterLease(c, s, pool, now, conn);
    var live, dead := Part(rec.idle, now, c.idleTimeout, true), Part(rec.idle, now, c.idleTimeout, false);
    IdleReplace(s.pools, pool, s'.pools[pool], x);
    PartsCount(rec.idle, now, c.idleTimeout, x);
    OccursInSet(dead, x);
    IdleAtLeast(s.pools, pool, x);
    if live != [] { LastOccurrence(live, x); }
  }

  lemma {:induction false} IdleAtLeast(pools: seq<Rec>, i: nat, x: Conn)
    requires i < |pools|
    ensures Occurrences(pools[i].idle, x) <= IdleCount(pools, x)
  {
    if i > 0 { IdleAtLeast(pools[1..], i - 1, x); }
  }

  /** The client a lease hands out was not leased before. */
  lemma TakenWasFree(c: Config, s: System, pool: nat, now: int)
    requires pool < |s.pools| && Part(s.pools[pool].idle, now, c.idleTimeout, true) != []
    requires forall x: Conn :: OnePlace(s, x)
    ensures var live := Part(s.pools[pool].idle, now, c.idleTimeout, true);
            live[|live| - 1].client !in s.leased
  {
    var rec := s.pools[pool];
    var live := Part(rec.idle, now, c.idleTimeout, true);
    var taken := live[|live| - 1].client;
    assert OnePlace(s, taken);
    LastOccurrence(live, taken);
    PartsCount(rec.idle, now, c.idleTimeout, taken);
    IdleAtLeast(s.pools, pool, taken);
  }

  lemma LeaseBalance(c: Config, s: System, pool: nat, now: int, conn: Option<Conn>, key: Key)
    requires pool < |s.pools| && ActiveBalanced(s, key) && (conn.Some? ==> conn.value !in s.dialled)
    requires forall x: Conn :: OnePlace(s, x)
    ensures ActiveBalanced(AfterLease(c, s, pool, now, conn), key)
  {
    var rec, s' := s.pools[pool], AfterLease(c, s, pool, now, conn);
    var live := Part(rec.idle, now, c.idleTimeout, true);
    ActiveReplace(s.pools, pool, s'.pools[pool], key);
    if live != [] {
      TakenWasFree(c, s, pool, now);
      HoldersAdd(s.leased, live[|live| - 1].client, rec.key, key);
    } else if !(rec.active >= c.maxConns || conn.None?) {
      assert OnePlace(s, conn.value);
      HoldersAdd(s.leased, conn.value, rec.key, key);
    }
  }

  lemma LeaseKeeps(c: Config, s: System, pool: nat, now: int, conn: Option<Conn>)
    requires Inv(c, s) && pool < |s.pools| && (conn.Some? ==> conn.value !in s.dialled)
    ensures Inv(c, AfterLease(c, s, pool, now, conn))
  {
    var s' := AfterLease(c, s, pool, now, conn);
    PartsCount(s.pools[pool].idle, now, c.idleTimeout, 0);
    forall x: Conn ensures OnePlace(s', x) { LeasePlaces(c, s, pool, now, conn, x); }
    forall key: Key ensures ActiveBalanced(s', key) { LeaseBalance(c, s, pool, now, conn, key); }
  }

  lemma ReturnPlaces(s: System, conn: Conn, pool: nat, healthy: bool, now: int, x: Conn)
    requires pool < |s.pools| && conn in s.leased && OnePlace(s, x)
    ensures OnePlace(AfterReturn(s, conn, pool, healthy, now), x)
  {
    var rec, s' := s.pools[pool], AfterReturn(s, conn, pool, healthy, now);
    IdleReplace(s.pools, pool, s'.pools[pool], x);
    OccurrencesConcat(rec.idle, [Pooled(conn, now)], x);
  }

  lemma ReturnKeeps(c: Config, s: System, conn: Conn, pool: nat, healthy: bool, now: int)
    requires Inv(c, s) && pool < |s.pools| && conn in s.leased && s.pools[pool].key == s.leased[conn]
    ensures Inv(c, AfterReturn(s, conn, pool, healthy, now))
  {
    var s' := AfterReturn(s, conn, pool, healthy, now);
    forall x: Conn ensures OnePlace(s', x) { ReturnPlaces(s, conn, pool, healthy, now, x); }
    forall key: Key ensures ActiveBalanced(s', key) {
      assert ActiveBalanced(s, key);
      ActiveReplace(s.pools, pool, s'.pools[pool], key);
      HoldersDrop(s.leased, conn, key);
    }
  }

  lemma ReturnGoneKeeps(c: Config, s: System, conn: Conn)
    requires Inv(c, s) && Enabled(s, ReturnGone(conn))
    ensures Inv(c, Apply(c, s, ReturnGone(conn)))
  {
    var s' := Apply(c, s, ReturnGone(conn));
    assert OnePlace(s, conn);
    forall x: Conn ensures OnePlace(s', x) { assert OnePlace(s, x); }
    forall key: Key ensures ActiveBalanced(s', key) {
      assert ActiveBalanced(s, key);
      HoldersDrop(s.leased, conn, key);
      HoldersAdd(s.gone, conn, s.leased[conn], key);
    }
  }

  lemma ForgetKeeps(c: Config, s: System)
    requires Inv(c, s)
    ensures Inv(c, s.(current := map[]))
  {
    var s' := s.(current := map[]);
    forall x: Conn ensures OnePlace(s', x) { assert OnePlace(s, x); }
    forall key: Key ensures ActiveBalanced(s', key) { assert ActiveBalanced(s, key); }
  }

  lemma StepKeeps(c: Config, s: System, step: Step)
    requires Inv(c, s) && Enabled(s, step)
    ensures Inv(c, Apply(c, s, step))
  {
    match step
    case Lookup(key, creds) => LookupKeeps(c, s, key, creds);
    case Lease(pool, now, conn) => LeaseKeeps(c, s, pool, now, conn);
    case Return(conn, pool, healthy, now) => ReturnKeeps(c, s, conn, pool, healthy, now);
    case ReturnGone(conn) => ReturnGoneKeeps(c, s, conn);
    case CloseIdle(pool) => CloseIdleKeeps(c, s, pool);
    case Forget => ForgetKeeps(c, s);
  }

  // ---------------------------------------------------------------------- runs

  ghost predicate Legal(c: Config, s: System, steps: seq<Step>)
    decreases |steps|
  {
    steps == [] || (Enabled(s, steps[0]) && Legal(c, Apply(c, s, steps[0]), steps[1..]))
  }

  ghost function Exec(c: Config, s: System, steps: seq<Step>): System
    requires Legal(c, s, steps)
    decreases |steps|
  {
    if steps == [] then s else Exec(c, Apply(c, s, steps[0]), steps[1..])
  }

  lemma {:induction false} RunKeeps(c: Config, s: System, steps: seq<Step>)
    requires Inv(c, s) && Legal(c, s, steps)
    ensures Inv(c, Exec(c, s, steps))
    decreases |steps|
  {
    if steps != [] {
      StepKeeps(c, s, steps[0]);
      RunKeeps(c, Apply(c, s, steps[0]), steps[1..]);
    }
  }

  lemma InitInv(c: Config)
    ensures Inv(c, Init())
  {
    forall x: Conn ensures OnePlace(Init(), x) {}
    forall key: Key ensures ActiveBalanced(Init(), key) {
      assert Holders(map[], key) == {};
    }
  }

  /**
   In every run, across rotations and Close: a dialled connection is leased, idle
   in one pool, or closed, and never in two places; every pool keeps
   active + idle within the cap; and the active counters of a key add up to its
   leased clients (plus those closed because their key had no pool).
   */
  lemma EveryConnectionInOnePlace(c: Config, steps: seq<Step>, x: Conn, key: Key)
    requires Legal(c, Init(), steps)
    ensures var s := Exec(c, Init(), steps);
            && One(x in s.leased) + IdleCount(s.pools, x) + One(x in s.closed) == One(x in s.dialled)
            && Capped(c, s.pools)
            && ActiveSum(s.pools, key) == |Holders(s.leased, key)| + |Holders(s.gone, key)|
  {
    InitInv(c);
    RunKeeps(c, Init(), steps);
    assert OnePlace(Exec(c, Init(), steps), x);
    assert ActiveBalanced(Exec(c, Init(), steps), key);
  }

  // -------------------------------------------------------------- caps per key

  function PoolsOf(pools: seq<Rec>, key: Key): nat {
    if pools == [] then 0 else One(pools[0].key == key) + PoolsOf(pools[1..], key)
  }

  function IdleOf(pools: seq<Rec>, key: Key): nat {
    if pools == [] then 0 else (if pools[0].key == key then |pools[0].idle| else 0) + IdleOf(pools[1..], key)
  }

  lemma {:induction false} CapSum(c: Config, pools: seq<Rec>, key: Key)
    requires Capped(c, pools)
    ensures ActiveSum(pools, key) + IdleOf(pools, key) <= c.maxConns * PoolsOf(pools, key)
  {
    if pools != [] {
      assert forall i :: 0 <= i < |pools[1..]| ==> pools[1..][i] == pools[i + 1];
      CapSum(c, pools[1..], key);
      var n := PoolsOf(pools[1..], key);
      assert c.maxConns * (n + 1) == c.maxConns * n + c.maxConns;
    }
  }

  /**
   The live connections of a key never exceed the cap times the number of pools
   the key ever had; with a single pool, that is, without rotation or Close, the
   cap holds as documented and active is the number of leased clients and of those
   closed because their key had no pool any more.
   */
  lemma CapPerKey(c: Config, steps: seq<Step>, key: Key)
    requires Legal(c, Init(), steps)
    ensures var s := Exec(c, Init(), steps);
            var live := |Holders(s.leased, key)| + IdleOf(s.pools, key);
            && live <= c.maxConns * PoolsOf(s.pools, key)
            && (PoolsOf(s.pools, key) == 1 ==> live <= c.maxConns)
            && (PoolsOf(s.pools, key) == 1 ==>
                  forall i :: 0 <= i < |s.pools| && s.pools[i].key == key ==>
                    s.pools[i].active == |Holders(s.leased, key)| + |Holders(s.gone, key)|)
  {
    var s := Exec(c, Init(), steps);
    EveryConnectionInOnePlace(c, steps, 0, key);
    CapSum(c, s.pools, key);
    forall i | 0 <= i < |s.pools| && s.pools[i].key == key && PoolsOf(s.pools, key) == 1
      ensures s.pools[i].active == |Holders(s.leased, key)| + |Holders(s.gone, key)|
    {
      SinglePool(s.pools, i, key);
    }
  }

  /** With one pool, the sum over the key's pools is that pool's counter. */
  lemma {:induction false} SinglePool(pools: seq<Rec>, i: nat, key: Key)
    requires i < |pools| && pools[i].key == key && PoolsOf(pools, key) == 1
    ensures ActiveSum(pools, key) == pools[i].active && IdleOf(pools, key) == |pools[i].idle|
  {
    if i == 0 {
      NoPools(pools[1..], key);
    } else {
      PoolsAtLeast(pools[1..], i - 1, key);
      SinglePool(pools[1..], i - 1, key);
    }
  }

  lemma {:induction false} NoPools(pools: seq<Rec>, key: Key)
    requires PoolsOf(pools, key) == 0
    ensures ActiveSum(pools, key) == 0 && IdleOf(pools, key) == 0
  {
    if pools != [] { NoPools(pools[1..], key); }
  }

  lemma {:induction false} PoolsAtLeast(pools: seq<Rec>, i: nat, key: Key)
    requires i < |pools| && pools[i].key == key
    ensures PoolsOf(pools, key) >= 1
  {
    if i > 0 { PoolsAtLeast(pools[1..], i - 1, key); }
  }

  /**
   Rotation lets a key exceed the cap: with a cap of one, a client leased before
   a rotation and one leased after it are both released into the new pool, whose
   counter goes below zero while two connections sit idle.
   */
  lemma RotationExceedsCap(key: Key)
    ensures var c := Config(1, 10);
            var steps := [Lookup(key, "old"), Lease(0, 0, Some(7)), Lookup(key, "new"), Lease(1, 0, Some(8)),
                          Return(7, 1, true, 0), Return(8, 1, true, 0)];
            && Legal(c, Init(), steps)
            && var s := Exec(c, Init(), steps);
               HasPool(s, key) && s.pools[s.current[key]] == Rec(key, "new", [Pooled(7, 0), Pooled(8, 0)], -1)
  {
    var c := Config(1, 10);
    var lease := [Lookup(key, "old"), Lease(0, 0, Some(7)), Lookup(key, "new"), Lease(1, 0, Some(8))];
    var give := [Return(7, 1, true, 0), Return(8, 1, true, 0)];
    TwoPools(key);
    BothReturned(key, Exec(c, Init(), lease));
    RunConcat(c, Init(), lease, give);
    assert lease + give == [Lookup(key, "old"), Lease(0, 0, Some(7)), Lookup(key, "new"), Lease(1, 0, Some(8)),
                            Return(7, 1, true, 0), Return(8, 1, true, 0)];
  }

  /** One client out of the old pool and one out of the new. */
  ghost predicate BothLeased(key: Key, s: System) {
    && s.pools == [Rec(key, "old", [], 1), Rec(key, "new", [], 1)] && s.leased == map[7 := key, 8 := key]
    && key in s.current && s.current[key] == 1
  }

  lemma TwoPools(key: Key)
    ensures var c := Config(1, 10);
            var steps := [Lookup(key, "old"), Lease(0, 0, Some(7)), Lookup(key, "new"), Lease(1, 0, Some(8))];
            Legal(c, Init(), steps) && BothLeased(key, Exec(c, Init(), steps))
  {
    var c := Config(1, 10);
    var s0 := AfterLookup(Init(), key, "old");
    var s1 := AfterLease(c, s0, 0, 0, Some(7));
    assert s1.pools == [Rec(key, "old", [], 1)] && s1.leased == map[7 := key];
    var s2 := AfterLookup(s1, key, "new");
    assert s2.pools == [Rec(key, "old", [], 1), Rec(key, "new", [], 0)];
    var s3 := AfterLease(c, s2, 1, 0, Some(8));
    assert BothLeased(key, s3);
    RunTwo(c, Init(), Lookup(key, "old"), Lease(0, 0, Some(7)));
    RunTwo(c, s1, Lookup(key, "new"), Lease(1, 0, Some(8)));
    RunConcat(c, Init(), [Lookup(key, "old"), Lease(0, 0, Some(7))], [Lookup(key, "new"), Lease(1, 0, Some(8))]);
    assert [Lookup(key, "old"), Lease(0, 0, Some(7))] + [Lookup(key, "new"), Lease(1, 0, Some(8))]
        == [Lookup(key, "old"), Lease(0, 0, Some(7)), Lookup(key, "new"), Lease(1, 0, Some(8))];
  }

  lemma BothReturned(key: Key, s: System)
    requires BothLeased(key, s)
    ensures var c, steps := Config(1, 10), [Return(7, 1, true, 0), Return(8, 1, true, 0)];
            && Legal(c, s, steps)
            && var s' := Exec(c, s, steps);
               HasPool(s', key) && s'.pools[s'.current[key]] == Rec(key, "new", [Pooled(7, 0), Pooled(8, 0)], -1)
  {
    var s1 := AfterReturn(s, 7, 1, true, 0);
    assert s1.pools[1] == Rec(key, "new", [Pooled(7, 0)], 0);
    RunTwo(Config(1, 10), s, Return(7, 1, true, 0), Return(8, 1, true, 0));
  }

  lemma RunTwo(c: Config, s: System, a: Step, b: Step)
    requires Enabled(s, a) && Enabled(Apply(c, s, a), b)
    ensures Legal(c, s, [a, b]) && Exec(c, s, [a, b]) == Apply(c, Apply(c, s, a), b)
  {
    RunCons(c, Apply(c, s, a), b, []);
    RunCons(c, s, a, [b]);
    assert [b] + [] == [b] && [a] + [b] == [a, b];
  }

  lemma {:induction false} RunConcat(c: Config, s: System, a: seq<Step>, b: seq<Step>)
    requires Legal(c, s, a) && Legal(c, Exec(c, s, a), b)
    ensures Legal(c, s, a + b) && Exec(c, s, a + b) == Exec(c, Exec(c, s, a), b)
    decreases |a|
  {
    if a == [] {
      assert a + b == b;
    } else {
      assert (a + b)[1..] == a[1..] + b;
      RunConcat(c, Apply(c, s, a[0]), a[1..], b);
    }
  }

  lemma RunCons(c: Config, s: System, step: Step, rest: seq<Step>)
    requires Enabled(s, step) && Legal(c, Apply(c, s, step), rest)
    ensures Legal(c, s, [step] + rest)
    ensures Exec(c, s, [step] + rest) == Exec(c, Apply(c, s, step), rest)
  {
    assert ([step] + rest)[1..] == rest;
  }
}
