/**
 How far credential rotation takes a key beyond the cap: for every cap and every
 number of rotations, a run that fills each pool before the next one replaces it.
 */
module PoolRotation {
  import opened Basics
  import opened Numerals
  import opened ImapPool
  import opened PoolSystem

  /** Credentials that change with every rotation. */
  function CredsOf(r: nat): Creds { if r % 2 == 0 then "even" else "odd" }

  /** Leases `from` to `cap - 1` of the pool with index `pool`, each a new connection. */
  function Leases(cap: nat, pool: nat, from: nat): seq<Step>
    requires from <= cap
    decreases cap - from
  {
    if from == cap then [] else [Lease(pool, 0, Some(cap * pool + from))] + Leases(cap, pool, from + 1)
  }

  /** `n` times: new credentials, then as many leases as the cap allows. */
  function Rotations(key: Key, cap: nat, n: nat): seq<Step> {
    if n == 0 then []
    else Rotations(key, cap, n - 1) + ([Lookup(key, CredsOf(n - 1))] + Leases(cap, n - 1, 0))
  }

  /** All pools of the key are full but the last, which has `j` clients out. */
  ghost predicate Filling(s: System, key: Key, cap: nat, pool: nat, j: nat) {
    && |s.pools| == pool + 1 && j <= cap
    && (forall i :: 0 <= i < pool ==> s.pools[i] == Rec(key, CredsOf(i), [], cap))
    && s.pools[pool] == Rec(key, CredsOf(pool), [], j)
    && key in s.current && s.current[key] == pool
    && s.gone == map[]
    && (forall x :: x in s.dialled ==> x < cap * pool + j)
  }

  lemma LeaseFills(c: Config, s: System, key: Key, pool: nat, j: nat)
    requires Filling(s, key, c.maxConns, pool, j) && j < c.maxConns
    ensures Enabled(s, Lease(pool, 0, Some(c.maxConns * pool + j)))
    ensures Filling(Apply(c, s, Lease(pool, 0, Some(c.maxConns * pool + j))), key, c.maxConns, pool, j + 1)
  {
    assert Part(s.pools[pool].idle, 0, c.idleTimeout, true) == [];
  }

  lemma {:induction false} LeasesFill(c: Config, s: System, key: Key, pool: nat, j: nat)
    requires Filling(s, key, c.maxConns, pool, j)
    ensures Legal(c, s, Leases(c.maxConns, pool, j))
    ensures Filling(Exec(c, s, Leases(c.maxConns, pool, j)), key, c.maxConns, pool, c.maxConns)
    decreases c.maxConns - j
  {
    if j < c.maxConns {
      var step := Lease(pool, 0, Some(c.maxConns * pool + j));
      LeaseFills(c, s, key, pool, j);
      LeasesFill(c, Apply(c, s, step), key, pool, j + 1);
      RunCons(c, s, step, Leases(c.maxConns, pool, j + 1));
    }
  }

  lemma FirstPool(c: Config, key: Key)
    ensures Filling(Apply(c, Init(), Lookup(key, CredsOf(0))), key, c.maxConns, 0, 0)
  {
  }

  lemma RotateFilled(c: Config, s: System, key: Key, pool: nat)
    requires Filling(s, key, c.maxConns, pool, c.maxConns)
    ensures Filling(Apply(c, s, Lookup(key, CredsOf(pool + 1))), key, c.maxConns, pool + 1, 0)
  {
    assert CredsOf(pool) != CredsOf(pool + 1);
    var closed := AfterCloseIdle(s, pool);
    assert closed.pools == s.pools;
    assert c.maxConns * (pool + 1) == c.maxConns * pool + c.maxConns;
  }

  lemma {:induction false} RotationsFill(c: Config, key: Key, n: nat)
    requires n >= 1
    ensures Legal(c, Init(), Rotations(key, c.maxConns, n))
    ensures Filling(Exec(c, Init(), Rotations(key, c.maxConns, n)), key, c.maxConns, n - 1, c.maxConns)
    decreases n
  {
    var before, look, lease := Rotations(key, c.maxConns, n - 1), Lookup(key, CredsOf(n - 1)), Leases(c.maxConns, n - 1, 0);
    if n == 1 {
      FirstPool(c, key);
    } else {
      RotationsFill(c, key, n - 1);
      RotateFilled(c, Exec(c, Init(), before), key, n - 2);
    }
    var s := Exec(c, Init(), before);
    LeasesFill(c, Apply(c, s, look), key, n - 1, 0);
    RunCons(c, s, look, lease);
    RunConcat(c, Init(), before, [look] + lease);
  }

  lemma {:induction false} FullSums(pools: seq<Rec>, key: Key, cap: nat)
    requires forall i :: 0 <= i < |pools| ==> pools[i].key == key && pools[i].active == cap && pools[i].idle == []
    ensures PoolsOf(pools, key) == |pools| && IdleOf(pools, key) == 0 && ActiveSum(pools, key) == cap * |pools|
    decreases |pools|
  {
    if pools != [] {
      assert forall i :: 0 <= i < |pools[1..]| ==> pools[1..][i] == pools[i + 1];
      FullSums(pools[1..], key, cap);
      var n := |pools| - 1;
      assert cap * (n + 1) == cap * n + cap;
    }
  }

  /** Connections of a key that are open: leased or idle. */
  function Live(s: System, key: Key): nat { |Holders(s.leased, key)| + IdleOf(s.pools, key) }

  /** The bound of `CapPerKey` is reached for every cap and every number of pools. */
  lemma RotationsReachBound(c: Config, key: Key, n: nat)
    requires n >= 1
    ensures Legal(c, Init(), Rotations(key, c.maxConns, n))
    ensures var s := Exec(c, Init(), Rotations(key, c.maxConns, n));
            && PoolsOf(s.pools, key) == n && Live(s, key) == |Holders(s.leased, key)| == c.maxConns * n
            && Holders(s.gone, key) == {} && HasPool(s, key) && s.pools[s.current[key]].active == c.maxConns
  {
    RotationsFill(c, key, n);
    var s := Exec(c, Init(), Rotations(key, c.maxConns, n));
    FullSums(s.pools, key, c.maxConns);
    EveryConnectionInOnePlace(c, Rotations(key, c.maxConns, n), 0, key);
    assert Holders(s.gone, key) == {};
  }

  /** The documented cap, for all runs that gave the key `n` pools. */
  ghost predicate CapHolds(c: Config, key: Key, n: nat) {
    forall steps: seq<Step> :: Legal(c, Init(), steps) && PoolsOf(Exec(c, Init(), steps).pools, key) == n ==>
      Live(Exec(c, Init(), steps), key) <= c.maxConns
  }

  /** It holds exactly without a rotation (or for a cap of zero, where nothing is ever dialled). */
  lemma CapHoldsExactly(c: Config, key: Key, n: nat)
    ensures CapHolds(c, key, n) <==> n <= 1 || c.maxConns == 0
  {
    if n <= 1 || c.maxConns == 0 {
      forall steps: seq<Step> | Legal(c, Init(), steps) && PoolsOf(Exec(c, Init(), steps).pools, key) == n
        ensures Live(Exec(c, Init(), steps), key) <= c.maxConns
      {
        CapPerKey(c, steps, key);
      }
    } else {
      RotationsReachBound(c, key, n);
      Scale(1, n, c.maxConns);
      assert !CapHolds(c, key, n);
    }
  }

  // ------------------------------------------------- clients closed without a pool

  /** A client was closed without a pool only after its key had one, so a key that has one again has two. */
  ghost predicate GoneOk(s: System) {
    forall x :: x in s.gone ==> PoolsOf(s.pools, s.gone[x]) >= 1 + One(s.gone[x] in s.current)
  }

  lemma {:induction false} SamePools(a: seq<Rec>, b: seq<Rec>, key: Key)
    requires |a| == |b| && forall i :: 0 <= i < |a| ==> a[i].key == b[i].key
    ensures PoolsOf(a, key) == PoolsOf(b, key)
    decreases |a|
  {
    if a != [] {
      assert forall i :: 0 <= i < |a| - 1 ==> a[1..][i] == a[i + 1] && b[1..][i] == b[i + 1];
      SamePools(a[1..], b[1..], key);
    }
  }

  lemma {:induction false} OneMorePool(pools: seq<Rec>, rec: Rec, key: Key)
    ensures PoolsOf(pools + [rec], key) == PoolsOf(pools, key) + One(rec.key == key)
    decreases |pools|
  {
    if pools == [] {
      assert pools + [rec] == [rec] && [rec][1..] == [];
    } else {
      assert (pools + [rec])[1..] == pools[1..] + [rec];
      OneMorePool(pools[1..], rec, key);
    }
  }

  lemma LookupGone(s: System, key: Key, creds: Creds)
    requires GoneOk(s) && CurrentOk(s)
    ensures GoneOk(AfterLookup(s, key, creds))
  {
    var s' := AfterLookup(s, key, creds);
    if s' != s {
      var pools := if HasPool(s, key) then AfterCloseIdle(s, s.current[key]).pools else s.pools;
      forall x | x in s'.gone ensures PoolsOf(s'.pools, s'.gone[x]) >= 1 + One(s'.gone[x] in s'.current) {
        SamePools(pools, s.pools, s.gone[x]);
        OneMorePool(pools, Rec(key, creds, [], 0), s.gone[x]);
      }
    }
  }

  lemma ReturnGoneKeepsGone(c: Config, s: System, conn: Conn)
    requires Inv(c, s) && GoneOk(s) && Enabled(s, ReturnGone(conn))
    ensures GoneOk(Apply(c, s, ReturnGone(conn)))
  {
    var key := s.leased[conn];
    assert ActiveBalanced(s, key);
    assert conn in Holders(s.leased, key);
    if PoolsOf(s.pools, key) == 0 { NoPools(s.pools, key); }
  }

  lemma GoneStep(c: Config, s: System, step: Step)
    requires Inv(c, s) && GoneOk(s) && Enabled(s, step)
    ensures GoneOk(Apply(c, s, step))
  {
    if step.Lookup? {
      LookupGone(s, step.key, step.creds);
    } else if step.ReturnGone? {
      ReturnGoneKeepsGone(c, s, step.conn);
    } else {
      var s' := Apply(c, s, step);
      forall x | x in s'.gone ensures PoolsOf(s'.pools, s'.gone[x]) >= 1 + One(s'.gone[x] in s'.current) {
        SamePools(s'.pools, s.pools, s.gone[x]);
      }
    }
  }

  lemma {:induction false} GoneRun(c: Config, s: System, steps: seq<Step>)
    requires Inv(c, s) && GoneOk(s) && Legal(c, s, steps)
    ensures GoneOk(Exec(c, s, steps))
    decreases |steps|
  {
    if steps != [] {
      GoneStep(c, s, steps[0]);
      StepKeeps(c, s, steps[0]);
      GoneRun(c, Apply(c, s, steps[0]), steps[1..]);
    }
  }

  /** The counter of the key's pool is its number of leased clients, for all runs that gave the key `n` pools. */
  ghost predicate ActiveIsLeased(c: Config, key: Key, n: nat) {
    forall steps: seq<Step> :: Legal(c, Init(), steps) ==>
      var s := Exec(c, Init(), steps);
      PoolsOf(s.pools, key) == n && HasPool(s, key) ==>
        s.pools[s.current[key]].active == |Holders(s.leased, key)|
  }

  lemma {:induction false} NoneActive(pools: seq<Rec>, key: Key, i: nat)
    requires i < |pools| && pools[i].key == key && ActiveSum(pools, key) == 0
    requires forall j :: 0 <= j < |pools| ==> pools[j].active <= 0
    ensures pools[i].active == 0
    decreases |pools|
  {
    var rest := pools[1..];
    assert forall j :: 0 <= j < |rest| ==> rest[j] == pools[j + 1];
    SumNotPositive(rest, key);
    if i > 0 {
      NoneActive(rest, key, i - 1);
    }
  }

  lemma {:induction false} SumNotPositive(pools: seq<Rec>, key: Key)
    requires forall j :: 0 <= j < |pools| ==> pools[j].active <= 0
    ensures ActiveSum(pools, key) <= 0
    decreases |pools|
  {
    if pools != [] {
      assert forall j :: 0 <= j < |pools[1..]| ==> pools[1..][j] == pools[j + 1];
      SumNotPositive(pools[1..], key);
    }
  }

  lemma NoneGone(s: System, key: Key)
    requires GoneOk(s) && key in s.current && PoolsOf(s.pools, key) <= 1
    ensures Holders(s.gone, key) == {}
  {
  }

  lemma ActiveWithoutRotation(c: Config, steps: seq<Step>, key: Key)
    requires Legal(c, Init(), steps)
    requires var s := Exec(c, Init(), steps);
             HasPool(s, key) && (PoolsOf(s.pools, key) <= 1 || c.maxConns == 0)
    ensures var s := Exec(c, Init(), steps); s.pools[s.current[key]].active == |Holders(s.leased, key)|
  {
    var s := Exec(c, Init(), steps);
    InitInv(c);
    RunKeeps(c, Init(), steps);
    CapPerKey(c, steps, key);
    EveryConnectionInOnePlace(c, steps, 0, key);
    PoolsAtLeast(s.pools, s.current[key], key);
    if c.maxConns == 0 {
      SumNotPositive(s.pools, key);
      NoneActive(s.pools, key, s.current[key]);
    } else {
      GoneRun(c, Init(), steps);
      NoneGone(s, key);
    }
  }

  /** That holds exactly without a rotation as well. */
  lemma ActiveIsLeasedExactly(c: Config, key: Key, n: nat)
    ensures ActiveIsLeased(c, key, n) <==> n <= 1 || c.maxConns == 0
  {
    if n <= 1 || c.maxConns == 0 {
      forall steps: seq<Step> | Legal(c, Init(), steps)
        ensures var s := Exec(c, Init(), steps);
                PoolsOf(s.pools, key) == n && HasPool(s, key) ==>
                  s.pools[s.current[key]].active == |Holders(s.leased, key)|
      {
        var s := Exec(c, Init(), steps);
        if PoolsOf(s.pools, key) == n && HasPool(s, key) {
          ActiveWithoutRotation(c, steps, key);
        }
      }
    } else {
      RotationsReachBound(c, key, n);
      Scale(1, n, c.maxConns);
      assert !ActiveIsLeased(c, key, n);
    }
  }
}
