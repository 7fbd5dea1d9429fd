/**
 The per-(tenant, service) IMAP connection pool of the email proxy: the pool
 objects themselves.
 */
module ImapPool {
  import opened Basics

  /** A dialled client. */
  type Conn = nat
  type Key = (string, string)
  type Creds = string

  /** An idle connection and when it was released. */
  datatype Pooled = Pooled(client: Conn, lastUsed: int)

  datatype Outcome = Leased(client: Conn) | Exhausted | DialFailed

  // ------------------------------------------------------ the pool as a value

  predicate IsLive(pc: Pooled, now: int, idleTimeout: int) {
    now - pc.lastUsed < idleTimeout
  }

  /** The idle connections that are (`live`) or are not within the idle timeout. */
  function Part(idle: seq<Pooled>, now: int, idleTimeout: int, live: bool): seq<Pooled> {
    if idle == [] then []
    else (if IsLive(idle[0], now, idleTimeout) == live then [idle[0]] else [])
         + Part(idle[1..], now, idleTimeout, live)
  }

  function Clients(idle: seq<Pooled>): (r: seq<Conn>)
    ensures |r| == |idle| && forall i :: 0 <= i < |r| ==> r[i] == idle[i].client
  {
    seq(|idle|, i requires 0 <= i < |idle| => idle[i].client)
  }

  lemma {:induction false} PartConcat(a: seq<Pooled>, b: seq<Pooled>, now: int, timeout: int, live: bool)
    ensures Part(a + b, now, timeout, live) == Part(a, now, timeout, live) + Part(b, now, timeout, live)
  {
    if a == [] {
      assert a + b == b;
    } else {
      assert (a + b)[1..] == a[1..] + b;
      PartConcat(a[1..], b, now, timeout, live);
    }
  }

  lemma PartSnoc(idle: seq<Pooled>, i: nat, now: int, timeout: int, live: bool)
    requires i < |idle|
    ensures Part(idle[..i + 1], now, timeout, live)
         == Part(idle[..i], now, timeout, live)
            + (if IsLive(idle[i], now, timeout) == live then [idle[i]] else [])
  {
    assert idle[..i + 1] == idle[..i] + [idle[i]];
    PartConcat(idle[..i], [idle[i]], now, timeout, live);
    assert [idle[i]][1..] == [];
  }

  // --------------------------------------------------------- the pool objects

  class PerServicePool {
    const creds: Creds
    const maxConns: int
    const idleTimeout: int
    var idle: seq<Pooled>
    var active: int

    constructor (creds: Creds, maxConns: int, idleTimeout: int)
      ensures this.creds == creds && this.maxConns == maxConns && this.idleTimeout == idleTimeout
      ensures idle == [] && active == 0
    {
      this.creds, this.maxConns, this.idleTimeout := creds, maxConns, idleTimeout;
      idle, active := [], 0;
    }

    /** `evictIdleLocked`: keeps the connections still within the idle timeout, closes the others. */
    method EvictIdle(now: int) returns (closed: seq<Conn>)
      modifies this`idle
      ensures idle == Part(old(idle), now, idleTimeout, true)
      ensures closed == Clients(Part(old(idle), now, idleTimeout, false))
    {
      var keep: seq<Pooled> := [];
      closed := [];
      var i := 0;
      while i < |idle|
        invariant 0 <= i <= |idle| && idle == old(idle)
        invariant keep == Part(idle[..i], now, idleTimeout, true)
        invariant closed == Clients(Part(idle[..i], now, idleTimeout, false))
      {
        PartSnoc(idle, i, now, idleTimeout, true);
        PartSnoc(idle, i, now, idleTimeout, false);
        if now - idle[i].lastUsed < idleTimeout {
          keep := keep + [idle[i]];
        } else {
          closed := closed + [idle[i].client];
        }
        i := i + 1;
      }
      assert idle[..i] == idle;
      idle := keep;
    }

    /** `get`: the most recently released live connection, else a dial below the cap. */
    method Get(now: int, dialled: Option<Conn>) returns (r: Outcome, closed: seq<Conn>)
      modifies this`idle, this`active
      ensures var live := Part(old(idle), now, idleTimeout, true);
              && closed == Clients(Part(old(idle), now, idleTimeout, false))
              && (live != [] ==>
                    && r == Leased(live[|live| - 1].client)
                    && idle == live[..|live| - 1] && active == old(active) + 1)
              && (live == [] ==>
                    && idle == []
                    && r == (if old(active) >= maxConns then Exhausted
                             else if dialled.Some? then Leased(dialled.value) else DialFailed)
                    && active == old(active) + (if r.Leased? then 1 else 0))
    {
      closed := EvictIdle(now);
      if |idle| > 0 {
        var pc := idle[|idle| - 1];
        idle := idle[..|idle| - 1];
        active := active + 1;
        return Leased(pc.client), closed;
      }
      if active >= maxConns { return Exhausted, closed; }
      if dialled.None? { return DialFailed, closed; }
      active := active + 1;
      return Leased(dialled.value), closed;
    }

    /** `release`: back to the idle list if the connection answers a ping, closed otherwise. */
    method Release(c: Conn, healthy: bool, now: int) returns (closed: seq<Conn>)
      modifies this`idle, this`active
      ensures active == old(active) - 1
      ensures closed == (if healthy then [] else [c])
      ensures idle == (if healthy then old(idle) + [Pooled(c, now)] else old(idle))
    {
      active := active - 1;
      if !healthy { return [c]; }
      idle := idle + [Pooled(c, now)];
      return [];
    }

    /** `closeAll`: every idle connection is closed. */
    method CloseAll() returns (closed: seq<Conn>)
      modifies this`idle
      ensures idle == [] && closed == Clients(old(idle))
    {
      closed := [];
      var i := 0;
      while i < |idle|
        invariant 0 <= i <= |idle| && closed == Clients(idle[..i])
      {
        assert idle[..i + 1] == idle[..i] + [idle[i]];
        closed := closed + [idle[i].client];
        i := i + 1;
      }
      assert idle[..i] == idle;
      idle := [];
    }
  }

  class Pool {
    const maxConns: int
    const idleTimeout: int
    var pools: map<Key, PerServicePool>

    constructor (maxConns: int, idleTimeout: int)
      ensures pools == map[] && this.maxConns == maxConns && this.idleTimeout == idleTimeout
    {
      this.maxConns, this.idleTimeout, pools := maxConns, idleTimeout, map[];
    }

    /** `getOrCreateServicePool`: rotated credentials close the old pool's idle connections and replace it. */
    method GetOrCreateServicePool(key: Key, creds: Creds) returns (sp: PerServicePool, closed: seq<Conn>)
      modifies this`pools, (if key in pools then {pools[key]} else {})
      ensures pools == old(pools)[key := sp]
      ensures sp.creds == creds
      ensures key in old(pools) && old(pools)[key].creds == creds ==>
                sp == old(pools)[key] && closed == [] && unchanged(sp)
      ensures !(key in old(pools) && old(pools)[key].creds == creds) ==>
                && fresh(sp) && sp.idle == [] && sp.active == 0
                && sp.maxConns == maxConns && sp.idleTimeout == idleTimeout
      ensures key in old(pools) && old(pools)[key].creds != creds ==>
                && closed == Clients(old(pools[key].idle))
                && old(pools)[key].idle == [] && old(pools)[key].active == old(pools[key].active)
      ensures key !in old(pools) ==> closed == []
    {
      closed := [];
      if key in pools {
        if pools[key].creds == creds {
          sp := pools[key];
          assert pools[key := sp] == pools;
          return;
        }
        closed := pools[key].CloseAll();
      }
      sp := new PerServicePool(creds, maxConns, idleTimeout);
      pools := pools[key := sp];
    }

    /** `Release`: a client of a key without a pool is closed. */
    method Release(key: Key, c: Conn, healthy: bool, now: int) returns (closed: seq<Conn>)
      modifies if key in pools then {pools[key]} else {}
      ensures key !in pools ==> closed == [c]
      ensures key in pools ==>
                && pools[key].active == old(pools[key].active) - 1
                && closed == (if healthy then [] else [c])
                && pools[key].idle == (if healthy then old(pools[key].idle) + [Pooled(c, now)] else old(pools[key].idle))
    {
      if key !in pools { return [c]; }
      closed := pools[key].Release(c, healthy, now);
    }

    /** `Close`: closes the idle connections of every pool and forgets the pools. */
    method Close() returns (closed: set<Conn>)
      modifies this`pools, pools.Values
      ensures pools == map[]
      ensures forall sp :: sp in old(pools).Values ==> sp.idle == [] && sp.active == old(sp.active)
      ensures forall c :: c in closed <==> exists sp :: sp in old(pools).Values && c in Clients(old(sp.idle))
    {
      closed := {};
      var left := pools.Values;
      while left != {}
        invariant left <= old(pools).Values && pools == old(pools)
        invariant forall sp :: sp in left ==> sp.idle == old(sp.idle)
        invariant forall sp :: sp in old(pools).Values - left ==> sp.idle == []
        invariant forall sp :: sp in old(pools).Values ==> sp.active == old(sp.active)
        invariant forall c :: c in closed <==>
                    exists sp :: sp in old(pools).Values - left && c in Clients(old(sp.idle))
        decreases left
      {
        var sp :| sp in left;
        var gone := sp.CloseAll();
        closed := closed + (set c | c in gone);
        left := left - {sp};
      }
      pools := map[];
    }
  }
}
