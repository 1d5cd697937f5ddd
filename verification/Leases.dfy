/** Session leases (`harness/agent/leases.py`).  Times are natural numbers; the clock is
    what the callers read and never runs backwards. */
module Leases {
  import opened Events

  datatype Lease = Lease(session: string, owner: string, token: string, expiresAt: nat)

  class InMemoryLeaseStore {
    var leases: map<string, Lease>
    ghost var granted: set<Lease>           // every lease ever handed out
    ghost var released: set<string>         // tokens given back by their holders
    ghost var clock: nat

    /** A lease that its holder may still rely on. */
    ghost predicate Held(l: Lease)
      reads this
    {
      l in granted && l.token !in released && l.expiresAt > clock
    }

    ghost predicate Valid()
      reads this
    {
      && (forall s | s in leases :: leases[s] in granted && leases[s].session == s)
      && (forall l | Held(l) :: l.session in leases && leases[l.session] == l)
      && (forall l, m | l in granted && m in granted && l.token == m.token :: l == m)
    }

    /** The clock does not run backwards, and a token is new. */
    ghost predicate Ready(now: nat, token: string)
      reads this
    {
      now >= clock && token !in released && forall l | l in granted :: l.token != token
    }

    constructor ()
      ensures Valid() && granted == {} && released == {} && clock == 0
    {
      leases := map[];
      granted, released, clock := {}, {}, 0;
    }

    /** The lease is its session's and may be relied on. */
    ghost predicate Keeps(l: Lease)
      reads this
    {
      Held(l) && l.session in leases && leases[l.session] == l
    }

    /** `acquire`; none: the session is busy.  Whoever holds an unexpired lease keeps it. */
    method Acquire(session: string, owner: string, now: nat, ttl: nat, token: string) returns (lease: Option<Lease>)
      requires Valid() && Ready(now, token)
      modifies this
      ensures Valid() && clock == now && released == old(released)
      ensures lease.None? <==> session in old(leases) && old(leases)[session].expiresAt > now
      ensures lease.None? ==> leases == old(leases) && granted == old(granted)
      ensures lease.Some? ==> lease.value == Lease(session, owner, token, now + ttl)
      ensures lease.Some? ==> leases == old(leases)[session := lease.value] && granted == old(granted) + {lease.value}
      ensures forall l | old(Held(l)) && l.expiresAt > now :: Keeps(l)
    {
      clock := now;
      if session in leases && leases[session].expiresAt > now {
        return None;
      }
      var l := Lease(session, owner, token, now + ttl);
      leases := leases[session := l];
      granted := granted + {l};
      lease := Some(l);
    }

    /** `release`: gives back a lease, but only one's own; all others are kept. */
    method Release(session: string, token: string)
      requires Valid()
      modifies this
      ensures Valid() && clock == old(clock) && granted == old(granted) && released == old(released) + {token}
      ensures leases == if session in old(leases) && old(leases)[session].token == token
                        then old(leases) - {session} else old(leases)
      ensures forall l | old(Held(l)) && l.token != token :: Keeps(l)
    {
      released := released + {token};
      if session in leases && leases[session].token == token {
        leases := leases - {session};
      }
    }

    /** Two leases of one session that may both be relied on are one and the same. */
    lemma OneHolder(l: Lease, m: Lease)
      requires Valid() && Held(l) && Held(m) && l.session == m.session
      ensures l == m
    {
    }
  }

  /** A stale holder's release leaves the lease of the next holder alone. */
  method StaleRelease(store: InMemoryLeaseStore, session: string, now: nat, later: nat, ttl: nat, one: string, two: string)
    returns (current: Lease)
    requires store.Valid() && store.leases == map[] && store.granted == {} && store.released == {}
    requires store.clock <= now && now + ttl <= later && one != two
    modifies store
    ensures store.Valid() && current.token == two
    ensures session in store.leases && store.leases[session] == current
    ensures ttl > 0 ==> store.Held(current)
    ensures store.released == {one}
  {
    var first := store.Acquire(session, "a", now, ttl, one);
    var second := store.Acquire(session, "b", later, ttl, two);
    store.Release(session, one);
    current := second.value;
  }

  /** A lease that runs out before its holder is done protects no longer: the next caller
      gets in while the first has not released. */
  method ExpiryLetsTwoIn(store: InMemoryLeaseStore, session: string, now: nat, ttl: nat, one: string, two: string)
    returns (first: Lease, second: Lease)
    requires store.Valid() && store.leases == map[] && store.granted == {} && store.released == {}
    requires store.clock <= now && one != two
    modifies store
    ensures first.session == second.session == session && first != second
    ensures first in store.granted && second in store.granted
    ensures first.token !in store.released && second.token !in store.released
  {
    var a := store.Acquire(session, "a", now, ttl, one);
    var b := store.Acquire(session, "b", now + ttl, ttl, two);
    first, second := a.value, b.value;
  }
}
