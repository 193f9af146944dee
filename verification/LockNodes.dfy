/**
  The lock client and the lock server as objects with all their locks. Each method is one
  critical section; what it sends is returned.
 */
module LockNodes {
  import opened Option
  import opened Locks

  type Lid = nat

  /** `lock_client_cache`. */
  class LockClient {
    var locks: map<Lid, LockInfo>

    constructor ()
      ensures locks == map[]
    {
      locks := map[];
    }

    /** acquire, first section. */
    method Enter(lid: Lid)
      modifies this
      ensures locks == if lid in old(locks) then old(locks) else old(locks)[lid := NewInfo()]
    {
      if lid !in locks {
        locks := locks[lid := LockInfo(false, false, false, 0, None)];
      }
    }

    /** acquire, second section, up to the call of acquire_lock. */
    method Register(lid: Lid) returns (fetch: bool)
      requires lid in locks
      modifies this
      ensures locks == old(locks)[lid := Locks.Register(old(locks)[lid]).0]
      ensures fetch == Locks.Register(old(locks)[lid]).1
    {
      var lock := locks[lid];
      lock := lock.(awaiting := lock.awaiting + 1);
      locks := locks[lid := lock];
      fetch := !lock.owned && !lock.acquiring;
    }

    /** acquire_lock, first section. */
    method BeginFetch(lid: Lid) returns (call: bool)
      requires lid in locks
      modifies this
      ensures locks == old(locks)[lid := Locks.BeginFetch(old(locks)[lid]).0]
      ensures call == Locks.BeginFetch(old(locks)[lid]).1
    {
      var lock := locks[lid];
      if !lock.acquiring && !lock.owned {
        lock := lock.(acquiring := true);
        call := true;
      } else {
        call := false;
      }
      locks := locks[lid := lock];
    }

    /** acquire_lock, second section, with the server's answer. */
    method EndFetch(lid: Lid, ok: bool)
      requires lid in locks
      modifies this
      ensures locks == old(locks)[lid := Locks.EndFetch(old(locks)[lid], ok)]
    {
      var lock := locks[lid];
      if !lock.owned {
        if ok {
          lock := lock.(acquiring := false);
          lock := lock.(owned := true);
        } else {
          lock := lock.(acquiring := true);
          lock := lock.(owned := false);
        }
      }
      locks := locks[lid := lock];
    }

    /** The end of acquire, for a thread that woke up; it has to wait on when false. */
    method TryTake(lid: Lid, t: Thread) returns (taken: bool)
      requires lid in locks && locks[lid].awaiting > 0
      modifies this
      ensures taken <==> old(locks)[lid].holder == None
      ensures locks == if taken then old(locks)[lid := Take(old(locks)[lid], t)] else old(locks)
    {
      var lock := locks[lid];
      taken := lock.holder == None;
      if taken {
        lock := lock.(awaiting := lock.awaiting - 1);
        lock := lock.(holder := Some(t));
        locks := locks[lid := lock];
      }
    }

    /** release; the caller flushes the extent and calls the server when the lock goes back. */
    method Release(lid: Lid) returns (back: bool)
      requires lid in locks
      modifies this
      ensures locks == old(locks)[lid := Locks.Release(old(locks)[lid]).0]
      ensures back == Locks.Release(old(locks)[lid]).1
    {
      var lock := locks[lid];
      lock := lock.(holder := None);
      back := lock.awaiting == 0 && lock.revoked;
      if back {
        lock := lock.(owned := false);
        lock := lock.(revoked := false);
        lock := lock.(acquiring := false);
      }
      locks := locks[lid := lock];
    }

    /** revoke_handler. */
    method RevokeHandler(lid: Lid) returns (back: bool)
      modifies this
      ensures var r := Revoke(if lid in old(locks) then Some(old(locks)[lid]) else None);
              locks == old(locks)[lid := r.0] && back == r.1
    {
      if lid !in locks {
        locks := locks[lid := LockInfo(false, true, true, 0, None)];
        return false;
      }
      var lock := locks[lid];
      back := lock.holder == None && lock.awaiting == 0 && !lock.acquiring;
      if back {
        lock := lock.(owned := false);
        lock := lock.(revoked := false);
      } else {
        lock := lock.(revoked := true);
      }
      locks := locks[lid := lock];
    }

    /** retry_handler; the server sends it only to a client that has asked. */
    method RetryHandler(lid: Lid)
      requires lid in locks
      modifies this
      ensures locks == old(locks)[lid := Retry(old(locks)[lid])]
    {
      var lock := locks[lid];
      lock := lock.(acquiring := false);
      lock := lock.(owned := true);
      locks := locks[lid := lock];
    }
  }

  function RecordOf(locks: map<Lid, ServerLock>, lid: Lid): ServerLock {
    if lid in locks then locks[lid] else FreeLock()
  }

  datatype RevokeRequest = RevokeRequest(holder: Option<Client>, lid: Lid)

  /** The client a request for this lock is for. */
  function Asked(q: RevokeRequest, lid: Lid): multiset<Client> {
    if q.lid == lid && q.holder.Some? then multiset{q.holder.value} else multiset{}
  }

  /** The clients to be sent a revoke of this lock. */
  function Requested(qs: seq<RevokeRequest>, lid: Lid): multiset<Client> {
    if qs == [] then multiset{} else Asked(qs[0], lid) + Requested(qs[1..], lid)
  }

  lemma {:induction false} RequestedMore(qs: seq<RevokeRequest>, q: RevokeRequest, lid: Lid)
    ensures Requested(qs + [q], lid) == Requested(qs, lid) + Asked(q, lid)
  {
    if qs == [] {
      assert qs + [q] == [q] && [q][1..] == [];
    } else {
      RequestedMore(qs[1..], q, lid);
      assert (qs + [q])[1..] == qs[1..] + [q];
    }
  }

  /** What one pass makes of the requests for a lock: one more, to the holder, if it is needed. */
  function WithDue(asked: multiset<Client>, r: ServerLock): multiset<Client> {
    if NeedsRevoke(r) && r.holder.Some? then asked + multiset{r.holder.value} else asked
  }

  lemma NothingDue(asked: multiset<Client>)
    ensures WithDue(asked, FreeLock()) == asked
  {
  }

  /** What one pass of the enforcer makes of a record. */
  function Enforced(r: ServerLock): ServerLock {
    if NeedsRevoke(r) then r.(revoked := true) else r
  }

  /** The requests for one lock are as a pass leaves them, those for the others as before. */
  ghost predicate OneMore(locks: map<Lid, ServerLock>, q: seq<RevokeRequest>, q': seq<RevokeRequest>, lid: Lid) {
    && Requested(q', lid) == WithDue(Requested(q, lid), RecordOf(locks, lid))
    && forall k :: k != lid ==> Requested(q', k) == Requested(q, k)
  }

  /** All locks but those in todo are as a pass leaves them. */
  ghost predicate Passed(locks0: map<Lid, ServerLock>, q0: seq<RevokeRequest>,
                         locks: map<Lid, ServerLock>, q: seq<RevokeRequest>, todo: set<Lid>) {
    && locks.Keys == locks0.Keys
    && (forall lid :: lid in locks0 ==> locks[lid] == if lid in todo then locks0[lid] else Enforced(locks0[lid]))
    && forall lid :: Requested(q, lid) ==
         if lid in todo then Requested(q0, lid) else WithDue(Requested(q0, lid), RecordOf(locks0, lid))
  }

  lemma NothingPassed(locks: map<Lid, ServerLock>, q: seq<RevokeRequest>)
    ensures Passed(locks, q, locks, q, locks.Keys)
  {
    hide Requested, WithDue;
    forall lid | lid !in locks
      ensures WithDue(Requested(q, lid), RecordOf(locks, lid)) == Requested(q, lid)
    {
      NothingDue(Requested(q, lid));
    }
  }

  lemma PassedOne(locks0: map<Lid, ServerLock>, q0: seq<RevokeRequest>, locks: map<Lid, ServerLock>,
                  q: seq<RevokeRequest>, todo: set<Lid>, lid: Lid, q': seq<RevokeRequest>)
    requires Passed(locks0, q0, locks, q, todo) && lid in todo && lid in locks && OneMore(locks, q, q', lid)
    ensures Passed(locks0, q0, locks[lid := Enforced(locks[lid])], q', todo - {lid})
  {
    hide Requested, WithDue, Enforced;
  }

  lemma AllPassed(locks0: map<Lid, ServerLock>, q0: seq<RevokeRequest>, locks: map<Lid, ServerLock>, q: seq<RevokeRequest>)
    requires Passed(locks0, q0, locks, q, {})
    ensures locks.Keys == locks0.Keys
    ensures forall lid :: lid in locks ==> locks[lid] == Enforced(locks0[lid])
    ensures forall lid :: Requested(q, lid) == WithDue(Requested(q0, lid), RecordOf(locks0, lid))
  {
    hide Requested, WithDue, Enforced;
  }

  /** `lock_server_cache`. */
  class LockServer {
    var locks: map<Lid, ServerLock>
    var revokeQueue: seq<RevokeRequest>

    constructor ()
      ensures locks == map[] && revokeQueue == []
    {
      locks := map[];
      revokeQueue := [];
    }

    method Acquire(lid: Lid, c: Client) returns (ok: bool)
      modifies this`locks
      ensures locks == old(locks)[lid := ServerAcquire(RecordOf(old(locks), lid), c).0]
      ensures ok == ServerAcquire(RecordOf(old(locks), lid), c).1
    {
      if lid !in locks {
        locks := locks[lid := ServerLock(Some(c), false, [])];
        return true;
      }
      var lock := locks[lid];
      if lock.holder == None {
        lock := lock.(holder := Some(c));
        ok := true;
      } else {
        lock := lock.(queue := lock.queue + [c]);
        ok := false;
      }
      locks := locks[lid := lock];
    }

    /** The client to send a retry to, if any. */
    method Release(lid: Lid) returns (grant: Option<Client>)
      requires lid in locks
      modifies this`locks
      ensures locks == old(locks)[lid := ServerRelease(old(locks)[lid]).0]
      ensures grant == ServerRelease(old(locks)[lid]).1
    {
      var lock := locks[lid];
      lock := lock.(revoked := false);
      if |lock.queue| == 0 {
        lock := lock.(holder := None);
        grant := None;
      } else {
        var holder := lock.queue[0];
        lock := lock.(queue := lock.queue[1..]);
        lock := lock.(holder := Some(holder));
        grant := Some(holder);
      }
      locks := locks[lid := lock];
    }

    /** One turn of the enforcer's loop. */
    method EnforceOne(lid: Lid)
      requires lid in locks
      modifies this
      ensures locks == old(locks)[lid := Enforced(old(locks)[lid])]
      ensures OneMore(old(locks), old(revokeQueue), revokeQueue, lid)
    {
      hide Requested;
      if |locks[lid].queue| != 0 && !locks[lid].revoked {
        var q := RevokeRequest(locks[lid].holder, lid);
        forall k
          ensures Requested(revokeQueue + [q], k) == Requested(revokeQueue, k) + Asked(q, k)
        {
          RequestedMore(revokeQueue, q, k);
        }
        revokeQueue := revokeQueue + [q];
        locks := locks[lid := locks[lid].(revoked := true)];
      } else {
        assert locks[lid := locks[lid]] == locks;
      }
    }

    /** One pass of the enforcer: one revoke for each lock with waiters that has none under way. */
    method Enforce()
      modifies this
      ensures locks.Keys == old(locks.Keys)
      ensures forall lid :: lid in locks ==> locks[lid] == Enforced(old(locks)[lid])
      ensures forall lid :: Requested(revokeQueue, lid) == WithDue(Requested(old(revokeQueue), lid), RecordOf(old(locks), lid))
    {
      hide Passed, OneMore;
      ghost var locks0, queue0 := locks, revokeQueue;
      var todo := locks.Keys;
      NothingPassed(locks, revokeQueue);
      while todo != {}
        invariant todo <= locks.Keys && Passed(locks0, queue0, locks, revokeQueue, todo)
        decreases todo
      {
        var lid :| lid in todo;
        ghost var locks1, queue1 := locks, revokeQueue;
        EnforceOne(lid);
        PassedOne(locks0, queue0, locks1, queue1, todo, lid, revokeQueue);
        todo := todo - {lid};
      }
      AllPassed(locks0, queue0, locks, revokeQueue);
    }

    /** One turn of the revoker: the oldest request is sent. */
    method Pop() returns (q: RevokeRequest)
      requires |revokeQueue| != 0
      modifies this`revokeQueue
      ensures [q] + revokeQueue == old(revokeQueue)
    {
      q := revokeQueue[0];
      revokeQueue := revokeQueue[1..];
    }

    /** One pass of the revoker: the requests are sent in order. */
    method Drain() returns (sent: seq<RevokeRequest>)
      modifies this`revokeQueue
      ensures sent == old(revokeQueue) && revokeQueue == []
    {
      sent := [];
      while |revokeQueue| != 0
        invariant sent + revokeQueue == old(revokeQueue)
        decreases |revokeQueue|
      {
        var q := Pop();
        sent := sent + [q];
      }
    }
  }
}
