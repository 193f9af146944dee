/**
  The lock server and the lock clients as objects with all their locks, moved by threads and
  messages. Projected to one lock, every move is one step of the protocol and leaves the other
  locks alone, so what the protocol guarantees holds of the objects.
 */
module LockSystem {
  import opened Option
  import opened Locks
  import opened LockNodes
  import L = LockProtocol
  import S = LockSafety
  import G = LockGuarantees
  import P = LockProgress

  /** What is under way for one lock: where the threads stand, and the messages. */
  datatype Net = Net(
    pcs: map<L.Key, L.Pc>, retries: multiset<Client>, revokes: multiset<Client>,
    flushing: multiset<Client>, returning: multiset<Client>)

  type Table = map<Lid, LockInfo>

  /** The contents of all objects, with what is under way. */
  datatype Snapshot = Snapshot(
    locks: map<Lid, ServerLock>, requests: seq<RevokeRequest>, tables: map<Client, Table>, net: map<Lid, Net>)

  ghost function NetAt(net: map<Lid, Net>, lid: Lid): Net {
    if lid in net then net[lid] else Net(map[], multiset{}, multiset{}, multiset{}, multiset{})
  }

  /** The records of one lock on all clients. */
  ghost function InfosAt(tables: map<Client, Table>, lid: Lid): map<Client, LockInfo> {
    map c | c in tables && lid in tables[c] :: tables[c][lid]
  }

  /** The state of the protocol that one lock is in. */
  ghost function At(s: Snapshot, lid: Lid): L.State {
    var n := NetAt(s.net, lid);
    L.State(RecordOf(s.locks, lid), InfosAt(s.tables, lid), n.pcs, n.retries, Requested(s.requests, lid),
            n.revokes, n.flushing, n.returning)
  }

  /** The lock takes the step, and every other lock stays as it was. */
  ghost predicate Takes(s: Snapshot, s': Snapshot, lid: Lid, a: L.Action) {
    && L.Enabled(At(s, lid), a) && At(s', lid) == L.Next(At(s, lid), a)
    && forall k :: k != lid ==> At(s', k) == At(s, k)
  }

  ghost predicate AllReachable(s: Snapshot) {
    forall lid :: G.Reachable(At(s, lid))
  }

  lemma TakesKeeps(s: Snapshot, s': Snapshot, lid: Lid, a: L.Action)
    requires AllReachable(s) && Takes(s, s', lid, a)
    ensures AllReachable(s')
  {
    hide G.Reachable, L.Next, L.Enabled, At;
    P.ReachNext(At(s, lid), a);
    forall k
      ensures G.Reachable(At(s', k))
    {
      if k != lid { assert At(s', k) == At(s, k); }
    }
  }

  lemma Facts(s: Snapshot, lid: Lid)
    ensures var l, n := At(s, lid), NetAt(s.net, lid);
            && l.srv == RecordOf(s.locks, lid) && l.pcs == n.pcs && l.retries == n.retries && l.revokes == n.revokes
            && l.flushing == n.flushing && l.returning == n.returning
    ensures forall c :: c in At(s, lid).cli <==> c in s.tables && lid in s.tables[c]
    ensures forall c :: c in At(s, lid).cli ==> At(s, lid).cli[c] == s.tables[c][lid]
  {
    hide Requested, RecordOf, NetAt;
  }

  // ------------------------------------------------------------ one part changes

  lemma InfosOne(tables: map<Client, Table>, c: Client, m: Table, lid: Lid, l: LockInfo)
    requires c in tables && m == tables[c][lid := l]
    ensures InfosAt(tables[c := m], lid) == InfosAt(tables, lid)[c := l]
    ensures forall k :: k != lid ==> InfosAt(tables[c := m], k) == InfosAt(tables, k)
  {
    forall k | k != lid
      ensures InfosAt(tables[c := m], k) == InfosAt(tables, k)
    {
      assert k in m <==> k in tables[c];
    }
  }

  /** A client's record and what is under way change for one lock. */
  lemma ClientMoves(s: Snapshot, c: Client, m: Table, lid: Lid, l: LockInfo, n: Net)
    requires c in s.tables && m == s.tables[c][lid := l]
    ensures var s' := s.(tables := s.tables[c := m], net := s.net[lid := n]);
            && At(s', lid) == L.State(At(s, lid).srv, At(s, lid).cli[c := l], n.pcs, n.retries, At(s, lid).revokeQueue,
                                      n.revokes, n.flushing, n.returning)
            && forall k :: k != lid ==> At(s', k) == At(s, k)
  {
    hide InfosAt, Requested, RecordOf;
    InfosOne(s.tables, c, m, lid, l);
  }

  /** The server's record and what is under way change for one lock. */
  lemma ServerMoves(s: Snapshot, lid: Lid, r: ServerLock, n: Net)
    ensures var s' := s.(locks := s.locks[lid := r], net := s.net[lid := n]);
            && At(s', lid) == L.State(r, At(s, lid).cli, n.pcs, n.retries, At(s, lid).revokeQueue,
                                      n.revokes, n.flushing, n.returning)
            && forall k :: k != lid ==> At(s', k) == At(s, k)
  {
    hide InfosAt, Requested;
  }

  /** Only what is under way changes. */
  lemma NetMoves(s: Snapshot, lid: Lid, n: Net)
    ensures var s' := s.(net := s.net[lid := n]);
            && At(s', lid) == L.State(At(s, lid).srv, At(s, lid).cli, n.pcs, n.retries, At(s, lid).revokeQueue,
                                      n.revokes, n.flushing, n.returning)
            && forall k :: k != lid ==> At(s', k) == At(s, k)
  {
    hide InfosAt, Requested, RecordOf;
  }

  lemma RequestedPop(q: RevokeRequest, rest: seq<RevokeRequest>, lid: Lid)
    ensures Requested([q] + rest, lid) == Asked(q, lid) + Requested(rest, lid)
  {
    assert ([q] + rest)[1..] == rest;
  }

  lemma PopOne(q: RevokeRequest, rest: seq<RevokeRequest>, lid: Lid)
    ensures lid != q.lid || q.holder == None ==> Requested([q] + rest, lid) == Requested(rest, lid)
    ensures lid == q.lid && q.holder.Some? ==>
              q.holder.value in Requested([q] + rest, lid)
              && Requested(rest, lid) == Requested([q] + rest, lid) - multiset{q.holder.value}
  {
    hide Requested;
    RequestedPop(q, rest, lid);
  }

  /** The oldest revoke request is sent. */
  lemma RevokeMoves(s: Snapshot, q: RevokeRequest, rest: seq<RevokeRequest>, c: Client)
    requires s.requests == [q] + rest && q.holder == Some(c)
    ensures var n := NetAt(s.net, q.lid);
            var s' := s.(requests := rest, net := s.net[q.lid := n.(revokes := n.revokes + multiset{c})]);
            Takes(s, s', q.lid, L.SendRevoke(c))
  {
    hide InfosAt, RecordOf, Requested;
    forall k
      ensures k != q.lid ==> Requested(s.requests, k) == Requested(rest, k)
    {
      PopOne(q, rest, k);
    }
    PopOne(q, rest, q.lid);
  }

  /** What one pass of the enforcer makes of a lock: an Enforce step, if it can be taken. */
  ghost function EnforceIf(l: L.State): L.State {
    if NeedsRevoke(l.srv) then L.Next(l, L.Enforce) else l
  }

  /** One pass of the enforcer is one Enforce step for each lock that needs it. */
  lemma EnforceMoves(s: Snapshot, s': Snapshot, lid: Lid)
    requires s'.tables == s.tables && s'.net == s.net && s'.locks.Keys == s.locks.Keys
    requires lid in s.locks ==> s'.locks[lid] == Enforced(s.locks[lid])
    requires Requested(s'.requests, lid) == WithDue(Requested(s.requests, lid), RecordOf(s.locks, lid))
    ensures At(s', lid) == EnforceIf(At(s, lid))
  {
    hide InfosAt, Requested;
  }

  class System {
    const server: LockServer
    const clients: map<Client, LockClient>
    ghost var net: map<Lid, Net>

    ghost function Tables(): map<Client, Table>
      reads this, clients.Values
    {
      map c | c in clients :: clients[c].locks
    }

    ghost function Snap(): Snapshot
      reads this, server, clients.Values
    {
      Snapshot(server.locks, server.revokeQueue, Tables(), net)
    }

    /** The objects are distinct, and every lock is in a state the protocol can reach. */
    ghost predicate Valid()
      reads this, server, clients.Values
    {
      && (forall c, d :: c in clients && d in clients && c != d ==> clients[c] != clients[d])
      && AllReachable(Snap())
    }

    /** A server and clients that know of no lock yet. */
    constructor (server: LockServer, clients: map<Client, LockClient>)
      requires forall c, d :: c in clients && d in clients && c != d ==> clients[c] != clients[d]
      requires server.locks == map[] && server.revokeQueue == []
      requires forall c :: c in clients ==> clients[c].locks == map[]
      ensures Valid() && this.server == server && this.clients == clients
    {
      this.server := server;
      this.clients := clients;
      net := map[];
      new;
      NoLocks(Snap());
    }

    // ---------------------------------------------------------- the threads of a client

    method Enter(c: Client, t: Thread, lid: Lid)
      requires Valid() && c in clients && L.Enabled(At(Snap(), lid), L.Enter(c, t))
      modifies this`net, clients[c]
      ensures Valid() && Takes(old(Snap()), Snap(), lid, L.Enter(c, t))
      ensures clients[c].locks ==
                if lid in old(clients[c].locks) then old(clients[c].locks)
                else old(clients[c].locks)[lid := LockInfo(false, false, false, 0, None)]
    {
      hide AllReachable, At, Takes, L.Enabled;
      ghost var s := Snap();
      clients[c].Enter(lid);
      net := net[lid := WithPc(NetAt(net, lid), c, t, L.Entered)];
      assert Snap() == s.(tables := s.tables[c := clients[c].locks], net := net);
      EnterTakes(s, c, clients[c].locks, t, lid);
      TakesKeeps(s, Snap(), lid, L.Enter(c, t));
    }

    method Register(c: Client, t: Thread, lid: Lid) returns (fetch: bool)
      requires Valid() && c in clients && lid in clients[c].locks && L.Enabled(At(Snap(), lid), L.DoRegister(c, t))
      modifies this`net, clients[c]
      ensures Valid() && Takes(old(Snap()), Snap(), lid, L.DoRegister(c, t))
      ensures var was := old(clients[c].locks)[lid];
              && (fetch <==> !was.owned && !was.acquiring)
              && clients[c].locks == old(clients[c].locks)[lid := was.(awaiting := was.awaiting + 1)]
    {
      hide AllReachable, At, Takes, L.Enabled;
      ghost var s := Snap();
      fetch := clients[c].Register(lid);
      net := net[lid := WithPc(NetAt(net, lid), c, t, if fetch then L.Fetching else L.WaitingOwner)];
      assert Snap() == s.(tables := s.tables[c := clients[c].locks], net := net);
      RegisterTakes(s, c, clients[c].locks, t, lid);
      TakesKeeps(s, Snap(), lid, L.DoRegister(c, t));
    }

    method BeginFetch(c: Client, t: Thread, lid: Lid) returns (call: bool)
      requires Valid() && c in clients && lid in clients[c].locks && L.Enabled(At(Snap(), lid), L.DoFetch(c, t))
      modifies this`net, clients[c]
      ensures Valid() && Takes(old(Snap()), Snap(), lid, L.DoFetch(c, t))
      ensures var was := old(clients[c].locks)[lid];
              && (call <==> !was.owned && !was.acquiring)
              && clients[c].locks == old(clients[c].locks)[lid := if call then was.(acquiring := true) else was]
    {
      hide AllReachable, At, Takes, L.Enabled;
      ghost var s := Snap();
      call := clients[c].BeginFetch(lid);
      net := net[lid := WithPc(NetAt(net, lid), c, t, if call then L.Requested else L.WaitingOwner)];
      assert Snap() == s.(tables := s.tables[c := clients[c].locks], net := net);
      FetchTakes(s, c, clients[c].locks, t, lid);
      TakesKeeps(s, Snap(), lid, L.DoFetch(c, t));
    }

    /** The server's answer comes back. */
    method EndFetch(c: Client, t: Thread, lid: Lid, ok: bool)
      requires Valid() && c in clients && lid in clients[c].locks && L.Enabled(At(Snap(), lid), L.ReplyAtClient(c, t))
      requires L.PcOf(At(Snap(), lid), c, t) == L.Answered(ok)
      modifies this`net, clients[c]
      ensures Valid() && Takes(old(Snap()), Snap(), lid, L.ReplyAtClient(c, t))
      ensures var was := old(clients[c].locks)[lid];
              clients[c].locks == old(clients[c].locks)[lid := if was.owned then was else was.(acquiring := !ok, owned := ok)]
    {
      hide AllReachable, At, Takes, L.Enabled;
      ghost var s := Snap();
      clients[c].EndFetch(lid, ok);
      net := net[lid := WithPc(NetAt(net, lid), c, t, L.WaitingOwner)];
      assert Snap() == s.(tables := s.tables[c := clients[c].locks], net := net);
      ReplyTakes(s, c, clients[c].locks, t, lid, ok);
      TakesKeeps(s, Snap(), lid, L.ReplyAtClient(c, t));
    }

    method TryTake(c: Client, t: Thread, lid: Lid) returns (taken: bool)
      requires Valid() && c in clients && lid in clients[c].locks && clients[c].locks[lid].awaiting > 0
      requires L.Enabled(At(Snap(), lid), L.DoTake(c, t))
      modifies this`net, clients[c]
      ensures Valid() && Takes(old(Snap()), Snap(), lid, L.DoTake(c, t))
      ensures var was := old(clients[c].locks)[lid];
              && (taken <==> was.holder == None)
              && clients[c].locks == old(clients[c].locks)[lid := if taken then was.(holder := Some(t), awaiting := was.awaiting - 1) else was]
      ensures taken ==> L.PcOf(At(Snap(), lid), c, t).Holding?
    {
      hide AllReachable, At, Takes, L.Enabled;
      ghost var s := Snap();
      taken := clients[c].TryTake(lid, t);
      net := net[lid := WithPc(NetAt(net, lid), c, t, if taken then L.Holding else L.WaitingHolder)];
      assert Snap() == s.(tables := s.tables[c := clients[c].locks], net := net);
      TakeTakes(s, c, clients[c].locks, t, lid);
      TakesKeeps(s, Snap(), lid, L.DoTake(c, t));
    }

    method Release(c: Client, t: Thread, lid: Lid) returns (back: bool)
      requires Valid() && c in clients && lid in clients[c].locks && L.Enabled(At(Snap(), lid), L.DoRelease(c, t))
      modifies this`net, clients[c]
      ensures Valid() && Takes(old(Snap()), Snap(), lid, L.DoRelease(c, t))
      ensures var was := old(clients[c].locks)[lid];
              && (back <==> was.awaiting == 0 && was.revoked)
              && clients[c].locks == old(clients[c].locks)[lid := if back then LockInfo(false, false, false, 0, None) else was.(holder := None)]
    {
      hide AllReachable, At, Takes, L.Enabled;
      ghost var s := Snap();
      back := clients[c].Release(lid);
      net := net[lid := GivenUp(WithPc(NetAt(net, lid), c, t, L.Outside), c, back)];
      assert Snap() == s.(tables := s.tables[c := clients[c].locks], net := net);
      ReleaseTakes(s, c, clients[c].locks, t, lid);
      TakesKeeps(s, Snap(), lid, L.DoRelease(c, t));
    }

    // ---------------------------------------------------------- messages to a client

    /** A revoke finds the holder, with a record of the lock. */
    method RevokeAtClient(c: Client, lid: Lid) returns (back: bool)
      requires Valid() && L.Enabled(At(Snap(), lid), L.RevokeAtClient(c))
      modifies this`net, clients.Values
      ensures Valid() && Takes(old(Snap()), Snap(), lid, L.RevokeAtClient(c))
      ensures c in clients && lid in old(clients[c].locks)
      ensures var was := old(clients[c].locks)[lid];
              && (back <==> was.holder == None && was.awaiting == 0 && !was.acquiring)
              && clients[c].locks == old(clients[c].locks)[lid := if back then was.(owned := false, revoked := false) else was.(revoked := true)]
    {
      hide AllReachable, At, Takes, L.Enabled;
      ghost var s := Snap();
      RevokeFinds(s, c, lid);
      back := clients[c].RevokeHandler(lid);
      ghost var n := NetAt(net, lid);
      net := net[lid := GivenUp(n.(revokes := n.revokes - multiset{c}), c, back)];
      assert Snap() == s.(tables := s.tables[c := clients[c].locks], net := net);
      RevokeTakes(s, c, clients[c].locks, lid);
      TakesKeeps(s, Snap(), lid, L.RevokeAtClient(c));
    }

    method RetryAtClient(c: Client, lid: Lid)
      requires Valid() && c in clients && lid in clients[c].locks && L.Enabled(At(Snap(), lid), L.RetryAtClient(c))
      modifies this`net, clients[c]
      ensures Valid() && Takes(old(Snap()), Snap(), lid, L.RetryAtClient(c))
      ensures var was := old(clients[c].locks)[lid];
              clients[c].locks == old(clients[c].locks)[lid := was.(acquiring := false, owned := true)]
    {
      hide AllReachable, At, Takes, L.Enabled;
      ghost var s := Snap();
      clients[c].RetryHandler(lid);
      ghost var n := NetAt(net, lid);
      net := net[lid := n.(retries := n.retries - multiset{c})];
      assert Snap() == s.(tables := s.tables[c := clients[c].locks], net := net);
      RetryTakes(s, c, clients[c].locks, lid);
      TakesKeeps(s, Snap(), lid, L.RetryAtClient(c));
    }

    /** dorelease has flushed the extent, and the release call goes out. */
    ghost method Flush(c: Client, lid: Lid)
      requires Valid() && L.Enabled(At(Snap(), lid), L.Flush(c))
      modifies this`net
      ensures Valid() && Takes(old(Snap()), Snap(), lid, L.Flush(c))
    {
      hide AllReachable, At, Takes, L.Enabled;
      var s, n := Snap(), NetAt(net, lid);
      net := net[lid := n.(flushing := n.flushing - multiset{c}, returning := n.returning + multiset{c})];
      assert Snap() == s.(net := net);
      FlushTakes(s, c, lid);
      TakesKeeps(s, Snap(), lid, L.Flush(c));
    }

    // ---------------------------------------------------------- the server

    method AcquireAtServer(c: Client, t: Thread, lid: Lid) returns (ok: bool)
      requires Valid() && L.Enabled(At(Snap(), lid), L.AcquireAtServer(c, t))
      modifies this`net, server
      ensures Valid() && Takes(old(Snap()), Snap(), lid, L.AcquireAtServer(c, t))
      ensures L.PcOf(At(Snap(), lid), c, t) == L.Answered(ok)
      ensures var was := RecordOf(old(server.locks), lid);
              && (ok <==> was.holder == None)
              && server.locks == old(server.locks)[lid := if ok then was.(holder := Some(c)) else was.(queue := was.queue + [c])]
    {
      hide AllReachable, At, Takes, L.Enabled;
      ghost var s := Snap();
      ok := server.Acquire(lid, c);
      net := net[lid := WithPc(NetAt(net, lid), c, t, L.Answered(ok))];
      assert Snap() == s.(locks := server.locks, net := net);
      AcquireTakes(s, c, t, lid);
      TakesKeeps(s, Snap(), lid, L.AcquireAtServer(c, t));
    }

    /** A release comes from the recorded holder and passes the lock to the head of the queue. */
    method ReleaseAtServer(c: Client, lid: Lid) returns (grant: Option<Client>)
      requires Valid() && L.Enabled(At(Snap(), lid), L.ReleaseAtServer(c))
      modifies this`net, server
      ensures Valid() && Takes(old(Snap()), Snap(), lid, L.ReleaseAtServer(c))
      ensures grant.Some? && grant.value != c
      ensures var was := RecordOf(old(server.locks), lid);
              && was.holder == Some(c) && was.queue != [] && grant.value == was.queue[0]
              && server.locks == old(server.locks)[lid := ServerLock(grant, false, was.queue[1..])]
    {
      hide AllReachable, At, Takes, L.Enabled;
      ghost var s := Snap();
      ReleaseFinds(s, c, lid);
      grant := server.Release(lid);
      net := net[lid := Granting(NetAt(net, lid), c, grant)];
      assert Snap() == s.(locks := server.locks, net := net);
      ReturnTakes(s, c, lid);
      TakesKeeps(s, Snap(), lid, L.ReleaseAtServer(c));
    }

    /** One pass of the enforcer is one Enforce step of each lock with waiters and no revoke under way. */
    method EnforcePass()
      requires Valid()
      modifies server
      ensures Valid()
      ensures forall lid :: At(Snap(), lid) == EnforceIf(At(old(Snap()), lid))
    {
      hide At, G.Reachable, EnforceIf, Requested, WithDue, Enforced;
      ghost var s := Snap();
      server.Enforce();
      ghost var s' := Snap();
      assert s'.tables == s.tables;
      forall lid
        ensures At(s', lid) == EnforceIf(At(s, lid))
        ensures G.Reachable(At(s', lid))
      {
        EnforceMoves(s, s', lid);
        EnforceReaches(At(s, lid));
      }
    }

    /** One turn of the revoker. */
    method SendRevoke()
      requires Valid() && server.revokeQueue != []
      modifies this`net, server
      ensures Valid()
      ensures var q := old(server.revokeQueue)[0];
              if q.holder.Some? then Takes(old(Snap()), Snap(), q.lid, L.SendRevoke(q.holder.value))
              else forall lid :: At(Snap(), lid) == At(old(Snap()), lid)
    {
      hide AllReachable, At, Takes, L.Enabled;
      ghost var s := Snap();
      var q := server.Pop();
      if q.holder.Some? {
        ghost var n := NetAt(net, q.lid);
        net := net[q.lid := n.(revokes := n.revokes + multiset{q.holder.value})];
        assert Snap() == s.(requests := server.revokeQueue, net := net);
        RevokeMoves(s, q, server.revokeQueue, q.holder.value);
        TakesKeeps(s, Snap(), q.lid, L.SendRevoke(q.holder.value));
      } else {
        assert Snap() == s.(requests := server.revokeQueue);
        NobodyAsked(s, q, server.revokeQueue);
      }
    }

    // ---------------------------------------------------------- what the objects guarantee

    /** Mutual exclusion: of all clients together, one thread at most is recorded as holding a lock. */
    lemma OneHolder(lid: Lid, c: Client, d: Client)
      requires Valid() && c in clients && d in clients && lid in clients[c].locks && lid in clients[d].locks
      requires clients[c].locks[lid].holder.Some? && clients[d].locks[lid].holder.Some?
      ensures c == d
    {
      hide G.Reachable;
      HolderHolds(Snap(), lid, c);
      HolderHolds(Snap(), lid, d);
      G.MutualExclusion(At(Snap(), lid), c, clients[c].locks[lid].holder.value, d, clients[d].locks[lid].holder.value);
    }

    /** A client that owns a lock is the one the server has on record. */
    lemma OwnerIsOnRecord(lid: Lid, c: Client)
      requires Valid() && c in clients && lid in clients[c].locks && clients[c].locks[lid].owned
      ensures lid in server.locks && server.locks[lid].holder == Some(c)
    {
      hide G.Reachable;
      OwnerFacts(At(Snap(), lid), c);
    }
  }

  // ------------------------------------------------------------ each move is a step

  ghost function WithPc(n: Net, c: Client, t: Thread, p: L.Pc): Net {
    n.(pcs := n.pcs[(c, t) := p])
  }

  ghost function GivenUp(n: Net, c: Client, back: bool): Net {
    if back then n.(flushing := n.flushing + multiset{c}) else n
  }

  ghost function Granting(n: Net, c: Client, grant: Option<Client>): Net {
    n.(returning := n.returning - multiset{c},
       retries := n.retries + if grant.Some? then multiset{grant.value} else multiset{})
  }

  lemma EnterTakes(s: Snapshot, c: Client, m: Table, t: Thread, lid: Lid)
    requires c in s.tables && L.Enabled(At(s, lid), L.Enter(c, t))
    requires m == if lid in s.tables[c] then s.tables[c] else s.tables[c][lid := NewInfo()]
    ensures Takes(s, s.(tables := s.tables[c := m], net := s.net[lid := WithPc(NetAt(s.net, lid), c, t, L.Entered)]),
                  lid, L.Enter(c, t))
  {
    hide At, NetAt;
    Facts(s, lid);
    var l := m[lid];
    assert m == s.tables[c][lid := l];
    ClientMoves(s, c, m, lid, l, WithPc(NetAt(s.net, lid), c, t, L.Entered));
    var cli := At(s, lid).cli;
    assert c in cli ==> cli[c := l] == cli;
  }

  lemma RegisterTakes(s: Snapshot, c: Client, m: Table, t: Thread, lid: Lid)
    requires c in s.tables && lid in s.tables[c] && L.Enabled(At(s, lid), L.DoRegister(c, t))
    requires m == s.tables[c][lid := Register(s.tables[c][lid]).0]
    ensures var p := if Register(s.tables[c][lid]).1 then L.Fetching else L.WaitingOwner;
            Takes(s, s.(tables := s.tables[c := m], net := s.net[lid := WithPc(NetAt(s.net, lid), c, t, p)]), lid, L.DoRegister(c, t))
  {
    hide At, NetAt;
    Facts(s, lid);
    var (l, fetch) := Register(s.tables[c][lid]);
    ClientMoves(s, c, m, lid, l, WithPc(NetAt(s.net, lid), c, t, if fetch then L.Fetching else L.WaitingOwner));
  }

  lemma FetchTakes(s: Snapshot, c: Client, m: Table, t: Thread, lid: Lid)
    requires c in s.tables && lid in s.tables[c] && L.Enabled(At(s, lid), L.DoFetch(c, t))
    requires m == s.tables[c][lid := BeginFetch(s.tables[c][lid]).0]
    ensures var p := if BeginFetch(s.tables[c][lid]).1 then L.Requested else L.WaitingOwner;
            Takes(s, s.(tables := s.tables[c := m], net := s.net[lid := WithPc(NetAt(s.net, lid), c, t, p)]), lid, L.DoFetch(c, t))
  {
    hide At, NetAt;
    Facts(s, lid);
    var (l, call) := BeginFetch(s.tables[c][lid]);
    ClientMoves(s, c, m, lid, l, WithPc(NetAt(s.net, lid), c, t, if call then L.Requested else L.WaitingOwner));
  }

  lemma ReplyTakes(s: Snapshot, c: Client, m: Table, t: Thread, lid: Lid, ok: bool)
    requires c in s.tables && lid in s.tables[c] && L.Enabled(At(s, lid), L.ReplyAtClient(c, t))
    requires L.PcOf(At(s, lid), c, t) == L.Answered(ok) && m == s.tables[c][lid := EndFetch(s.tables[c][lid], ok)]
    ensures Takes(s, s.(tables := s.tables[c := m], net := s.net[lid := WithPc(NetAt(s.net, lid), c, t, L.WaitingOwner)]),
                  lid, L.ReplyAtClient(c, t))
  {
    hide At, NetAt;
    Facts(s, lid);
    ClientMoves(s, c, m, lid, m[lid], WithPc(NetAt(s.net, lid), c, t, L.WaitingOwner));
  }

  lemma TakeTakes(s: Snapshot, c: Client, m: Table, t: Thread, lid: Lid)
    requires c in s.tables && lid in s.tables[c] && s.tables[c][lid].awaiting > 0 && L.Enabled(At(s, lid), L.DoTake(c, t))
    requires var l := s.tables[c][lid]; m == if l.holder == None then s.tables[c][lid := Take(l, t)] else s.tables[c]
    ensures var p := if s.tables[c][lid].holder == None then L.Holding else L.WaitingHolder;
            var s' := s.(tables := s.tables[c := m], net := s.net[lid := WithPc(NetAt(s.net, lid), c, t, p)]);
            Takes(s, s', lid, L.DoTake(c, t)) && L.PcOf(At(s', lid), c, t) == p
  {
    hide At, NetAt;
    Facts(s, lid);
    var l := m[lid];
    assert m == s.tables[c][lid := l];
    ClientMoves(s, c, m, lid, l, WithPc(NetAt(s.net, lid), c, t, if s.tables[c][lid].holder == None then L.Holding else L.WaitingHolder));
    var cli := At(s, lid).cli;
    assert cli[c] == l ==> cli[c := l] == cli;
  }

  lemma ReleaseTakes(s: Snapshot, c: Client, m: Table, t: Thread, lid: Lid)
    requires c in s.tables && lid in s.tables[c] && L.Enabled(At(s, lid), L.DoRelease(c, t))
    requires m == s.tables[c][lid := Release(s.tables[c][lid]).0]
    ensures var n := GivenUp(WithPc(NetAt(s.net, lid), c, t, L.Outside), c, Release(s.tables[c][lid]).1);
            Takes(s, s.(tables := s.tables[c := m], net := s.net[lid := n]), lid, L.DoRelease(c, t))
  {
    hide At, NetAt;
    Facts(s, lid);
    ClientMoves(s, c, m, lid, m[lid], GivenUp(WithPc(NetAt(s.net, lid), c, t, L.Outside), c, Release(s.tables[c][lid]).1));
  }

  lemma RevokeFinds(s: Snapshot, c: Client, lid: Lid)
    requires AllReachable(s) && L.Enabled(At(s, lid), L.RevokeAtClient(c))
    ensures c in s.tables && lid in s.tables[c]
  {
    hide G.Reachable, L.Enabled;
    G.RevokesReachTheHolder(At(s, lid), c);
  }

  lemma RevokeTakes(s: Snapshot, c: Client, m: Table, lid: Lid)
    requires c in s.tables && lid in s.tables[c] && L.Enabled(At(s, lid), L.RevokeAtClient(c))
    requires m == s.tables[c][lid := Revoke(Some(s.tables[c][lid])).0]
    ensures var n := NetAt(s.net, lid);
            var n' := GivenUp(n.(revokes := n.revokes - multiset{c}), c, Revoke(Some(s.tables[c][lid])).1);
            Takes(s, s.(tables := s.tables[c := m], net := s.net[lid := n']), lid, L.RevokeAtClient(c))
  {
    hide At, NetAt;
    Facts(s, lid);
    var n := NetAt(s.net, lid);
    ClientMoves(s, c, m, lid, m[lid], GivenUp(n.(revokes := n.revokes - multiset{c}), c, Revoke(Some(s.tables[c][lid])).1));
  }

  lemma RetryTakes(s: Snapshot, c: Client, m: Table, lid: Lid)
    requires c in s.tables && lid in s.tables[c] && L.Enabled(At(s, lid), L.RetryAtClient(c))
    requires m == s.tables[c][lid := Retry(s.tables[c][lid])]
    ensures var n := NetAt(s.net, lid);
            Takes(s, s.(tables := s.tables[c := m], net := s.net[lid := n.(retries := n.retries - multiset{c})]), lid, L.RetryAtClient(c))
  {
    hide At, NetAt;
    Facts(s, lid);
    var n := NetAt(s.net, lid);
    ClientMoves(s, c, m, lid, m[lid], n.(retries := n.retries - multiset{c}));
  }

  lemma FlushTakes(s: Snapshot, c: Client, lid: Lid)
    requires L.Enabled(At(s, lid), L.Flush(c))
    ensures var n := NetAt(s.net, lid);
            var n' := n.(flushing := n.flushing - multiset{c}, returning := n.returning + multiset{c});
            Takes(s, s.(net := s.net[lid := n']), lid, L.Flush(c))
  {
    hide At, NetAt;
    Facts(s, lid);
    var n := NetAt(s.net, lid);
    NetMoves(s, lid, n.(flushing := n.flushing - multiset{c}, returning := n.returning + multiset{c}));
  }

  lemma AcquireTakes(s: Snapshot, c: Client, t: Thread, lid: Lid)
    requires L.Enabled(At(s, lid), L.AcquireAtServer(c, t))
    ensures var (r, ok) := ServerAcquire(RecordOf(s.locks, lid), c);
            var s' := s.(locks := s.locks[lid := r], net := s.net[lid := WithPc(NetAt(s.net, lid), c, t, L.Answered(ok))]);
            Takes(s, s', lid, L.AcquireAtServer(c, t)) && L.PcOf(At(s', lid), c, t) == L.Answered(ok)
  {
    hide At, NetAt;
    Facts(s, lid);
    var (r, ok) := ServerAcquire(RecordOf(s.locks, lid), c);
    ServerMoves(s, lid, r, WithPc(NetAt(s.net, lid), c, t, L.Answered(ok)));
  }

  lemma ReleaseFinds(s: Snapshot, c: Client, lid: Lid)
    requires AllReachable(s) && L.Enabled(At(s, lid), L.ReleaseAtServer(c))
    ensures lid in s.locks && s.locks[lid].holder == Some(c) && s.locks[lid].queue != [] && s.locks[lid].queue[0] != c
  {
    hide G.Reachable, L.Enabled, L.Next;
    G.HandOffOrder(At(s, lid), c);
  }

  lemma ReturnTakes(s: Snapshot, c: Client, lid: Lid)
    requires lid in s.locks && L.Enabled(At(s, lid), L.ReleaseAtServer(c))
    ensures var (r, grant) := ServerRelease(s.locks[lid]);
            Takes(s, s.(locks := s.locks[lid := r], net := s.net[lid := Granting(NetAt(s.net, lid), c, grant)]), lid, L.ReleaseAtServer(c))
  {
    hide At, NetAt;
    Facts(s, lid);
    var (r, grant) := ServerRelease(s.locks[lid]);
    ServerMoves(s, lid, r, Granting(NetAt(s.net, lid), c, grant));
  }

  lemma EnforceReaches(l: L.State)
    requires G.Reachable(l)
    ensures G.Reachable(EnforceIf(l))
  {
    hide G.Reachable, L.Next;
    if NeedsRevoke(l.srv) { P.ReachNext(l, L.Enforce); }
  }

  lemma NobodyAsked(s: Snapshot, q: RevokeRequest, rest: seq<RevokeRequest>)
    requires s.requests == [q] + rest && q.holder == None
    ensures forall lid :: At(s.(requests := rest), lid) == At(s, lid)
    ensures AllReachable(s) ==> AllReachable(s.(requests := rest))
  {
    hide InfosAt, RecordOf, Requested, G.Reachable;
    forall lid
      ensures At(s.(requests := rest), lid) == At(s, lid)
    {
      PopOne(q, rest, lid);
    }
  }

  lemma NoLocks(s: Snapshot)
    requires s.locks == map[] && s.requests == [] && s.net == map[] && forall c :: c in s.tables ==> s.tables[c] == map[]
    ensures AllReachable(s)
  {
    forall lid
      ensures G.Reachable(At(s, lid))
    {
      assert InfosAt(s.tables, lid) == map[];
      assert L.Init(At(s, lid));
      P.LeadsSelf(At(s, lid));
    }
  }

  /** A thread recorded as the holder stands behind acquire. */
  lemma HolderHolds(s: Snapshot, lid: Lid, c: Client)
    requires AllReachable(s) && c in s.tables && lid in s.tables[c] && s.tables[c][lid].holder.Some?
    ensures L.PcOf(At(s, lid), c, s.tables[c][lid].holder.value).Holding?
  {
    hide G.Reachable, S.LockAt, S.DemandAt, S.ClaimsOk, S.QueueOk, S.ThreadsOk, S.Waiters;
    var p, d := G.ReachableInv(At(s, lid));
    assert S.InfoOk(At(s, lid).pcs, c, At(s, lid).cli[c]);
  }

  lemma OwnerFacts(l: L.State, c: Client)
    requires G.Reachable(l) && c in l.cli && l.cli[c].owned
    ensures l.srv.holder == Some(c)
  {
    hide G.Reachable, S.DemandAt, S.ClaimsOk, S.QueueOk, S.ThreadsOk, S.InfosOk, S.Waiters;
    var p, d := G.ReachableInv(l);
    assert S.Owned(l.cli, c);
  }
}
