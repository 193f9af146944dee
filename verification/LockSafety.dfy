/**
  The invariant of the lock protocol: where the lock is, where the revoke is, and who waits.
 */
module LockSafety {
  import opened Option
  import opened Locks
  import opened LockProtocol

  // ------------------------------------------------------------ vocabulary

  predicate IsWaiting(p: Pc) {
    p.Fetching? || p.Requested? || p.Answered? || p.WaitingOwner? || p.WaitingHolder?
  }

  /** The threads counted by `awaiting_lock`. */
  function Waiters(pcs: map<Key, Pc>, c: Client): set<Key> {
    set k | k in pcs && k.0 == c && IsWaiting(pcs[k])
  }

  predicate Owned(cli: map<Client, LockInfo>, c: Client) {
    c in cli && cli[c].owned
  }

  predicate Acquiring(cli: map<Client, LockInfo>, c: Client) {
    c in cli && cli[c].acquiring
  }

  predicate Marked(cli: map<Client, LockInfo>, c: Client) {
    c in cli && cli[c].revoked
  }

  /** The places a lock can be. */
  datatype Place =
    | AtServer
    | OwnedBy(c: Client)
    | InAnswer(c: Client, t: Thread)
    | InRetry(c: Client)
    | BeingFlushed(c: Client)
    | BeingReturned(c: Client)

  /** The places a demand for the lock can be. */
  datatype Demand =
    | NoDemand
    | InQueue(c: Client)
    | InRevoke(c: Client)
    | Noted(c: Client)
    | Obeyed(c: Client)

  // ------------------------------------------------------------ the invariant

  ghost predicate OwnersAt(cli: map<Client, LockInfo>, p: Place) {
    forall c :: Owned(cli, c) <==> p == OwnedBy(c)
  }

  ghost predicate AnswersAt(pcs: map<Key, Pc>, p: Place) {
    forall k :: k in pcs && pcs[k] == Answered(true) <==> p == InAnswer(k.0, k.1)
  }

  ghost predicate MessagesAt(retries: multiset<Client>, flushing: multiset<Client>, returning: multiset<Client>, p: Place) {
    && retries == (if p.InRetry? then multiset{p.c} else multiset{})
    && flushing == (if p.BeingFlushed? then multiset{p.c} else multiset{})
    && returning == (if p.BeingReturned? then multiset{p.c} else multiset{})
  }

  /** The lock is at `p` and nowhere else. */
  ghost predicate LockAt(s: State, p: Place) {
    && s.srv.holder == (if p.AtServer? then None else Some(p.c))
    && OwnersAt(s.cli, p) && AnswersAt(s.pcs, p)
    && MessagesAt(s.retries, s.flushing, s.returning, p)
  }

  ghost predicate MarksAt(cli: map<Client, LockInfo>, d: Demand) {
    forall c :: Marked(cli, c) <==> d == Noted(c)
  }

  ghost predicate RevokesAt(queued: multiset<Client>, sent: multiset<Client>, d: Demand) {
    && queued == (if d.InQueue? then multiset{d.c} else multiset{})
    && sent == (if d.InRevoke? then multiset{d.c} else multiset{})
  }

  /** The demand made of the present holder is at `d` and nowhere else. */
  ghost predicate DemandAt(s: State, p: Place, d: Demand) {
    && (s.srv.revoked <==> !d.NoDemand?)
    && (!d.NoDemand? ==> s.srv.holder == Some(d.c))
    && RevokesAt(s.revokeQueue, s.revokes, d) && MarksAt(s.cli, d)
    && (d.Obeyed? <==> p.BeingFlushed? || p.BeingReturned?)
  }

  ghost predicate InfoOk(pcs: map<Key, Pc>, c: Client, l: LockInfo) {
    && l.awaiting == |Waiters(pcs, c)|
    && (l.holder.Some? ==> l.owned && (c, l.holder.value) in pcs && pcs[(c, l.holder.value)].Holding?)
    && !(l.owned && l.acquiring)
    && (l.acquiring ==> l.awaiting > 0)
    && (l.revoked ==> l.holder.Some? || l.awaiting > 0)
  }

  ghost predicate InfosOk(pcs: map<Key, Pc>, cli: map<Client, LockInfo>) {
    forall c :: c in cli ==> InfoOk(pcs, c, cli[c])
  }

  ghost predicate ThreadOk(cli: map<Client, LockInfo>, k: Key, p: Pc) {
    && (p != Outside ==> k.0 in cli)
    && (p.Holding? ==> cli[k.0].holder == Some(k.1))
    && (p.WaitingHolder? ==> cli[k.0].owned)
    && (p.Requested? ==> cli[k.0].acquiring)
    && (p.Answered? || p.WaitingOwner? ==> cli[k.0].owned || cli[k.0].acquiring)
  }

  ghost predicate ThreadsOk(pcs: map<Key, Pc>, cli: map<Client, LockInfo>) {
    forall k :: k in pcs ==> ThreadOk(cli, k, pcs[k])
  }

  ghost predicate NoDuplicates(q: seq<Client>) {
    forall i, j :: 0 <= i < j < |q| ==> q[i] != q[j]
  }

  /** A free lock has no waiters, and the next in line is never the present holder. */
  ghost predicate QueueOk(r: ServerLock) {
    && NoDuplicates(r.queue)
    && (r.holder == None ==> r.queue == [])
    && (r.revoked ==> r.queue != [])
    && (r.queue != [] ==> r.holder != Some(r.queue[0]))
  }

  predicate Granted(p: Place, c: Client) {
    (p.InAnswer? || p.InRetry?) && p.c == c
  }

  ghost predicate Asking(pcs: map<Key, Pc>, c: Client) {
    exists t :: (c, t) in pcs && pcs[(c, t)].Requested?
  }

  /** Each client has at most one request; it is on its way, queued, or just granted. */
  ghost predicate ClaimOk(pcs: map<Key, Pc>, queue: seq<Client>, p: Place, c: Client, acquiring: bool) {
    && (acquiring <==> c in queue || Granted(p, c) || Asking(pcs, c))
    && !(c in queue && Granted(p, c))
    && !(c in queue && Asking(pcs, c))
    && !(Granted(p, c) && Asking(pcs, c))
    && (forall t, u :: (c, t) in pcs && (c, u) in pcs && pcs[(c, t)].Requested? && pcs[(c, u)].Requested? ==> t == u)
  }

  ghost predicate ClaimsOk(s: State, p: Place) {
    forall c :: ClaimOk(s.pcs, s.srv.queue, p, c, Acquiring(s.cli, c))
  }

  ghost predicate At(s: State, p: Place, d: Demand) {
    && LockAt(s, p) && DemandAt(s, p, d)
    && InfosOk(s.pcs, s.cli) && ThreadsOk(s.pcs, s.cli)
    && QueueOk(s.srv) && ClaimsOk(s, p)
    && (s.srv.holder.Some? ==> s.srv.holder.value in s.cli)
  }

  ghost predicate Inv(s: State) {
    exists p, d :: At(s, p, d)
  }

  // ------------------------------------------------------------ changing one client and one thread

  lemma WaitersSet(pcs: map<Key, Pc>, c: Client, t: Thread, q: Pc)
    ensures forall d :: d != c ==> Waiters(pcs[(c, t) := q], d) == Waiters(pcs, d)
    ensures IsWaiting(q) ==> Waiters(pcs[(c, t) := q], c) == Waiters(pcs, c) + {(c, t)}
    ensures !IsWaiting(q) ==> Waiters(pcs[(c, t) := q], c) == Waiters(pcs, c) - {(c, t)}
  {
  }

  /** How the count of waiting threads follows one thread. */
  lemma WaitersCount(pcs: map<Key, Pc>, c: Client, t: Thread, q: Pc)
    ensures var was := (c, t) in pcs && IsWaiting(pcs[(c, t)]);
            |Waiters(pcs[(c, t) := q], c)|
            == |Waiters(pcs, c)| + (if IsWaiting(q) then 1 else 0) - (if was then 1 else 0)
  {
    WaitersSet(pcs, c, t, q);
    assert (c, t) in Waiters(pcs, c) <==> (c, t) in pcs && IsWaiting(pcs[(c, t)]);
  }

  lemma InfosSet(pcs: map<Key, Pc>, cli: map<Client, LockInfo>, c: Client, t: Thread, q: Pc, l: LockInfo)
    requires InfosOk(pcs, cli) && InfoOk(pcs[(c, t) := q], c, l)
    ensures InfosOk(pcs[(c, t) := q], cli[c := l])
  {
    hide Waiters;
    WaitersSet(pcs, c, t, q);
    forall d | d in cli && d != c
      ensures InfoOk(pcs[(c, t) := q], d, cli[d])
    {
      assert InfoOk(pcs, d, cli[d]);
    }
  }

  lemma ThreadsSet(pcs: map<Key, Pc>, cli: map<Client, LockInfo>, c: Client, t: Thread, q: Pc, l: LockInfo)
    requires ThreadsOk(pcs, cli) && ThreadOk(cli[c := l], (c, t), q)
    requires forall u :: u != t && (c, u) in pcs ==> ThreadOk(cli[c := l], (c, u), pcs[(c, u)])
    ensures ThreadsOk(pcs[(c, t) := q], cli[c := l])
  {
    var pcs', cli' := pcs[(c, t) := q], cli[c := l];
    forall k | k in pcs'
      ensures ThreadOk(cli', k, pcs'[k])
    {
      if k.0 == c { assert k == (c, k.1); } else { assert ThreadOk(cli, k, pcs[k]); }
    }
  }

  lemma AskingSet(pcs: map<Key, Pc>, c: Client, t: Thread, q: Pc)
    ensures forall d :: d != c ==> (Asking(pcs[(c, t) := q], d) <==> Asking(pcs, d))
    ensures q.Requested? ==> Asking(pcs[(c, t) := q], c)
    ensures !q.Requested? && !((c, t) in pcs && pcs[(c, t)].Requested?) ==> (Asking(pcs[(c, t) := q], c) <==> Asking(pcs, c))
  {
    var pcs' := pcs[(c, t) := q];
    forall d
      ensures d != c ==> (Asking(pcs', d) <==> Asking(pcs, d))
      ensures d == c && !q.Requested? && !((c, t) in pcs && pcs[(c, t)].Requested?) ==> (Asking(pcs', d) <==> Asking(pcs, d))
    {
      if u :| (d, u) in pcs && pcs[(d, u)].Requested? && (d, u) != (c, t) {
        assert pcs'[(d, u)].Requested?;
      }
      if u :| (d, u) in pcs' && pcs'[(d, u)].Requested? && (d, u) != (c, t) {
        assert pcs[(d, u)].Requested?;
      }
    }
    if q.Requested? { assert pcs'[(c, t)].Requested?; }
  }

  /** Only the client that moves has its request changed. */
  lemma ClaimsSet(s: State, s': State, p: Place, p': Place, c: Client, t: Thread, q: Pc)
    requires ClaimsOk(s, p) && s'.pcs == s.pcs[(c, t) := q] && s'.srv.queue == s.srv.queue
    requires forall d :: d != c ==> (Acquiring(s'.cli, d) <==> Acquiring(s.cli, d))
    requires forall d :: d != c ==> (Granted(p', d) <==> Granted(p, d))
    requires ClaimOk(s'.pcs, s'.srv.queue, p', c, Acquiring(s'.cli, c))
    ensures ClaimsOk(s', p')
  {
    hide Granted, Acquiring, Asking;
    AskingSet(s.pcs, c, t, q);
    forall d | d != c
      ensures ClaimOk(s'.pcs, s'.srv.queue, p', d, Acquiring(s'.cli, d))
    {
      assert ClaimOk(s.pcs, s.srv.queue, p, d, Acquiring(s.cli, d));
    }
  }

  lemma ClaimStays(pcs: map<Key, Pc>, queue: seq<Client>, p: Place, c: Client, acquiring: bool, t: Thread, q: Pc)
    requires ClaimOk(pcs, queue, p, c, acquiring)
    requires !q.Requested? && !((c, t) in pcs && pcs[(c, t)].Requested?)
    ensures ClaimOk(pcs[(c, t) := q], queue, p, c, acquiring)
  {
    hide Asking;
    AskingSet(pcs, c, t, q);
  }

  /** What the invariant says about one client. */
  lemma ClientFacts(s: State, p: Place, d: Demand, c: Client)
    requires At(s, p, d)
    ensures ClaimOk(s.pcs, s.srv.queue, p, c, Acquiring(s.cli, c))
    ensures c in s.cli ==> InfoOk(s.pcs, c, s.cli[c])
    ensures forall u :: (c, u) in s.pcs ==> ThreadOk(s.cli, (c, u), s.pcs[(c, u)])
    ensures c in s.cli && s.cli[c].awaiting == 0 ==> forall u :: (c, u) in s.pcs ==> !IsWaiting(s.pcs[(c, u)])
  {
    hide LockAt, DemandAt, QueueOk, ClaimOk, ThreadOk;
    assert ClaimOk(s.pcs, s.srv.queue, p, c, Acquiring(s.cli, c));
    if c in s.cli && s.cli[c].awaiting == 0 {
      assert InfoOk(s.pcs, c, s.cli[c]);
      assert Waiters(s.pcs, c) == {};
      forall u | (c, u) in s.pcs
        ensures !IsWaiting(s.pcs[(c, u)])
      {
        assert (c, u) !in Waiters(s.pcs, c);
      }
    }
  }

  lemma AnswersSet(pcs: map<Key, Pc>, p: Place, p': Place, c: Client, t: Thread, q: Pc)
    requires AnswersAt(pcs, p)
    requires p' == p || !p.InAnswer? || p == InAnswer(c, t)
    requires p'.InAnswer? && p' != p ==> p' == InAnswer(c, t)
    requires q == Answered(true) <==> p' == InAnswer(c, t)
    ensures AnswersAt(pcs[(c, t) := q], p')
  {
    var pcs' := pcs[(c, t) := q];
    forall k
      ensures k in pcs' && pcs'[k] == Answered(true) <==> p' == InAnswer(k.0, k.1)
    {
      assert k in pcs && pcs[k] == Answered(true) <==> p == InAnswer(k.0, k.1);
      assert k == (k.0, k.1);
    }
  }

  lemma OwnersSet(cli: map<Client, LockInfo>, p: Place, p': Place, c: Client, l: LockInfo)
    requires OwnersAt(cli, p)
    requires p' == p || !p.OwnedBy? || p == OwnedBy(c)
    requires p'.OwnedBy? && p' != p ==> p' == OwnedBy(c)
    requires l.owned <==> p' == OwnedBy(c)
    ensures OwnersAt(cli[c := l], p')
  {
    var cli' := cli[c := l];
    forall e
      ensures Owned(cli', e) <==> p' == OwnedBy(e)
    {
      assert Owned(cli, e) <==> p == OwnedBy(e);
    }
  }

  lemma MarksSet(cli: map<Client, LockInfo>, d: Demand, d': Demand, c: Client, l: LockInfo)
    requires MarksAt(cli, d)
    requires d' == d || !d.Noted? || d == Noted(c)
    requires d'.Noted? && d' != d ==> d' == Noted(c)
    requires l.revoked <==> d' == Noted(c)
    ensures MarksAt(cli[c := l], d')
  {
    var cli' := cli[c := l];
    forall e
      ensures Marked(cli', e) <==> d' == Noted(e)
    {
      assert Marked(cli, e) <==> d == Noted(e);
    }
  }

  lemma AnswersNone(pcs: map<Key, Pc>, p: Place, p': Place)
    requires AnswersAt(pcs, p) && !p.InAnswer? && !p'.InAnswer?
    ensures AnswersAt(pcs, p')
  {
  }

  lemma OwnersNone(cli: map<Client, LockInfo>, p: Place, p': Place)
    requires OwnersAt(cli, p) && !p.OwnedBy? && !p'.OwnedBy?
    ensures OwnersAt(cli, p')
  {
  }

  lemma MessagesNone(s: State, p: Place, p': Place)
    requires MessagesAt(s.retries, s.flushing, s.returning, p)
    requires !p.InRetry? && !p.BeingFlushed? && !p.BeingReturned? && !p'.InRetry? && !p'.BeingFlushed? && !p'.BeingReturned?
    ensures MessagesAt(s.retries, s.flushing, s.returning, p')
  {
  }

  lemma MarksNone(cli: map<Client, LockInfo>, d: Demand, d': Demand)
    requires MarksAt(cli, d) && !d.Noted? && !d'.Noted?
    ensures MarksAt(cli, d')
  {
  }

  /** What the places say about one client and one thread. */
  lemma PlaceFacts(s: State, p: Place, d: Demand, c: Client, t: Thread)
    requires LockAt(s, p) && DemandAt(s, p, d)
    ensures Owned(s.cli, c) <==> p == OwnedBy(c)
    ensures Marked(s.cli, c) <==> d == Noted(c)
    ensures PcOf(s, c, t) == Answered(true) <==> p == InAnswer(c, t)
  {
    assert (c, t) in s.pcs && s.pcs[(c, t)] == Answered(true) <==> p == InAnswer((c, t).0, (c, t).1);
  }

  /** The lock and the demand stay put when the client's flags for them do. */
  lemma PlacesStay(s: State, s': State, p: Place, d: Demand, c: Client, t: Thread, q: Pc, l: LockInfo)
    requires LockAt(s, p) && DemandAt(s, p, d)
    requires s' == s.(pcs := s.pcs[(c, t) := q], cli := s.cli[c := l])
    requires l.owned == Owned(s.cli, c) && l.revoked == Marked(s.cli, c)
    requires q == Answered(true) <==> PcOf(s, c, t) == Answered(true)
    ensures LockAt(s', p) && DemandAt(s', p, d)
  {
    hide OwnersAt, RevokesAt, MessagesAt, AnswersAt, MarksAt;
    PlaceFacts(s, p, d, c, t);
    AnswersSet(s.pcs, p, p, c, t, q);
    OwnersSet(s.cli, p, p, c, l);
    MarksSet(s.cli, d, d, c, l);
  }

  ghost predicate OthersOk(s: State, c: Client, t: Thread, l: LockInfo) {
    forall u :: u != t && (c, u) in s.pcs ==> ThreadOk(s.cli[c := l], (c, u), s.pcs[(c, u)])
  }

  /** Other threads of the client do not mind a record that keeps what they rely on. */
  lemma OthersStay(s: State, c: Client, t: Thread, l: LockInfo)
    requires c in s.cli && forall u :: (c, u) in s.pcs ==> ThreadOk(s.cli, (c, u), s.pcs[(c, u)])
    requires (s.cli[c].owned ==> l.owned) && (s.cli[c].acquiring ==> l.acquiring)
    requires s.cli[c].holder.Some? && s.cli[c].holder != Some(t) ==> l.holder == s.cli[c].holder
    ensures OthersOk(s, c, t, l)
  {
    forall u | u != t && (c, u) in s.pcs
      ensures ThreadOk(s.cli[c := l], (c, u), s.pcs[(c, u)])
    {
      assert ThreadOk(s.cli, (c, u), s.pcs[(c, u)]);
    }
  }

  /** A step of one thread of one client keeps the invariant when it is right for them. */
  lemma LocalStep(s: State, s': State, p: Place, p': Place, d: Demand, d': Demand, c: Client, t: Thread, q: Pc, l: LockInfo)
    requires At(s, p, d)
    requires s'.pcs == s.pcs[(c, t) := q] && s'.cli == s.cli[c := l] && s'.srv == s.srv
    requires LockAt(s', p') && DemandAt(s', p', d')
    requires InfoOk(s'.pcs, c, l) && ThreadOk(s'.cli, (c, t), q) && OthersOk(s, c, t, l)
    requires ClaimOk(s'.pcs, s.srv.queue, p', c, l.acquiring) && forall e :: e != c ==> (Granted(p', e) <==> Granted(p, e))
    ensures At(s', p', d')
  {
    hide LockAt, DemandAt, InfoOk, ThreadOk, ClaimOk, Granted;
    InfosSet(s.pcs, s.cli, c, t, q, l);
    ThreadsSet(s.pcs, s.cli, c, t, q, l);
    ClaimsSet(s, s', p, p', c, t, q);
  }

  // ------------------------------------------------------------ steps of one thread

  lemma EnterKeeps(s: State, p: Place, d: Demand, c: Client, t: Thread)
    requires At(s, p, d) && Enabled(s, Enter(c, t))
    ensures At(Next(s, Enter(c, t)), p, d)
  {
    hide Waiters, QueueOk, ClaimOk, InfosOk, ThreadsOk, ClaimsOk, LockAt, DemandAt, OthersOk;
    var l := if c in s.cli then s.cli[c] else NewInfo();
    var s' := Next(s, Enter(c, t));
    assert s'.cli == s.cli[c := l] && s'.pcs == s.pcs[(c, t) := Entered];
    ClientFacts(s, p, d, c);
    WaitersCount(s.pcs, c, t, Entered);
    if c !in s.cli {
      NoRecordNoWaiters(s, c, t, l);
    } else {
      OthersStay(s, c, t, l);
    }
    ClaimStays(s.pcs, s.srv.queue, p, c, Acquiring(s.cli, c), t, Entered);
    PlacesStay(s, s', p, d, c, t, Entered, l);
    LocalStep(s, s', p, p, d, d, c, t, Entered, l);
  }

  lemma NoRecordNoWaiters(s: State, c: Client, t: Thread, l: LockInfo)
    requires ThreadsOk(s.pcs, s.cli) && c !in s.cli
    ensures Waiters(s.pcs, c) == {} && OthersOk(s, c, t, l)
  {
    forall k | k in s.pcs && k.0 == c
      ensures s.pcs[k] == Outside
    {
      assert ThreadOk(s.cli, k, s.pcs[k]);
    }
    forall u | (c, u) in s.pcs
      ensures s.pcs[(c, u)] == Outside
    {
      assert ThreadOk(s.cli, (c, u), s.pcs[(c, u)]);
    }
  }

  lemma RegisterKeeps(s: State, p: Place, d: Demand, c: Client, t: Thread)
    requires At(s, p, d) && Enabled(s, DoRegister(c, t))
    ensures At(Next(s, DoRegister(c, t)), p, d)
  {
    hide Waiters, QueueOk, ClaimOk, InfosOk, ThreadsOk, ClaimsOk, LockAt, DemandAt, OthersOk;
    var (l, fetch) := Register(s.cli[c]);
    var q := if fetch then Fetching else WaitingOwner;
    var s' := Next(s, DoRegister(c, t));
    ClientFacts(s, p, d, c);
    WaitersCount(s.pcs, c, t, q);
    OthersStay(s, c, t, l);
    ClaimStays(s.pcs, s.srv.queue, p, c, Acquiring(s.cli, c), t, q);
    PlacesStay(s, s', p, d, c, t, q, l);
    LocalStep(s, s', p, p, d, d, c, t, q, l);
  }

  /** A client without a request makes its first one. */
  lemma ClaimMade(pcs: map<Key, Pc>, queue: seq<Client>, p: Place, c: Client, t: Thread)
    requires ClaimOk(pcs, queue, p, c, false)
    ensures ClaimOk(pcs[(c, t) := Requested], queue, p, c, true)
  {
    AskingSet(pcs, c, t, Requested);
  }

  lemma FetchKeeps(s: State, p: Place, d: Demand, c: Client, t: Thread)
    requires At(s, p, d) && Enabled(s, DoFetch(c, t))
    ensures At(Next(s, DoFetch(c, t)), p, d)
  {
    hide Waiters, QueueOk, ClaimOk, InfosOk, ThreadsOk, ClaimsOk, LockAt, DemandAt, OthersOk;
    var (l, call) := BeginFetch(s.cli[c]);
    var q := if call then Requested else WaitingOwner;
    var s' := Next(s, DoFetch(c, t));
    ClientFacts(s, p, d, c);
    WaitersCount(s.pcs, c, t, q);
    OthersStay(s, c, t, l);
    if call {
      ClaimMade(s.pcs, s.srv.queue, p, c, t);
    } else {
      ClaimStays(s.pcs, s.srv.queue, p, c, Acquiring(s.cli, c), t, q);
    }
    PlacesStay(s, s', p, d, c, t, q, l);
    LocalStep(s, s', p, p, d, d, c, t, q, l);
  }

  lemma TakeKeeps(s: State, p: Place, d: Demand, c: Client, t: Thread)
    requires At(s, p, d) && Enabled(s, DoTake(c, t))
    ensures At(Next(s, DoTake(c, t)), p, d)
  {
    hide Waiters, QueueOk, ClaimOk, InfosOk, ThreadsOk, ClaimsOk, LockAt, DemandAt, OthersOk;
    var s' := Next(s, DoTake(c, t));
    var q, l := s'.pcs[(c, t)], s'.cli[c];
    assert s'.cli == s.cli[c := l];
    ClientFacts(s, p, d, c);
    WaitersCount(s.pcs, c, t, q);
    OthersStay(s, c, t, l);
    ClaimStays(s.pcs, s.srv.queue, p, c, Acquiring(s.cli, c), t, q);
    PlacesStay(s, s', p, d, c, t, q, l);
    LocalStep(s, s', p, p, d, d, c, t, q, l);
  }

  /** The client receives the lock it asked for: nothing of its request is left. */
  lemma ClaimMet(pcs: map<Key, Pc>, queue: seq<Client>, p: Place, c: Client)
    requires ClaimOk(pcs, queue, p, c, true) && Granted(p, c)
    ensures ClaimOk(pcs, queue, OwnedBy(c), c, false)
    ensures forall u :: (c, u) in pcs ==> !pcs[(c, u)].Requested?
  {
  }

  lemma ReplyPlaces(s: State, p: Place, d: Demand, c: Client, t: Thread)
    requires At(s, p, d) && Enabled(s, ReplyAtClient(c, t)) && PcOf(s, c, t).ok
    ensures p == InAnswer(c, t) && !s.cli[c].owned
    ensures LockAt(Next(s, ReplyAtClient(c, t)), OwnedBy(c)) && DemandAt(Next(s, ReplyAtClient(c, t)), OwnedBy(c), d)
  {
    hide InfosOk, ThreadsOk, ClaimsOk, QueueOk, OwnersAt, RevokesAt, MessagesAt, AnswersAt, MarksAt;
    PlaceFacts(s, p, d, c, t);
    var l := EndFetch(s.cli[c], true);
    AnswersSet(s.pcs, p, OwnedBy(c), c, t, WaitingOwner);
    OwnersSet(s.cli, p, OwnedBy(c), c, l);
    MessagesNone(s, p, OwnedBy(c));
    MarksSet(s.cli, d, d, c, l);
  }

  lemma ReplyKeeps(s: State, p: Place, d: Demand, c: Client, t: Thread)
    requires At(s, p, d) && Enabled(s, ReplyAtClient(c, t))
    ensures At(Next(s, ReplyAtClient(c, t)), if PcOf(s, c, t).ok then OwnedBy(c) else p, d)
  {
    hide Waiters, QueueOk, InfosOk, ThreadsOk, ClaimsOk, LockAt, DemandAt, ClaimOk;
    var s' := Next(s, ReplyAtClient(c, t));
    var l := s'.cli[c];
    ClientFacts(s, p, d, c);
    WaitersCount(s.pcs, c, t, WaitingOwner);
    ClaimStays(s.pcs, s.srv.queue, p, c, Acquiring(s.cli, c), t, WaitingOwner);
    if PcOf(s, c, t).ok {
      ReplyPlaces(s, p, d, c, t);
      ClaimMet(s'.pcs, s.srv.queue, p, c);
      assert OthersOk(s, c, t, l) by {
        forall u | u != t && (c, u) in s.pcs
          ensures !s.pcs[(c, u)].Requested?
        {
          assert s'.pcs[(c, u)] == s.pcs[(c, u)];
        }
      }
      LocalStep(s, s', p, OwnedBy(c), d, d, c, t, WaitingOwner, l);
    } else {
      OthersStay(s, c, t, l);
      PlacesStay(s, s', p, d, c, t, WaitingOwner, l);
      LocalStep(s, s', p, p, d, d, c, t, WaitingOwner, l);
    }
  }

  lemma ReleasePlaces(s: State, p: Place, d: Demand, c: Client, t: Thread)
    requires At(s, p, d) && Enabled(s, DoRelease(c, t)) && Release(s.cli[c]).1 && s.cli[c].owned
    ensures p == OwnedBy(c) && d == Noted(c)
    ensures LockAt(Next(s, DoRelease(c, t)), BeingFlushed(c))
    ensures DemandAt(Next(s, DoRelease(c, t)), BeingFlushed(c), Obeyed(c))
  {
    hide InfosOk, ThreadsOk, ClaimsOk, QueueOk, OwnersAt, AnswersAt, MarksAt;
    PlaceFacts(s, p, d, c, t);
    var l := Release(s.cli[c]).0;
    AnswersSet(s.pcs, p, BeingFlushed(c), c, t, Outside);
    OwnersSet(s.cli, p, BeingFlushed(c), c, l);
    MarksSet(s.cli, d, Obeyed(c), c, l);
  }

  lemma ReleaseKeeps(s: State, p: Place, d: Demand, c: Client, t: Thread)
    requires At(s, p, d) && Enabled(s, DoRelease(c, t))
    ensures var back := Release(s.cli[c]).1;
            At(Next(s, DoRelease(c, t)), if back then BeingFlushed(c) else p, if back then Obeyed(c) else d)
  {
    hide Waiters, QueueOk, InfosOk, ThreadsOk, ClaimsOk, LockAt, DemandAt, Asking;
    var s' := Next(s, DoRelease(c, t));
    var l := s'.cli[c];
    ClientFacts(s, p, d, c);
    WaitersCount(s.pcs, c, t, Outside);
    ClaimStays(s.pcs, s.srv.queue, p, c, Acquiring(s.cli, c), t, Outside);
    if Release(s.cli[c]).1 {
      ReleasePlaces(s, p, d, c, t);
      LocalStep(s, s', p, BeingFlushed(c), d, Obeyed(c), c, t, Outside, l);
    } else {
      OthersStay(s, c, t, l);
      PlacesStay(s, s', p, d, c, t, Outside, l);
      LocalStep(s, s', p, p, d, d, c, t, Outside, l);
    }
  }

  // ------------------------------------------------------------ steps of the server

  /** The thread is the only one of its client with a request under way. */
  lemma OnlyRequest(pcs: map<Key, Pc>, queue: seq<Client>, p: Place, c: Client, acquiring: bool, t: Thread, q: Pc)
    requires ClaimOk(pcs, queue, p, c, acquiring) && (c, t) in pcs && pcs[(c, t)].Requested? && !q.Requested?
    ensures acquiring && c !in queue && !Granted(p, c) && !Asking(pcs[(c, t) := q], c)
  {
  }

  lemma AcquirePlaces(s: State, p: Place, d: Demand, c: Client, t: Thread)
    requires At(s, p, d) && Enabled(s, AcquireAtServer(c, t))
    ensures var p' := if s.srv.holder == None then InAnswer(c, t) else p;
            LockAt(Next(s, AcquireAtServer(c, t)), p') && DemandAt(Next(s, AcquireAtServer(c, t)), p', d)
  {
    hide InfosOk, ThreadsOk, ClaimsOk, MarksAt, AnswersAt, OwnersAt, RevokesAt, MessagesAt, QueueOk;
    PlaceFacts(s, p, d, c, t);
    var p' := if s.srv.holder == None then InAnswer(c, t) else p;
    if p' != p {
      OwnersNone(s.cli, p, p');
      MessagesNone(s, p, p');
    }
    AnswersSet(s.pcs, p, p', c, t, Answered(s.srv.holder == None));
  }

  /** A queued client was not queued before, and the head of the queue is not the holder. */
  lemma AcquireQueue(s: State, p: Place, d: Demand, c: Client, t: Thread)
    requires At(s, p, d) && Enabled(s, AcquireAtServer(c, t))
    ensures QueueOk(Next(s, AcquireAtServer(c, t)).srv)
  {
    hide InfosOk, ThreadsOk, ClaimsOk, Waiters, AnswersAt, MarksAt;
    ClientFacts(s, p, d, c);
    OnlyRequest(s.pcs, s.srv.queue, p, c, Acquiring(s.cli, c), t, Answered(false));
    assert p != OwnedBy(c);
  }

  lemma AcquireClaims(s: State, p: Place, d: Demand, c: Client, t: Thread)
    requires At(s, p, d) && Enabled(s, AcquireAtServer(c, t))
    ensures ClaimsOk(Next(s, AcquireAtServer(c, t)), if s.srv.holder == None then InAnswer(c, t) else p)
  {
    hide InfosOk, ThreadsOk, QueueOk, DemandAt, Asking, Waiters, OwnersAt, AnswersAt;
    var s' := Next(s, AcquireAtServer(c, t));
    var p' := if s.srv.holder == None then InAnswer(c, t) else p;
    var q := s'.pcs[(c, t)];
    ClientFacts(s, p, d, c);
    OnlyRequest(s.pcs, s.srv.queue, p, c, Acquiring(s.cli, c), t, q);
    AskingSet(s.pcs, c, t, q);
    forall e
      ensures ClaimOk(s'.pcs, s'.srv.queue, p', e, Acquiring(s'.cli, e))
    {
      assert ClaimOk(s.pcs, s.srv.queue, p, e, Acquiring(s.cli, e));
    }
  }

  lemma AcquireKeeps(s: State, p: Place, d: Demand, c: Client, t: Thread)
    requires At(s, p, d) && Enabled(s, AcquireAtServer(c, t))
    ensures At(Next(s, AcquireAtServer(c, t)), if s.srv.holder == None then InAnswer(c, t) else p, d)
  {
    hide LockAt, DemandAt, QueueOk, ClaimsOk, Waiters;
    AcquirePlaces(s, p, d, c, t);
    AcquireQueue(s, p, d, c, t);
    AcquireClaims(s, p, d, c, t);
    var s' := Next(s, AcquireAtServer(c, t));
    var q := s'.pcs[(c, t)];
    assert c in s.cli by { assert ThreadOk(s.cli, (c, t), s.pcs[(c, t)]); }
    assert s.cli[c := s.cli[c]] == s.cli;
    assert ThreadOk(s.cli, (c, t), q);
    assert InfoOk(s.pcs, c, s.cli[c]);
    WaitersCount(s.pcs, c, t, q);
    InfosSet(s.pcs, s.cli, c, t, q, s.cli[c]);
    ThreadsSet(s.pcs, s.cli, c, t, q, s.cli[c]);
  }

  lemma EnforceKeeps(s: State, p: Place, d: Demand)
    requires At(s, p, d) && Enabled(s, Enforce)
    ensures s.srv.holder.Some? && At(Next(s, Enforce), p, InQueue(s.srv.holder.value))
  {
    hide InfosOk, ThreadsOk, ClaimOk, OwnersAt, MessagesAt, AnswersAt, MarksAt;
    MarksNone(s.cli, d, InQueue(s.srv.holder.value));
  }

  lemma SendRevokeKeeps(s: State, p: Place, d: Demand, c: Client)
    requires At(s, p, d) && Enabled(s, SendRevoke(c))
    ensures d == InQueue(c) && At(Next(s, SendRevoke(c)), p, InRevoke(c))
  {
    hide InfosOk, ThreadsOk, ClaimOk, QueueOk, OwnersAt, MessagesAt, AnswersAt, MarksAt;
    MarksNone(s.cli, d, InRevoke(c));
  }

  lemma FlushKeeps(s: State, p: Place, d: Demand, c: Client)
    requires At(s, p, d) && Enabled(s, Flush(c))
    ensures p == BeingFlushed(c) && At(Next(s, Flush(c)), BeingReturned(c), d)
  {
    hide InfosOk, ThreadsOk, QueueOk, MarksAt, Asking, OwnersAt, RevokesAt, AnswersAt;
    OwnersNone(s.cli, p, BeingReturned(c));
    AnswersNone(s.pcs, p, BeingReturned(c));
    var s' := Next(s, Flush(c));
    forall e
      ensures ClaimOk(s'.pcs, s'.srv.queue, BeingReturned(c), e, Acquiring(s'.cli, e))
    {
      assert ClaimOk(s.pcs, s.srv.queue, p, e, Acquiring(s.cli, e));
    }
  }

  /** A release grants the lock to the longest waiter, who is not the releaser. */
  lemma ReturnFacts(s: State, p: Place, d: Demand, c: Client)
    requires At(s, p, d) && Enabled(s, ReleaseAtServer(c))
    ensures p == BeingReturned(c) && d == Obeyed(c) && s.srv.holder == Some(c) && s.srv.queue != [] && s.srv.queue[0] != c
    ensures s.srv.queue[0] !in s.srv.queue[1..] && s.srv.queue[0] in s.cli
  {
    hide InfosOk, ThreadsOk, Asking, OwnersAt, AnswersAt, MarksAt;
    assert c in s.returning;
    var h := s.srv.queue[0];
    assert s.srv.queue == [h] + s.srv.queue[1..];
    assert ClaimOk(s.pcs, s.srv.queue, p, h, Acquiring(s.cli, h));
  }

  lemma ReturnPlaces(s: State, c: Client)
    requires LockAt(s, BeingReturned(c)) && DemandAt(s, BeingReturned(c), Obeyed(c)) && Enabled(s, ReleaseAtServer(c))
    requires s.srv.queue != [] && s.srv.queue[0] in s.cli
    ensures var s', h := Next(s, ReleaseAtServer(c)), s.srv.queue[0];
            LockAt(s', InRetry(h)) && DemandAt(s', InRetry(h), NoDemand)
  {
    hide OwnersAt, AnswersAt, MarksAt;
    var h := s.srv.queue[0];
    OwnersNone(s.cli, BeingReturned(c), InRetry(h));
    AnswersNone(s.pcs, BeingReturned(c), InRetry(h));
    MarksNone(s.cli, Obeyed(c), NoDemand);
  }

  lemma ReturnClaims(s: State, c: Client)
    requires ClaimsOk(s, BeingReturned(c)) && s.srv.queue != [] && s.srv.queue[0] !in s.srv.queue[1..]
    ensures ClaimsOk(s.(srv := ServerLock(Some(s.srv.queue[0]), false, s.srv.queue[1..])), InRetry(s.srv.queue[0]))
  {
    hide Asking;
    var h := s.srv.queue[0];
    assert s.srv.queue == [h] + s.srv.queue[1..];
    forall e
      ensures ClaimOk(s.pcs, s.srv.queue[1..], InRetry(h), e, Acquiring(s.cli, e))
    {
      assert ClaimOk(s.pcs, s.srv.queue, BeingReturned(c), e, Acquiring(s.cli, e));
      assert e in s.srv.queue <==> e == h || e in s.srv.queue[1..];
    }
  }

  lemma ReturnFrame(s: State, c: Client)
    requires Enabled(s, ReleaseAtServer(c)) && s.srv.queue != []
    ensures var s', h := Next(s, ReleaseAtServer(c)), s.srv.queue[0];
            && s'.srv == ServerLock(Some(h), false, s.srv.queue[1..]) && s'.cli == s.cli && s'.pcs == s.pcs
            && s'.retries == s.retries + multiset{h}
  {
  }

  lemma ReturnQueue(s: State, c: Client)
    requires QueueOk(s.srv) && s.srv.queue != [] && s.srv.queue[0] !in s.srv.queue[1..]
    ensures QueueOk(ServerLock(Some(s.srv.queue[0]), false, s.srv.queue[1..]))
  {
    var q := s.srv.queue;
    assert forall i :: 0 <= i < |q[1..]| ==> q[1..][i] == q[i + 1];
  }

  lemma ReturnKeeps(s: State, p: Place, d: Demand, c: Client)
    requires At(s, p, d) && Enabled(s, ReleaseAtServer(c))
    ensures p == BeingReturned(c) && s.srv.holder == Some(c) && s.srv.queue != [] && s.srv.queue[0] != c
    ensures At(Next(s, ReleaseAtServer(c)), InRetry(s.srv.queue[0]), NoDemand)
    ensures var s', h := Next(s, ReleaseAtServer(c)), s.srv.queue[0];
            s'.srv == ServerLock(Some(h), false, s.srv.queue[1..]) && s'.retries == multiset{h}
  {
    hide InfosOk, ThreadsOk, LockAt, DemandAt, QueueOk, Next, Enabled;
    ReturnFacts(s, p, d, c);
    ReturnFrame(s, c);
    ReturnPlaces(s, c);
    ReturnClaims(s, c);
    ReturnQueue(s, c);
    NothingInRetry(s, p, d);
  }

  lemma NothingInRetry(s: State, p: Place, d: Demand)
    requires LockAt(s, p) && p.BeingReturned?
    ensures forall h :: s.retries + multiset{h} == multiset{h}
  {
    hide OwnersAt, AnswersAt;
  }

  // ------------------------------------------------------------ calls from the server

  /** Changing one client's record alone. */
  lemma RecordStep(s: State, s': State, p: Place, p': Place, d: Demand, d': Demand, c: Client, l: LockInfo)
    requires At(s, p, d) && s'.pcs == s.pcs && s'.cli == s.cli[c := l] && s'.srv == s.srv
    requires LockAt(s', p') && DemandAt(s', p', d') && InfoOk(s.pcs, c, l)
    requires forall u :: (c, u) in s.pcs ==> ThreadOk(s'.cli, (c, u), s.pcs[(c, u)])
    requires ClaimOk(s.pcs, s.srv.queue, p', c, l.acquiring)
    requires forall e :: e != c ==> (Granted(p', e) <==> Granted(p, e))
    ensures At(s', p', d')
  {
    hide LockAt, DemandAt, Granted, Asking, InfoOk;
    forall k | k in s.pcs
      ensures ThreadOk(s'.cli, k, s.pcs[k])
    {
      assert k == (k.0, k.1) && ThreadOk(s.cli, k, s.pcs[k]);
    }
    forall e
      ensures ClaimOk(s'.pcs, s'.srv.queue, p', e, Acquiring(s'.cli, e))
    {
      assert ClaimOk(s.pcs, s.srv.queue, p, e, Acquiring(s.cli, e));
    }
  }

  lemma RetryPlaces(s: State, p: Place, d: Demand, c: Client)
    requires At(s, p, d) && Enabled(s, RetryAtClient(c))
    ensures p == InRetry(c)
    ensures LockAt(Next(s, RetryAtClient(c)), OwnedBy(c)) && DemandAt(Next(s, RetryAtClient(c)), OwnedBy(c), d)
  {
    hide InfosOk, ThreadsOk, ClaimsOk, QueueOk, OwnersAt, AnswersAt, MarksAt, RevokesAt;
    PlaceFacts(s, p, d, c, 0);
    assert p == InRetry(c) && MessagesAt(s.retries - multiset{c}, s.flushing, s.returning, OwnedBy(c)) by {
      assert c in s.retries;
    }
    hide MessagesAt;
    AnswersNone(s.pcs, p, OwnedBy(c));
    OwnersSet(s.cli, p, OwnedBy(c), c, Retry(s.cli[c]));
    MarksSet(s.cli, d, d, c, Retry(s.cli[c]));
  }

  lemma RetryKeeps(s: State, p: Place, d: Demand, c: Client)
    requires At(s, p, d) && Enabled(s, RetryAtClient(c))
    ensures At(Next(s, RetryAtClient(c)), OwnedBy(c), d)
  {
    hide Waiters, QueueOk, InfosOk, ThreadsOk, ClaimsOk, LockAt, DemandAt, Asking;
    RetryPlaces(s, p, d, c);
    ClientFacts(s, p, d, c);
    ClaimMet(s.pcs, s.srv.queue, p, c);
    var s' := Next(s, RetryAtClient(c));
    RecordStep(s, s', p, OwnedBy(c), d, d, c, s'.cli[c]);
  }

  /** The client that receives a revoke is the holder and has a record. */
  lemma RevokeReachesHolder(s: State, p: Place, d: Demand, c: Client)
    requires At(s, p, d) && Enabled(s, RevokeAtClient(c))
    ensures s.srv.holder == Some(c) && c in s.cli && d == InRevoke(c)
    ensures Revoke(InfoOf(s, c)).1 ==> p == OwnedBy(c)
  {
    hide InfosOk, ThreadsOk, ClaimsOk, QueueOk, MarksAt;
    assert c in s.revokes;
    ClientFacts(s, p, d, c);
    assert p.c == c;
    if p.InAnswer? { assert (c, p.t) in s.pcs && s.pcs[(c, p.t)] == Answered(true); }
  }

  lemma RevokeFrame(s: State, c: Client)
    requires Enabled(s, RevokeAtClient(c)) && c in s.cli
    ensures var (l, back) := Revoke(Some(s.cli[c]));
            Next(s, RevokeAtClient(c)) ==
              s.(cli := s.cli[c := l], revokes := s.revokes - multiset{c},
                 flushing := if back then s.flushing + multiset{c} else s.flushing)
  {
  }

  /** An idle lock goes from its owner to be flushed; a busy one stays and is marked. */
  lemma RevokeLock(s: State, p: Place, c: Client, l: LockInfo, back: bool)
    requires LockAt(s, p) && c in s.cli && (l, back) == Revoke(Some(s.cli[c])) && (back ==> p == OwnedBy(c))
    ensures var p' := if back then BeingFlushed(c) else p;
            && OwnersAt(s.cli[c := l], p') && AnswersAt(s.pcs, p')
            && MessagesAt(s.retries, if back then s.flushing + multiset{c} else s.flushing, s.returning, p')
  {
    hide OwnersAt, AnswersAt, MessagesAt;
    var p' := if back then BeingFlushed(c) else p;
    assert Owned(s.cli, c) <==> p == OwnedBy(c) by { OwnedIs(s.cli, p, c); }
    OwnersSet(s.cli, p, p', c, l);
    if back {
      LockGivenUp(s, p, c);
      AnswersNone(s.pcs, p, p');
    }
  }

  lemma OwnedIs(cli: map<Client, LockInfo>, p: Place, c: Client)
    requires OwnersAt(cli, p)
    ensures Owned(cli, c) <==> p == OwnedBy(c)
  {
  }

  lemma RevokePlaces(s: State, p: Place, d: Demand, c: Client)
    requires LockAt(s, p) && DemandAt(s, p, d) && Enabled(s, RevokeAtClient(c)) && c in s.cli && d == InRevoke(c)
    requires Revoke(InfoOf(s, c)).1 ==> p == OwnedBy(c)
    ensures var back := Revoke(InfoOf(s, c)).1;
            var p', d' := if back then BeingFlushed(c) else p, if back then Obeyed(c) else Noted(c);
            LockAt(Next(s, RevokeAtClient(c)), p') && DemandAt(Next(s, RevokeAtClient(c)), p', d')
  {
    hide Next, Enabled, OwnersAt, AnswersAt, MarksAt, RevokesAt, MessagesAt;
    PlaceFacts(s, p, d, c, 0);
    RevokeFrame(s, c);
    var (l, back) := Revoke(InfoOf(s, c));
    var d' := if back then Obeyed(c) else Noted(c);
    RevokeLock(s, p, c, l, back);
    RevokeTaken(s, d, c, d');
    MarksSet(s.cli, d, d', c, l);
  }

  lemma RevokeTaken(s: State, d: Demand, c: Client, d': Demand)
    requires RevokesAt(s.revokeQueue, s.revokes, d) && d == InRevoke(c) && (d' == Obeyed(c) || d' == Noted(c))
    ensures RevokesAt(s.revokeQueue, s.revokes - multiset{c}, d')
  {
  }

  lemma LockGivenUp(s: State, p: Place, c: Client)
    requires MessagesAt(s.retries, s.flushing, s.returning, p) && p == OwnedBy(c)
    ensures MessagesAt(s.retries, s.flushing + multiset{c}, s.returning, BeingFlushed(c))
  {
  }

  lemma RevokeKeeps(s: State, p: Place, d: Demand, c: Client)
    requires At(s, p, d) && Enabled(s, RevokeAtClient(c))
    ensures var back := Revoke(InfoOf(s, c)).1;
            At(Next(s, RevokeAtClient(c)), if back then BeingFlushed(c) else p, if back then Obeyed(c) else Noted(c))
  {
    hide Waiters, QueueOk, InfosOk, ThreadsOk, ClaimsOk, LockAt, DemandAt, Asking;
    RevokeReachesHolder(s, p, d, c);
    RevokePlaces(s, p, d, c);
    ClientFacts(s, p, d, c);
    var s' := Next(s, RevokeAtClient(c));
    var back := Revoke(InfoOf(s, c)).1;
    RecordStep(s, s', p, if back then BeingFlushed(c) else p, d, if back then Obeyed(c) else Noted(c), c, s'.cli[c]);
  }

  // ------------------------------------------------------------ every step

  /** An owned lock only moves to be flushed, and only a flush moves it on from there. */
  predicate MovesThroughFlush(p: Place, p': Place, a: Action) {
    && (p.OwnedBy? ==> p' == p || p' == BeingFlushed(p.c))
    && (p.BeingFlushed? ==> p' == p || a == Flush(p.c))
    && (a.Flush? ==> p == BeingFlushed(a.c) && p' == BeingReturned(a.c))
  }

  /** Where the lock and the demand go in one step. */
  lemma StepMoves(s: State, p: Place, d: Demand, a: Action) returns (p': Place, d': Demand)
    requires At(s, p, d) && Enabled(s, a)
    ensures At(Next(s, a), p', d') && MovesThroughFlush(p, p', a)
  {
    hide At;
    if a.AcquireAtServer? || a.RetryAtClient? { PlaceBefore(s, p, d, a); }
    p', d' := p, d;
    match a
    case Enter(c, t) => EnterKeeps(s, p, d, c, t);
    case DoRegister(c, t) => RegisterKeeps(s, p, d, c, t);
    case DoFetch(c, t) => FetchKeeps(s, p, d, c, t);
    case AcquireAtServer(c, t) => AcquireKeeps(s, p, d, c, t); p' := if s.srv.holder == None then InAnswer(c, t) else p;
    case ReplyAtClient(c, t) => ReplyKeeps(s, p, d, c, t); p' := ReplyMoves(s, p, d, c, t);
    case DoTake(c, t) => TakeKeeps(s, p, d, c, t);
    case DoRelease(c, t) => p', d' := ReleaseMoves(s, p, d, c, t);
    case Enforce => EnforceKeeps(s, p, d); d' := InQueue(s.srv.holder.value);
    case SendRevoke(c) => SendRevokeKeeps(s, p, d, c); d' := InRevoke(c);
    case RevokeAtClient(c) => p', d' := RevokeMoves(s, p, d, c);
    case Flush(c) => FlushKeeps(s, p, d, c); p' := BeingReturned(c);
    case ReleaseAtServer(c) => ReturnKeeps(s, p, d, c); p', d' := InRetry(s.srv.queue[0]), NoDemand;
    case RetryAtClient(c) => RetryKeeps(s, p, d, c); p' := OwnedBy(c);
  }

  lemma PlaceBefore(s: State, p: Place, d: Demand, a: Action)
    requires At(s, p, d) && Enabled(s, a)
    ensures a.AcquireAtServer? && s.srv.holder == None ==> p == AtServer
    ensures a.RetryAtClient? ==> p == InRetry(a.c)
  {
    hide InfosOk, ThreadsOk, ClaimsOk, QueueOk, OwnersAt, AnswersAt, DemandAt;
  }

  lemma ReplyMoves(s: State, p: Place, d: Demand, c: Client, t: Thread) returns (p': Place)
    requires At(s, p, d) && Enabled(s, ReplyAtClient(c, t))
    ensures p' == if PcOf(s, c, t).ok then OwnedBy(c) else p
    ensures p' != p ==> p == InAnswer(c, t)
  {
    hide InfosOk, ThreadsOk, ClaimsOk, QueueOk;
    PlaceFacts(s, p, d, c, t);
    p' := if PcOf(s, c, t).ok then OwnedBy(c) else p;
  }

  lemma ReleaseMoves(s: State, p: Place, d: Demand, c: Client, t: Thread) returns (p': Place, d': Demand)
    requires At(s, p, d) && Enabled(s, DoRelease(c, t))
    ensures At(Next(s, DoRelease(c, t)), p', d')
    ensures p' == p || (p == OwnedBy(c) && p' == BeingFlushed(c))
  {
    hide At;
    ReleaseKeeps(s, p, d, c, t);
    var back := Release(s.cli[c]).1;
    p', d' := if back then BeingFlushed(c) else p, if back then Obeyed(c) else d;
    if back { HolderOwns(s, p, d, c, t); }
  }

  lemma HolderOwns(s: State, p: Place, d: Demand, c: Client, t: Thread)
    requires At(s, p, d) && PcOf(s, c, t).Holding?
    ensures p == OwnedBy(c)
  {
    hide Waiters, ClaimsOk, QueueOk;
    ClientFacts(s, p, d, c);
    PlaceFacts(s, p, d, c, t);
  }

  lemma RevokeMoves(s: State, p: Place, d: Demand, c: Client) returns (p': Place, d': Demand)
    requires At(s, p, d) && Enabled(s, RevokeAtClient(c))
    ensures At(Next(s, RevokeAtClient(c)), p', d')
    ensures p' == p || (p == OwnedBy(c) && p' == BeingFlushed(c))
  {
    hide At;
    RevokeKeeps(s, p, d, c);
    RevokeReachesHolder(s, p, d, c);
    var back := Revoke(InfoOf(s, c)).1;
    p', d' := if back then BeingFlushed(c) else p, if back then Obeyed(c) else Noted(c);
  }

  lemma StepKeeps(s: State, a: Action)
    requires Inv(s) && Enabled(s, a)
    ensures Inv(Next(s, a))
  {
    hide At, Enabled, Next;
    var p, d :| At(s, p, d);
    var p', d' := StepMoves(s, p, d, a);
  }

  lemma InitInv(s: State)
    requires Init(s)
    ensures At(s, AtServer, NoDemand)
  {
  }

  /** The invariant holds at the end of every run. */
  lemma {:induction false} RunKeeps(s: State, acts: seq<Action>)
    requires Inv(s) && Legal(s, acts)
    ensures Inv(Final(s, acts))
    decreases |acts|
  {
    hide Inv, Enabled, Next;
    if acts != [] {
      StepKeeps(s, acts[0]);
      RunKeeps(Next(s, acts[0]), acts[1..]);
    }
  }
}
