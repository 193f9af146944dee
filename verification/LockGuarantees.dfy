/**
  What the lock protocol guarantees in every reachable state.
 */
module LockGuarantees {
  import opened Option
  import opened Locks
  import opened LockProtocol
  import opened LockSafety

  ghost predicate Leads(s: State, s': State) {
    exists acts :: Legal(s, acts) && Final(s, acts) == s'
  }

  ghost predicate Reachable(s: State) {
    exists s0 :: Init(s0) && Leads(s0, s)
  }

  lemma ReachableInv(s: State) returns (p: Place, d: Demand)
    requires Reachable(s)
    ensures At(s, p, d)
  {
    hide At, Legal, Final;
    var s0 :| Init(s0) && Leads(s0, s);
    var acts :| Legal(s0, acts) && Final(s0, acts) == s;
    InitInv(s0);
    RunKeeps(s0, acts);
    p, d :| At(s, p, d);
  }

  /** Mutual exclusion: at most one thread in the whole system holds the lock. */
  lemma MutualExclusion(s: State, c1: Client, t1: Thread, c2: Client, t2: Thread)
    requires Reachable(s) && PcOf(s, c1, t1).Holding? && PcOf(s, c2, t2).Holding?
    ensures c1 == c2 && t1 == t2
  {
    hide Reachable, AnswersAt, MarksAt, ClaimsOk, QueueOk, Waiters;
    var p, d := ReachableInv(s);
    assert ThreadOk(s.cli, (c1, t1), s.pcs[(c1, t1)]) && ThreadOk(s.cli, (c2, t2), s.pcs[(c2, t2)]);
    assert Owned(s.cli, c1) && Owned(s.cli, c2);
  }

  /** The lock is always in exactly one place. */
  lemma LockInOnePlace(s: State)
    requires Reachable(s)
    ensures exists p :: LockAt(s, p) && forall q :: LockAt(s, q) ==> q == p
  {
    hide Reachable, DemandAt, ClaimsOk, QueueOk, InfosOk, ThreadsOk;
    var p, d := ReachableInv(s);
    forall q | LockAt(s, q)
      ensures q == p
    {
      PlaceIsUnique(s, p, q);
    }
  }

  lemma PlaceIsUnique(s: State, p: Place, q: Place)
    requires LockAt(s, p) && LockAt(s, q)
    ensures p == q
  {
    if p.OwnedBy? { assert Owned(s.cli, p.c); }
    if q.OwnedBy? { assert Owned(s.cli, q.c); }
    if p.InAnswer? { assert (p.c, p.t) in s.pcs && s.pcs[(p.c, p.t)] == Answered(true) <==> q == InAnswer((p.c, p.t).0, (p.c, p.t).1); }
    if q.InAnswer? { assert (q.c, q.t) in s.pcs && s.pcs[(q.c, q.t)] == Answered(true) <==> p == InAnswer((q.c, q.t).0, (q.c, q.t).1); }
  }

  /** A client queues at most once, a free lock has no queue, and the head of the queue is not the holder. */
  lemma QueueIsSound(s: State)
    requires Reachable(s)
    ensures QueueOk(s.srv)
  {
    hide Reachable, LockAt, DemandAt, ClaimsOk, QueueOk, InfosOk, ThreadsOk;
    var p, d := ReachableInv(s);
  }

  // ------------------------------------------------------------ first come, first served

  /** The client that a step puts in line: its acquire is answered with RETRY. */
  ghost function PutInLine(s: State, a: Action): seq<Client>
    requires Enabled(s, a)
  {
    if a.AcquireAtServer? && PcOf(Next(s, a), a.c, a.t) == Answered(false) then [a.c] else []
  }

  /** The client that a step grants the lock to: a retry goes out to it. */
  ghost function Grants(s: State, a: Action): seq<Client>
    requires Enabled(s, a)
  {
    var s' := Next(s, a);
    if a.ReleaseAtServer? && s'.srv.holder.Some? && s'.retries == s.retries + multiset{s'.srv.holder.value}
    then [s'.srv.holder.value] else []
  }

  ghost function AllPutInLine(s: State, acts: seq<Action>): seq<Client>
    requires Legal(s, acts)
    decreases |acts|
  {
    if acts == [] then [] else PutInLine(s, acts[0]) + AllPutInLine(Next(s, acts[0]), acts[1..])
  }

  ghost function AllGrants(s: State, acts: seq<Action>): seq<Client>
    requires Legal(s, acts)
    decreases |acts|
  {
    if acts == [] then [] else Grants(s, acts[0]) + AllGrants(Next(s, acts[0]), acts[1..])
  }

  /** A free lock is given away, a held one is waited for at the end of the line; nothing else happens to the line. */
  lemma AcquireAnswer(s: State, c: Client, t: Thread)
    requires Enabled(s, AcquireAtServer(c, t))
    ensures var s' := Next(s, AcquireAtServer(c, t));
            && (PcOf(s', c, t) == Answered(true) <==> s.srv.holder == None)
            && (PcOf(s', c, t) == Answered(false) <==> s.srv.holder.Some?)
            && s'.srv.holder == (if s.srv.holder == None then Some(c) else s.srv.holder)
            && s'.srv.queue == (if s.srv.holder == None then s.srv.queue else s.srv.queue + [c])
            && s'.srv.revoked == s.srv.revoked
  {
  }

  lemma OthersLeaveLine(s: State, a: Action)
    requires Enabled(s, a) && !a.AcquireAtServer? && !a.ReleaseAtServer?
    ensures Next(s, a).srv.queue == s.srv.queue && Next(s, a).srv.holder == s.srv.holder
  {
    hide Register, BeginFetch, EndFetch, Take, Release, Revoke, Retry;
  }

  /** A step takes the head of the line away and grants to it, or adds to the end, or leaves the line alone. */
  lemma LineStep(s: State, p: Place, d: Demand, a: Action)
    requires At(s, p, d) && Enabled(s, a)
    ensures s.srv.queue + PutInLine(s, a) == Grants(s, a) + Next(s, a).srv.queue
  {
    hide At, Next, Enabled;
    var s' := Next(s, a);
    if a.ReleaseAtServer? {
      ReturnFacts(s, p, d, a.c);
      assert s.srv.queue == [s.srv.queue[0]] + s.srv.queue[1..];
      assert s.retries + multiset{s.srv.queue[0]} == multiset{s.srv.queue[0]};
    } else if a.AcquireAtServer? {
      AcquireAnswer(s, a.c, a.t);
    } else {
      OthersLeaveLine(s, a);
    }
  }

  lemma ReturnFacts(s: State, p: Place, d: Demand, c: Client)
    requires At(s, p, d) && Enabled(s, ReleaseAtServer(c))
    ensures s.srv.holder == Some(c) && s.srv.queue != [] && s.srv.queue[0] != c
    ensures var s' := Next(s, ReleaseAtServer(c));
            && s'.srv.holder == Some(s.srv.queue[0]) && s'.srv.queue == s.srv.queue[1..] && !s'.srv.revoked
            && s.retries == multiset{} && s'.retries == multiset{s.srv.queue[0]}
  {
    hide OwnersAt, AnswersAt, MarksAt, ClaimsOk, InfosOk, ThreadsOk;
    ReturnKeeps(s, p, d, c);
  }

  lemma {:induction false} LineOverRuns(s: State, acts: seq<Action>)
    requires Inv(s) && Legal(s, acts)
    ensures s.srv.queue + AllPutInLine(s, acts) == AllGrants(s, acts) + Final(s, acts).srv.queue
    decreases |acts|
  {
    hide At, Enabled, Next, PutInLine, Grants;
    if acts == [] {
    } else {
      var a, s1 := acts[0], Next(s, acts[0]);
      var p, d :| At(s, p, d);
      LineStep(s, p, d, a);
      StepKeeps(s, a);
      LineOverRuns(s1, acts[1..]);
      calc {
        s.srv.queue + (PutInLine(s, a) + AllPutInLine(s1, acts[1..]));
        (s.srv.queue + PutInLine(s, a)) + AllPutInLine(s1, acts[1..]);
        Grants(s, a) + (s1.srv.queue + AllPutInLine(s1, acts[1..]));
        (Grants(s, a) + AllGrants(s1, acts[1..])) + Final(s1, acts[1..]).srv.queue;
      }
    }
  }

  /**
    First come, first served: in every run the clients whose request was queued, in the order in
    which the server handled them, are those the lock was handed to, in that order, and then those
    still in line, in theirs.
   */
  lemma FirstComeFirstServed(s: State, acts: seq<Action>)
    requires Init(s) && Legal(s, acts)
    ensures AllPutInLine(s, acts) == AllGrants(s, acts) + Final(s, acts).srv.queue
  {
    hide At, Legal, Final, AllPutInLine, AllGrants;
    InitInv(s);
    LineOverRuns(s, acts);
    assert s.srv.queue + AllPutInLine(s, acts) == AllPutInLine(s, acts);
  }

  /** Each release comes from the recorded holder and grants to the longest waiter, another client. */
  lemma HandOffOrder(s: State, c: Client)
    requires Reachable(s) && Enabled(s, ReleaseAtServer(c))
    ensures s.srv.holder == Some(c) && s.srv.queue != [] && s.srv.queue[0] != c
    ensures var s' := Next(s, ReleaseAtServer(c));
            && s'.srv.holder == Some(s.srv.queue[0]) && s'.srv.queue == s.srv.queue[1..]
            && s'.retries == multiset{s.srv.queue[0]}
  {
    hide Reachable, At;
    var p, d := ReachableInv(s);
    ReturnFacts(s, p, d, c);
  }

  /** Every revoke reaches the present holder, which has a record of the lock. */
  lemma RevokesReachTheHolder(s: State, c: Client)
    requires Reachable(s) && Enabled(s, RevokeAtClient(c))
    ensures s.srv.holder == Some(c) && c in s.cli
  {
    hide Reachable, At;
    var p, d := ReachableInv(s);
    RevokeReachesHolder(s, p, d, c);
  }

  /** No revoke is lost while somebody waits. */
  lemma NoLostRevoke(s: State)
    requires Reachable(s) && s.srv.queue != []
    ensures s.srv.holder.Some? && s.srv.holder.value in s.cli
    ensures var h := s.srv.holder.value;
            || !s.srv.revoked
            || h in s.revokeQueue || h in s.revokes
            || (s.cli[h].revoked && (s.cli[h].holder.Some? || s.cli[h].awaiting > 0))
            || h in s.flushing || h in s.returning
  {
    hide Reachable, ClaimsOk, ThreadsOk, Waiters;
    var p, d := ReachableInv(s);
    if d.Noted? { assert Marked(s.cli, d.c) && InfoOk(s.pcs, d.c, s.cli[d.c]); }
  }
}
