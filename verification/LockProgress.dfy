/**
  No reachable state of the lock protocol is stuck: whoever waits can still be served.
 */
module LockProgress {
  import opened Option
  import opened Locks
  import opened LockProtocol
  import opened LockSafety
  import opened LockGuarantees

  // ------------------------------------------------------------ composing runs

  lemma LeadsSelf(s: State)
    ensures Leads(s, s)
  {
    assert Legal(s, []) && Final(s, []) == s;
  }

  lemma LeadsThen(s: State, a: Action, s': State)
    requires Enabled(s, a) && Leads(Next(s, a), s')
    ensures Leads(s, s')
  {
    hide Enabled, Next;
    var acts :| Legal(Next(s, a), acts) && Final(Next(s, a), acts) == s';
    assert ([a] + acts)[1..] == acts;
    assert Legal(s, [a] + acts) && Final(s, [a] + acts) == s';
  }

  lemma {:induction false} RunsCompose(s: State, acts: seq<Action>, more: seq<Action>)
    requires Legal(s, acts) && Legal(Final(s, acts), more)
    ensures Legal(s, acts + more) && Final(s, acts + more) == Final(Final(s, acts), more)
    decreases |acts|
  {
    hide Enabled, Next;
    if acts == [] {
      assert acts + more == more;
    } else {
      RunsCompose(Next(s, acts[0]), acts[1..], more);
      assert (acts + more)[1..] == acts[1..] + more;
    }
  }

  lemma LeadsTrans(s: State, s1: State, s2: State)
    requires Leads(s, s1) && Leads(s1, s2)
    ensures Leads(s, s2)
  {
    hide Legal, Final;
    var acts :| Legal(s, acts) && Final(s, acts) == s1;
    var more :| Legal(s1, more) && Final(s1, more) == s2;
    RunsCompose(s, acts, more);
  }

  // ------------------------------------------------------------ within one client

  /** Nothing but the threads and the record of client c changed. */
  ghost predicate OnlyClient(s: State, s': State, c: Client) {
    && s'.srv == s.srv && s'.revokeQueue == s.revokeQueue && s'.revokes == s.revokes
    && (forall e, t :: e != c ==> PcOf(s', e, t) == PcOf(s, e, t))
  }

  /** A waiting thread of the owner takes the lock once no thread is inside. */
  lemma TakeNow(s: State, d: Demand, c: Client, t: Thread) returns (s': State)
    requires At(s, OwnedBy(c), d) && IsWaiting(PcOf(s, c, t)) && c in s.cli && s.cli[c].holder == None
    ensures Leads(s, s') && At(s', OwnedBy(c), d) && OnlyClient(s, s', c)
    ensures PcOf(s', c, t).Holding? && c in s'.cli && s'.cli[c].awaiting + 1 == s.cli[c].awaiting && s'.cli[c].holder == Some(t)
  {
    hide At, Leads;
    var s1 := ToTheDoor(s, d, c, t);
    WaiterCounted(s1, OwnedBy(c), d, c, t);
    TakeKeeps(s1, OwnedBy(c), d, c, t);
    s' := Next(s1, DoTake(c, t));
    LeadsSelf(s');
    LeadsThen(s1, DoTake(c, t), s');
    LeadsTrans(s, s1, s');
  }

  lemma WaiterCounted(s: State, p: Place, d: Demand, c: Client, t: Thread)
    requires At(s, p, d) && IsWaiting(PcOf(s, c, t))
    ensures c in s.cli && s.cli[c].awaiting > 0
  {
    hide Waiters, LockAt, DemandAt, ClaimsOk, QueueOk;
    ClientFacts(s, p, d, c);
  }

  /** A thread that waits on the owner's client is in a wait loop, or one step from it. */
  lemma DoorFacts(s: State, d: Demand, c: Client, t: Thread)
    requires At(s, OwnedBy(c), d) && IsWaiting(PcOf(s, c, t)) && c in s.cli
    ensures s.cli[c].owned && !PcOf(s, c, t).Requested?
  {
    hide InfosOk, ThreadsOk, ClaimsOk, QueueOk, Waiters, DemandAt;
    ClientFacts(s, OwnedBy(c), d, c);
    assert Owned(s.cli, c);
  }

  /** With the lock owned, neither a fetch nor an answer changes the record. */
  lemma DoorFrame(s: State, c: Client, t: Thread)
    requires c in s.cli && s.cli[c].owned && (PcOf(s, c, t).Fetching? || PcOf(s, c, t).Answered?)
    ensures var a := if PcOf(s, c, t).Fetching? then DoFetch(c, t) else ReplyAtClient(c, t);
            Enabled(s, a) && Next(s, a) == s.(pcs := s.pcs[(c, t) := WaitingOwner])
  {
    assert s.cli[c := s.cli[c]] == s.cli;
  }

  /** The waiting thread reaches one of the two wait loops. */
  lemma ToTheDoor(s: State, d: Demand, c: Client, t: Thread) returns (s': State)
    requires At(s, OwnedBy(c), d) && IsWaiting(PcOf(s, c, t)) && c in s.cli && s.cli[c].holder == None
    ensures Leads(s, s') && At(s', OwnedBy(c), d) && OnlyClient(s, s', c)
    ensures (PcOf(s', c, t).WaitingOwner? || PcOf(s', c, t).WaitingHolder?) && s'.cli == s.cli && s.cli[c].owned
  {
    hide Leads, At, Next, Enabled;
    DoorFacts(s, d, c, t);
    s' := s;
    LeadsSelf(s);
    if PcOf(s, c, t).Fetching? {
      DoorFrame(s, c, t);
      FetchKeeps(s, OwnedBy(c), d, c, t);
      s' := Next(s, DoFetch(c, t));
      LeadsSelf(s');
      LeadsThen(s, DoFetch(c, t), s');
    } else if PcOf(s, c, t).Answered? {
      DoorFrame(s, c, t);
      ReplyKeeps(s, OwnedBy(c), d, c, t);
      s' := Next(s, ReplyAtClient(c, t));
      LeadsSelf(s');
      LeadsThen(s, ReplyAtClient(c, t), s');
    }
  }

  lemma SomeWaiter(s: State, p: Place, d: Demand, c: Client) returns (t: Thread)
    requires At(s, p, d) && c in s.cli && s.cli[c].awaiting > 0
    ensures IsWaiting(PcOf(s, c, t))
  {
    hide LockAt, DemandAt, ClaimsOk, QueueOk, ThreadsOk;
    assert InfoOk(s.pcs, c, s.cli[c]);
    var k :| k in Waiters(s.pcs, c);
    t := k.1;
    assert k == (c, t);
  }

  /** Once the owner has noted the demand, its threads can drain until it gives the lock up. */
  lemma Drain(s: State, c: Client) returns (s': State)
    requires At(s, OwnedBy(c), Noted(c)) && c in s.cli
    ensures Leads(s, s') && At(s', BeingFlushed(c), Obeyed(c)) && s'.srv == s.srv
    ensures forall e, t :: e != c ==> PcOf(s', e, t) == PcOf(s, e, t)
    decreases s.cli[c].awaiting, s.cli[c].holder.Some?
  {
    hide At, Leads;
    var p, d := OwnedBy(c), Noted(c);
    DrainFacts(s, c);
    if s.cli[c].holder.Some? {
      var t := s.cli[c].holder.value;
      ReleaseKeeps(s, p, d, c, t);
      var s1 := Next(s, DoRelease(c, t));
      if Release(s.cli[c]).1 {
        s' := s1;
        LeadsSelf(s');
      } else {
        s' := Drain(s1, c);
      }
      LeadsThen(s, DoRelease(c, t), s');
    } else {
      var t := SomeWaiter(s, p, d, c);
      var s1 := TakeNow(s, d, c, t);
      s' := Drain(s1, c);
      LeadsTrans(s, s1, s');
    }
  }

  lemma DrainFacts(s: State, c: Client)
    requires At(s, OwnedBy(c), Noted(c)) && c in s.cli
    ensures s.cli[c].holder.Some? ==> PcOf(s, c, s.cli[c].holder.value).Holding?
    ensures s.cli[c].holder == None ==> s.cli[c].awaiting > 0
  {
    hide Waiters, ClaimsOk, QueueOk, ThreadsOk, AnswersAt, OwnersAt;
    assert Marked(s.cli, c) && InfoOk(s.pcs, c, s.cli[c]);
  }

  // ------------------------------------------------------------ between clients

  /** The waiting line and the threads of those in it are as before. */
  ghost predicate LineKept(s: State, s': State) {
    s'.srv.queue == s.srv.queue && forall e, t :: e in s.srv.queue ==> PcOf(s', e, t) == PcOf(s, e, t)
  }

  lemma GrantedFacts(s: State, p: Place, d: Demand, c: Client)
    requires At(s, p, d) && Granted(p, c)
    ensures c !in s.srv.queue && c in s.cli
    ensures p.InAnswer? ==> PcOf(s, c, p.t) == Answered(true) && Enabled(s, ReplyAtClient(c, p.t))
    ensures p.InRetry? ==> Enabled(s, RetryAtClient(c))
  {
    hide InfosOk, ThreadsOk, QueueOk, ClaimsOk, Waiters, DemandAt, OwnersAt;
    ClientFacts(s, p, d, c);
    if p.InAnswer? { assert (c, p.t) in s.pcs && s.pcs[(c, p.t)] == Answered(true) <==> p == InAnswer((c, p.t).0, (c, p.t).1); }
  }

  /** A delivery to client c changes nothing at the server or at other clients, and no thread stops waiting. */
  lemma DeliveryFrame(s: State, a: Action, c: Client)
    requires Enabled(s, a) && (a.ReplyAtClient? || a.RetryAtClient?) && a.c == c
    ensures var s' := Next(s, a);
            && s'.srv == s.srv && c in s'.cli
            && (forall e, t :: e != c ==> PcOf(s', e, t) == PcOf(s, e, t))
            && (forall t :: IsWaiting(PcOf(s, c, t)) ==> IsWaiting(PcOf(s', c, t)))
  {
  }

  /** A client that has been sent the lock receives it. */
  lemma Receive(s: State, p: Place, d: Demand, c: Client) returns (s': State)
    requires At(s, p, d) && Granted(p, c)
    ensures Leads(s, s') && At(s', OwnedBy(c), d) && s'.srv == s.srv && c !in s.srv.queue && c in s'.cli
    ensures forall e, t :: e != c ==> PcOf(s', e, t) == PcOf(s, e, t)
    ensures forall t :: IsWaiting(PcOf(s, c, t)) ==> IsWaiting(PcOf(s', c, t))
  {
    hide Leads, At, Next, Enabled, PcOf;
    GrantedFacts(s, p, d, c);
    var a := if p.InAnswer? then ReplyAtClient(c, p.t) else RetryAtClient(c);
    if p.InAnswer? { ReplyKeeps(s, p, d, c, p.t); } else { RetryKeeps(s, p, d, c); }
    DeliveryFrame(s, a, c);
    s' := Next(s, a);
    LeadsSelf(s');
    LeadsThen(s, a, s');
  }

  /** The holder learns that the lock is wanted. */
  lemma Notify(s: State, p: Place, d: Demand) returns (s': State, p': Place, d': Demand)
    requires At(s, p, d) && s.srv.queue != []
    ensures Leads(s, s') && At(s', p', d') && LineKept(s, s') && (d'.Noted? || d'.Obeyed?)
    decreases if d.NoDemand? then 2 else if d.InQueue? then 1 else 0
  {
    hide Leads, At;
    DemandReady(s, p, d);
    if d.NoDemand? {
      EnforceKeeps(s, p, d);
      s', p', d' := Notify(Next(s, Enforce), p, InQueue(s.srv.holder.value));
      LeadsThen(s, Enforce, s');
    } else if d.InQueue? {
      SendRevokeKeeps(s, p, d, d.c);
      s', p', d' := Notify(Next(s, SendRevoke(d.c)), p, InRevoke(d.c));
      LeadsThen(s, SendRevoke(d.c), s');
    } else if d.InRevoke? {
      RevokeKeeps(s, p, d, d.c);
      s' := Next(s, RevokeAtClient(d.c));
      var back := Revoke(InfoOf(s, d.c)).1;
      p', d' := if back then BeingFlushed(d.c) else p, if back then Obeyed(d.c) else Noted(d.c);
      LeadsSelf(s');
      LeadsThen(s, RevokeAtClient(d.c), s');
    } else {
      s', p', d' := s, p, d;
      LeadsSelf(s);
    }
  }

  lemma DemandReady(s: State, p: Place, d: Demand)
    requires At(s, p, d) && s.srv.queue != []
    ensures d.NoDemand? ==> Enabled(s, Enforce)
    ensures d.InQueue? ==> Enabled(s, SendRevoke(d.c))
    ensures d.InRevoke? ==> Enabled(s, RevokeAtClient(d.c)) && d.c !in s.srv.queue
  {
    hide OwnersAt, AnswersAt, MarksAt, InfosOk, ThreadsOk, ClaimsOk, MessagesAt;
    if d.InRevoke? {
      SentIsNotQueued(s, p, d);
    }
  }

  /** A client that is sent a revoke holds or is receiving the lock, so it is not in line. */
  lemma SentIsNotQueued(s: State, p: Place, d: Demand)
    requires At(s, p, d) && d.InRevoke?
    ensures d.c !in s.srv.queue
  {
    hide Waiters, AnswersAt, MarksAt, ThreadsOk;
    ClientFacts(s, p, d, d.c);
    PlaceFacts(s, p, d, d.c, 0);
    assert p.c == d.c;
    if p.OwnedBy? { assert InfoOk(s.pcs, d.c, s.cli[d.c]); }
  }

  /** The holder gives the lock up. */
  lemma Surrender(s: State, p: Place, d: Demand) returns (s': State, c: Client)
    requires At(s, p, d) && (d.Noted? || d.Obeyed?)
    ensures Leads(s, s') && LineKept(s, s')
    ensures At(s', BeingFlushed(c), Obeyed(c)) || At(s', BeingReturned(c), Obeyed(c))
  {
    hide Leads, At;
    c := d.c;
    SurrenderFacts(s, p, d);
    if d.Obeyed? {
      s' := s;
      LeadsSelf(s);
    } else {
      var s1 := s;
      LeadsSelf(s);
      if Granted(p, c) { s1 := Receive(s, p, d, c); }
      var s2 := Drain(s1, c);
      s' := s2;
      LeadsTrans(s, s1, s2);
    }
  }

  lemma SurrenderFacts(s: State, p: Place, d: Demand)
    requires At(s, p, d) && (d.Noted? || d.Obeyed?)
    ensures !p.AtServer? && p.c == d.c && d.c in s.cli
    ensures d.Obeyed? <==> p.BeingFlushed? || p.BeingReturned?
    ensures d.Noted? ==> p == OwnedBy(d.c) || Granted(p, d.c)
    ensures p == OwnedBy(d.c) || Granted(p, d.c) ==> d.c !in s.srv.queue
  {
    hide Waiters, AnswersAt, MarksAt, InfosOk, ThreadsOk;
    ClientFacts(s, p, d, d.c);
    PlaceFacts(s, p, d, d.c, 0);
  }

  /** Whoever is first in line can be granted the lock. */
  lemma HeadCanBeGranted(s: State, p: Place, d: Demand) returns (s': State)
    requires At(s, p, d) && s.srv.queue != []
    ensures Leads(s, s') && At(s', InRetry(s.srv.queue[0]), NoDemand)
    ensures s'.srv.holder == Some(s.srv.queue[0]) && s'.srv.queue == s.srv.queue[1..]
    ensures forall e, t :: e in s.srv.queue ==> PcOf(s', e, t) == PcOf(s, e, t)
  {
    hide Leads, At;
    var s1, p1, d1 := Notify(s, p, d);
    var s2, c := Surrender(s1, p1, d1);
    var s3 := s2;
    LeadsSelf(s2);
    if At(s2, BeingFlushed(c), Obeyed(c)) {
      FlushReady(s2, c);
      FlushKeeps(s2, BeingFlushed(c), Obeyed(c), c);
      s3 := Next(s2, Flush(c));
      LeadsSelf(s3);
      LeadsThen(s2, Flush(c), s3);
    }
    ReturnReady(s3, c);
    ReturnKeeps(s3, BeingReturned(c), Obeyed(c), c);
    s' := Next(s3, ReleaseAtServer(c));
    LeadsSelf(s');
    LeadsThen(s3, ReleaseAtServer(c), s');
    LeadsTrans(s, s1, s2);
    LeadsTrans(s, s2, s3);
    LeadsTrans(s, s3, s');
  }

  lemma FlushReady(s: State, c: Client)
    requires At(s, BeingFlushed(c), Obeyed(c))
    ensures Enabled(s, Flush(c))
  {
  }

  lemma ReturnReady(s: State, c: Client)
    requires At(s, BeingReturned(c), Obeyed(c))
    ensures Enabled(s, ReleaseAtServer(c))
  {
  }

  /** Whoever is anywhere in line can be granted the lock. */
  lemma QueuedCanBeGranted(s: State, p: Place, d: Demand, i: nat) returns (s': State, p': Place, d': Demand)
    requires At(s, p, d) && i < |s.srv.queue|
    ensures Leads(s, s') && At(s', p', d') && Granted(p', s.srv.queue[i])
    ensures forall t :: PcOf(s', s.srv.queue[i], t) == PcOf(s, s.srv.queue[i], t)
    decreases i
  {
    hide Leads, At;
    var s1 := HeadCanBeGranted(s, p, d);
    if i == 0 {
      s', p', d' := s1, InRetry(s.srv.queue[0]), NoDemand;
    } else {
      s', p', d' := QueuedCanBeGranted(s1, InRetry(s.srv.queue[0]), NoDemand, i - 1);
      LeadsTrans(s, s1, s');
    }
  }

  /** A client with a request under way can come to own the lock. */
  lemma RequesterCanOwn(s: State, p: Place, d: Demand, c: Client, t: Thread) returns (s': State, d': Demand)
    requires At(s, p, d) && Acquiring(s.cli, c) && IsWaiting(PcOf(s, c, t))
    ensures Leads(s, s') && At(s', OwnedBy(c), d') && IsWaiting(PcOf(s', c, t))
  {
    hide Leads, At;
    var s1, p1 := s, p;
    LeadsSelf(s);
    RequestFacts(s, p, d, c);
    if Asking(s.pcs, c) {
      var u :| (c, u) in s.pcs && s.pcs[(c, u)].Requested?;
      AcquireKeeps(s, p, d, c, u);
      s1, p1 := Next(s, AcquireAtServer(c, u)), if s.srv.holder == None then InAnswer(c, u) else p;
      LeadsSelf(s1);
      LeadsThen(s, AcquireAtServer(c, u), s1);
    }
    var s2, p2, d2 := s1, p1, d;
    LeadsSelf(s1);
    if c in s1.srv.queue {
      var i :| 0 <= i < |s1.srv.queue| && s1.srv.queue[i] == c;
      s2, p2, d2 := QueuedCanBeGranted(s1, p1, d, i);
    }
    s' := Receive(s2, p2, d2, c);
    d' := d2;
    LeadsTrans(s, s1, s2);
    LeadsTrans(s, s2, s');
  }

  lemma RequestFacts(s: State, p: Place, d: Demand, c: Client)
    requires At(s, p, d) && Acquiring(s.cli, c)
    ensures c in s.srv.queue || Granted(p, c) || Asking(s.pcs, c)
  {
    hide LockAt, DemandAt, InfosOk, ThreadsOk, QueueOk;
    ClientFacts(s, p, d, c);
  }

  /** A waiting thread of the owner can come to hold the lock. */
  lemma OwnerThreadCanHold(s: State, d: Demand, c: Client, t: Thread) returns (s': State)
    requires At(s, OwnedBy(c), d) && IsWaiting(PcOf(s, c, t))
    ensures Leads(s, s') && PcOf(s', c, t).Holding?
  {
    hide Leads, At;
    WaiterCounted(s, OwnedBy(c), d, c, t);
    HolderFacts(s, OwnedBy(c), d, c);
    if s.cli[c].holder.Some? {
      var u := s.cli[c].holder.value;
      ReleaseKeeps(s, OwnedBy(c), d, c, u);
      var s1 := Next(s, DoRelease(c, u));
      s' := TakeNow(s1, d, c, t);
      LeadsThen(s, DoRelease(c, u), s');
    } else {
      s' := TakeNow(s, d, c, t);
    }
  }

  lemma HolderFacts(s: State, p: Place, d: Demand, c: Client)
    requires At(s, p, d) && c in s.cli
    ensures s.cli[c].holder.Some? ==> PcOf(s, c, s.cli[c].holder.value).Holding?
  {
    hide LockAt, DemandAt, Waiters, ThreadsOk, QueueOk, ClaimsOk;
    assert InfoOk(s.pcs, c, s.cli[c]);
  }

  /** A step keeps a state reachable. */
  lemma ReachNext(s: State, a: Action)
    requires Reachable(s) && Enabled(s, a)
    ensures Reachable(Next(s, a)) && Leads(s, Next(s, a))
  {
    hide Leads, Init, Enabled, Next;
    var s0 :| Init(s0) && Leads(s0, s);
    LeadsSelf(Next(s, a));
    LeadsThen(s, a, Next(s, a));
    LeadsTrans(s0, s, Next(s, a));
  }

  lemma EnteredHasRecord(s: State, c: Client, t: Thread)
    requires Reachable(s) && PcOf(s, c, t).Entered?
    ensures Enabled(s, DoRegister(c, t)) && IsWaiting(PcOf(Next(s, DoRegister(c, t)), c, t))
  {
    hide Reachable, LockAt, DemandAt, ClaimsOk, QueueOk, InfosOk;
    var p, d := ReachableInv(s);
    assert ThreadOk(s.cli, (c, t), s.pcs[(c, t)]);
  }

  lemma EnterEnters(s: State, c: Client, t: Thread)
    requires PcOf(s, c, t).Outside?
    ensures Enabled(s, Enter(c, t)) && PcOf(Next(s, Enter(c, t)), c, t).Entered?
  {
  }

  /** From every reachable state, every thread, wherever it is in acquire or outside, can come to hold the lock. */
  lemma AnyoneCanHold(s: State, c: Client, t: Thread) returns (s': State)
    requires Reachable(s)
    ensures Leads(s, s') && PcOf(s', c, t).Holding?
  {
    hide Leads, Reachable, Enabled, Next;
    LeadsSelf(s);
    s' := s;
    var s1 := s;
    if PcOf(s, c, t).Outside? {
      EnterEnters(s, c, t);
      ReachNext(s, Enter(c, t));
      s1 := Next(s, Enter(c, t));
    }
    var s2 := s1;
    LeadsSelf(s1);
    if PcOf(s1, c, t).Entered? {
      EnteredHasRecord(s1, c, t);
      ReachNext(s1, DoRegister(c, t));
      s2 := Next(s1, DoRegister(c, t));
    }
    LeadsTrans(s, s1, s2);
    s' := s2;
    if !PcOf(s2, c, t).Holding? {
      s' := WaiterCanHold(s2, c, t);
      LeadsTrans(s, s2, s');
    }
  }

  /** From every reachable state, every thread counted as waiting can come to hold the lock. */
  lemma WaiterCanHold(s: State, c: Client, t: Thread) returns (s': State)
    requires Reachable(s) && IsWaiting(PcOf(s, c, t))
    ensures Leads(s, s') && PcOf(s', c, t).Holding?
  {
    hide Leads, At, Reachable;
    var p, d := ReachableInv(s);
    WaiterCounted(s, p, d, c, t);
    WaiterKind(s, p, d, c, t);
    if Owned(s.cli, c) {
      s' := OwnerThreadCanHold(s, d, c, t);
    } else {
      var s1 := s;
      LeadsSelf(s);
      if !Acquiring(s.cli, c) {
        FetchKeeps(s, p, d, c, t);
        s1 := Next(s, DoFetch(c, t));
        LeadsSelf(s1);
        LeadsThen(s, DoFetch(c, t), s1);
      }
      var s2, d2 := RequesterCanOwn(s1, p, d, c, t);
      s' := OwnerThreadCanHold(s2, d2, c, t);
      LeadsTrans(s, s1, s2);
      LeadsTrans(s, s2, s');
    }
  }

  lemma WaiterKind(s: State, p: Place, d: Demand, c: Client, t: Thread)
    requires At(s, p, d) && IsWaiting(PcOf(s, c, t))
    ensures Owned(s.cli, c) ==> p == OwnedBy(c)
    ensures !Owned(s.cli, c) && !Acquiring(s.cli, c) ==> PcOf(s, c, t).Fetching?
  {
    hide Waiters, QueueOk, ClaimsOk, InfosOk;
    PlaceFacts(s, p, d, c, t);
    ClientFacts(s, p, d, c);
  }
}
