/**
  When a call that the client still waits for is refused as too old, although it never ran.
 */
module AtMostOnceServed {
  import opened Option
  import opened ReplyWindow
  import opened AckWindow
  import opened AtMostOnce
  import X = AtMostOnceExactly

  /** The call is waited for and its request, first or repeated, arrives. */
  ghost predicate Arrives(c: Config, s: State, q: Req) {
    Reachable(c, s) && Enabled(c, s, Receive(q)) && !q.bind && q.xid !in s.reported
  }

  ghost predicate Refused(s: State, q: Req) {
    Check(s.window, q.xid, q.rep).1 == Forgotten
  }

  lemma ReachableInv(c: Config, s: State)
    requires Reachable(c, s)
    ensures Inv(s)
  {
    hide Legal, Final, Inv;
    var acts :| Legal(c, Begin(), acts) && Final(c, Begin(), acts) == s;
    BeginInv();
    RunKeeps(c, Begin(), acts);
  }

  lemma WaitedFacts(s: State, q: Req)
    requires Inv(s) && q in s.sent && !q.bind && q.xid !in s.reported
    ensures Once(s, q.xid) && s.window != [] && q.rep <= q.xid
  {
    hide Once, IsFront;
    assert Req(q.xid, q.rep, false) in s.sent;
    assert Waited(s, q.xid);
    FrontBelow(s.front, s.reported, q.xid);
  }

  lemma KnownIsServed(w: Window, xid: nat)
    requires w != [] && Has(w, xid)
    ensures !IsForgotten(w, xid)
  {
    var i :| 0 <= i < |w| && w[i].xid == xid;
  }

  lemma RefusalIs(w: Window, xid: nat, rep: nat)
    requires w != []
    ensures Check(w, xid, rep).1 == Forgotten <==> IsForgotten(w, xid)
  {
    hide Clean, RecordedReply, Has;
  }

  /** A waited call is refused if and only if it has not run and lies below a window whose first entry is its least. */
  lemma RefusedExactly(c: Config, s: State, q: Req)
    requires Arrives(c, s, q)
    ensures s.window != [] && (Refused(s, q) <==> s.runs[q.xid] == 0 && IsForgotten(s.window, q.xid))
  {
    hide Reachable, Has, Check, IsForgotten;
    ReachableInv(c, s);
    WaitedFacts(s, q);
    RefusalIs(s.window, q.xid, q.rep);
    if Has(s.window, q.xid) { KnownIsServed(s.window, q.xid); }
  }

  // ------------------------------------------------------------ arrivals in order

  /** Remembered calls have arrived, and waited calls that have arrived have run. */
  ghost predicate Served(s: State) {
    && (forall i :: 0 <= i < |s.window| ==> s.window[i].xid == 0 || s.window[i].xid in s.seen)
    && (forall x :: x in s.seen ==> 0 < x < s.next)
    && (forall x :: x in s.seen && x !in s.reported && IsCall(s, x) ==> s.runs[x] > 0)
    && (forall x :: x in s.executing ==> x in s.seen)
  }

  lemma FirstIsNotBelow(s: State, x: nat)
    requires Served(s) && s.window != [] && x > 0 && forall y :: y in s.seen ==> y < x
    ensures !IsForgotten(s.window, x)
  {
    hide IsCall;
    assert s.window[0].xid == 0 || s.window[0].xid in s.seen;
  }

  /** A request whose first arrival is in order is not refused while it is waited for. */
  lemma InOrderIsServed(s: State, q: Req)
    requires Inv(s) && Served(s) && q in s.sent && InOrder(s, q.xid) && !q.bind && q.xid !in s.reported
    ensures !Refused(s, q) && (q.xid !in s.seen ==> Check(s.window, q.xid, q.rep).1 == New)
  {
    hide Has, Check, IsForgotten, IsFront;
    WaitedFacts(s, q);
    RefusalIs(s.window, q.xid, q.rep);
    assert IsCall(s, q.xid) by { assert Req(q.xid, q.rep, false) in s.sent; }
    if q.xid in s.seen {
      KnownIsServed(s.window, q.xid);
    } else {
      FirstIsNotBelow(s, q.xid);
      NotYetThere(s, q.xid);
      UnknownVerdict(s.window, q.xid, q.rep);
    }
  }

  lemma NotYetThere(s: State, x: nat)
    requires Served(s) && x > 0 && x !in s.seen
    ensures !Has(s.window, x)
  {
    hide IsCall;
  }

  lemma SameCalls(s: State, q: Req, x: nat)
    ensures IsCall(OnReceive(s, q), x) <==> IsCall(s, x)
  {
    hide Check;
  }

  lemma ReceiveServed(s: State, q: Req)
    requires Inv(s) && Served(s) && q in s.sent && InOrder(s, q.xid)
    ensures Served(OnReceive(s, q))
  {
    hide Has, Check, IsFront, IsCall, InOrder;
    var s' := OnReceive(s, q);
    X.CheckEntries(s.window, q.xid, q.rep, s.seen);
    assert 0 < q.xid < s.next;
    forall x | x in s'.seen && x !in s'.reported && IsCall(s', x)
      ensures s'.runs[x] > 0
    {
      SameCalls(s, q, x);
      if x !in s.seen {
        CallIsThis(s, q);
        InOrderIsServed(s, q);
      }
    }
  }

  lemma CallIsThis(s: State, q: Req)
    requires SentOk(s) && q in s.sent && IsCall(s, q.xid)
    ensures !q.bind
  {
    var rep :| Req(q.xid, rep, false) in s.sent;
  }

  lemma CallServed(c: Config, s: State, bind: bool)
    requires Served(s) && Enabled(c, s, Call(bind))
    ensures Served(Next(c, s, Call(bind)))
  {
    var s' := Next(c, s, Call(bind));
    forall x | x in s'.seen && x !in s'.reported && IsCall(s', x)
      ensures s'.runs[x] > 0
    {
      var rep :| Req(x, rep, false) in s'.sent;
      assert Req(x, rep, false) in s.sent;
    }
  }

  lemma OtherServed(c: Config, s: State, a: Action)
    requires Served(s) && Enabled(c, s, a) && !a.Call? && !a.Receive?
    ensures Served(Next(c, s, a))
  {
    hide IsFront, InTime;
    var s' := Next(c, s, a);
    forall x
      ensures IsCall(s', x) <==> IsCall(s, x)
    {
    }
  }

  lemma StepServed(c: Config, s: State, a: Action)
    requires Inv(s) && Served(s) && Enabled(c, s, a) && !c.reordered
    ensures Served(Next(c, s, a))
  {
    hide Inv, Served, InOrder, InTime, IsFront;
    if a.Call? {
      CallServed(c, s, a.bind);
    } else if a.Receive? {
      ReceiveServed(s, a.q);
    } else {
      OtherServed(c, s, a);
    }
  }

  lemma {:induction false} RunServed(c: Config, s: State, acts: seq<Action>)
    requires Inv(s) && Served(s) && Legal(c, s, acts) && !c.reordered
    ensures Served(Final(c, s, acts))
    decreases |acts|
  {
    hide Inv, Served, Enabled, Next;
    if acts != [] {
      StepServed(c, s, acts[0]);
      StepKeeps(c, s, acts[0]);
      RunServed(c, Next(c, s, acts[0]), acts[1..]);
    }
  }

  lemma BeginServed()
    ensures Served(Begin())
  {
  }

  /** With first arrivals in order no waited call is ever refused. */
  lemma NeverRefused(c: Config, s: State, q: Req)
    requires Arrives(c, s, q) && !c.reordered
    ensures !Refused(s, q)
  {
    hide Legal, Final, Inv, Served, Check;
    var acts :| Legal(c, Begin(), acts) && Final(c, Begin(), acts) == s;
    BeginInv();
    BeginServed();
    RunServed(c, Begin(), acts);
    RunKeeps(c, Begin(), acts);
    InOrderIsServed(s, q);
  }

  // ------------------------------------------------------------ arrivals out of order

  /** An acknowledgement of both entries leaves the new call alone in the window. */
  lemma AloneAfter(w: Window, xid: nat)
    requires |w| == 2 && w[0].xid == 0 && w[1].xid == 1 && xid > 1
    ensures Check(w, xid, 2) == ([Entry(xid, None)], New)
  {
    assert w[..1][..0] == [];
    assert Clean(w[..1], 2) == Clean(w[..1][..0], 2) == [];
    assert Clean(w, 2) == [];
    var none: Window := [];
    assert !Has(none, xid) && RecordedReply(none, xid) == None;
    assert none + [Entry(xid, None)] == [Entry(xid, None)];
  }

  /**
    Call 2 is given up before it arrives; 3 and 4 are made; 4 arrives first and is alone in the
    window; 3, which the client waits for, is then refused without having run.
   */
  lemma RefusedWithoutRunning(c: Config) returns (s: State, q: Req)
    requires c.reordered
    ensures Arrives(c, s, q) && Refused(s, q) && s.runs[q.xid] == 0
  {
    hide Reachable, Check;
    var s0 := X.Bound(c);
    var s1 := X.ReachStep(c, s0, Call(false));
    assert IsFront(2, s1.reported + {2});
    var s2 := X.ReachStep(c, s1, GiveUp(2, 2));
    var s3 := X.ReachStep(c, s2, Call(false));
    var s4 := X.ReachStep(c, s3, Call(false));
    AloneAfter(s4.window, 4);
    s := X.ReachStep(c, s4, Receive(Req(4, 2, false)));
    q := Req(3, 2, false);
    RefusalIs(s.window, 3, 2);
  }

  // ------------------------------------------------------------ exactly when

  ghost predicate AlwaysServed(c: Config) {
    forall s, q :: Arrives(c, s, q) ==> !Refused(s, q)
  }

  /** No waited call is refused in any run if and only if first arrivals are in order. */
  lemma ServedExactlyWhen(c: Config)
    ensures AlwaysServed(c) <==> !c.reordered
  {
    hide Arrives, Refused;
    if c.reordered {
      var s, q := RefusedWithoutRunning(c);
    } else {
      forall s, q | Arrives(c, s, q)
        ensures !Refused(s, q)
      {
        NeverRefused(c, s, q);
      }
    }
  }
}
