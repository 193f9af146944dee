/**
  What a call that the client still waits for is answered with when its request arrives, first or
  again: this depends only on how far the call has come.
 */
module AtMostOnceAnswers {
  import opened Option
  import opened ReplyWindow
  import opened AckWindow
  import opened AtMostOnce
  import opened AtMostOnceServed
  import R = RpcServer

  ghost predicate Finished(s: State, x: nat) {
    exists r :: (x, r) in s.finished
  }

  /** What a waited call returned is remembered, and one that has begun is under way or has returned. */
  ghost predicate Recalls(s: State, x: nat) {
    && (forall r :: (x, r) in s.finished ==> Entry(x, Some(r)) in s.window)
    && (s.runs[x] > 0 ==> x in s.executing || Finished(s, x))
  }

  ghost predicate AllRecalled(s: State) {
    forall x: nat :: Waited(s, x) ==> Recalls(s, x)
  }

  lemma StillWaited(c: Config, s: State, a: Action, x: nat)
    requires Inv(s) && Enabled(c, s, a) && Waited(Next(c, s, a), x)
    ensures Waited(s, x)
  {
    hide OnReceive, IsFront, Once;
    if a.Receive? { ReceiveFrame(s, a.q); }
    var s' := Next(c, s, a);
    if x < s'.next {
      var rep :| Req(x, rep, false) in s'.sent;
      assert x < s.next ==> Req(x, rep, false) in s.sent;
    }
  }

  lemma CheckRemembers(w: Window, xid: nat, rep: nat, e: Entry)
    requires w != [] && e in w && rep <= e.xid
    ensures e in Check(w, xid, rep).0
  {
    CleanKeeps(w, rep);
  }

  /** The parts of the state that a request can change. */
  lemma ReceiveMoves(s: State, q: Req)
    ensures var (w, v) := Check(s.window, q.xid, q.rep);
            var s' := OnReceive(s, q);
            && s'.window == w && s'.finished == s.finished
            && s'.executing == (if v == New then s.executing + multiset{q.xid} else s.executing)
            && s'.runs == (if v == New then s.runs + multiset{q.xid} else s.runs)
            && s'.answers == (if v.Done? then s.answers + multiset{(q.xid, v.r)} else s.answers)
  {
    hide Check;
  }

  lemma ReceiveRecalls(s: State, q: Req, x: nat)
    requires Inv(s) && q in s.sent && Waited(s, x) && Recalls(s, x)
    ensures Recalls(OnReceive(s, q), x)
  {
    hide Check, OnReceive, IsFront, Once;
    ReceiveMoves(s, q);
    FrontBelow(s.front, s.reported, x);
    var s' := OnReceive(s, q);
    forall r | (x, r) in s'.finished
      ensures Entry(x, Some(r)) in s'.window
    {
      CheckRemembers(s.window, q.xid, q.rep, Entry(x, Some(r)));
    }
    if Finished(s, x) {
      var r :| (x, r) in s.finished;
      assert (x, r) in s'.finished;
    }
  }

  lemma FinishRecalls(c: Config, s: State, xid: nat, r: Reply, x: nat)
    requires Enabled(c, s, Finish(xid, r)) && Recalls(s, x)
    ensures Recalls(Next(c, s, Finish(xid, r)), x)
  {
    hide InTime;
    var s' := Next(c, s, Finish(xid, r));
    assert s'.window[|s.window|] == Entry(xid, Some(r));
    assert forall e :: e in s.window ==> e in s'.window;
    if x == xid {
      assert (x, r) in s'.finished;
    } else if Finished(s, x) {
      var r' :| (x, r') in s.finished;
      assert (x, r') in s'.finished;
    }
  }

  lemma OtherRecalls(c: Config, s: State, a: Action, x: nat)
    requires Enabled(c, s, a) && !a.Receive? && !a.Finish? && Recalls(s, x)
    ensures Recalls(Next(c, s, a), x)
  {
    var s' := Next(c, s, a);
    assert s'.finished == s.finished && s'.window == s.window && s'.runs == s.runs && s'.executing == s.executing;
    if Finished(s, x) {
      var r :| (x, r) in s.finished;
      assert (x, r) in s'.finished;
    }
  }

  lemma StepRecalls(c: Config, s: State, a: Action)
    requires Inv(s) && AllRecalled(s) && Enabled(c, s, a)
    ensures AllRecalled(Next(c, s, a))
  {
    hide Inv, Recalls, Waited, OnReceive;
    forall x: nat | Waited(Next(c, s, a), x)
      ensures Recalls(Next(c, s, a), x)
    {
      StillWaited(c, s, a, x);
      if a.Receive? { ReceiveRecalls(s, a.q, x); }
      else if a.Finish? { FinishRecalls(c, s, a.xid, a.r, x); }
      else { OtherRecalls(c, s, a, x); }
    }
  }

  lemma {:induction false} RunRecalls(c: Config, s: State, acts: seq<Action>)
    requires Inv(s) && AllRecalled(s) && Legal(c, s, acts)
    ensures AllRecalled(Final(c, s, acts))
    decreases |acts|
  {
    hide Inv, AllRecalled, Enabled, Next;
    if acts != [] {
      StepKeeps(c, s, acts[0]);
      StepRecalls(c, s, acts[0]);
      RunRecalls(c, Next(c, s, acts[0]), acts[1..]);
    }
  }

  lemma ReachableRecalls(c: Config, s: State)
    requires Reachable(c, s)
    ensures AllRecalled(s)
  {
    hide Legal, Final;
    var acts :| Legal(c, Begin(), acts) && Final(c, Begin(), acts) == s;
    BeginInv();
    assert AllRecalled(Begin());
    RunRecalls(c, Begin(), acts);
  }

  /** The verdict on a call the window knows, by whether a reply is recorded. */
  lemma KnownVerdict(w: Window, xid: nat, rep: nat)
    requires Has(w, xid) && rep <= xid
    ensures Check(w, xid, rep).1 == if RecordedReply(w, xid).Some? then Done(RecordedReply(w, xid).value) else InProgress
  {
    hide Clean, RecordedReply;
    HasSome(w, xid);
    KnownIsServed(w, xid);
    CleanKeeps(w, rep);
    R.RecordedClean(w, rep, xid);
  }

  lemma {:induction false} RecordedIfThere(w: Window, xid: nat, r: Reply)
    requires Entry(xid, Some(r)) in w
    ensures RecordedReply(w, xid).Some?
  {
    if !(w[0].xid == xid && w[0].reply.Some?) { RecordedIfThere(w[1..], xid, r); }
  }

  /** The verdict on a waited call, by how far the call has come. */
  ghost predicate Fits(s: State, q: Req, v: Verdict) {
    && s.window != []
    && (v.Done? <==> Finished(s, q.xid)) && (v.Done? ==> (q.xid, v.r) in s.finished)
    && (v == InProgress <==> q.xid in s.executing)
    && (v == New <==> s.runs[q.xid] == 0 && !IsForgotten(s.window, q.xid))
    && (v == Forgotten <==> s.runs[q.xid] == 0 && IsForgotten(s.window, q.xid))
  }

  /**
    A waited call that has returned is answered with what it returned; one that is under way gets
    no answer; one that has not begun is begun, unless it lies below the window and is refused.
   */
  lemma AnsweredExactly(c: Config, s: State, q: Req)
    requires Arrives(c, s, q)
    ensures Fits(s, q, Check(s.window, q.xid, q.rep).1)
  {
    hide Reachable, Check, IsForgotten, RecordedReply, Has;
    ReachableInv(c, s);
    ReachableRecalls(c, s);
    WaitedFacts(s, q);
    var x := q.xid;
    assert Waited(s, x) by { assert Req(x, q.rep, false) in s.sent; }
    assert Recalls(s, x);
    if s.runs[x] == 0 {
      UnknownVerdict(s.window, x, q.rep);
    } else {
      KnownVerdict(s.window, x, q.rep);
      RecordedIsThere(s.window, x);
      if Finished(s, x) {
        var r :| (x, r) in s.finished;
        RecordedIfThere(s.window, x, r);
      }
    }
  }
}
