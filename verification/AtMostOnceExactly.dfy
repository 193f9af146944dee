/**
  When the server executes a call at most once for good, even after the client has
  acknowledged it and its entry has been dropped.
 */
module AtMostOnceExactly {
  import opened Option
  import opened ReplyWindow
  import opened AckWindow
  import opened AtMostOnce

  predicate AllAtMost(w: Window, x: nat) {
    forall i :: 0 <= i < |w| ==> w[i].xid <= x
  }

  predicate AllAbove(w: Window, x: nat) {
    forall i :: 0 <= i < |w| ==> w[i].xid > x
  }

  /** Above b, every entry repeats an earlier one or is at least as high as all before it. */
  predicate Ascending(w: Window, b: nat) {
    w == [] ||
    (var front, x := w[..|w| - 1], w[|w| - 1].xid;
     Ascending(front, b) && (x <= b || Has(front, x) || AllAtMost(front, x)))
  }

  /** A call that arrived is remembered, or lies below everything remembered. */
  predicate Settled(w: Window, x: nat) {
    Has(w, x) || AllAbove(w, x)
  }

  lemma AscendingAppend(w: Window, b: nat, e: Entry)
    requires Ascending(w, b) && (e.xid <= b || Has(w, e.xid) || AllAtMost(w, e.xid))
    ensures Ascending(w + [e], b)
  {
    assert (w + [e])[..|w|] == w;
  }

  lemma {:induction false} AscendingClean(w: Window, b: nat, rep: nat)
    requires Ascending(w, b)
    ensures Ascending(Clean(w, rep), b)
  {
    if w != [] {
      var front, last := w[..|w| - 1], w[|w| - 1];
      AscendingClean(front, b, rep);
      if last.xid >= rep {
        CleanKeeps(front, rep);
        if AllAtMost(front, last.xid) { CleanAtMost(front, rep, last.xid); }
        AscendingAppend(Clean(front, rep), b, last);
      }
    }
  }

  lemma CleanAtMost(w: Window, rep: nat, x: nat)
    requires AllAtMost(w, x)
    ensures AllAtMost(Clean(w, rep), x)
  {
    CleanKeeps(w, rep);
    forall i | 0 <= i < |Clean(w, rep)|
      ensures Clean(w, rep)[i].xid <= x
    {
      assert Clean(w, rep)[i] in w;
    }
  }

  lemma CleanAbove(w: Window, rep: nat, x: nat)
    requires AllAbove(w, x) || x < rep
    ensures AllAbove(Clean(w, rep), x)
  {
    CleanKeeps(w, rep);
    forall i | 0 <= i < |Clean(w, rep)|
      ensures Clean(w, rep)[i].xid > x
    {
      assert Clean(w, rep)[i] in w && Clean(w, rep)[i].xid >= rep;
    }
  }

  /** The first entry of an ascending window is its least. */
  lemma {:induction false} FirstIsLeast(w: Window, b: nat)
    requires w != [] && Ascending(w, b) && AllAbove(w, b)
    ensures forall i :: 0 <= i < |w| ==> w[i].xid >= w[0].xid
  {
    if |w| > 1 {
      var front := w[..|w| - 1];
      FirstIsLeast(front, b);
      var x := w[|w| - 1].xid;
      if Has(front, x) {
        var i :| 0 <= i < |front| && front[i].xid == x;
      }
    }
  }

  /** A call below an ascending window is forgotten, not executed. */
  lemma BelowIsForgotten(w: Window, b: nat, x: nat)
    requires w != [] && Ascending(w, b) && AllAbove(w, x) && x >= b
    ensures IsForgotten(w, x)
  {
    FirstIsLeast(w, b);
  }

  // ------------------------------------------------------------ the invariant

  /** Remembered calls have arrived, in an order that does not lose track of any. */
  ghost predicate WindowOk(w: Window, seen: set<nat>, b: nat) {
    && (forall i :: 0 <= i < |w| ==> w[i].xid == 0 || w[i].xid in seen)
    && Ascending(w, b)
    && (forall x :: x in seen && x > b ==> Settled(w, x))
    && (seen != {} ==> w != [])
  }

  ghost predicate RunsOk(runs: multiset<nat>, executing: multiset<nat>, seen: set<nat>, b: nat) {
    && (forall x: nat :: x > b ==> runs[x] <= 1)
    && (forall x :: x in runs || x in executing ==> x in seen)
  }

  /** The calls are the xids above b, the binds those up to b. */
  ghost predicate Ordered(s: State, b: nat) {
    && SentOk(s) && b < s.next && (!s.bound ==> b == s.next - 1)
    && (forall q :: q in s.sent ==> (q.bind <==> q.xid <= b) && q.rep < q.xid)
    && (forall x :: x in s.seen ==> 0 < x < s.next)
    && WindowOk(s.window, s.seen, b) && RunsOk(s.runs, s.executing, s.seen, b)
  }

  lemma CallOrdered(c: Config, s: State, b: nat, bind: bool)
    requires Ordered(s, b) && Inv(s) && Enabled(c, s, Call(bind))
    ensures Ordered(Next(c, s, Call(bind)), if bind then s.next else b)
  {
    hide Has, IsFront, Settled;
    CallKeeps(c, s, bind);
    var b' := if bind then s.next else b;
    assert s.front < s.next by { FrontBelow(s.front, s.reported, s.next); }
    if bind { AscendingUnder(s.window, b, b'); }
  }

  /** A higher cut leaves less to order. */
  lemma {:induction false} AscendingUnder(w: Window, b: nat, b': nat)
    requires Ascending(w, b) && b <= b'
    ensures Ascending(w, b')
  {
    if w != [] { AscendingUnder(w[..|w| - 1], b, b'); }
  }

  /** What a request leaves of the calls that had arrived before. */
  lemma SettledAfter(w: Window, b: nat, xid: nat, rep: nat, y: nat)
    requires w != [] && Settled(w, y) && y != xid && rep < xid && Ascending(w, b)
    requires y > b && (xid <= b || Has(w, xid) || xid > y)
    ensures Settled(Check(w, xid, rep).0, y)
  {
    hide Has, Clean;
    var w1 := Clean(w, rep);
    CleanKeeps(w, rep);
    HasAppend(w1, Entry(xid, None));
    if AllAbove(w, y) || y < rep { CleanAbove(w, rep, y); }
    if xid <= b && AllAbove(w, y) { LowerBindForgotten(w, b, xid, y); }
  }

  lemma LowerBindForgotten(w: Window, b: nat, xid: nat, y: nat)
    requires w != [] && Ascending(w, b) && AllAbove(w, y) && xid <= b < y
    ensures IsForgotten(w, xid)
  {
    FirstIsLeast(w, b);
  }

  lemma CheckAscending(w: Window, b: nat, xid: nat, rep: nat)
    requires w != [] && Ascending(w, b) && (xid <= b || Has(w, xid) || AllAtMost(w, xid)) && rep <= xid
    ensures Ascending(Check(w, xid, rep).0, b)
  {
    hide Has;
    var w1 := Clean(w, rep);
    AscendingClean(w, b, rep);
    CleanKeeps(w, rep);
    if AllAtMost(w, xid) { CleanAtMost(w, rep, xid); }
    if xid <= b || Has(w1, xid) || AllAtMost(w1, xid) { AscendingAppend(w1, b, Entry(xid, None)); }
  }

  lemma CheckEntries(w: Window, xid: nat, rep: nat, seen: set<nat>)
    requires forall i :: 0 <= i < |w| ==> w[i].xid == 0 || w[i].xid in seen
    ensures var w' := Check(w, xid, rep).0; forall i :: 0 <= i < |w'| ==> w'[i].xid == 0 || w'[i].xid in seen + {xid}
  {
    CleanKeeps(w, rep);
    var w1 := Clean(w, rep);
    forall i | 0 <= i < |w1|
      ensures w1[i].xid == 0 || w1[i].xid in seen
    {
      assert w1[i] in w;
      var j :| 0 <= j < |w| && w[j] == w1[i];
    }
  }

  /** The request's own call: it runs only on its first arrival, and is then settled. */
  lemma SelfAfter(w: Window, b: nat, xid: nat, rep: nat, arrived: bool)
    requires w != [] && Ascending(w, b) && xid > b && rep < xid
    requires arrived ==> Settled(w, xid)
    requires !arrived ==> AllAtMost(w, xid) && !Has(w, xid)
    ensures Settled(Check(w, xid, rep).0, xid)
    ensures arrived ==> Check(w, xid, rep).1 != New
  {
    hide Clean;
    if Has(w, xid) {
      KnownIsNotNew(w, xid, rep);
    } else {
      UnknownVerdict(w, xid, rep);
      if arrived { BelowIsForgotten(w, b, xid); }
      else { HasAppend(Clean(w, rep), Entry(xid, None)); }
    }
  }

  lemma EntriesBelow(s: State, b: nat, x: nat)
    requires Ordered(s, b) && x > 0 && x !in s.seen && forall y :: y in s.seen ==> y < x
    ensures AllAtMost(s.window, x) && !Has(s.window, x)
  {
  }

  /** The window part of the invariant after a request, for a client already entered. */
  lemma ReceiveWindow(s: State, b: nat, q: Req)
    requires Ordered(s, b) && q in s.sent && InOrder(s, q.xid) && s.window != []
    ensures WindowOk(Check(s.window, q.xid, q.rep).0, s.seen + {q.xid}, b)
    ensures q.xid in s.seen && q.xid > b ==> Check(s.window, q.xid, q.rep).1 != New
  {
    hide Has, IsFront, Settled, Check, Ascending, AllAtMost;
    CheckEntries(s.window, q.xid, q.rep, s.seen);
    CheckNonempty(s.window, q.xid, q.rep);
    if q.xid !in s.seen { EntriesBelow(s, b, q.xid); }
    if q.xid > b {
      SelfAfter(s.window, b, q.xid, q.rep, q.xid in s.seen);
      if q.xid in s.seen { SettledCases(s.window, b, q.xid); }
    }
    ReceiveAscending(s, b, q);
    forall y | y in s.seen + {q.xid} && y > b
      ensures Settled(Check(s.window, q.xid, q.rep).0, y)
    {
      if y != q.xid { ReceiveSettled(s, b, q, y); }
    }
  }

  lemma FirstWindow(xid: nat, rep: nat, b: nat)
    requires xid <= b
    ensures WindowOk(Check([], xid, rep).0, {xid}, b)
  {
    FirstAscending(b, xid, rep);
  }

  lemma InvSent(s: State)
    requires Inv(s)
    ensures SentOk(s)
  {
  }

  lemma RunsMore(runs: multiset<nat>, executing: multiset<nat>, seen: set<nat>, b: nat, x: nat)
    requires RunsOk(runs, executing, seen, b)
    ensures RunsOk(runs, executing, seen + {x}, b)
    ensures x !in seen || x <= b ==> RunsOk(runs + multiset{x}, executing + multiset{x}, seen + {x}, b)
  {
  }

  lemma SentFacts(s: State, b: nat, q: Req)
    requires Ordered(s, b) && q in s.sent
    ensures 0 < q.xid < s.next && (s.window == [] ==> q.xid <= b && s.seen == {})
  {
  }

  lemma ReceiveOrdered(c: Config, s: State, b: nat, q: Req)
    requires Ordered(s, b) && Inv(s) && q in s.sent && InOrder(s, q.xid)
    ensures Ordered(OnReceive(s, q), b)
  {
    hide Inv, Check, InOrder, SentOk, WindowOk, RunsOk;
    ReceiveKeeps(c, s, q);
    RunsMore(s.runs, s.executing, s.seen, b, q.xid);
    InvSent(OnReceive(s, q));
    SentFacts(s, b, q);
    if s.window == [] {
      assert s.seen + {q.xid} == {q.xid};
      FirstWindow(q.xid, q.rep, b);
    } else {
      ReceiveWindow(s, b, q);
    }
  }

  lemma FirstAscending(b: nat, xid: nat, rep: nat)
    ensures Ascending(Check([], xid, rep).0, b)
  {
    assert Ascending([], b);
    AscendingAppend([], b, Entry(0, None));
  }

  lemma SettledCases(w: Window, b: nat, xid: nat)
    requires w != [] && Ascending(w, b) && xid > b && Settled(w, xid)
    ensures Has(w, xid) || IsForgotten(w, xid)
  {
    if !Has(w, xid) { BelowIsForgotten(w, b, xid); }
  }

  lemma ReceiveAscending(s: State, b: nat, q: Req)
    requires s.window != [] && Ascending(s.window, b) && q.rep < q.xid
    requires q.xid <= b || Has(s.window, q.xid) || AllAtMost(s.window, q.xid) || IsForgotten(s.window, q.xid)
    ensures Ascending(Check(s.window, q.xid, q.rep).0, b)
  {
    hide Has, Ascending, AllAtMost;
    if q.xid <= b || Has(s.window, q.xid) || AllAtMost(s.window, q.xid) {
      CheckAscending(s.window, b, q.xid, q.rep);
    }
  }

  lemma ReceiveSettled(s: State, b: nat, q: Req, y: nat)
    requires Ordered(s, b) && q in s.sent && InOrder(s, q.xid) && s.window != []
    requires y in s.seen && y > b && y != q.xid
    ensures Settled(Check(s.window, q.xid, q.rep).0, y)
  {
    hide Has, IsFront, Ascending;
    if q.xid <= b || Has(s.window, q.xid) || q.xid > y {
      SettledAfter(s.window, b, q.xid, q.rep, y);
    } else {
      BelowIsForgotten(s.window, b, q.xid);
    }
  }

  lemma FinishOrdered(c: Config, s: State, b: nat, xid: nat, r: Reply)
    requires Ordered(s, b) && Inv(s) && Enabled(c, s, Finish(xid, r)) && InTime(s, xid)
    ensures Ordered(Next(c, s, Finish(xid, r)), b)
  {
    hide Has, IsFront, Ascending, Once;
    FinishKeeps(c, s, xid, r);
    var s' := Next(c, s, Finish(xid, r));
    var e := Entry(xid, Some(r));
    AscendingAppend(s.window, b, e);
    HasAppend(s.window, e);
    forall x | x in s.seen && x > b
      ensures Settled(s'.window, x)
    {
      if !Has(s.window, x) && x != xid { AboveAll(s.window, x, xid); }
    }
  }

  lemma AboveAll(w: Window, x: nat, xid: nat)
    requires w != [] && AllAbove(w, x) && (Has(w, xid) || AllAtMost(w, xid))
    ensures xid > x
  {
    if Has(w, xid) {
      var i :| 0 <= i < |w| && w[i].xid == xid;
    } else {
      assert w[0].xid > x && w[0].xid <= xid;
    }
  }

  lemma StepOrdered(c: Config, s: State, b: nat, a: Action) returns (b': nat)
    requires Ordered(s, b) && Inv(s) && Enabled(c, s, a) && !c.reordered && !c.outlived
    ensures Ordered(Next(c, s, a), b') && Inv(Next(c, s, a))
  {
    hide Once, Waited, Has, Settled, Ascending, IsFront;
    StepKeeps(c, s, a);
    b' := b;
    match a
    case Call(bind) => CallOrdered(c, s, b, bind); b' := if bind then s.next else b;
    case Receive(q) => ReceiveOrdered(c, s, b, q);
    case Finish(xid, r) => FinishOrdered(c, s, b, xid, r);
    case GotReply(q, r, front) =>
    case GiveUp(xid, front) =>
  }

  lemma {:induction false} RunOrdered(c: Config, s: State, b: nat, acts: seq<Action>) returns (b': nat)
    requires Ordered(s, b) && Inv(s) && Legal(c, s, acts) && !c.reordered && !c.outlived
    ensures Ordered(Final(c, s, acts), b')
    decreases |acts|
  {
    hide Ordered, Inv, Enabled, Next;
    b' := b;
    if acts != [] {
      b' := StepOrdered(c, s, b, acts[0]);
      b' := RunOrdered(c, Next(c, s, acts[0]), b', acts[1..]);
    }
  }

  lemma BeginOrdered()
    ensures Ordered(Begin(), 0)
  {
  }

  /** Without late first arrivals and late returns, a call runs at most once, acknowledged or not. */
  lemma AtMostOnceForGood(c: Config, s: State, x: nat)
    requires Reachable(c, s) && !c.reordered && !c.outlived && IsCall(s, x)
    ensures s.runs[x] <= 1
  {
    hide Legal, Final, Settled, Ascending, IsFront, Inv;
    var acts :| Legal(c, Begin(), acts) && Final(c, Begin(), acts) == s;
    BeginInv();
    BeginOrdered();
    var b := RunOrdered(c, Begin(), 0, acts);
    var rep :| Req(x, rep, false) in s.sent;
  }

  // ------------------------------------------------------------ where it fails

  lemma {:induction false} FinalAppend(c: Config, s: State, acts: seq<Action>, a: Action)
    requires Legal(c, s, acts) && Enabled(c, Final(c, s, acts), a)
    ensures Legal(c, s, acts + [a]) && Final(c, s, acts + [a]) == Next(c, Final(c, s, acts), a)
    decreases |acts|
  {
    hide Enabled, Next;
    if acts == [] {
      assert acts + [a] == [a];
    } else {
      FinalAppend(c, Next(c, s, acts[0]), acts[1..], a);
      assert (acts + [a])[1..] == acts[1..] + [a];
    }
  }

  lemma ReachStep(c: Config, s: State, a: Action) returns (s': State)
    requires Reachable(c, s) && Enabled(c, s, a)
    ensures s' == Next(c, s, a) && Reachable(c, s')
  {
    hide Enabled, Next;
    var acts :| Legal(c, Begin(), acts) && Final(c, Begin(), acts) == s;
    FinalAppend(c, Begin(), acts, a);
    s' := Next(c, s, a);
  }

  lemma {:induction false} CleanAll(w: Window, rep: nat)
    requires forall i :: 0 <= i < |w| ==> w[i].xid >= rep
    ensures Clean(w, rep) == w
  {
    if w != [] { CleanAll(w[..|w| - 1], rep); }
  }

  lemma {:induction false} CleanFirst(w: Window, rep: nat)
    requires w != [] && w[0].xid < rep && forall i :: 1 <= i < |w| ==> w[i].xid >= rep
    ensures Clean(w, rep) == w[1..]
  {
    if |w| > 1 {
      CleanFirst(w[..|w| - 1], rep);
      assert w[..|w| - 1][1..] + [w[|w| - 1]] == w[1..];
    } else {
      assert Clean(w[..0], rep) == [];
    }
  }

  /** A request the window does not know, whose acknowledgement covers the first entry at most. */
  lemma NewCall(w: Window, xid: nat, rep: nat)
    requires w != [] && !Has(w, xid) && !IsForgotten(w, xid)
    requires forall i :: 1 <= i < |w| ==> w[i].xid >= rep
    ensures Check(w, xid, rep) == ((if w[0].xid < rep then w[1..] else w) + [Entry(xid, None)], New)
  {
    UnknownVerdict(w, xid, rep);
    if w[0].xid < rep { CleanFirst(w, rep); } else { CleanAll(w, rep); }
  }

  /** Calls 1..n are answered or given up, n is the last received and remembered after n - 1. */
  ghost predicate Ready(s: State, n: nat) {
    && s.bound && s.next == n + 1 && s.front == n > 0
    && (forall x: nat :: x in s.reported <==> 1 <= x <= n)
    && (forall x: nat :: x in s.seen <==> 1 <= x <= n)
    && |s.window| == 2 && s.window[0].xid == n - 1 && s.window[1] == Entry(n, None)
  }

  lemma BeginReachable(c: Config)
    ensures Reachable(c, Begin())
  {
    assert Legal(c, Begin(), []) && Final(c, Begin(), []) == Begin();
  }

  lemma Bound(c: Config) returns (s: State)
    ensures Reachable(c, s) && s.bound && s.next == 2 && s.front == 1 && s.reported == {1} && s.seen == {1}
    ensures s.window == [Entry(0, None), Entry(1, Some(""))] && s.runs == multiset{1}
  {
    hide Reachable, Has;
    var s0 := Begin();
    BeginReachable(c);
    var q := Req(1, 0, true);
    var s1 := ReachStep(c, s0, Call(true));
    var s2 := ReachStep(c, s1, Receive(q));
    var s3 := ReachStep(c, s2, Finish(1, ""));
    s := ReachStep(c, s3, GotReply(q, "", 1));
    assert s.reported == {1} && s.seen == {1};
  }

  /** A call is made and received and then given up. */
  lemma Round(c: Config, s: State) returns (s': State)
    requires Reachable(c, s) && s.bound && s.front > 0 && s.next == s.front + 1
    requires forall x: nat :: x in s.reported <==> 1 <= x <= s.front
    requires forall x: nat :: x in s.seen <==> 1 <= x <= s.front
    requires |s.window| == 2 && s.window[0].xid == s.front - 1 && s.window[1].xid == s.front
    ensures Reachable(c, s') && Ready(s', s.next) && s'.sent == s.sent + {Req(s.next, s.front, false)}
    ensures s'.runs == s.runs + multiset{s.next} && s'.executing == s.executing + multiset{s.next}
  {
    hide Reachable, Check;
    var q := Req(s.next, s.front, false);
    var s1 := ReachStep(c, s, Call(false));
    NewCall(s1.window, q.xid, q.rep);
    var s2 := ReachStep(c, s1, Receive(q));
    assert IsFront(q.xid, s2.reported + {q.xid});
    s' := ReachStep(c, s2, GiveUp(q.xid, q.xid));
  }

  /** A late first arrival puts a low number behind a high one; a call forgotten before runs again. */
  lemma LateArrivalRepeats(c: Config) returns (s: State)
    requires c.reordered
    ensures Reachable(c, s) && IsCall(s, 2) && s.runs[2] == 2
  {
    hide Reachable, Check;
    var s0 := Bound(c);
    var s1 := Round(c, s0);
    var s2 := ReachStep(c, s1, Call(false));
    var s3 := ReachStep(c, s2, Call(false));
    NewCall(s3.window, 4, 2);
    var s4 := ReachStep(c, s3, Receive(Req(4, 2, false)));
    NewCall(s4.window, 3, 2);
    var s5 := ReachStep(c, s4, Receive(Req(3, 2, false)));
    s := LateArrivalRepeatsEnd(c, s5);
  }

  lemma LateArrivalRepeatsEnd(c: Config, s: State) returns (s': State)
    requires Reachable(c, s) && c.reordered && s.bound && s.next == 5 && s.front == 2
    requires s.window == [Entry(2, None), Entry(4, None), Entry(3, None)] && s.runs[2] == 1
    requires Req(2, 1, false) in s.sent && forall x: nat :: x in s.reported <==> 1 <= x <= 2
    ensures Reachable(c, s') && IsCall(s', 2) && s'.runs[2] == 2
  {
    hide Reachable, Check;
    assert IsFront(3, s.reported + {3});
    var s1 := ReachStep(c, s, GiveUp(3, 3));
    var s2 := ReachStep(c, s1, Call(false));
    NewCall(s2.window, 5, 3);
    var s3 := ReachStep(c, s2, Receive(Req(5, 3, false)));
    assert s3.window[0].xid == 4 && s3.window[1].xid == 3;
    NewCall(s3.window, 2, 1);
    s' := ReachStep(c, s3, Receive(Req(2, 1, false)));
  }

  /** A handler that returns after its entry was dropped does the same. */
  lemma LateReturnRepeats(c: Config) returns (s: State)
    requires c.outlived
    ensures Reachable(c, s) && IsCall(s, 2) && s.runs[2] == 2
  {
    hide Reachable, Check, IsFront;
    var s0 := Bound(c);
    var s1 := Round(c, s0);
    var s2 := Round(c, s1);
    var s3 := Round(c, s2);
    var s4 := Round(c, s3);
    var s5 := ReachStep(c, s4, Finish(3, ""));
    assert s5.window[0].xid == 4 && s5.window[2].xid == 3;
    NewCall(s5.window, 2, 1);
    assert Req(2, 1, false) in s5.sent;
    s := ReachStep(c, s5, Receive(Req(2, 1, false)));
  }

  // ------------------------------------------------------------ exactly when

  ghost predicate AlwaysOnce(c: Config) {
    forall s, x: nat :: Reachable(c, s) && IsCall(s, x) ==> s.runs[x] <= 1
  }

  /** Calls run at most once in every run exactly when neither kind of lateness can happen. */
  lemma AtMostOnceExactlyWhen(c: Config)
    ensures AlwaysOnce(c) <==> !c.reordered && !c.outlived
  {
    hide Reachable, IsCall;
    if c.reordered {
      var s := LateArrivalRepeats(c);
    } else if c.outlived {
      var s := LateReturnRepeats(c);
    } else {
      forall s, x: nat | Reachable(c, s) && IsCall(s, x)
        ensures s.runs[x] <= 1
      {
        AtMostOnceForGood(c, s, x);
      }
    }
  }
}
