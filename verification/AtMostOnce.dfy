/**
  Calls of one client to one server over a network that loses, repeats and reorders
  requests and replies; the client's nonce is not zero.
 */
module AtMostOnce {
  import opened Option
  import opened ReplyWindow
  import opened AckWindow

  /** A request as sent; every retransmission carries the same header. */
  datatype Req = Req(xid: nat, rep: nat, bind: bool)

  /**
    `runs` counts handler executions, `executing` those still under way; `finished` holds
    what they returned and `answers` counts the replies sent. `seen` are the xids that have arrived.
   */
  datatype State = State(
    next: nat, bound: bool, reported: set<nat>, front: nat, sent: set<Req>,
    window: Window, seen: set<nat>,
    executing: multiset<nat>, runs: multiset<nat>, finished: set<(nat, Reply)>, answers: multiset<(nat, Reply)>)

  /**
    `reordered`: a call may arrive first after a later one.
    `outlived`: a handler may return after its entry was dropped and a later call recorded.
   */
  datatype Config = Config(reordered: bool, outlived: bool)

  datatype Action =
    | Call(bind: bool)
    | Receive(q: Req)
    | Finish(xid: nat, r: Reply)
    | GotReply(q: Req, r: Reply, front: nat)
    | GiveUp(xid: nat, front: nat)

  predicate InOrder(s: State, xid: nat) {
    xid in s.seen || forall y :: y in s.seen ==> y < xid
  }

  predicate InTime(s: State, xid: nat) {
    Has(s.window, xid) || forall i :: 0 <= i < |s.window| ==> s.window[i].xid <= xid
  }

  ghost predicate Enabled(c: Config, s: State, a: Action) {
    match a
    case Call(bind) => bind == !s.bound
    case Receive(q) => q in s.sent && (c.reordered || InOrder(s, q.xid))
    case Finish(xid, r) => xid in s.executing && (c.outlived || InTime(s, xid))
    case GotReply(q, r, front) => q in s.sent && (q.xid, r) in s.answers && IsFront(front, s.reported + {q.xid})
    case GiveUp(xid, front) => 0 < xid < s.next && IsFront(front, s.reported + {xid})
  }

  function OnReceive(s: State, q: Req): State {
    var (w, verdict) := Check(s.window, q.xid, q.rep);
    var s1 := s.(window := w, seen := s.seen + {q.xid});
    match verdict
    case New => s1.(executing := s.executing + multiset{q.xid}, runs := s.runs + multiset{q.xid})
    case Done(r) => s1.(answers := s.answers + multiset{(q.xid, r)})
    case InProgress => s1
    case Forgotten => s1
  }

  ghost function Next(c: Config, s: State, a: Action): State
    requires Enabled(c, s, a)
  {
    match a
    case Call(bind) => s.(next := s.next + 1, sent := s.sent + {Req(s.next, s.front, bind)})
    case Receive(q) => OnReceive(s, q)
    case Finish(xid, r) =>
      s.(executing := s.executing - multiset{xid}, window := Record(s.window, xid, r),
         finished := s.finished + {(xid, r)}, answers := s.answers + multiset{(xid, r)})
    case GotReply(q, r, front) =>
      s.(reported := s.reported + {q.xid}, front := front, bound := s.bound || q.bind)
    case GiveUp(xid, front) => s.(reported := s.reported + {xid}, front := front)
  }

  function Begin(): State {
    State(1, false, {}, 0, {}, [], {}, multiset{}, multiset{}, {}, multiset{})
  }

  ghost predicate Legal(c: Config, s: State, acts: seq<Action>)
    decreases |acts|
  {
    acts == [] || (Enabled(c, s, acts[0]) && Legal(c, Next(c, s, acts[0]), acts[1..]))
  }

  ghost function Final(c: Config, s: State, acts: seq<Action>): State
    requires Legal(c, s, acts)
    decreases |acts|
  {
    if acts == [] then s else Final(c, Next(c, s, acts[0]), acts[1..])
  }

  ghost predicate Reachable(c: Config, s: State) {
    exists acts :: Legal(c, Begin(), acts) && Final(c, Begin(), acts) == s
  }

  /** A call other than bind. */
  ghost predicate IsCall(s: State, x: nat) {
    exists rep :: Req(x, rep, false) in s.sent
  }

  // ------------------------------------------------------------ the invariant

  /** Requests carry acknowledgements that the client has made good, and calls follow the bind. */
  ghost predicate SentOk(s: State) {
    && s.next > 0 && IsFront(s.front, s.reported)
    && (forall x :: x in s.reported ==> 0 < x < s.next)
    && (forall q :: q in s.sent ==> 0 < q.xid < s.next && q.rep <= s.front)
    && (forall q, r :: q in s.sent && r in s.sent && q.xid == r.xid ==> q == r)
    && (s.bound ==> s.window != [])
    && (forall q :: q in s.sent && !q.bind ==> s.bound)
    && (forall p :: p in s.answers ==> s.window != [])
    && (forall x :: x in s.executing ==> s.window != [])
  }

  /** What is known about a call the client still waits for. */
  ghost predicate Once(s: State, x: nat) {
    && s.runs[x] <= 1
    && (s.runs[x] > 0 <==> Has(s.window, x))
    && (s.runs[x] == 0 ==> x !in s.executing)
    && (x in s.executing ==> s.executing[x] == 1 && forall r :: (x, r) !in s.finished)
    && (forall r, r' :: (x, r) in s.finished && (x, r') in s.finished ==> r == r')
    && (s.runs[x] == 0 ==> forall r :: (x, r) !in s.finished)
    && (forall e :: e in s.window && e.xid == x && e.reply.Some? ==> (x, e.reply.value) in s.finished)
    && (forall r :: (x, r) in s.answers ==> (x, r) in s.finished)
  }

  /** Numbers not yet used, and unanswered calls that are not binds. */
  ghost predicate Waited(s: State, x: nat) {
    x > 0 && x !in s.reported && (x >= s.next || IsCall(s, x))
  }

  ghost predicate Inv(s: State) {
    SentOk(s) && forall x: nat :: Waited(s, x) ==> Once(s, x)
  }

  lemma FrontGrows(front: nat, reported: set<nat>, xid: nat, front': nat)
    requires IsFront(front, reported) && IsFront(front', reported + {xid})
    ensures front <= front'
  {
    assert front' < front ==> front' + 1 in reported + {xid};
  }

  lemma CallKeeps(c: Config, s: State, bind: bool)
    requires Inv(s) && Enabled(c, s, Call(bind))
    ensures Inv(Next(c, s, Call(bind)))
  {
    hide Has, IsFront;
    var s' := Next(c, s, Call(bind));
    forall x: nat | Waited(s', x)
      ensures Once(s', x)
    {
      assert Waited(s, x) by {
        if x < s.next {
          var rep :| Req(x, rep, false) in s'.sent;
          assert Req(x, rep, false) in s.sent;
        }
      }
      assert Once(s, x);
    }
  }

  lemma ReportKeeps(c: Config, s: State, xid: nat, front: nat, bound: bool)
    requires Inv(s) && 0 < xid < s.next && IsFront(front, s.reported + {xid}) && (s.bound ==> bound)
    requires bound ==> s.window != []
    ensures Inv(s.(reported := s.reported + {xid}, front := front, bound := bound))
  {
    hide Has, Once;
    FrontGrows(s.front, s.reported, xid, front);
    var s' := s.(reported := s.reported + {xid}, front := front, bound := bound);
    forall x: nat | Waited(s', x)
      ensures Once(s', x)
    {
      assert Waited(s, x);
      OnceFrame(s, s', x);
    }
  }

  lemma OnceFrame(s: State, s': State, x: nat)
    requires Once(s, x) && s'.window == s.window && s'.executing == s.executing && s'.runs == s.runs
    requires s'.finished == s.finished && s'.answers == s.answers
    ensures Once(s', x)
  {
  }

  /** A request only removes entries below every call still waited for. */
  lemma CheckOthers(w: Window, xid: nat, rep: nat, x: nat)
    requires w != [] && rep <= x && x != xid
    ensures Has(Check(w, xid, rep).0, x) <==> Has(w, x)
    ensures forall e :: e in Check(w, xid, rep).0 && e.xid == x ==> e in w
    ensures Check(w, xid, rep).0 != []
  {
    hide Has;
    CleanKeeps(w, rep);
    HasAppend(Clean(w, rep), Entry(xid, None));
    RecordedIsThere(Clean(w, rep), xid);
    HasSome(Clean(w, rep), xid);
  }

  lemma HasSome(w: Window, x: nat)
    ensures Has(w, x) ==> w != []
  {
  }

  /** The verdict on a call still waited for. */
  lemma CheckSelf(w: Window, xid: nat, rep: nat)
    requires w != [] && rep <= xid
    ensures var (w', v) := Check(w, xid, rep);
            && (Has(w, xid) ==> v != New && Has(w', xid))
            && (!Has(w, xid) ==> !v.Done? && (v == New <==> Has(w', xid)))
            && (v.Done? ==> Entry(xid, Some(v.r)) in w)
            && (forall e :: e in w' && e.xid == xid && e.reply.Some? ==> e in w)
  {
    hide Has;
    CleanKeeps(w, rep);
    var w1 := Clean(w, rep);
    RecordedIsThere(w1, xid);
    HasAppend(w1, Entry(xid, None));
  }

  lemma SelfOnce(s: State, q: Req)
    requires Once(s, q.xid) && s.window != [] && q.rep <= q.xid
    ensures Once(OnReceive(s, q), q.xid)
  {
    hide Has, Check;
    CheckSelf(s.window, q.xid, q.rep);
  }

  lemma OtherOnce(s: State, q: Req, x: nat)
    requires Once(s, x) && s.window != [] && x != q.xid && q.rep <= x
    ensures Once(OnReceive(s, q), x)
  {
    hide Has, Check;
    CheckOthers(s.window, q.xid, q.rep, x);
  }

  lemma ReceiveOnce(c: Config, s: State, q: Req, x: nat)
    requires Inv(s) && q in s.sent && Waited(s, x)
    ensures Once(OnReceive(s, q), x)
  {
    hide Has, IsFront, Check;
    assert Once(s, x);
    assert s.front < x by { FrontBelow(s.front, s.reported, x); }
    if s.window == [] {
      FirstCheck(s.window, q.xid, q.rep, x);
      assert q.bind;
      assert q.xid != x by { if q.xid == x { BindNotWaited(s, q); } }
    } else if x == q.xid {
      SelfOnce(s, q);
    } else {
      OtherOnce(s, q, x);
    }
  }

  lemma FirstCheck(w: Window, xid: nat, rep: nat, x: nat)
    requires w == [] && x > 0
    ensures Check(w, xid, rep) == ([Entry(0, None)], New)
    ensures !Has(Check(w, xid, rep).0, x) && !Has(w, x)
  {
  }

  lemma FrontBelow(front: nat, reported: set<nat>, x: nat)
    requires IsFront(front, reported) && x > 0 && x !in reported
    ensures front < x
  {
  }

  lemma BindNotWaited(s: State, q: Req)
    requires SentOk(s) && q in s.sent && q.bind
    ensures !Waited(s, q.xid)
  {
    forall rep: nat
      ensures Req(q.xid, rep, false) !in s.sent
    {
      assert q != Req(q.xid, rep, false);
    }
  }

  lemma ReceiveFrame(s: State, q: Req)
    ensures var s' := OnReceive(s, q);
            && s'.next == s.next && s'.bound == s.bound && s'.reported == s.reported && s'.front == s.front && s'.sent == s.sent
            && s'.seen == s.seen + {q.xid}
    ensures OnReceive(s, q).window == Check(s.window, q.xid, q.rep).0
  {
    hide Check;
  }

  lemma ReceiveSent(s: State, q: Req)
    requires SentOk(s) && q in s.sent
    ensures SentOk(OnReceive(s, q))
  {
    hide Check, IsFront, OnReceive;
    ReceiveFrame(s, q);
    CheckNonempty(s.window, q.xid, q.rep);
  }

  lemma ReceiveKeeps(c: Config, s: State, q: Req)
    requires Inv(s) && q in s.sent
    ensures Inv(OnReceive(s, q))
  {
    hide OnReceive, Once, SentOk;
    ReceiveSent(s, q);
    ReceiveFrame(s, q);
    var s' := OnReceive(s, q);
    forall x: nat | Waited(s', x)
      ensures Once(s', x)
    {
      assert Waited(s, x);
      ReceiveOnce(c, s, q, x);
    }
  }

  lemma CheckNonempty(w: Window, xid: nat, rep: nat)
    ensures Check(w, xid, rep).0 != []
  {
    hide Has;
    if w != [] {
      RecordedIsThere(Clean(w, rep), xid);
      HasSome(Clean(w, rep), xid);
    }
  }

  lemma FinishKeeps(c: Config, s: State, xid: nat, r: Reply)
    requires Inv(s) && Enabled(c, s, Finish(xid, r))
    ensures Inv(Next(c, s, Finish(xid, r)))
  {
    hide Has, IsFront;
    var s' := Next(c, s, Finish(xid, r));
    HasAppend(s.window, Entry(xid, Some(r)));
    forall x: nat | Waited(s', x)
      ensures Once(s', x)
    {
      assert Waited(s, x);
      assert Once(s, x);
    }
  }

  lemma StepKeeps(c: Config, s: State, a: Action)
    requires Inv(s) && Enabled(c, s, a)
    ensures Inv(Next(c, s, a))
  {
    hide Once, Waited;
    match a
    case Call(bind) => CallKeeps(c, s, bind);
    case Receive(q) => ReceiveKeeps(c, s, q);
    case Finish(xid, r) => FinishKeeps(c, s, xid, r);
    case GotReply(q, r, front) => ReportKeeps(c, s, q.xid, front, s.bound || q.bind);
    case GiveUp(xid, front) => ReportKeeps(c, s, xid, front, s.bound);
  }

  lemma {:induction false} RunKeeps(c: Config, s: State, acts: seq<Action>)
    requires Inv(s) && Legal(c, s, acts)
    ensures Inv(Final(c, s, acts))
    decreases |acts|
  {
    hide Inv, Enabled, Next;
    if acts != [] {
      StepKeeps(c, s, acts[0]);
      RunKeeps(c, Next(c, s, acts[0]), acts[1..]);
    }
  }

  lemma BeginInv()
    ensures Inv(Begin())
  {
  }

  /**
    At most once: however requests are lost, repeated and reordered, the handler of a call the
    client has not yet reported as answered has run at most once, and every reply sent for it
    is what that one execution returned.
   */
  lemma AtMostOnceUntilReported(c: Config, s: State, x: nat)
    requires Reachable(c, s) && IsCall(s, x) && x !in s.reported
    ensures s.runs[x] <= 1
    ensures forall r :: (x, r) in s.answers ==> (x, r) in s.finished
    ensures forall r, r' :: (x, r) in s.finished && (x, r') in s.finished ==> r == r'
  {
    hide Has, IsFront, Legal, Final;
    var acts :| Legal(c, Begin(), acts) && Final(c, Begin(), acts) == s;
    BeginInv();
    RunKeeps(c, Begin(), acts);
    var rep :| Req(x, rep, false) in s.sent;
    assert Waited(s, x);
    assert Once(s, x);
  }
}
