/**
  The objects of one client and its server: the client's counter and acknowledgements, the
  server's reply windows. Moved by requests, replies and timeouts they take the steps of the
  at-most-once protocol, so a call runs at most once on the objects too.
 */
module RpcExchange {
  import opened ReplyWindow
  import opened AckWindow
  import opened AtMostOnce
  import opened RpcServer
  import X = AtMostOnceExactly
  import N = AtMostOnceAnswers

  function WindowOf(windows: map<nat, Window>, nonce: nat): Window {
    if nonce in windows then windows[nonce] else []
  }

  class Exchange {
    const c: Config
    const nonce: nat
    const acks: Acks
    const server: Server
    var next: nat
    var bound: bool
    ghost var sent: set<Req>
    ghost var seen: set<nat>
    ghost var executing: multiset<nat>
    ghost var runs: multiset<nat>
    ghost var finished: set<(nat, Reply)>
    ghost var answers: multiset<(nat, Reply)>

    ghost function View(): State
      requires acks.Valid()
      reads this, acks, server
    {
      State(next, bound, acks.reported, acks.window[0], sent, WindowOf(server.windows, nonce),
            seen, executing, runs, finished, answers)
    }

    ghost predicate Valid()
      reads this, acks, server
    {
      nonce != 0 && acks.Valid() && Reachable(c, View())
    }

    /** A new client, with a nonce the server has not met. */
    constructor (c: Config, nonce: nat, acks: Acks, server: Server)
      requires nonce != 0 && nonce !in server.windows && acks.Valid() && acks.reported == {}
      ensures Valid() && this.c == c && this.nonce == nonce && this.acks == acks && this.server == server
    {
      this.c, this.nonce, this.acks, this.server := c, nonce, acks, server;
      next := 1;
      bound := false;
      sent, seen, finished := {}, {}, {};
      executing, runs, answers := multiset{}, multiset{}, multiset{};
      new;
      X.BeginReachable(c);
      FrontWithoutFirst(acks.window, acks.reported);
      assert View() == Begin();
    }

    /** call1: the next number, with the acknowledgement of the moment. */
    method Call(bind: bool) returns (q: Req)
      requires Valid() && bind == !bound
      modifies this
      ensures Valid() && View() == Next(c, old(View()), Action.Call(bind))
      ensures q == Req(old(next), acks.window[0], bind) && next == old(next) + 1 && sent == old(sent) + {q}
    {
      hide Reachable, Represents;
      FrontOf(acks.window, acks.reported);
      ghost var s := X.ReachStep(c, View(), Action.Call(bind));
      q := Req(next, acks.window[0], bind);
      sent := sent + {q};
      next := next + 1;
    }

    /** The server's side of a request: its verdict and the new window. */
    method Judge(q: Req) returns (v: Verdict)
      requires nonce != 0
      modifies server
      ensures v == Check(WindowOf(old(server.windows), nonce), q.xid, q.rep).1
      ensures WindowOf(server.windows, nonce) == Check(WindowOf(old(server.windows), nonce), q.xid, q.rep).0
    {
      hide Check;
      v := server.Admit(nonce, q.xid, q.rep);
    }

    /** What the handlers and the network see of it. */
    ghost method Note(q: Req, v: Verdict)
      modifies this`seen, this`executing, this`runs, this`answers
      ensures seen == old(seen) + {q.xid}
      ensures runs == if v == New then old(runs) + multiset{q.xid} else old(runs)
      ensures executing == if v == New then old(executing) + multiset{q.xid} else old(executing)
      ensures answers == if v.Done? then old(answers) + multiset{(q.xid, v.r)} else old(answers)
    {
      seen := seen + {q.xid};
      match v {
        case New => executing, runs := executing + multiset{q.xid}, runs + multiset{q.xid};
        case Done(r) => answers := answers + multiset{(q.xid, r)};
        case InProgress =>
        case Forgotten =>
      }
    }

    /**
      dispatch. A call the client waits for is answered with what it returned, if it has; it is left
      alone while it runs; otherwise its handler runs now, or it is refused below the window.
     */
    method Receive(q: Req) returns (v: Verdict)
      requires Valid() && Enabled(c, View(), Action.Receive(q))
      modifies this, server
      ensures Valid() && View() == Next(c, old(View()), Action.Receive(q))
      ensures runs == if v == New then old(runs) + multiset{q.xid} else old(runs)
      ensures executing == if v == New then old(executing) + multiset{q.xid} else old(executing)
      ensures answers == if v.Done? then old(answers) + multiset{(q.xid, v.r)} else old(answers)
      ensures !q.bind && q.xid !in acks.reported ==> N.Fits(old(View()), q, v)
    {
      hide Reachable, Represents, Check, N.Fits, Next, Enabled;
      ghost var s := View();
      v := Judge(q);
      Note(q, v);
      Received(c, s, q, v, View());
    }

    /** A handler returns, and its reply is recorded and sent. */
    method Finish(xid: nat, r: Reply)
      requires Valid() && Enabled(c, View(), Action.Finish(xid, r))
      modifies this, server
      ensures Valid() && View() == Next(c, old(View()), Action.Finish(xid, r))
      ensures executing == old(executing) - multiset{xid} && runs == old(runs)
      ensures finished == old(finished) + {(xid, r)} && answers == old(answers) + multiset{(xid, r)}
    {
      hide Reachable, Represents, Check;
      ghost var s := X.ReachStep(c, View(), Action.Finish(xid, r));
      HasWindow(xid);
      server.AddReply(nonce, xid, r);
      executing := executing - multiset{xid};
      finished, answers := finished + {(xid, r)}, answers + multiset{(xid, r)};
      assert View() == s;
    }

    /** got_pdu, and then call1 again: a reply is reported and, for a bind, the client is bound. */
    method GotReply(q: Req, r: Reply)
      requires Valid() && q in sent && (q.xid, r) in answers
      modifies this, acks
      ensures Valid() && IsFront(acks.window[0], old(acks.reported) + {q.xid})
      ensures acks.reported == old(acks.reported) + {q.xid} && bound == (old(bound) || q.bind)
      ensures View() == Next(c, old(View()), Action.GotReply(q, r, acks.window[0]))
    {
      hide Reachable, Represents, IsFront;
      ghost var s := View();
      acks.Update(q.xid);
      FrontOf(acks.window, acks.reported);
      ghost var s' := X.ReachStep(c, s, Action.GotReply(q, r, acks.window[0]));
      if q.bind { bound := true; }
      assert View() == s';
    }

    /** A call that timed out is reported too. */
    method GiveUp(xid: nat)
      requires Valid() && 0 < xid < next
      modifies this, acks
      ensures Valid() && IsFront(acks.window[0], old(acks.reported) + {xid})
      ensures acks.reported == old(acks.reported) + {xid}
      ensures View() == Next(c, old(View()), Action.GiveUp(xid, acks.window[0]))
    {
      hide Reachable, Represents, IsFront;
      ghost var s := View();
      acks.Update(xid);
      FrontOf(acks.window, acks.reported);
      ghost var s' := X.ReachStep(c, s, Action.GiveUp(xid, acks.window[0]));
      assert View() == s';
    }

    lemma HasWindow(xid: nat)
      requires Valid() && xid in executing
      ensures nonce in server.windows
    {
      hide Represents;
      ReachableSent(c, View());
    }

    /** What the client has not reported has run once at most, and is answered with what that run returned. */
    lemma CallsRunOnce(x: nat)
      requires Valid() && IsCall(View(), x) && x !in acks.reported
      ensures runs[x] <= 1
      ensures forall r :: (x, r) in answers ==> (x, r) in finished
      ensures forall r, r' :: (x, r) in finished && (x, r') in finished ==> r == r'
    {
      hide Reachable, Represents, IsCall;
      AtMostOnceUntilReported(c, View(), x);
    }
  }

  /** A state that has moved as the verdict says has taken the protocol's step. */
  lemma Received(c: Config, s: State, q: Req, v: Verdict, s': State)
    requires Reachable(c, s) && Enabled(c, s, Action.Receive(q)) && (s'.window, v) == Check(s.window, q.xid, q.rep)
    requires s' == s.(window := s'.window, seen := s.seen + {q.xid},
                      runs := if v == New then s.runs + multiset{q.xid} else s.runs,
                      executing := if v == New then s.executing + multiset{q.xid} else s.executing,
                      answers := if v.Done? then s.answers + multiset{(q.xid, v.r)} else s.answers)
    ensures Reachable(c, s') && s' == Next(c, s, Action.Receive(q))
    ensures !q.bind && q.xid !in s.reported ==> N.Fits(s, q, v)
  {
    hide Reachable, Check, N.Fits, InOrder;
    var _ := X.ReachStep(c, s, Action.Receive(q));
    if !q.bind && q.xid !in s.reported { N.AnsweredExactly(c, s, q); }
  }

  lemma FrontOf(w: seq<nat>, reported: set<nat>)
    requires Represents(w, reported)
    ensures w != [] && IsFront(w[0], reported)
  {
  }

  lemma FrontWithoutFirst(w: seq<nat>, reported: set<nat>)
    requires Represents(w, reported) && 1 !in reported
    ensures w != [] && w[0] == 0
  {
  }

  lemma ReachableSent(c: Config, s: State)
    requires Reachable(c, s)
    ensures SentOk(s)
  {
    hide Legal, Final, SentOk;
    var acts :| Legal(c, Begin(), acts) && Final(c, Begin(), acts) == s;
    BeginInv();
    RunKeeps(c, Begin(), acts);
    X.InvSent(s);
  }
}
