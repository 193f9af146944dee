/**
  Whatever one Paxos instance decides was proposed by somebody, and what that means for views.
 */
module PaxosValidity {
  import opened Ballots
  import opened PaxosProtocol
  import opened PaxosSafety
  import opened PaxosAgreement
  import opened Views
  import A = Acceptors

  predicate FromOrNone(v: Value, vals: set<Value>) {
    v == "" || v in vals
  }

  predicate MsgFrom(m: Msg, vals: set<Value>) {
    match m
    case PrepareReq(_, _, _) => true
    case Promise(_, _, _, _, va) => FromOrNone(va, vals)
    case Old(_, _) => true
    case AcceptReq(_, _, v, _) => v in vals
    case AcceptOk(_, _, v, _) => v in vals
    case DecideReq(v, _) => v in vals
  }

  predicate PropFrom(x: Proposer, vals: set<Value>) {
    match x
    case Idle(_) => true
    case Preparing(_, _, newv, _, tally) => newv in vals && FromOrNone(tally.v, vals)
    case Accepting(_, _, v, _, _, _) => v in vals
    case Deciding(_, _, v, _, _) => v in vals
  }

  /** Every value anywhere in the instance is one of vals, or stands for no value. */
  ghost predicate Sourced(s: State, vals: set<Value>) {
    && (forall x :: x in s.acc ==> FromOrNone(s.acc[x].vote, vals))
    && (forall p :: p in s.prop ==> PropFrom(s.prop[p], vals))
    && (forall m :: m in s.msgs ==> MsgFrom(m, vals))
    && (forall r :: r in s.phases ==> s.phases[r].v in vals)
  }

  function ProposedBy(a: Action): set<Value> {
    if a.Start? then {a.newv} else {}
  }

  lemma SourcedMore(s: State, vals: set<Value>, more: set<Value>)
    requires Sourced(s, vals)
    ensures Sourced(s, vals + more)
  {
  }

  lemma MessageSourced(s: State, vals: set<Value>, m: Msg)
    requires Sourced(s, vals) && m in s.msgs
    ensures MsgFrom(m, vals)
  {
  }

  lemma SendSourced(s: State, vals: set<Value>, m: Msg)
    requires Sourced(s, vals) && MsgFrom(m, vals)
    ensures Sourced(Send(s, m), vals)
  {
  }

  lemma AcceptorSourced(s: State, vals: set<Value>, x: Node, t: A.Acceptor)
    requires Sourced(s, vals) && FromOrNone(t.vote, vals)
    ensures Sourced(s.(acc := s.acc[x := t]), vals)
  {
  }

  lemma ProposerSourced(s: State, vals: set<Value>, p: Node, x: Proposer)
    requires Sourced(s, vals) && PropFrom(x, vals)
    ensures Sourced(SetProp(s, p, x), vals)
  {
  }

  lemma VoteSourced(s: State, vals: set<Value>, x: Node)
    requires Sourced(s, vals) && x in s.acc
    ensures FromOrNone(s.acc[x].vote, vals)
  {
  }

  lemma RunningSourced(s: State, vals: set<Value>, p: Node)
    requires Sourced(s, vals) && p in s.prop
    ensures PropFrom(s.prop[p], vals)
  {
  }

  lemma DeliverSourced(c: Config, s: State, a: Action, vals: set<Value>)
    requires Sourced(s, vals) && Enabled(c, s, a) && (a.DeliverPrepare? || a.DeliverAccept? || a.DeliverDecide?)
    ensures Sourced(Next(c, s, a), vals)
  {
    hide Above, AtLeast, A.Line, Sourced;
    VoteSourced(s, vals, a.to);
    var t := Next(c, s, a).acc[a.to];
    if a.DeliverAccept? { MessageSourced(s, vals, AcceptReq(a.run, a.b, a.v, a.to)); }
    AcceptorSourced(s, vals, a.to, t);
    var s1 := s.(acc := s.acc[a.to := t]);
    assert s.acc[a.to := s.acc[a.to]] == s.acc;
    match a
    case DeliverPrepare(run, b, to) =>
      SendSourced(s1, vals, Promise(run, b, to, s.acc[to].accepted, s.acc[to].vote));
      SendSourced(s1, vals, Old(run, A.ValueAt(s.acc[to].values, c.instance)));
    case DeliverAccept(run, b, v, to) => SendSourced(s1, vals, AcceptOk(run, b, v, to));
    case DeliverDecide(v, to) =>
  }

  lemma ReplySourced(c: Config, s: State, a: Action, vals: set<Value>)
    requires Sourced(s, vals) && Enabled(c, s, a) && (a.GetPromise? || a.GetOld? || a.GetAcceptOk?)
    ensures Sourced(Next(c, s, a), vals)
  {
    hide Above, A.Line, Sourced;
    RunningSourced(s, vals, a.p);
    match a
    case GetPromise(p, na, va) =>
      var x := s.prop[p];
      MessageSourced(s, vals, Promise(x.run, BallotOf(s, p), c.nodes[x.i], na, va));
      ProposerSourced(s, vals, p, Next(c, s, a).prop[p]);
    case GetOld(p, v) =>
      VoteSourced(s, vals, p);
      var t := A.Commit(s.acc[p], c.instance, v);
      AcceptorSourced(s, vals, p, t);
      ProposerSourced(s.(acc := s.acc[p := t]), vals, p, Idle(s.prop[p].my));
    case GetAcceptOk(p) => ProposerSourced(s, vals, p, Next(c, s, a).prop[p]);
  }

  lemma PhaseSourced(s: State, vals: set<Value>, r: nat, ph: Phase)
    requires Sourced(s, vals) && ph.v in vals
    ensures Sourced(s.(phases := s.phases[r := ph]), vals)
  {
  }

  /** The steps a proposer takes by itself. */
  lemma OwnStepSourced(c: Config, s: State, a: Action, vals: set<Value>)
    requires Sourced(s, vals) && Enabled(c, s, a) && ProposedBy(a) <= vals
    requires a.Start? || a.SendPrepare? || a.EndPrepare? || a.SendAccept? || a.EndAccept? || a.SendDecide? || a.NoReply? || a.EndDecide?
    ensures Sourced(Next(c, s, a), vals)
  {
    hide Sourced, IsMajority;
    RunningSourced(s, vals, a.p);
    var x := s.prop[a.p];
    match a
    case Start(p, newv) =>
      var y := Next(c, s, a).prop[p];
      ProposerSourced(s, vals, p, y);
      RunsSourced(SetProp(s, p, y), vals, s.runs + 1);
    case SendPrepare(p) => SendSourced(s, vals, PrepareReq(x.run, BallotOf(s, p), c.nodes[x.i]));
    case EndPrepare(p) =>
      var y := Next(c, s, a).prop[p];
      ProposerSourced(s, vals, p, y);
      if y.Accepting? { PhaseSourced(SetProp(s, p, y), vals, x.run, Phase(BallotOf(s, p), y.v, y.targets)); }
    case SendAccept(p) => SendSourced(s, vals, AcceptReq(x.run, BallotOf(s, p), x.v, x.targets[x.i]));
    case EndAccept(p) => ProposerSourced(s, vals, p, Next(c, s, a).prop[p]);
    case SendDecide(p) => SendSourced(s, vals, DecideReq(x.v, x.targets[x.i]));
    case NoReply(p) => ProposerSourced(s, vals, p, Next(c, s, a).prop[p]);
    case EndDecide(p) => ProposerSourced(s, vals, p, Next(c, s, a).prop[p]);
  }

  lemma RunsSourced(s: State, vals: set<Value>, n: nat)
    requires Sourced(s, vals)
    ensures Sourced(s.(runs := n), vals)
  {
  }

  lemma CrashSourced(c: Config, s: State, p: Node, vals: set<Value>)
    requires Sourced(s, vals) && Enabled(c, s, Crash(p)) && A.Durable(s.acc[p])
    ensures Sourced(Next(c, s, Crash(p)), vals)
  {
    hide A.Step, A.Durable;
    A.CrashStep(s.acc[p]);
  }

  lemma StepSourced(c: Config, s: State, a: Action, vals: set<Value>)
    requires Sourced(s, vals) && Enabled(c, s, a) && Inv(c, s)
    ensures Sourced(Next(c, s, a), vals + ProposedBy(a))
  {
    hide Inv, A.Durable, Sourced, Next, Enabled;
    SourcedMore(s, vals, ProposedBy(a));
    assert vals + {} == vals;
    if a.DeliverPrepare? || a.DeliverAccept? || a.DeliverDecide? {
      DeliverSourced(c, s, a, vals);
    } else if a.GetPromise? || a.GetOld? || a.GetAcceptOk? {
      ReplySourced(c, s, a, vals);
    } else if a.Crash? {
      CrashEnabled(c, s, a.p);
      DurableAcceptor(c, s, a.p);
      CrashSourced(c, s, a.p, vals);
    } else {
      OwnStepSourced(c, s, a, vals + ProposedBy(a));
    }
  }

  lemma CrashEnabled(c: Config, s: State, p: Node)
    requires Enabled(c, s, Crash(p))
    ensures p in s.acc
  {
  }

  lemma DurableAcceptor(c: Config, s: State, p: Node)
    requires Inv(c, s) && p in s.acc
    ensures A.Durable(s.acc[p])
  {
    hide A.Durable;
  }

  /** What was proposed in the first k steps. */
  function Proposed(acts: seq<Action>, k: nat): set<Value>
    requires k <= |acts|
  {
    if k == 0 then {} else Proposed(acts, k - 1) + ProposedBy(acts[k - 1])
  }

  lemma {:induction false} RunSourced(c: Config, ss: seq<State>, acts: seq<Action>, k: nat)
    requires IsRun(c, ss, acts) && Init(c, ss[0]) && k <= |acts| && !c.late && !c.empty
    ensures Sourced(ss[k], Proposed(acts, k))
  {
    hide Inv, Next, Enabled, Sourced;
    if k == 0 {
      InitSourced(c, ss[0]);
    } else {
      RunSourced(c, ss, acts, k - 1);
      InitInv(c, ss[0]);
      RunKeeps(c, ss, acts, k - 1);
      assert Takes(c, ss[k - 1], acts[k - 1], ss[k]);
      StepSourced(c, ss[k - 1], acts[k - 1], Proposed(acts, k - 1));
    }
  }

  lemma InitSourced(c: Config, s: State)
    requires Init(c, s)
    ensures Sourced(s, {})
  {
    hide A.Durable;
  }

  lemma {:induction false} ProposedWhen(acts: seq<Action>, k: nat, v: Value) returns (i: nat)
    requires k <= |acts| && v in Proposed(acts, k)
    ensures i < k && acts[i].Start? && acts[i].newv == v
  {
    if v in ProposedBy(acts[k - 1]) { i := k - 1; } else { i := ProposedWhen(acts, k - 1, v); }
  }

  /** Validity: a value that wins, and so every value committed, was proposed earlier in the run. */
  lemma Validity(c: Config, ss: seq<State>, acts: seq<Action>, v: Value) returns (i: nat)
    requires IsRun(c, ss, acts) && Init(c, ss[0]) && !c.late && !c.empty
    requires var s := ss[|acts|];
             || Chosen(c.nodes, s.msgs, s.phases, v)
             || exists x :: x in s.acc && s.acc[x].decided >= c.instance && A.ValueAt(s.acc[x].values, c.instance) == v
    ensures i < |acts| && acts[i].Start? && acts[i].newv == v
  {
    hide Init, Takes, WonBy, A.ValueAt;
    var s := ss[|acts|];
    assert Reachable(c, s);
    if x :| x in s.acc && s.acc[x].decided >= c.instance && A.ValueAt(s.acc[x].values, c.instance) == v {
      CommitsAgree(c, s, x, x);
    }
    RunSourced(c, ss, acts, |acts|);
    i := ProposedWhen(acts, |acts|, v);
  }

  /** If every proposal follows the view v, so does whatever view is committed. */
  lemma CommittedViewFollows(c: Config, ss: seq<State>, acts: seq<Action>, v: View, x: Node)
    requires IsRun(c, ss, acts) && Init(c, ss[0]) && !c.late && !c.empty
    requires forall i :: 0 <= i < |acts| && acts[i].Start? ==> Follows(v, Members(acts[i].newv))
    requires x in ss[|acts|].acc && ss[|acts|].acc[x].decided >= c.instance
    ensures Follows(v, Members(A.ValueAt(ss[|acts|].acc[x].values, c.instance)))
  {
    hide Init, Takes, Chosen, Follows, Members, A.ValueAt;
    var i := Validity(c, ss, acts, A.ValueAt(ss[|acts|].acc[x].values, c.instance));
  }
}
