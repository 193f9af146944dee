/**
  Safety of one Paxos instance: the invariant of every run, and agreement.
 */
module PaxosSafety {
  import opened Text
  import opened Ballots
  import opened Proposers
  import opened PaxosProtocol
  import A = Acceptors

  // ------------------------------------------------------------ vocabulary

  ghost predicate Voted(msgs: set<Msg>, a: Node, b: Ballot, v: Value) {
    exists r :: AcceptOk(r, b, v, a) in msgs
  }

  ghost predicate PromisedAbove(msgs: set<Msg>, a: Node, b: Ballot) {
    exists m :: m in msgs && m.Promise? && m.from == a && Above(m.b, b)
  }

  ghost predicate Promised(msgs: set<Msg>, run: nat, b: Ballot, a: Node) {
    exists na, va :: Promise(run, b, a, na, va) in msgs
  }

  /** No majority can ever vote (b, v): each node of `q` missed it and promised past it. */
  ghost predicate BlockedBy(nodes: seq<Node>, msgs: set<Msg>, b: Ballot, v: Value, q: seq<Node>) {
    IsMajority(nodes, q) && forall x :: x in q ==> PromisedAbove(msgs, x, b) && !Voted(msgs, x, b, v)
  }

  ghost predicate Blocked(nodes: seq<Node>, msgs: set<Msg>, b: Ballot, v: Value) {
    exists q :: BlockedBy(nodes, msgs, b, v, q)
  }

  /** No other value can win below ballot b. */
  ghost predicate Safe(nodes: seq<Node>, msgs: set<Msg>, b: Ballot, v: Value) {
    forall b0, v0 :: Above(b, b0) && b0.n > 0 && v0 != v ==> Blocked(nodes, msgs, b0, v0)
  }

  ghost predicate WonBy(nodes: seq<Node>, msgs: set<Msg>, run: nat, ph: Phase, w: seq<Node>) {
    IsMajority(nodes, w) && forall x :: x in w ==> AcceptOk(run, ph.b, ph.v, x) in msgs
  }

  /** The run's accept phase won a majority. */
  ghost predicate Won(nodes: seq<Node>, msgs: set<Msg>, phases: map<nat, Phase>, run: nat) {
    run in phases && exists w :: WonBy(nodes, msgs, run, phases[run], w)
  }

  ghost predicate Chosen(nodes: seq<Node>, msgs: set<Msg>, phases: map<nat, Phase>, v: Value) {
    exists run :: Won(nodes, msgs, phases, run) && phases[run].v == v
  }

  // ------------------------------------------------------------ the invariant

  ghost predicate Shape(c: Config, s: State) {
    && s.acc.Keys == s.prop.Keys && c.instance > 0
    && (forall x :: x in c.nodes ==> x in s.acc)
    && (forall x :: x in s.acc ==> IsWord(x))
  }

  /** An undecided acceptor remembers its last vote and honours its promises. */
  ghost predicate OpenOk(msgs: set<Msg>, t: A.Acceptor, x: Node) {
    && (t.accepted.n == 0 ==> t.vote == "")
    && (t.accepted.n > 0 ==> t.vote != "" && Voted(msgs, x, t.accepted, t.vote) && AtLeast(t.promised, t.accepted))
    && (forall m :: m in msgs && m.AcceptOk? && m.from == x ==> t.accepted.n > 0 && AtLeast(t.accepted, m.b))
    && (forall m :: m in msgs && m.Promise? && m.from == x ==> AtLeast(t.promised, m.b))
  }

  ghost predicate AccOk(c: Config, msgs: set<Msg>, phases: map<nat, Phase>, t: A.Acceptor, x: Node) {
    && t.me == x && A.Durable(t)
    && c.instance - 1 <= t.decided <= c.instance
    && (t.decided == c.instance ==> Chosen(c.nodes, msgs, phases, A.ValueAt(t.values, c.instance)))
    && (t.decided < c.instance ==> OpenOk(msgs, t, x))
  }

  ghost predicate PromiseOk(msgs: set<Msg>, m: Msg)
    requires m.Promise?
  {
    && m.b.n > 0
    && (m.na.n == 0 ==> m.va == "")
    && (m.na.n > 0 ==> m.va != "" && Voted(msgs, m.from, m.na, m.va))
    && (forall k :: k in msgs && k.AcceptOk? && k.from == m.from && Above(m.b, k.b) ==> m.na.n > 0 && AtLeast(m.na, k.b))
    && (forall k :: k in msgs && k.Promise? && k.from == m.from && k.b == m.b ==> k == m)
  }

  ghost predicate DecideOk(nodes: seq<Node>, msgs: set<Msg>, phases: map<nat, Phase>, v: Value, to: Node) {
    exists r :: Won(nodes, msgs, phases, r) && phases[r].v == v && AcceptOk(r, phases[r].b, v, to) in msgs
  }

  ghost predicate MsgOk(c: Config, msgs: set<Msg>, phases: map<nat, Phase>, m: Msg) {
    match m
    case PrepareReq(_, b, _) => b.n > 0 && IsWord(b.node)
    case Promise(_, _, _, _, _) => PromiseOk(msgs, m)
    case Old(_, v) => Chosen(c.nodes, msgs, phases, v)
    case AcceptReq(r, b, v, to) => r in phases && phases[r].b == b && phases[r].v == v && to in phases[r].quorum
    case AcceptOk(r, b, v, from) => AcceptReq(r, b, v, from) in msgs
    case DecideReq(v, to) => DecideOk(c.nodes, msgs, phases, v, to)
  }

  ghost predicate PhaseOk(c: Config, msgs: set<Msg>, runs: nat, r: nat, ph: Phase) {
    && r < runs && ph.v != "" && IsLine(ph.v) && ph.b.n > 0 && IsWord(ph.b.node)
    && IsMajority(c.nodes, ph.quorum)
    && (forall x :: x in ph.quorum ==> Promised(msgs, r, ph.b, x))
    && Safe(c.nodes, msgs, ph.b, ph.v)
  }

  ghost predicate Counted(msgs: set<Msg>, run: nat, b: Ballot, x: Node, high: Ballot) {
    exists na, va :: Promise(run, b, x, na, va) in msgs && AtLeast(high, na)
  }

  ghost predicate TallyOk(msgs: set<Msg>, run: nat, b: Ballot, t: Tally) {
    && (forall x :: x in t.accepts ==> Counted(msgs, run, b, x, t.high))
    && ((t.high == Ballot(0, "") && t.v == "") || exists x :: Promise(run, b, x, t.high, t.v) in msgs)
  }

  ghost predicate PropOk(c: Config, msgs: set<Msg>, phases: map<nat, Phase>, runs: nat, p: Node, q: Proposer) {
    match q
    case Idle(_) => true
    case Preparing(my, run, newv, i, tally) =>
      && run < runs && run !in phases && my > 0 && newv != "" && IsLine(newv) && i <= |c.nodes|
      && TallyOk(msgs, run, Ballot(my, p), tally)
    case Accepting(my, run, v, targets, i, accepts) =>
      && run in phases && phases[run] == Phase(Ballot(my, p), v, targets) && i <= |targets|
      && (forall x :: x in accepts ==> AcceptOk(run, Ballot(my, p), v, x) in msgs)
    case Deciding(my, run, v, targets, i) =>
      && Won(c.nodes, msgs, phases, run) && phases[run].v == v && i <= |targets|
      && (forall x :: x in targets ==> AcceptOk(run, phases[run].b, v, x) in msgs)
  }

  /** Two proposers never prepare under the same run. */
  ghost predicate RunsDistinct(s: State) {
    forall p, q :: p in s.prop && q in s.prop && p != q && s.prop[p].Preparing? && s.prop[q].Preparing?
      ==> s.prop[p].run != s.prop[q].run
  }

  ghost predicate AccsOk(c: Config, s: State) {
    forall x :: x in s.acc ==> AccOk(c, s.msgs, s.phases, s.acc[x], x)
  }

  ghost predicate MsgsOk(c: Config, s: State) {
    forall m :: m in s.msgs ==> MsgOk(c, s.msgs, s.phases, m)
  }

  ghost predicate PhasesOk(c: Config, s: State) {
    forall r :: r in s.phases ==> PhaseOk(c, s.msgs, s.runs, r, s.phases[r])
  }

  ghost predicate PropsOk(c: Config, s: State) {
    forall p :: p in s.prop ==> PropOk(c, s.msgs, s.phases, s.runs, p, s.prop[p])
  }

  ghost predicate Inv(c: Config, s: State) {
    Shape(c, s) && AccsOk(c, s) && MsgsOk(c, s) && PhasesOk(c, s) && PropsOk(c, s) && RunsDistinct(s)
  }

  // ------------------------------------------------------------ consequences

  /** A ballot is used by at most one accept phase, even when its number was reused. */
  lemma BallotsDoNotRepeat(c: Config, s: State, r1: nat, r2: nat)
    requires MsgsOk(c, s) && PhasesOk(c, s)
    requires r1 in s.phases && r2 in s.phases && s.phases[r1].b == s.phases[r2].b
    ensures r1 == r2
  {
    hide Safe;
    assert PhaseOk(c, s.msgs, s.runs, r1, s.phases[r1]) && PhaseOk(c, s.msgs, s.runs, r2, s.phases[r2]);
    var b := s.phases[r1].b;
    var x := MajoritiesMeet(c.nodes, s.phases[r1].quorum, s.phases[r2].quorum);
    var na1, va1 :| Promise(r1, b, x, na1, va1) in s.msgs;
    var na2, va2 :| Promise(r2, b, x, na2, va2) in s.msgs;
    assert MsgOk(c, s.msgs, s.phases, Promise(r1, b, x, na1, va1));
  }

  lemma WonIsNotBlocked(c: Config, s: State, r: nat)
    requires Won(c.nodes, s.msgs, s.phases, r)
    ensures !Blocked(c.nodes, s.msgs, s.phases[r].b, s.phases[r].v)
  {
    var w :| WonBy(c.nodes, s.msgs, r, s.phases[r], w);
    forall q | IsMajority(c.nodes, q)
      ensures !BlockedBy(c.nodes, s.msgs, s.phases[r].b, s.phases[r].v, q)
    {
      var x := MajoritiesMeet(c.nodes, q, w);
      assert AcceptOk(r, s.phases[r].b, s.phases[r].v, x) in s.msgs;
    }
  }

  /** Once a run has won, every accept phase at its ballot or above carries its value. */
  lemma LaterPhasesAgree(c: Config, s: State, r0: nat, r: nat)
    requires MsgsOk(c, s) && PhasesOk(c, s)
    requires Won(c.nodes, s.msgs, s.phases, r0) && r in s.phases && AtLeast(s.phases[r].b, s.phases[r0].b)
    ensures s.phases[r].v == s.phases[r0].v
  {
    hide MsgOk;
    var b0, v0 := s.phases[r0].b, s.phases[r0].v;
    AtLeastIs(s.phases[r].b, b0);
    if s.phases[r].b == b0 {
      BallotsDoNotRepeat(c, s, r, r0);
    } else if s.phases[r].v != v0 {
      assert PhaseOk(c, s.msgs, s.runs, r, s.phases[r]) && PhaseOk(c, s.msgs, s.runs, r0, s.phases[r0]);
      WonIsNotBlocked(c, s, r0);
    }
  }

  ghost predicate Agreed(c: Config, s: State) {
    forall r1, r2 :: Won(c.nodes, s.msgs, s.phases, r1) && Won(c.nodes, s.msgs, s.phases, r2)
      ==> s.phases[r1].v == s.phases[r2].v
  }

  lemma InvAgrees(c: Config, s: State)
    requires MsgsOk(c, s) && PhasesOk(c, s)
    ensures Agreed(c, s)
  {
    hide MsgsOk, PhasesOk;
    forall r1, r2 | Won(c.nodes, s.msgs, s.phases, r1) && Won(c.nodes, s.msgs, s.phases, r2)
      ensures s.phases[r1].v == s.phases[r2].v
    {
      AtLeastIs(s.phases[r1].b, s.phases[r2].b);
      AtLeastIs(s.phases[r2].b, s.phases[r1].b);
      if AtLeast(s.phases[r1].b, s.phases[r2].b) { LaterPhasesAgree(c, s, r2, r1); }
      else { LaterPhasesAgree(c, s, r1, r2); }
    }
  }

  // ------------------------------------------------------------ growth

  /** Winning and choosing are never undone. */
  lemma ChosenGrows(nodes: seq<Node>, msgs: set<Msg>, msgs': set<Msg>, phases: map<nat, Phase>, phases': map<nat, Phase>)
    requires msgs <= msgs' && forall r :: r in phases ==> r in phases' && phases'[r] == phases[r]
    ensures forall r :: Won(nodes, msgs, phases, r) ==> Won(nodes, msgs', phases', r)
    ensures forall v :: Chosen(nodes, msgs, phases, v) ==> Chosen(nodes, msgs', phases', v)
  {
    forall r | Won(nodes, msgs, phases, r)
      ensures Won(nodes, msgs', phases', r)
    {
      var w :| WonBy(nodes, msgs, r, phases[r], w);
      assert WonBy(nodes, msgs', r, phases'[r], w);
    }
  }

  /** The new messages of a step that must be checked against older promises and votes. */
  predicate Quiet(m: Msg) {
    !m.Promise? && !m.AcceptOk?
  }

  /** Blocking survives any vote that respects the voter's promises. */
  lemma SafeGrows(nodes: seq<Node>, msgs: set<Msg>, m: Msg, b: Ballot, v: Value)
    requires Safe(nodes, msgs, b, v)
    requires m.AcceptOk? ==> !PromisedAbove(msgs, m.from, m.b)
    ensures Safe(nodes, msgs + {m}, b, v)
  {
    var msgs' := msgs + {m};
    forall b0, v0 | Above(b, b0) && b0.n > 0 && v0 != v
      ensures Blocked(nodes, msgs', b0, v0)
    {
      assert Blocked(nodes, msgs, b0, v0);
      var q :| BlockedBy(nodes, msgs, b0, v0, q);
      forall x | x in q
        ensures PromisedAbove(msgs', x, b0) && !Voted(msgs', x, b0, v0)
      {
        assert PromisedAbove(msgs, x, b0) && !Voted(msgs, x, b0, v0);
      }
      assert BlockedBy(nodes, msgs', b0, v0, q);
    }
  }

  lemma PhasesGrow(c: Config, s: State, m: Msg)
    requires PhasesOk(c, s) && (m.AcceptOk? ==> !PromisedAbove(s.msgs, m.from, m.b))
    ensures PhasesOk(c, Send(s, m))
  {
    forall r | r in s.phases
      ensures PhaseOk(c, s.msgs + {m}, s.runs, r, s.phases[r])
    {
      var ph := s.phases[r];
      assert PhaseOk(c, s.msgs, s.runs, r, ph);
      SafeGrows(c.nodes, s.msgs, m, ph.b, ph.v);
      forall x | x in ph.quorum
        ensures Promised(s.msgs + {m}, r, ph.b, x)
      {
        var na, va :| Promise(r, ph.b, x, na, va) in s.msgs;
        assert Promise(r, ph.b, x, na, va) in s.msgs + {m};
      }
    }
  }

  lemma TallyGrows(msgs: set<Msg>, msgs': set<Msg>, run: nat, b: Ballot, t: Tally)
    requires msgs <= msgs' && TallyOk(msgs, run, b, t)
    ensures TallyOk(msgs', run, b, t)
  {
    forall x | x in t.accepts
      ensures Counted(msgs', run, b, x, t.high)
    {
      assert Counted(msgs, run, b, x, t.high);
      var na, va :| Promise(run, b, x, na, va) in msgs && AtLeast(t.high, na);
      assert Promise(run, b, x, na, va) in msgs';
    }
    if x :| Promise(run, b, x, t.high, t.v) in msgs {
      assert Promise(run, b, x, t.high, t.v) in msgs';
    }
  }

  lemma PropsGrow(c: Config, s: State, m: Msg)
    requires PropsOk(c, s)
    ensures PropsOk(c, Send(s, m))
  {
    hide Won, TallyOk;
    ChosenGrows(c.nodes, s.msgs, s.msgs + {m}, s.phases, s.phases);
    forall p | p in s.prop
      ensures PropOk(c, s.msgs + {m}, s.phases, s.runs, p, s.prop[p])
    {
      assert PropOk(c, s.msgs, s.phases, s.runs, p, s.prop[p]);
      if s.prop[p].Preparing? {
        TallyGrows(s.msgs, s.msgs + {m}, s.prop[p].run, Ballot(s.prop[p].my, p), s.prop[p].tally);
      }
    }
  }

  lemma VotedGrows(msgs: set<Msg>, msgs': set<Msg>)
    requires msgs <= msgs'
    ensures forall a, b, v :: Voted(msgs, a, b, v) ==> Voted(msgs', a, b, v)
  {
  }

  lemma DecideGrows(nodes: seq<Node>, msgs: set<Msg>, msgs': set<Msg>, phases: map<nat, Phase>, v: Value, to: Node)
    requires msgs <= msgs' && DecideOk(nodes, msgs, phases, v, to)
    ensures DecideOk(nodes, msgs', phases, v, to)
  {
    ChosenGrows(nodes, msgs, msgs', phases, phases);
    var r :| Won(nodes, msgs, phases, r) && phases[r].v == v && AcceptOk(r, phases[r].b, v, to) in msgs;
    assert Won(nodes, msgs', phases, r);
  }

  /** A message that is neither a promise nor a vote disturbs nothing else. */
  lemma QuietSend(c: Config, s: State, m: Msg)
    requires Inv(c, s) && Quiet(m) && MsgOk(c, s.msgs, s.phases, m)
    ensures Inv(c, Send(s, m))
  {
    hide Won, Chosen, Voted, PromisedAbove, Safe, A.Durable, TallyOk, DecideOk, PhaseOk, PropOk, Promised;
    var msgs' := s.msgs + {m};
    PhasesGrow(c, s, m);
    PropsGrow(c, s, m);
    ChosenGrows(c.nodes, s.msgs, msgs', s.phases, s.phases);
    VotedGrows(s.msgs, msgs');
    forall k | k in msgs'
      ensures MsgOk(c, msgs', s.phases, k)
    {
      assert MsgOk(c, s.msgs, s.phases, k);
      if k.DecideReq? { DecideGrows(c.nodes, s.msgs, msgs', s.phases, k.v, k.to); }
    }
    forall x | x in s.acc
      ensures AccOk(c, msgs', s.phases, s.acc[x], x)
    {
      assert AccOk(c, s.msgs, s.phases, s.acc[x], x);
    }
  }

  // ------------------------------------------------------------ acceptor steps

  /** What the invariant says about the acceptor that handles a request. */
  lemma AcceptorFacts(c: Config, s: State, x: Node)
    requires Inv(c, s) && x in s.acc
    ensures AccOk(c, s.msgs, s.phases, s.acc[x], x)
  {
  }

  lemma PromiseAcc(c: Config, s: State, run: nat, b: Ballot, to: Node)
    requires AccsOk(c, s) && to in s.acc && s.acc[to].decided < c.instance
    requires Above(b, s.acc[to].promised) && b.n > 0 && IsWord(b.node)
    ensures AccsOk(c, OnPrepare(c, s, run, b, to))
  {
    hide Won, Chosen, Voted, A.Durable;
    var t := s.acc[to];
    var t' := A.Prepare(t, c.instance, b).0;
    var m := Promise(run, b, to, t.accepted, t.vote);
    var msgs' := s.msgs + {m};
    assert AccOk(c, s.msgs, s.phases, t, to);
    A.PrepareDurable(t, c.instance, b);
    BallotOrder();
    ChosenGrows(c.nodes, s.msgs, msgs', s.phases, s.phases);
    VotedGrows(s.msgs, msgs');
    assert OpenOk(msgs', t', to);
    forall x | x in s.acc && x != to
      ensures AccOk(c, msgs', s.phases, s.acc[x], x)
    {
      assert AccOk(c, s.msgs, s.phases, s.acc[x], x);
    }
  }

  lemma PromiseMsgs(c: Config, s: State, run: nat, b: Ballot, to: Node)
    requires MsgsOk(c, s) && to in s.acc && OpenOk(s.msgs, s.acc[to], to) && s.acc[to].decided < c.instance
    requires Above(b, s.acc[to].promised) && b.n > 0
    ensures MsgsOk(c, OnPrepare(c, s, run, b, to))
  {
    hide Won, Chosen, Voted, DecideOk;
    var t := s.acc[to];
    var m := Promise(run, b, to, t.accepted, t.vote);
    var msgs' := s.msgs + {m};
    BallotOrder();
    ChosenGrows(c.nodes, s.msgs, msgs', s.phases, s.phases);
    VotedGrows(s.msgs, msgs');
    assert PromiseOk(msgs', m);
    forall k | k in s.msgs
      ensures MsgOk(c, msgs', s.phases, k)
    {
      assert MsgOk(c, s.msgs, s.phases, k);
      if k.DecideReq? { DecideGrows(c.nodes, s.msgs, msgs', s.phases, k.v, k.to); }
    }
  }

  lemma PrepareKeeps(c: Config, s: State, run: nat, b: Ballot, to: Node)
    requires Inv(c, s) && to in s.acc && PrepareReq(run, b, to) in s.msgs
    ensures Inv(c, OnPrepare(c, s, run, b, to))
  {
    hide OpenOk, PhasesOk, PropsOk, MsgsOk, AccsOk, Chosen, A.Durable;
    var t := s.acc[to];
    AcceptorFacts(c, s, to);
    assert b.n > 0 && IsWord(b.node) by { MsgFacts(c, s, PrepareReq(run, b, to)); }
    if t.decided >= c.instance {
      assert s.acc[to := t] == s.acc;
      QuietSend(c, s, Old(run, A.ValueAt(t.values, c.instance)));
    } else if Above(b, t.promised) {
      var m := Promise(run, b, to, t.accepted, t.vote);
      PromiseAcc(c, s, run, b, to);
      PromiseMsgs(c, s, run, b, to);
      PhasesGrow(c, s, m);
      PropsGrow(c, s, m);
      PhasesIgnoreAcc(c, Send(s, m), OnPrepare(c, s, run, b, to));
    } else {
      assert s.acc[to := t] == s.acc;
    }
  }

  lemma MsgFacts(c: Config, s: State, m: Msg)
    requires Inv(c, s) && m in s.msgs
    ensures MsgOk(c, s.msgs, s.phases, m)
  {
  }

  lemma PhasesIgnoreAcc(c: Config, s: State, s': State)
    requires PhasesOk(c, s) && PropsOk(c, s) && s' == s.(acc := s'.acc)
    ensures PhasesOk(c, s') && PropsOk(c, s')
  {
    hide PhaseOk, PropOk;
  }

  /** An undecided acceptor that accepts does so at the very ballot it promised. */
  lemma AcceptFacts(c: Config, s: State, run: nat, b: Ballot, v: Value, to: Node)
    requires Inv(c, s) && to in s.acc && AcceptReq(run, b, v, to) in s.msgs
    requires s.acc[to].decided < c.instance && AtLeast(b, s.acc[to].promised)
    ensures s.acc[to].promised == b && b.n > 0 && IsWord(b.node) && v != "" && IsLine(v)
    ensures OpenOk(s.msgs, s.acc[to], to)
    ensures !PromisedAbove(s.msgs, to, b)
  {
    hide Safe, PropOk, Voted, Won, Chosen, A.Durable;
    AcceptorFacts(c, s, to);
    MsgFacts(c, s, AcceptReq(run, b, v, to));
    assert PhaseOk(c, s.msgs, s.runs, run, s.phases[run]);
    assert Promised(s.msgs, run, b, to);
    var na, va :| Promise(run, b, to, na, va) in s.msgs;
    var k := Promise(run, b, to, na, va);
    assert k in s.msgs && k.from == to && AtLeast(s.acc[to].promised, k.b);
    BallotOrder();
  }

  lemma AcceptAcc(c: Config, s: State, run: nat, b: Ballot, v: Value, to: Node)
    requires AccsOk(c, s) && to in s.acc && s.acc[to].decided < c.instance && OpenOk(s.msgs, s.acc[to], to)
    requires s.acc[to].promised == b && b.n > 0 && IsWord(b.node) && v != "" && IsLine(v)
    ensures AccsOk(c, OnAccept(s, run, b, v, to))
  {
    hide Won, Chosen, Voted, A.Durable;
    var t := s.acc[to];
    var m := AcceptOk(run, b, v, to);
    var msgs' := s.msgs + {m};
    BallotOrder();
    var t' := A.Accept(t, b, v).0;
    assert AccOk(c, s.msgs, s.phases, t, to);
    A.AcceptDurable(t, b, v);
    ChosenGrows(c.nodes, s.msgs, msgs', s.phases, s.phases);
    VotedGrows(s.msgs, msgs');
    assert Voted(msgs', to, b, v) by { VoteCast(msgs', run, b, v, to); }
    assert OpenOk(msgs', t', to);
    forall x | x in s.acc && x != to
      ensures AccOk(c, msgs', s.phases, s.acc[x], x)
    {
      assert AccOk(c, s.msgs, s.phases, s.acc[x], x);
    }
  }

  lemma VoteCast(msgs: set<Msg>, run: nat, b: Ballot, v: Value, a: Node)
    requires AcceptOk(run, b, v, a) in msgs
    ensures Voted(msgs, a, b, v)
  {
  }

  lemma AcceptMsgs(c: Config, s: State, run: nat, b: Ballot, v: Value, to: Node)
    requires MsgsOk(c, s) && AcceptReq(run, b, v, to) in s.msgs && !PromisedAbove(s.msgs, to, b)
    ensures MsgsOk(c, Send(s, AcceptOk(run, b, v, to)))
  {
    hide Won, Chosen, Voted, DecideOk;
    var m := AcceptOk(run, b, v, to);
    var msgs' := s.msgs + {m};
    ChosenGrows(c.nodes, s.msgs, msgs', s.phases, s.phases);
    VotedGrows(s.msgs, msgs');
    forall k | k in s.msgs
      ensures MsgOk(c, msgs', s.phases, k)
    {
      assert MsgOk(c, s.msgs, s.phases, k);
      if k.DecideReq? { DecideGrows(c.nodes, s.msgs, msgs', s.phases, k.v, k.to); }
    }
  }

  lemma AcceptKeeps(c: Config, s: State, run: nat, b: Ballot, v: Value, to: Node)
    requires Inv(c, s) && to in s.acc && AcceptReq(run, b, v, to) in s.msgs && s.acc[to].decided < c.instance
    ensures Inv(c, OnAccept(s, run, b, v, to))
  {
    hide OpenOk, PhasesOk, PropsOk, MsgsOk, AccsOk, PromisedAbove;
    if AtLeast(b, s.acc[to].promised) {
      var m := AcceptOk(run, b, v, to);
      AcceptFacts(c, s, run, b, v, to);
      AcceptAcc(c, s, run, b, v, to);
      AcceptMsgs(c, s, run, b, v, to);
      MsgsIgnoreAcc(c, Send(s, m), OnAccept(s, run, b, v, to));
      PhasesGrow(c, s, m);
      PropsGrow(c, s, m);
      PhasesIgnoreAcc(c, Send(s, m), OnAccept(s, run, b, v, to));
    }
  }

  lemma MsgsIgnoreAcc(c: Config, s: State, s': State)
    requires MsgsOk(c, s) && s' == s.(acc := s'.acc)
    ensures MsgsOk(c, s')
  {
    hide MsgOk;
  }

  /** Committing a chosen value. */
  lemma CommitKeeps(c: Config, s: State, x: Node, v: Value)
    requires Inv(c, s) && x in s.acc && Chosen(c.nodes, s.msgs, s.phases, v) && IsLine(v)
    ensures Inv(c, s.(acc := s.acc[x := A.Commit(s.acc[x], c.instance, v)]))
  {
    hide MsgsOk, PhasesOk, PropsOk, Chosen, OpenOk, A.Durable, A.Line;
    AcceptorFacts(c, s, x);
    A.CommitDurable(s.acc[x], c.instance, v);
    var s' := s.(acc := s.acc[x := A.Commit(s.acc[x], c.instance, v)]);
    MsgsIgnoreAcc(c, s, s');
    PhasesIgnoreAcc(c, s, s');
    assert AccOk(c, s.msgs, s.phases, s'.acc[x], x);
  }

  lemma ChosenIsLine(c: Config, s: State, v: Value)
    requires PhasesOk(c, s) && Chosen(c.nodes, s.msgs, s.phases, v)
    ensures IsLine(v) && v != ""
  {
    hide WonBy, Safe;
    var r :| Won(c.nodes, s.msgs, s.phases, r) && s.phases[r].v == v;
    assert PhaseOk(c, s.msgs, s.runs, r, s.phases[r]);
  }

  /** A decide request carries a chosen value, and finds exactly that value as the last vote. */
  lemma DecideFindsVote(c: Config, s: State, v: Value, to: Node)
    requires Inv(c, s) && to in s.acc && DecideReq(v, to) in s.msgs
    ensures Chosen(c.nodes, s.msgs, s.phases, v)
    ensures s.acc[to].decided < c.instance ==> s.acc[to].vote == v
  {
    hide PhasesOk, PropsOk, WonBy, A.Durable, MsgsOk, AccsOk;
    var t := s.acc[to];
    AcceptorFacts(c, s, to);
    MsgFacts(c, s, DecideReq(v, to));
    var r :| Won(c.nodes, s.msgs, s.phases, r) && s.phases[r].v == v && AcceptOk(r, s.phases[r].b, v, to) in s.msgs;
    if t.decided < c.instance {
      var k := AcceptOk(r, s.phases[r].b, v, to);
      assert k in s.msgs && k.from == to;
      var r' :| AcceptOk(r', t.accepted, t.vote, to) in s.msgs;
      MsgFacts(c, s, AcceptOk(r', t.accepted, t.vote, to));
      MsgFacts(c, s, AcceptReq(r', t.accepted, t.vote, to));
      LaterPhasesAgree(c, s, r, r');
    }
  }

  lemma DecideKeeps(c: Config, s: State, v: Value, to: Node)
    requires Inv(c, s) && to in s.acc && DecideReq(v, to) in s.msgs
    ensures Inv(c, OnDecide(c, s, v, to)) && !A.Decide(s.acc[to], c.instance, v).Aborted?
  {
    hide PhasesOk, PropsOk, MsgsOk, Chosen, OpenOk, A.Durable;
    AcceptorFacts(c, s, to);
    DecideFindsVote(c, s, v, to);
    ChosenIsLine(c, s, v);
    CommitKeeps(c, s, to, v);
  }

  lemma CrashAcc(c: Config, msgs: set<Msg>, phases: map<nat, Phase>, t: A.Acceptor, t': A.Acceptor, x: Node)
    requires AccOk(c, msgs, phases, t, x) && A.Similar(t, t') && A.Durable(t')
    requires forall m :: m in msgs && m.Promise? ==> m.b.n > 0
    ensures AccOk(c, msgs, phases, t', x)
  {
    hide Chosen, Voted, A.Durable;
  }

  lemma CrashKeeps(c: Config, s: State, x: Node)
    requires Inv(c, s) && x in s.acc
    ensures Inv(c, s.(acc := s.acc[x := A.Step(s.acc[x], A.Crash)]))
  {
    hide PhasesOk, PropsOk, Chosen, OpenOk, A.Durable, A.Step, DecideOk, Voted;
    AcceptorFacts(c, s, x);
    var t := s.acc[x];
    A.CrashStep(t);
    A.StepDurable(t, A.Crash);
    forall m | m in s.msgs && m.Promise?
      ensures m.b.n > 0
    {
      assert MsgOk(c, s.msgs, s.phases, m);
    }
    CrashAcc(c, s.msgs, s.phases, t, A.Step(t, A.Crash), x);
    var s' := s.(acc := s.acc[x := A.Step(t, A.Crash)]);
    MsgsIgnoreAcc(c, s, s');
    PhasesIgnoreAcc(c, s, s');
  }

  // ------------------------------------------------------------ proposer steps

  lemma SetPropKeeps(c: Config, s: State, p: Node, q: Proposer)
    requires Inv(c, s) && p in s.prop && PropOk(c, s.msgs, s.phases, s.runs, p, q)
    requires q.Preparing? ==> s.prop[p].Preparing? && q.run == s.prop[p].run
    ensures Inv(c, SetProp(s, p, q))
  {
    hide AccOk, MsgOk, PhaseOk, PropOk;
  }

  lemma StartKeeps(c: Config, s: State, p: Node, newv: Value, my: nat)
    requires Inv(c, s) && p in s.prop && newv != "" && IsLine(newv) && my > 0
    ensures Inv(c, SetProp(s, p, Preparing(my, s.runs, newv, 0, NoTally())).(runs := s.runs + 1))
  {
    hide AccOk, MsgOk, Safe, Won, Promised;
    var q := Preparing(my, s.runs, newv, 0, NoTally());
    var s' := SetProp(s, p, q).(runs := s.runs + 1);
    forall r | r in s.phases
      ensures r < s.runs
    {
      assert PhaseOk(c, s.msgs, s.runs, r, s.phases[r]);
    }
    assert PropOk(c, s'.msgs, s'.phases, s'.runs, p, q);
    forall x | x in s.prop && x != p
      ensures PropOk(c, s'.msgs, s'.phases, s'.runs, x, s'.prop[x])
      ensures s'.prop[x].Preparing? ==> s'.prop[x].run < s.runs
    {
      assert PropOk(c, s.msgs, s.phases, s.runs, x, s.prop[x]);
    }
    forall r | r in s.phases
      ensures PhaseOk(c, s'.msgs, s'.runs, r, s.phases[r])
    {
      assert PhaseOk(c, s.msgs, s.runs, r, s.phases[r]);
    }
  }

  lemma CountKeeps(msgs: set<Msg>, run: nat, b: Ballot, t: Tally, x: Node, na: Ballot, va: Value)
    requires TallyOk(msgs, run, b, t) && Promise(run, b, x, na, va) in msgs
    ensures TallyOk(msgs, run, b, Count(t, x, na, va))
  {
    var t' := Count(t, x, na, va);
    BallotOrder();
    assert Counted(msgs, run, b, x, t'.high);
    forall y | y in t.accepts
      ensures Counted(msgs, run, b, y, t'.high)
    {
      assert Counted(msgs, run, b, y, t.high);
    }
  }

  /** What a vote below b by a node that promised b implies. */
  lemma VoteBelowPromise(c: Config, s: State, run: nat, b: Ballot, x: Node, high: Ballot, b0: Ballot, v0: Value)
    requires MsgsOk(c, s) && Counted(s.msgs, run, b, x, high) && Voted(s.msgs, x, b0, v0) && Above(b, b0)
    ensures high.n > 0 && AtLeast(high, b0)
  {
    hide DecideOk, Chosen;
    var na, va :| Promise(run, b, x, na, va) in s.msgs && AtLeast(high, na);
    var m := Promise(run, b, x, na, va);
    assert MsgOk(c, s.msgs, s.phases, m);
    var r :| AcceptOk(r, b0, v0, x) in s.msgs;
    var k := AcceptOk(r, b0, v0, x);
    assert k in s.msgs && k.from == m.from && Above(m.b, k.b);
    AboveTransitive(high, na, b0);
  }

  lemma CountedPromisedAbove(msgs: set<Msg>, run: nat, b: Ballot, x: Node, high: Ballot, b0: Ballot)
    requires Counted(msgs, run, b, x, high) && Above(b, b0)
    ensures PromisedAbove(msgs, x, b0) && Promised(msgs, run, b, x)
  {
    var na, va :| Promise(run, b, x, na, va) in msgs && AtLeast(high, na);
    var m := Promise(run, b, x, na, va);
    assert m in msgs && m.from == x;
  }

  /** The phase behind a vote. */
  lemma VoteHasPhase(c: Config, s: State, x: Node, b: Ballot, v: Value) returns (r: nat)
    requires MsgsOk(c, s) && Voted(s.msgs, x, b, v)
    ensures r in s.phases && s.phases[r].b == b && s.phases[r].v == v
  {
    hide DecideOk, Chosen, PromiseOk;
    r :| AcceptOk(r, b, v, x) in s.msgs;
    assert MsgOk(c, s.msgs, s.phases, AcceptOk(r, b, v, x));
    assert MsgOk(c, s.msgs, s.phases, AcceptReq(r, b, v, x));
  }

  /** Unless the promises report a vote at b0 or above, their majority blocks b0. */
  lemma PromisesBlock(c: Config, s: State, run: nat, b: Ballot, t: Tally, b0: Ballot, v0: Value)
    requires MsgsOk(c, s) && TallyOk(s.msgs, run, b, t) && IsMajority(c.nodes, t.accepts) && Above(b, b0)
    requires t.high.n > 0 && AtLeast(t.high, b0) ==> forall x :: x in t.accepts ==> !Voted(s.msgs, x, b0, v0)
    ensures Blocked(c.nodes, s.msgs, b0, v0)
  {
    hide MsgsOk, Counted, Voted, PromisedAbove;
    forall x | x in t.accepts
      ensures PromisedAbove(s.msgs, x, b0) && !Voted(s.msgs, x, b0, v0)
    {
      CountedPromisedAbove(s.msgs, run, b, x, t.high, b0);
      if Voted(s.msgs, x, b0, v0) { VoteBelowPromise(c, s, run, b, x, t.high, b0, v0); }
    }
    assert BlockedBy(c.nodes, s.msgs, b0, v0, t.accepts);
  }

  lemma HighVote(c: Config, s: State, run: nat, b: Ballot, t: Tally) returns (r: nat)
    requires MsgsOk(c, s) && TallyOk(s.msgs, run, b, t) && t.high.n > 0
    ensures t.v != "" && r in s.phases && s.phases[r].b == t.high && s.phases[r].v == t.v
  {
    hide DecideOk, Chosen, Counted, Voted;
    var x :| Promise(run, b, x, t.high, t.v) in s.msgs;
    assert MsgOk(c, s.msgs, s.phases, Promise(run, b, x, t.high, t.v));
    r := VoteHasPhase(c, s, x, t.high, t.v);
  }

  lemma NoHighVote(c: Config, s: State, run: nat, b: Ballot, t: Tally)
    requires MsgsOk(c, s) && TallyOk(s.msgs, run, b, t) && t.high.n == 0
    ensures t.v == ""
  {
    hide DecideOk, Chosen, Counted, Voted;
    if x :| Promise(run, b, x, t.high, t.v) in s.msgs {
      assert MsgOk(c, s.msgs, s.phases, Promise(run, b, x, t.high, t.v));
    }
  }

  /** The value a proposer picks after a majority promised cannot be beaten below its ballot. */
  lemma PickIsSafe(c: Config, s: State, run: nat, b: Ballot, t: Tally, newv: Value)
    requires MsgsOk(c, s) && PhasesOk(c, s) && TallyOk(s.msgs, run, b, t) && IsMajority(c.nodes, t.accepts)
    ensures Safe(c.nodes, s.msgs, b, if t.v == "" then newv else t.v)
  {
    hide MsgsOk, TallyOk, Blocked, Voted;
    var v := if t.v == "" then newv else t.v;
    forall b0, v0 | Above(b, b0) && b0.n > 0 && v0 != v
      ensures Blocked(c.nodes, s.msgs, b0, v0)
    {
      AtLeastIs(t.high, b0);
      if t.high.n > 0 && AtLeast(t.high, b0) {
        var r := HighVote(c, s, run, b, t);
        assert PhaseOk(c, s.msgs, s.runs, r, s.phases[r]);
        if t.high == b0 {
          forall x | x in t.accepts
            ensures !Voted(s.msgs, x, b0, v0)
          {
            if Voted(s.msgs, x, b0, v0) {
              var r' := VoteHasPhase(c, s, x, b0, v0);
              BallotsDoNotRepeat(c, s, r, r');
            }
          }
          PromisesBlock(c, s, run, b, t, b0, v0);
        }
      } else {
        PromisesBlock(c, s, run, b, t, b0, v0);
      }
    }
  }

  /** Recording a new phase disturbs no other part of the invariant. */
  lemma NewPhaseKeeps(c: Config, s: State, p: Node, ph: Phase)
    requires Inv(c, s) && p in s.prop && s.prop[p].Preparing?
    requires PhaseOk(c, s.msgs, s.runs, s.prop[p].run, ph) && ph.b == Ballot(s.prop[p].my, p)
    ensures Inv(c, SetProp(s, p, Accepting(s.prop[p].my, s.prop[p].run, ph.v, ph.quorum, 0, []))
                     .(phases := s.phases[s.prop[p].run := ph]))
  {
    hide Safe, Won, Chosen, OpenOk, PromiseOk, TallyOk, A.Durable, PhaseOk, DecideOk;
    var run := s.prop[p].run;
    var phases' := s.phases[run := ph];
    assert PropOk(c, s.msgs, s.phases, s.runs, p, s.prop[p]);
    ChosenGrows(c.nodes, s.msgs, s.msgs, s.phases, phases');
    forall m | m in s.msgs
      ensures MsgOk(c, s.msgs, phases', m)
    {
      assert MsgOk(c, s.msgs, s.phases, m);
      if m.DecideReq? { DecideGrowsPhases(c.nodes, s.msgs, s.phases, phases', m.v, m.to); }
    }
    forall x | x in s.acc
      ensures AccOk(c, s.msgs, phases', s.acc[x], x)
    {
      assert AccOk(c, s.msgs, s.phases, s.acc[x], x);
    }
    forall x | x in s.prop && x != p
      ensures PropOk(c, s.msgs, phases', s.runs, x, s.prop[x])
    {
      assert PropOk(c, s.msgs, s.phases, s.runs, x, s.prop[x]);
      if s.prop[x].Deciding? { WonIsPhase(c.nodes, s.msgs, s.phases, s.prop[x].run); }
    }
  }

  lemma WonIsPhase(nodes: seq<Node>, msgs: set<Msg>, phases: map<nat, Phase>, r: nat)
    requires Won(nodes, msgs, phases, r)
    ensures r in phases
  {
  }

  lemma DecideGrowsPhases(nodes: seq<Node>, msgs: set<Msg>, phases: map<nat, Phase>, phases': map<nat, Phase>, v: Value, to: Node)
    requires DecideOk(nodes, msgs, phases, v, to)
    requires forall r :: r in phases ==> r in phases' && phases'[r] == phases[r]
    ensures DecideOk(nodes, msgs, phases', v, to)
  {
    ChosenGrows(nodes, msgs, msgs, phases, phases');
    var r :| Won(nodes, msgs, phases, r) && phases[r].v == v && AcceptOk(r, phases[r].b, v, to) in msgs;
    assert Won(nodes, msgs, phases', r);
  }

  lemma EndPrepareKeeps(c: Config, s: State, p: Node)
    requires Inv(c, s) && Enabled(c, s, EndPrepare(p))
    ensures Inv(c, Next(c, s, EndPrepare(p)))
  {
    hide PhasesOk, MsgsOk, AccsOk, Counted, Safe, Promised;
    var q := s.prop[p];
    assert PropOk(c, s.msgs, s.phases, s.runs, p, q);
    if IsMajority(c.nodes, q.tally.accepts) {
      var v := if q.tally.v == "" then q.newv else q.tally.v;
      var ph := Phase(BallotOf(s, p), v, q.tally.accepts);
      PickIsSafe(c, s, q.run, ph.b, q.tally, q.newv);
      assert IsLine(v) by {
        if q.tally.high.n > 0 {
          var r := HighVote(c, s, q.run, ph.b, q.tally);
          PhaseLine(c, s, r);
        } else {
          NoHighVote(c, s, q.run, ph.b, q.tally);
        }
      }
      forall x | x in ph.quorum
        ensures Promised(s.msgs, q.run, ph.b, x)
      {
        assert Counted(s.msgs, q.run, ph.b, x, q.tally.high);
        CountedPromisedAbove(s.msgs, q.run, ph.b, x, q.tally.high, Ballot(0, ""));
      }
      assert PhaseOk(c, s.msgs, s.runs, q.run, ph);
      NewPhaseKeeps(c, s, p, ph);
    } else {
      SetPropKeeps(c, s, p, Idle(q.my));
    }
  }

  lemma PhaseLine(c: Config, s: State, r: nat)
    requires PhasesOk(c, s) && r in s.phases
    ensures IsLine(s.phases[r].v)
  {
    hide Safe;
    assert PhaseOk(c, s.msgs, s.runs, r, s.phases[r]);
  }

  lemma EndAcceptKeeps(c: Config, s: State, p: Node)
    requires Inv(c, s) && Enabled(c, s, EndAccept(p))
    ensures Inv(c, Next(c, s, EndAccept(p)))
  {
    hide PhasesOk, MsgsOk, AccsOk;
    var q := s.prop[p];
    assert PropOk(c, s.msgs, s.phases, s.runs, p, q);
    if IsMajority(c.nodes, q.accepts) {
      assert WonBy(c.nodes, s.msgs, q.run, s.phases[q.run], q.accepts);
      SetPropKeeps(c, s, p, Deciding(q.my, q.run, q.v, q.accepts, 0));
    } else {
      SetPropKeeps(c, s, p, Idle(q.my));
    }
  }

  lemma GetOldKeeps(c: Config, s: State, p: Node, v: Value)
    requires Inv(c, s) && Enabled(c, s, GetOld(p, v))
    ensures Inv(c, Next(c, s, GetOld(p, v)))
  {
    hide Inv, Chosen;
    MsgFacts(c, s, Old(s.prop[p].run, v));
    InvPhases(c, s);
    ChosenIsLine(c, s, v);
    CommitKeeps(c, s, p, v);
    SetPropKeeps(c, s.(acc := s.acc[p := A.Commit(s.acc[p], c.instance, v)]), p, Idle(s.prop[p].my));
  }

  lemma InvPhases(c: Config, s: State)
    requires Inv(c, s)
    ensures PhasesOk(c, s) && MsgsOk(c, s)
  {
  }

  /** Steps that only move one proposer along. */
  lemma ProposerKeeps(c: Config, s: State, a: Action)
    requires Inv(c, s) && Enabled(c, s, a)
    requires a.GetPromise? || a.GetAcceptOk? || a.NoReply? || a.EndDecide?
    ensures Inv(c, Next(c, s, a))
  {
    hide PhasesOk, MsgsOk, AccsOk, TallyOk, Won;
    assert PropOk(c, s.msgs, s.phases, s.runs, a.p, s.prop[a.p]);
    var q := Next(c, s, a).prop[a.p];
    if a.GetPromise? {
      CountKeeps(s.msgs, s.prop[a.p].run, BallotOf(s, a.p), s.prop[a.p].tally, c.nodes[s.prop[a.p].i], a.na, a.va);
    }
    assert PropOk(c, s.msgs, s.phases, s.runs, a.p, q);
    SetPropKeeps(c, s, a.p, q);
  }

  lemma SendKeeps(c: Config, s: State, a: Action)
    requires Inv(c, s) && Enabled(c, s, a) && (a.SendPrepare? || a.SendAccept? || a.SendDecide?)
    ensures Inv(c, Next(c, s, a))
  {
    hide PhasesOk, MsgsOk, AccsOk, TallyOk, Won;
    var q := s.prop[a.p];
    assert PropOk(c, s.msgs, s.phases, s.runs, a.p, q);
    match a
    case SendPrepare(p) => QuietSend(c, s, PrepareReq(q.run, BallotOf(s, p), c.nodes[q.i]));
    case SendAccept(p) => QuietSend(c, s, AcceptReq(q.run, BallotOf(s, p), q.v, q.targets[q.i]));
    case SendDecide(p) => QuietSend(c, s, DecideReq(q.v, q.targets[q.i]));
  }

  /** Every step of a run without late accepts and empty proposals keeps the invariant. */
  lemma StepKeeps(c: Config, s: State, a: Action)
    requires Inv(c, s) && Enabled(c, s, a) && !c.late && !c.empty
    ensures Inv(c, Next(c, s, a))
  {
    hide AccsOk, MsgsOk, PhasesOk, PropsOk, RunsDistinct;
    match a
    case Start(p, newv) => StartKeeps(c, s, p, newv, SetN(s.acc[p].promised.n, s.prop[p].my));
    case DeliverPrepare(run, b, to) => PrepareKeeps(c, s, run, b, to);
    case GetOld(p, v) => GetOldKeeps(c, s, p, v);
    case EndPrepare(p) => EndPrepareKeeps(c, s, p);
    case DeliverAccept(run, b, v, to) => AcceptKeeps(c, s, run, b, v, to);
    case EndAccept(p) => EndAcceptKeeps(c, s, p);
    case DeliverDecide(v, to) => DecideKeeps(c, s, v, to);
    case Crash(p) =>
      CrashKeeps(c, s, p);
      SetPropKeeps(c, s.(acc := s.acc[p := A.Step(s.acc[p], A.Crash)]), p, Idle(0));
    case SendPrepare(_) => SendKeeps(c, s, a);
    case SendAccept(_) => SendKeeps(c, s, a);
    case SendDecide(_) => SendKeeps(c, s, a);
    case _ => ProposerKeeps(c, s, a);
  }

  lemma InitInv(c: Config, s: State)
    requires Init(c, s)
    ensures Inv(c, s)
  {
    hide A.Durable;
  }

  /** The invariant holds all along every run. */
  lemma {:induction false} RunKeeps(c: Config, ss: seq<State>, acts: seq<Action>, k: nat)
    requires IsRun(c, ss, acts) && Inv(c, ss[0]) && k <= |acts| && !c.late && !c.empty
    ensures Inv(c, ss[k])
  {
    hide Inv, Next, Enabled;
    if k > 0 {
      RunKeeps(c, ss, acts, k - 1);
      assert Takes(c, ss[k - 1], acts[k - 1], ss[k]);
      StepKeeps(c, ss[k - 1], acts[k - 1]);
    }
  }
}
