/**
  Exactly when one Paxos instance agrees. For any instance and any view of three members there are
  runs in which two values win and two members commit different values, once with accept requests
  that arrive late and once with an empty proposal.
 */
module PaxosExactly {
  import opened Text
  import opened Ballots
  import opened Proposers
  import opened PaxosProtocol
  import opened PaxosSafety
  import opened PaxosAgreement
  import A = Acceptors

  // ------------------------------------------------------------ before the instance

  /** An acceptor that has decided k instances. */
  function Settled(x: Node, k: nat): A.Acceptor {
    if k == 0 then A.Fresh(x, "") else A.Commit(Settled(x, k - 1), k, "v")
  }

  lemma {:induction false} SettledFacts(x: Node, k: nat)
    ensures var t := Settled(x, k);
            && t.me == x && t.decided == k && t.promised == Ballot(0, x) && t.accepted == Ballot(0, x) && t.vote == ""
            && A.Durable(t)
  {
    if k == 0 {
      assert A.LoggedAs(A.Fresh(x, ""), []);
    } else {
      SettledFacts(x, k - 1);
      A.CommitDurable(Settled(x, k - 1), k, "v");
    }
  }

  /** Nodes that have decided every earlier instance and nothing of this one. */
  function Begin(c: Config): State
    requires c.instance > 0
  {
    State(map x | x in c.nodes :: Settled(x, c.instance - 1), map x | x in c.nodes :: Idle(0), {}, map[], 0)
  }

  lemma BeginReachable(c: Config)
    requires c.instance > 0 && forall x :: x in c.nodes ==> IsWord(x)
    ensures Reachable(c, Begin(c))
  {
    hide IsWord, Settled, A.Durable;
    var s := Begin(c);
    forall x | x in c.nodes
      ensures Undecided(c, s.acc[x], x)
    {
      SettledFacts(x, c.instance - 1);
    }
    assert IsRun(c, [s], []) && s == [s][0];
  }

  // ------------------------------------------------------------ exchanges with one node

  /** What a run depends on in an acceptor; log and accepted ballot are left out. */
  datatype Core = Core(me: Node, promised: Ballot, vote: Value, decided: nat, values: map<nat, Value>)

  function CoreOf(t: A.Acceptor): Core {
    Core(t.me, t.promised, t.vote, t.decided, t.values)
  }

  /** Only x's acceptor and p's proposer moved. */
  ghost predicate Touched(s: State, s': State, x: Node, k: Core, p: Node, r: Proposer) {
    && s'.acc.Keys == s.acc.Keys && x in s'.acc && CoreOf(s'.acc[x]) == k
    && (forall y :: y in s.acc && y != x ==> s'.acc[y] == s.acc[y])
    && s'.prop == s.prop[p := r] && s.msgs <= s'.msgs && s'.phases == s.phases && s'.runs == s.runs
  }

  /** Nothing but p's proposer moved. */
  ghost predicate Alone(s: State, s': State, p: Node, r: Proposer) {
    s'.acc == s.acc && s'.prop == s.prop[p := r] && s'.msgs == s.msgs && s'.phases == s.phases && s'.runs == s.runs
  }

  lemma Starts(c: Config, s: State, r: Node, newv: Value) returns (s': State)
    requires Enabled(c, s, Start(r, newv)) && Reachable(c, s)
    ensures Reachable(c, s') && r in s.acc && r in s.prop && s'.runs == s.runs + 1
    ensures s'.acc == s.acc && s'.msgs == s.msgs && s'.phases == s.phases
    ensures s'.prop == s.prop[r := Preparing(SetN(s.acc[r].promised.n, s.prop[r].my), s.runs, newv, 0, NoTally())]
  {
    hide Reachable, IsLine;
    s' := Next(c, s, Start(r, newv));
    ReachStep(c, s, Start(r, newv), s');
  }

  /** The next node, which has not voted, promises and is counted. */
  lemma GetsPromise(c: Config, s: State, p: Node, x: Node) returns (s': State)
    requires p in s.prop && s.prop[p].Preparing? && s.prop[p].i < |c.nodes| && c.nodes[s.prop[p].i] == x
    requires x in s.acc && s.acc[x].decided < c.instance && s.acc[x].vote == "" && s.prop[p].tally.v == ""
    requires Above(BallotOf(s, p), s.acc[x].promised) && Reachable(c, s)
    ensures Reachable(c, s') && p in s'.prop && s'.prop[p].Preparing?
    ensures var y, z := s.prop[p], s'.prop[p];
            && Touched(s, s', x, CoreOf(s.acc[x]).(promised := BallotOf(s, p)), p, z)
            && z == Preparing(y.my, y.run, y.newv, y.i + 1, z.tally) && z.tally.accepts == y.tally.accepts + [x] && z.tally.v == ""
  {
    hide Reachable, Above, A.Line, IsLine;
    var t, q := s.acc[x], s.prop[p];
    var s1 := Next(c, s, SendPrepare(p));
    ReachStep(c, s, SendPrepare(p), s1);
    var s2 := Next(c, s1, DeliverPrepare(q.run, BallotOf(s, p), x));
    ReachStep(c, s1, DeliverPrepare(q.run, BallotOf(s, p), x), s2);
    s' := Next(c, s2, GetPromise(p, t.accepted, t.vote));
    ReachStep(c, s2, GetPromise(p, t.accepted, t.vote), s');
  }

  /** The next node does not answer a prepare. */
  lemma NoPromise(c: Config, s: State, p: Node) returns (s': State)
    requires p in s.prop && s.prop[p].Preparing? && s.prop[p].i < |c.nodes| && Reachable(c, s)
    ensures Reachable(c, s')
    ensures var y := s.prop[p]; Alone(s, s', p, Preparing(y.my, y.run, y.newv, y.i + 1, y.tally))
  {
    hide Reachable, IsLine;
    s' := Next(c, s, NoReply(p));
    ReachStep(c, s, NoReply(p), s');
  }

  /** With a majority of promises and no vote among them, the run enters its accept phase. */
  lemma EntersAccept(c: Config, s: State, r: Node) returns (s': State)
    requires r in s.prop && s.prop[r].Preparing? && s.prop[r].i == |c.nodes| && s.prop[r].tally.v == ""
    requires IsMajority(c.nodes, s.prop[r].tally.accepts) && Reachable(c, s)
    ensures Reachable(c, s') && s'.acc == s.acc && s'.msgs == s.msgs && s'.runs == s.runs
    ensures var x := s.prop[r];
            && s'.prop == s.prop[r := Accepting(x.my, x.run, x.newv, x.tally.accepts, 0, [])]
            && s'.phases == s.phases[x.run := Phase(BallotOf(s, r), x.newv, x.tally.accepts)]
  {
    hide Reachable, IsLine, IsMajority;
    s' := Next(c, s, EndPrepare(r));
    ReachStep(c, s, EndPrepare(r), s');
  }

  /** The next target accepts and is counted; if it has decided the instance, the request is late. */
  lemma GetsAccept(c: Config, s: State, p: Node, x: Node) returns (s': State)
    requires p in s.prop && s.prop[p].Accepting? && s.prop[p].i < |s.prop[p].targets| && s.prop[p].targets[s.prop[p].i] == x
    requires x in s.acc && (c.late || s.acc[x].decided < c.instance) && AtLeast(BallotOf(s, p), s.acc[x].promised)
    requires Reachable(c, s)
    ensures Reachable(c, s') && AcceptOk(s.prop[p].run, BallotOf(s, p), s.prop[p].v, x) in s'.msgs
    ensures var y := s.prop[p];
            Touched(s, s', x, CoreOf(s.acc[x]).(vote := y.v), p, Accepting(y.my, y.run, y.v, y.targets, y.i + 1, y.accepts + [x]))
  {
    hide Reachable, AtLeast, A.Line, IsLine;
    var q := s.prop[p];
    var s1 := Next(c, s, SendAccept(p));
    ReachStep(c, s, SendAccept(p), s1);
    var s2 := Next(c, s1, DeliverAccept(q.run, BallotOf(s, p), q.v, x));
    ReachStep(c, s1, DeliverAccept(q.run, BallotOf(s, p), q.v, x), s2);
    s' := Next(c, s2, GetAcceptOk(p));
    ReachStep(c, s2, GetAcceptOk(p), s');
  }

  /** With a majority of acceptances the run decides. */
  lemma EntersDecide(c: Config, s: State, r: Node) returns (s': State)
    requires r in s.prop && s.prop[r].Accepting? && s.prop[r].i == |s.prop[r].targets|
    requires IsMajority(c.nodes, s.prop[r].accepts) && Reachable(c, s)
    ensures Reachable(c, s')
    ensures var y := s.prop[r]; Alone(s, s', r, Deciding(y.my, y.run, y.v, y.accepts, 0))
  {
    hide Reachable, IsLine, IsMajority;
    s' := Next(c, s, EndAccept(r));
    ReachStep(c, s, EndAccept(r), s');
  }

  /** The next target commits; the answer to a decide is not looked at. */
  lemma Decides(c: Config, s: State, p: Node, x: Node) returns (s': State)
    requires p in s.prop && s.prop[p].Deciding? && s.prop[p].i < |s.prop[p].targets| && s.prop[p].targets[s.prop[p].i] == x
    requires x in s.acc && s.acc[x].decided + 1 == c.instance && s.acc[x].vote == s.prop[p].v && Reachable(c, s)
    ensures Reachable(c, s')
    ensures var y, t := s.prop[p], s.acc[x];
            Touched(s, s', x, Core(t.me, Ballot(0, t.me), "", c.instance, t.values[c.instance := y.v]), p,
                    Deciding(y.my, y.run, y.v, y.targets, y.i + 1))
  {
    hide Reachable, A.Line, IsLine;
    var q := s.prop[p];
    var s1 := Next(c, s, SendDecide(p));
    ReachStep(c, s, SendDecide(p), s1);
    var s2 := Next(c, s1, DeliverDecide(q.v, x));
    ReachStep(c, s1, DeliverDecide(q.v, x), s2);
    s' := Next(c, s2, NoReply(p));
    ReachStep(c, s2, NoReply(p), s');
  }

  /** The next target is ahead and ignores the decision. */
  lemma Ignores(c: Config, s: State, p: Node, x: Node) returns (s': State)
    requires p in s.prop && s.prop[p].Deciding? && s.prop[p].i < |s.prop[p].targets| && s.prop[p].targets[s.prop[p].i] == x
    requires x in s.acc && s.acc[x].decided == c.instance && Reachable(c, s)
    ensures Reachable(c, s')
    ensures var y := s.prop[p]; Touched(s, s', x, CoreOf(s.acc[x]), p, Deciding(y.my, y.run, y.v, y.targets, y.i + 1))
  {
    hide Reachable, A.Line, IsLine, A.Commit;
    var q := s.prop[p];
    var s1 := Next(c, s, SendDecide(p));
    ReachStep(c, s, SendDecide(p), s1);
    var s2 := Next(c, s1, DeliverDecide(q.v, x));
    ReachStep(c, s1, DeliverDecide(q.v, x), s2);
    s' := Next(c, s2, NoReply(p));
    ReachStep(c, s2, NoReply(p), s');
  }

  // ------------------------------------------------------------ views of three members

  ghost predicate Distinct(p: Node, q: Node, z: Node) {
    p != q && p != z && q != z
  }

  ghost predicate Three(c: Config, p: Node, q: Node, z: Node) {
    c.nodes == [p, q, z] && Distinct(p, q, z) && IsWord(p) && IsWord(q) && IsWord(z) && c.instance > 0
  }

  /** All three have acceptors and proposers. */
  ghost predicate Present(s: State, p: Node, q: Node, z: Node) {
    {p, q, z} <= s.acc.Keys && {p, q, z} <= s.prop.Keys
  }

  lemma TwoOfThree(p: Node, q: Node, z: Node, l: seq<Node>)
    requires (p in l && q in l) || (p in l && z in l) || (q in l && z in l)
    ensures IsMajority([p, q, z], l)
  {
    assert [p, q, z][..2] == [p, q];
    assert [p, q][..1] == [p];
    assert [p][..0] == [];
    assert Hits([p], l) == Hits([], l) + if p in l then 1 else 0;
    assert Hits([p, q], l) == Hits([p], l) + if q in l then 1 else 0;
    assert Hits([p, q, z], l) == Hits([p, q], l) + if z in l then 1 else 0;
  }

  lemma WonByTwo(c: Config, s: State, p: Node, q: Node, z: Node, run: nat, l: seq<Node>)
    requires c.nodes == [p, q, z] && run in s.phases
    requires (p in l && q in l) || (p in l && z in l) || (q in l && z in l)
    requires forall x :: x in l ==> AcceptOk(run, s.phases[run].b, s.phases[run].v, x) in s.msgs
    ensures Won(c.nodes, s.msgs, s.phases, run)
  {
    hide IsMajority;
    TwoOfThree(p, q, z, l);
    assert WonBy(c.nodes, s.msgs, run, s.phases[run], l);
  }

  /** A member that has yet to decide, has promised b and has not voted. */
  ghost predicate Open(c: Config, s: State, x: Node, b: Ballot) {
    && x in s.acc && s.acc[x].me == x && s.acc[x].promised == b && s.acc[x].vote == ""
    && s.acc[x].decided + 1 == c.instance
  }

  /** A member that has committed v for the instance. */
  ghost predicate Holds(c: Config, s: State, x: Node, v: Value) {
    x in s.acc && s.acc[x].decided == c.instance && c.instance in s.acc[x].values && s.acc[x].values[c.instance] == v
  }

  lemma CanStart(c: Config, s: State, p: Node, q: Node, z: Node, r: Node, newv: Value)
    requires Three(c, p, q, z) && Present(s, p, q, z) && r in c.nodes && s.prop[r].Idle? && IsLine(newv) && (c.empty || newv != "")
    ensures Enabled(c, s, Start(r, newv))
  {
    hide IsLine, IsWord;
  }

  lemma OneLetter()
    ensures IsLine("") && IsLine("x") && IsLine("y")
  {
  }

  lemma BeginsOpen(c: Config, p: Node, q: Node, z: Node)
    requires Three(c, p, q, z)
    ensures var s := Begin(c);
            && Reachable(c, s) && Present(s, p, q, z) && s.runs == 0 && s.phases == map[]
            && Open(c, s, p, Ballot(0, p)) && Open(c, s, q, Ballot(0, q)) && Open(c, s, z, Ballot(0, z))
            && s.prop[p] == Idle(0) && s.prop[q] == Idle(0)
  {
    hide Reachable, Settled, IsWord;
    BeginReachable(c);
    SettledFacts(p, c.instance - 1);
    SettledFacts(q, c.instance - 1);
    SettledFacts(z, c.instance - 1);
  }

  /** p starts first, and all three promise. */
  lemma FirstPrepares(c: Config, p: Node, q: Node, z: Node, newv: Value) returns (s: State)
    requires Three(c, p, q, z) && IsLine(newv) && (c.empty || newv != "")
    ensures Reachable(c, s) && Present(s, p, q, z) && s.runs == 1 && s.phases == map[0 := Phase(Ballot(1, p), newv, [p, q, z])]
    ensures Open(c, s, p, Ballot(1, p)) && Open(c, s, q, Ballot(1, p)) && Open(c, s, z, Ballot(1, p))
    ensures s.prop[p] == Accepting(1, 0, newv, [p, q, z], 0, []) && s.prop[q] == Idle(0)
  {
    hide Reachable, Begin, IsWord, IsLine, Next, Enabled, IsMajority;
    BeginsOpen(c, p, q, z);
    CanStart(c, Begin(c), p, q, z, p, newv);
    var s1 := Starts(c, Begin(c), p, newv);
    var s2 := GetsPromise(c, s1, p, p);
    var s3 := GetsPromise(c, s2, p, q);
    var s4 := GetsPromise(c, s3, p, z);
    assert s4.prop[p].tally.accepts == [p, q, z];
    TwoOfThree(p, q, z, [p, q, z]);
    s := EntersAccept(c, s4, p);
  }

  /** A member that takes an accept request of ballot b. */
  ghost predicate Willing(c: Config, s: State, x: Node, b: Ballot) {
    x in s.acc && (c.late || s.acc[x].decided < c.instance) && AtLeast(b, s.acc[x].promised)
  }

  /** Only the vote of x is another. */
  ghost predicate OnlyVote(s: State, s': State, x: Node, v: Value) {
    x in s.acc && x in s'.acc && CoreOf(s'.acc[x]) == CoreOf(s.acc[x]).(vote := v)
  }

  lemma ThreeAccept(c: Config, s: State, p: Node, q: Node, z: Node, v: Value) returns (s': State)
    requires Distinct(p, q, z) && p in s.prop && s.prop[p] == Accepting(1, 0, v, [p, q, z], 0, [])
    requires Willing(c, s, p, Ballot(1, p)) && Willing(c, s, q, Ballot(1, p)) && Willing(c, s, z, Ballot(1, p)) && Reachable(c, s)
    ensures Reachable(c, s') && s'.acc.Keys == s.acc.Keys && s.msgs <= s'.msgs && s'.phases == s.phases && s'.runs == s.runs
    ensures OnlyVote(s, s', p, v) && OnlyVote(s, s', q, v) && OnlyVote(s, s', z, v)
    ensures s'.prop == s.prop[p := Accepting(1, 0, v, [p, q, z], 3, [p, q, z])]
    ensures AcceptOk(0, Ballot(1, p), v, p) in s'.msgs && AcceptOk(0, Ballot(1, p), v, q) in s'.msgs
    ensures AcceptOk(0, Ballot(1, p), v, z) in s'.msgs
  {
    hide Reachable, Next, Enabled, AtLeast;
    var s1 := GetsAccept(c, s, p, p);
    var s2 := GetsAccept(c, s1, p, q);
    s' := GetsAccept(c, s2, p, z);
    assert [] + [p] + [q] + [z] == [p, q, z];
  }

  /** All three take p's accept requests, and p goes on to decide. */
  lemma AllAccept(c: Config, s: State, p: Node, q: Node, z: Node, v: Value) returns (s': State)
    requires Three(c, p, q, z) && Present(s, p, q, z) && 0 in s.phases && s.phases[0] == Phase(Ballot(1, p), v, [p, q, z])
    requires s.prop[p] == Accepting(1, 0, v, [p, q, z], 0, []) && Reachable(c, s)
    requires Willing(c, s, p, Ballot(1, p)) && Willing(c, s, q, Ballot(1, p)) && Willing(c, s, z, Ballot(1, p))
    ensures Reachable(c, s') && Present(s', p, q, z) && s.msgs <= s'.msgs && s'.phases == s.phases && s'.runs == s.runs
    ensures OnlyVote(s, s', p, v) && OnlyVote(s, s', q, v) && OnlyVote(s, s', z, v)
    ensures s'.prop == s.prop[p := Deciding(1, 0, v, [p, q, z], 0)] && Won(c.nodes, s'.msgs, s'.phases, 0)
  {
    hide Reachable, IsWord, Next, Enabled, IsMajority, Won, AtLeast;
    var s1 := ThreeAccept(c, s, p, q, z, v);
    TwoOfThree(p, q, z, [p, q, z]);
    s' := EntersDecide(c, s1, p);
    WonByTwo(c, s', p, q, z, 0, [p, q, z]);
  }

  // ------------------------------------------------------------ late accept requests

  /** q runs with p and itself; z does not answer. */
  lemma SecondPrepares(c: Config, s: State, p: Node, q: Node, z: Node) returns (s': State)
    requires Three(c, p, q, z) && Present(s, p, q, z) && s.runs == 1 && s.prop[q] == Idle(0)
    requires Open(c, s, p, Ballot(1, p)) && Open(c, s, q, Ballot(1, p)) && Open(c, s, z, Ballot(1, p)) && Reachable(c, s)
    ensures Reachable(c, s') && Present(s', p, q, z) && s.msgs <= s'.msgs
    ensures s'.phases == s.phases[1 := Phase(Ballot(2, q), "y", [p, q])] && s'.prop[p] == s.prop[p]
    ensures Open(c, s', p, Ballot(2, q)) && Open(c, s', q, Ballot(2, q)) && Open(c, s', z, Ballot(1, p))
    ensures s'.prop[q] == Accepting(2, 1, "y", [p, q], 0, [])
  {
    hide Reachable, IsWord, IsLine, Next, Enabled, IsMajority;
    assert IsLine("y") by { OneLetter(); }
    CanStart(c, s, p, q, z, q, "y");
    var s1 := Starts(c, s, q, "y");
    var s2 := GetsPromise(c, s1, q, p);
    var s3 := GetsPromise(c, s2, q, q);
    var s4 := NoPromise(c, s3, q);
    assert s4.prop[q].tally.accepts == [p, q];
    TwoOfThree(p, q, z, [p, q]);
    s' := EntersAccept(c, s4, q);
  }

  /** Both accept and both commit. */
  lemma SecondWins(c: Config, s: State, p: Node, q: Node, z: Node) returns (s': State)
    requires Three(c, p, q, z) && Present(s, p, q, z) && 1 in s.phases && s.phases[1] == Phase(Ballot(2, q), "y", [p, q])
    requires Open(c, s, p, Ballot(2, q)) && Open(c, s, q, Ballot(2, q)) && Open(c, s, z, Ballot(1, p))
    requires s.prop[q] == Accepting(2, 1, "y", [p, q], 0, []) && Reachable(c, s)
    ensures Reachable(c, s') && Present(s', p, q, z) && s.msgs <= s'.msgs && s'.phases == s.phases && s'.prop[p] == s.prop[p]
    ensures Holds(c, s', p, "y") && Holds(c, s', q, "y") && Open(c, s', z, Ballot(1, p))
    ensures s'.acc[p].promised == Ballot(0, p) && s'.acc[q].promised == Ballot(0, q)
    ensures Won(c.nodes, s'.msgs, s'.phases, 1)
  {
    hide Reachable, IsWord, Next, Enabled, IsMajority, Won;
    AtLeastIs(Ballot(2, q), Ballot(2, q));
    var s1 := GetsAccept(c, s, q, p);
    var s2 := GetsAccept(c, s1, q, q);
    assert s2.prop[q].accepts == [p, q];
    TwoOfThree(p, q, z, [p, q]);
    var s3 := EntersDecide(c, s2, q);
    var s4 := Decides(c, s3, q, p);
    s' := Decides(c, s4, q, q);
    WonByTwo(c, s', p, q, z, 1, [p, q]);
  }

  /** p's requests arrive only now: committing has reset the promises of p and q, and z promised p. */
  lemma FirstGoesOn(c: Config, s: State, p: Node, q: Node, z: Node) returns (s': State)
    requires Three(c, p, q, z) && c.late && Present(s, p, q, z) && 0 in s.phases && s.phases[0] == Phase(Ballot(1, p), "x", [p, q, z])
    requires Holds(c, s, p, "y") && Holds(c, s, q, "y") && Open(c, s, z, Ballot(1, p))
    requires s.acc[p].promised == Ballot(0, p) && s.acc[q].promised == Ballot(0, q)
    requires s.prop[p] == Accepting(1, 0, "x", [p, q, z], 0, []) && Reachable(c, s)
    ensures Reachable(c, s') && s.msgs <= s'.msgs && s'.phases == s.phases
    ensures Holds(c, s', p, "y") && Holds(c, s', q, "y") && Holds(c, s', z, "x")
    ensures Won(c.nodes, s'.msgs, s'.phases, 0)
  {
    hide Reachable, IsWord, Next, Enabled, IsMajority, Won;
    AtLeastIs(Ballot(1, p), Ballot(1, p));
    var s4 := AllAccept(c, s, p, q, z, "x");
    var s5 := Ignores(c, s4, p, p);
    var s6 := Ignores(c, s5, p, q);
    s' := Decides(c, s6, p, z);
    ChosenGrows(c.nodes, s4.msgs, s'.msgs, s4.phases, s'.phases);
  }

  /**
    p gathers its promises and pauses; q wins with p and q, and both commit "y"; then p's accept
    requests are taken by all three, since committing reset the promises and requests are not
    compared with the instance. p has its majority too, and z commits "x".
   */
  lemma LateAcceptSplits(c: Config, p: Node, q: Node, z: Node) returns (s: State)
    requires Three(c, p, q, z) && c.late
    ensures Reachable(c, s) && !Agreed(c, s) && Holds(c, s, p, "y") && Holds(c, s, q, "y") && Holds(c, s, z, "x")
  {
    hide Reachable, Won, IsWord;
    var s1 := FirstPrepares(c, p, q, z, "x");
    var s2 := SecondPrepares(c, s1, p, q, z);
    var s3 := SecondWins(c, s2, p, q, z);
    s := FirstGoesOn(c, s3, p, q, z);
    ChosenGrows(c.nodes, s3.msgs, s.msgs, s3.phases, s.phases);
    assert s.phases[0].v == "x" && s.phases[1].v == "y";
  }

  // ------------------------------------------------------------ an empty proposal

  /** p's empty value wins, and p alone commits it. */
  lemma EmptyWins(c: Config, s: State, p: Node, q: Node, z: Node) returns (s': State)
    requires Three(c, p, q, z) && Present(s, p, q, z) && s.runs == 1 && s.prop[q] == Idle(0)
    requires s.phases == map[0 := Phase(Ballot(1, p), "", [p, q, z])] && s.prop[p] == Accepting(1, 0, "", [p, q, z], 0, [])
    requires Open(c, s, p, Ballot(1, p)) && Open(c, s, q, Ballot(1, p)) && Open(c, s, z, Ballot(1, p)) && Reachable(c, s)
    ensures Reachable(c, s') && Present(s', p, q, z) && s'.runs == 1 && s'.phases == s.phases && s'.prop[q] == Idle(0)
    ensures Holds(c, s', p, "") && Open(c, s', q, Ballot(1, p)) && Open(c, s', z, Ballot(1, p))
    ensures Won(c.nodes, s'.msgs, s'.phases, 0)
  {
    hide Reachable, IsWord, Next, Enabled, IsMajority, Won;
    AtLeastIs(Ballot(1, p), Ballot(1, p));
    var s4 := AllAccept(c, s, p, q, z, "");
    s' := Decides(c, s4, p, p);
    ChosenGrows(c.nodes, s4.msgs, s'.msgs, s4.phases, s'.phases);
  }

  /** q runs with itself and z, which report no vote; p does not answer. */
  lemma OthersPrepare(c: Config, s: State, p: Node, q: Node, z: Node) returns (s': State)
    requires Three(c, p, q, z) && Present(s, p, q, z) && s.runs == 1 && s.prop[q] == Idle(0) && Holds(c, s, p, "")
    requires Open(c, s, q, Ballot(1, p)) && Open(c, s, z, Ballot(1, p)) && Reachable(c, s)
    ensures Reachable(c, s') && Present(s', p, q, z) && s.msgs <= s'.msgs && Holds(c, s', p, "")
    ensures s'.phases == s.phases[1 := Phase(Ballot(2, q), "y", [q, z])]
    ensures Open(c, s', q, Ballot(2, q)) && Open(c, s', z, Ballot(2, q)) && s'.prop[q] == Accepting(2, 1, "y", [q, z], 0, [])
  {
    hide Reachable, IsWord, IsLine, Next, Enabled, IsMajority;
    assert IsLine("y") by { OneLetter(); }
    CanStart(c, s, p, q, z, q, "y");
    var s1 := Starts(c, s, q, "y");
    var s2 := NoPromise(c, s1, q);
    var s3 := GetsPromise(c, s2, q, q);
    var s4 := GetsPromise(c, s3, q, z);
    assert s4.prop[q].tally.accepts == [q, z];
    TwoOfThree(p, q, z, [q, z]);
    s' := EntersAccept(c, s4, q);
  }

  lemma OthersDecide(c: Config, s: State, p: Node, q: Node, z: Node) returns (s': State)
    requires Three(c, p, q, z) && Present(s, p, q, z) && 1 in s.phases && s.phases[1] == Phase(Ballot(2, q), "y", [q, z])
    requires Open(c, s, q, Ballot(2, q)) && Open(c, s, z, Ballot(2, q)) && Holds(c, s, p, "")
    requires s.prop[q] == Accepting(2, 1, "y", [q, z], 0, []) && Reachable(c, s)
    ensures Reachable(c, s') && s.msgs <= s'.msgs && s'.phases == s.phases
    ensures Holds(c, s', p, "") && Holds(c, s', q, "y") && Holds(c, s', z, "y") && Won(c.nodes, s'.msgs, s'.phases, 1)
  {
    hide Reachable, IsWord, Next, Enabled, IsMajority, Won;
    AtLeastIs(Ballot(2, q), Ballot(2, q));
    var s1 := GetsAccept(c, s, q, q);
    var s2 := GetsAccept(c, s1, q, z);
    assert s2.prop[q].accepts == [q, z];
    TwoOfThree(p, q, z, [q, z]);
    var s3 := EntersDecide(c, s2, q);
    var s4 := Decides(c, s3, q, q);
    s' := Decides(c, s4, q, z);
    WonByTwo(c, s', p, q, z, 1, [q, z]);
  }

  /**
    An empty value that won reads as "nothing accepted": p commits it, and the other two, p being
    out of reach, decide another value.
   */
  lemma EmptyProposalSplits(c: Config, p: Node, q: Node, z: Node) returns (s: State)
    requires Three(c, p, q, z) && c.empty
    ensures Reachable(c, s) && !Agreed(c, s) && Holds(c, s, p, "") && Holds(c, s, q, "y") && Holds(c, s, z, "y")
  {
    hide Reachable, Won, IsWord;
    var s1 := FirstPrepares(c, p, q, z, "");
    var s2 := EmptyWins(c, s1, p, q, z);
    var s3 := OthersPrepare(c, s2, p, q, z);
    s := OthersDecide(c, s3, p, q, z);
    ChosenGrows(c.nodes, s2.msgs, s.msgs, s2.phases, s.phases);
    assert s.phases[0].v == "" && s.phases[1].v == "y";
  }

  // ------------------------------------------------------------ exactly when

  ghost predicate InState(c: Config, s: State, instance: nat, late: bool, empty: bool) {
    c.instance == instance && c.late == late && c.empty == empty && Reachable(c, s)
  }

  /** Of all views and runs of the instance, no two winning values differ. */
  ghost predicate AlwaysAgrees(instance: nat, late: bool, empty: bool) {
    forall c: Config, s: State :: InState(c, s, instance, late, empty) ==> Agreed(c, s)
  }

  /** All members that have decided the instance hold the same value for it. */
  ghost predicate CommitsSame(c: Config, s: State) {
    forall x, y :: x in s.acc && y in s.acc && s.acc[x].decided >= c.instance && s.acc[y].decided >= c.instance
      ==> A.ValueAt(s.acc[x].values, c.instance) == A.ValueAt(s.acc[y].values, c.instance)
  }

  ghost predicate AlwaysCommitsSame(instance: nat, late: bool, empty: bool) {
    forall c: Config, s: State :: InState(c, s, instance, late, empty) ==> CommitsSame(c, s)
  }

  /** A view of any three words, and a run of it in which agreement fails both ways. */
  lemma Splits(instance: nat, late: bool, empty: bool) returns (c: Config, s: State)
    requires instance > 0 && (late || empty)
    ensures InState(c, s, instance, late, empty) && !Agreed(c, s) && !CommitsSame(c, s)
  {
    hide Reachable, Agreed;
    c := Config(["1", "2", "3"], instance, late, empty);
    assert Three(c, "1", "2", "3");
    if late {
      s := LateAcceptSplits(c, "1", "2", "3");
    } else {
      s := EmptyProposalSplits(c, "1", "2", "3");
    }
    assert A.ValueAt(s.acc["1"].values, instance) != A.ValueAt(s.acc["3"].values, instance);
  }

  /** At every instance, at most one value wins if and only if accepts are not late and proposals not empty. */
  lemma AgreementExactly(instance: nat, late: bool, empty: bool)
    requires instance > 0
    ensures AlwaysAgrees(instance, late, empty) <==> !late && !empty
  {
    hide Reachable, Agreed, CommitsSame;
    if late || empty {
      var c, s := Splits(instance, late, empty);
    } else {
      forall c: Config, s: State | InState(c, s, instance, late, empty)
        ensures Agreed(c, s)
      {
        Agreement(c, s);
      }
    }
  }

  /** At every instance, all members commit the same value if and only if the same two things hold. */
  lemma CommitsAgreeExactly(instance: nat, late: bool, empty: bool)
    requires instance > 0
    ensures AlwaysCommitsSame(instance, late, empty) <==> !late && !empty
  {
    hide Reachable, Agreed, A.ValueAt;
    if late || empty {
      var c, s := Splits(instance, late, empty);
    } else {
      forall c: Config, s: State, x, y | InState(c, s, instance, late, empty) && x in s.acc && y in s.acc
                                         && s.acc[x].decided >= instance && s.acc[y].decided >= instance
        ensures A.ValueAt(s.acc[x].values, instance) == A.ValueAt(s.acc[y].values, instance)
      {
        CommitsAgree(c, s, x, y);
      }
    }
  }
}
