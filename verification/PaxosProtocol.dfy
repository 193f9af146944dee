/**
  One Paxos instance over a fixed view, as steps of proposers and acceptors that
  exchange messages through a network that loses, delays, reorders and repeats them.
  Every node may crash at any step and restarts from its log file.
 */
module PaxosProtocol {
  import opened Text
  import opened Ballots
  import A = Acceptors
  import opened Proposers

  /**
    A request or a reply. `run` tells the calls of one proposer run from those of another,
    as RPC transaction ids do; two runs may use the same ballot.
   */
  datatype Msg =
    | PrepareReq(run: nat, b: Ballot, to: Node)
    | Promise(run: nat, b: Ballot, from: Node, na: Ballot, va: Value)
    | Old(run: nat, v: Value)
    | AcceptReq(run: nat, b: Ballot, v: Value, to: Node)
    | AcceptOk(run: nat, b: Ballot, v: Value, from: Node)
    | DecideReq(v: Value, to: Node)

  /** Where a node's proposer stands in `run`; `my` is the counter of its last ballot. */
  datatype Proposer =
    | Idle(my: nat)
    | Preparing(my: nat, run: nat, newv: Value, i: nat, tally: Tally)
    | Accepting(my: nat, run: nat, v: Value, targets: seq<Node>, i: nat, accepts: seq<Node>)
    | Deciding(my: nat, run: nat, v: Value, targets: seq<Node>, i: nat)

  /** History: the accept phase a run entered, with the nodes that promised. */
  datatype Phase = Phase(b: Ballot, v: Value, quorum: seq<Node>)

  datatype State = State(
    acc: map<Node, A.Acceptor>, prop: map<Node, Proposer>,
    msgs: set<Msg>, phases: map<nat, Phase>, runs: nat)

  /**
    Only members of the view propose.
    `late`: an accept request may reach an acceptor that already committed the instance.
    `empty`: a proposer may be given the empty value.
   */
  datatype Config = Config(nodes: seq<Node>, instance: nat, late: bool, empty: bool)

  datatype Action =
    | Start(p: Node, newv: Value)
    | SendPrepare(p: Node)
    | DeliverPrepare(run: nat, b: Ballot, to: Node)
    | GetPromise(p: Node, na: Ballot, va: Value)
    | GetOld(p: Node, v: Value)
    | EndPrepare(p: Node)
    | SendAccept(p: Node)
    | DeliverAccept(run: nat, b: Ballot, v: Value, to: Node)
    | GetAcceptOk(p: Node)
    | EndAccept(p: Node)
    | SendDecide(p: Node)
    | DeliverDecide(v: Value, to: Node)
    | NoReply(p: Node)
    | EndDecide(p: Node)
    | Crash(p: Node)

  function BallotOf(s: State, p: Node): Ballot
    requires p in s.prop
  {
    Ballot(s.prop[p].my, p)
  }

  ghost predicate Enabled(c: Config, s: State, a: Action) {
    match a
    case Start(p, newv) =>
      && p in c.nodes && p in s.prop && p in s.acc && s.prop[p].Idle?
      && IsLine(newv) && (c.empty || newv != "")
    case SendPrepare(p) => p in s.prop && s.prop[p].Preparing? && s.prop[p].i < |c.nodes|
    case DeliverPrepare(run, b, to) => to in s.acc && PrepareReq(run, b, to) in s.msgs
    case GetPromise(p, na, va) =>
      && p in s.prop && s.prop[p].Preparing? && s.prop[p].i < |c.nodes|
      && Promise(s.prop[p].run, BallotOf(s, p), c.nodes[s.prop[p].i], na, va) in s.msgs
    case GetOld(p, v) =>
      && p in s.prop && p in s.acc && s.prop[p].Preparing? && s.prop[p].i < |c.nodes|
      && Old(s.prop[p].run, v) in s.msgs
    case EndPrepare(p) => p in s.prop && s.prop[p].Preparing? && s.prop[p].i == |c.nodes|
    case SendAccept(p) => p in s.prop && s.prop[p].Accepting? && s.prop[p].i < |s.prop[p].targets|
    case DeliverAccept(run, b, v, to) =>
      && to in s.acc && AcceptReq(run, b, v, to) in s.msgs
      && (c.late || s.acc[to].decided < c.instance)
    case GetAcceptOk(p) =>
      && p in s.prop && s.prop[p].Accepting? && s.prop[p].i < |s.prop[p].targets|
      && AcceptOk(s.prop[p].run, BallotOf(s, p), s.prop[p].v, s.prop[p].targets[s.prop[p].i]) in s.msgs
    case EndAccept(p) => p in s.prop && s.prop[p].Accepting? && s.prop[p].i == |s.prop[p].targets|
    case SendDecide(p) => p in s.prop && s.prop[p].Deciding? && s.prop[p].i < |s.prop[p].targets|
    case DeliverDecide(v, to) => to in s.acc && DecideReq(v, to) in s.msgs
    case NoReply(p) =>
      && p in s.prop
      && ((s.prop[p].Preparing? && s.prop[p].i < |c.nodes|)
          || (s.prop[p].Accepting? && s.prop[p].i < |s.prop[p].targets|)
          || (s.prop[p].Deciding? && s.prop[p].i < |s.prop[p].targets|))
    case EndDecide(p) => p in s.prop && s.prop[p].Deciding? && s.prop[p].i == |s.prop[p].targets|
    case Crash(p) => p in s.prop && p in s.acc
  }

  function Send(s: State, m: Msg): State {
    s.(msgs := s.msgs + {m})
  }

  function SetProp(s: State, p: Node, x: Proposer): State {
    s.(prop := s.prop[p := x])
  }

  function OnPrepare(c: Config, s: State, run: nat, b: Ballot, to: Node): State
    requires to in s.acc
  {
    var (t, reply) := A.Prepare(s.acc[to], c.instance, b);
    var s1 := s.(acc := s.acc[to := t]);
    match reply
    case OldInstance(v) => Send(s1, Old(run, v))
    case Promised(na, va) => Send(s1, Promise(run, b, to, na, va))
    case Refused => s1
  }

  function OnAccept(s: State, run: nat, b: Ballot, v: Value, to: Node): State
    requires to in s.acc
  {
    var (t, ok) := A.Accept(s.acc[to], b, v);
    if ok then Send(s.(acc := s.acc[to := t]), AcceptOk(run, b, v, to)) else s
  }

  /** A failed VERIFY kills the process; `DecideNeverAborts` shows that it does not happen. */
  function OnDecide(c: Config, s: State, v: Value, to: Node): State
    requires to in s.acc
  {
    match A.Decide(s.acc[to], c.instance, v)
    case Committed(t) => s.(acc := s.acc[to := t])
    case _ => s
  }

  ghost function Next(c: Config, s: State, a: Action): State
    requires Enabled(c, s, a)
  {
    match a
    case Start(p, newv) =>
      SetProp(s, p, Preparing(SetN(s.acc[p].promised.n, s.prop[p].my), s.runs, newv, 0, NoTally()))
        .(runs := s.runs + 1)
    case SendPrepare(p) => Send(s, PrepareReq(s.prop[p].run, BallotOf(s, p), c.nodes[s.prop[p].i]))
    case DeliverPrepare(run, b, to) => OnPrepare(c, s, run, b, to)
    case GetPromise(p, na, va) =>
      var x := s.prop[p];
      SetProp(s, p, x.(i := x.i + 1, tally := Count(x.tally, c.nodes[x.i], na, va)))
    case GetOld(p, v) =>
      SetProp(s.(acc := s.acc[p := A.Commit(s.acc[p], c.instance, v)]), p, Idle(s.prop[p].my))
    case EndPrepare(p) =>
      var x := s.prop[p];
      if IsMajority(c.nodes, x.tally.accepts) then
        var v := if x.tally.v == "" then x.newv else x.tally.v;
        SetProp(s, p, Accepting(x.my, x.run, v, x.tally.accepts, 0, []))
          .(phases := s.phases[x.run := Phase(BallotOf(s, p), v, x.tally.accepts)])
      else SetProp(s, p, Idle(x.my))
    case SendAccept(p) =>
      var x := s.prop[p];
      Send(s, AcceptReq(x.run, BallotOf(s, p), x.v, x.targets[x.i]))
    case DeliverAccept(run, b, v, to) => OnAccept(s, run, b, v, to)
    case GetAcceptOk(p) =>
      var x := s.prop[p];
      SetProp(s, p, x.(i := x.i + 1, accepts := x.accepts + [x.targets[x.i]]))
    case EndAccept(p) =>
      var x := s.prop[p];
      SetProp(s, p, if IsMajority(c.nodes, x.accepts) then Deciding(x.my, x.run, x.v, x.accepts, 0)
                    else Idle(x.my))
    case SendDecide(p) => Send(s, DecideReq(s.prop[p].v, s.prop[p].targets[s.prop[p].i]))
    case DeliverDecide(v, to) => OnDecide(c, s, v, to)
    case NoReply(p) => SetProp(s, p, s.prop[p].(i := s.prop[p].i + 1))
    case EndDecide(p) => SetProp(s, p, Idle(s.prop[p].my))
    case Crash(p) => SetProp(s.(acc := s.acc[p := A.Step(s.acc[p], A.Crash)]), p, Idle(0))
  }

  /** Every acceptor has decided all earlier instances and none of this one. */
  ghost predicate Init(c: Config, s: State) {
    && s.acc.Keys == s.prop.Keys && c.instance > 0
    && (forall x :: x in c.nodes ==> x in s.acc)
    && (forall x :: x in s.acc ==> IsWord(x) && Undecided(c, s.acc[x], x) && s.prop[x].Idle?)
    && s.msgs == {} && s.phases == map[] && s.runs == 0
  }

  ghost predicate Undecided(c: Config, t: A.Acceptor, x: Node) {
    t.me == x && t.decided == c.instance - 1 && t.promised.n == 0 && t.accepted.n == 0 && t.vote == "" && A.Durable(t)
  }

  ghost predicate Takes(c: Config, s: State, a: Action, s': State) {
    Enabled(c, s, a) && s' == Next(c, s, a)
  }

  /** The states of a run, one more than its actions. */
  ghost predicate IsRun(c: Config, ss: seq<State>, acts: seq<Action>) {
    |ss| == |acts| + 1 && forall i {:trigger acts[i]} :: 0 <= i < |acts| ==> Takes(c, ss[i], acts[i], ss[i + 1])
  }
}
