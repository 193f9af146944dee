/**
  The acceptor objects of a group of nodes, moved by the protocol's messages: what the protocol
  guarantees holds of the objects.
 */
module PaxosGroup {
  import opened Text
  import opened Ballots
  import opened PaxosProtocol
  import opened PaxosSafety
  import opened PaxosAgreement
  import opened PaxosNodes
  import A = Acceptors

  lemma AcceptorsStay(c: Config, s: State, a: Action)
    requires Enabled(c, s, a) && !a.Crash? && !a.GetOld? && !a.DeliverPrepare? && !a.DeliverAccept? && !a.DeliverDecide?
    ensures Next(c, s, a).acc == s.acc
  {
    hide IsLine, IsMajority;
  }

  lemma CrashIs(c: Config, s: State, p: Node)
    requires Enabled(c, s, Crash(p))
    ensures p in s.acc && p in s.prop
    ensures Next(c, s, Crash(p)) == s.(acc := s.acc[p := A.Step(s.acc[p], A.Crash)], prop := s.prop[p := Idle(0)])
  {
    hide A.Step;
  }

  lemma StartReachable(c: Config, s: State)
    requires s.acc.Keys == s.prop.Keys && c.instance > 0 && forall x :: x in c.nodes ==> x in s.acc
    requires forall x :: x in s.acc ==> IsWord(x) && Undecided(c, s.acc[x], x) && s.prop[x] == Idle(0)
    requires s.msgs == {} && s.phases == map[] && s.runs == 0
    ensures Reachable(c, s)
  {
    hide IsWord, Undecided;
    assert IsRun(c, [s], []) && s == [s][0];
  }

  /** The nodes' acceptors; proposers, messages and history are those of the protocol. */
  class Group {
    const c: Config
    var nodes: map<Node, AcceptorNode>
    ghost var prop: map<Node, Proposer>
    ghost var msgs: set<Msg>
    ghost var phases: map<nat, Phase>
    ghost var runs: nat

    ghost function Acceptors(): map<Node, A.Acceptor>
      reads this`nodes, nodes.Values
    {
      map x | x in nodes :: nodes[x].State()
    }

    /** The state of the protocol that the objects are in. */
    ghost function View(): State
      reads this, nodes.Values
    {
      State(Acceptors(), prop, msgs, phases, runs)
    }

    ghost predicate Valid()
      reads this, nodes.Values
    {
      && (forall x, y :: x in nodes && y in nodes && x != y ==> nodes[x] != nodes[y])
      && !c.late && !c.empty && Reachable(c, View())
    }

    /** A group about to run the instance. */
    constructor (c: Config, nodes: map<Node, AcceptorNode>)
      requires forall x, y :: x in nodes && y in nodes && x != y ==> nodes[x] != nodes[y]
      requires !c.late && !c.empty && c.instance > 0 && forall x :: x in c.nodes ==> x in nodes
      requires forall x :: x in nodes ==> IsWord(x) && Undecided(c, nodes[x].State(), x)
      ensures Valid() && this.c == c && this.nodes == nodes
    {
      hide Reachable, Undecided, IsWord;
      this.c := c;
      this.nodes := nodes;
      prop := map x | x in nodes :: Idle(0);
      msgs, phases, runs := {}, map[], 0;
      new;
      StartReachable(c, View());
    }

    /** One acceptor moved. */
    twostate lemma OneMoved(to: Node)
      requires to in nodes && nodes == old(nodes)
      requires forall x, y :: x in nodes && y in nodes && x != y ==> nodes[x] != nodes[y]
      requires forall x :: x in nodes && x != to ==> nodes[x].State() == old(nodes[x].State())
      ensures Acceptors() == old(Acceptors())[to := nodes[to].State()]
    {
    }

    method OnPrepare(run: nat, b: Ballot, to: Node)
      requires Valid() && Enabled(c, View(), DeliverPrepare(run, b, to))
      modifies this`msgs, nodes.Values
      ensures Valid() && nodes == old(nodes) && View() == Next(c, old(View()), DeliverPrepare(run, b, to))
    {
      hide Reachable, Above, A.Line;
      var r := nodes[to].Prepare(c.instance, b);
      match r {
        case OldInstance(v) => msgs := msgs + {Old(run, v)};
        case Promised(na, va) => msgs := msgs + {Promise(run, b, to, na, va)};
        case Refused =>
      }
      OneMoved(to);
      ReachStep(c, old(View()), DeliverPrepare(run, b, to), View());
    }

    method OnAccept(run: nat, b: Ballot, v: Value, to: Node)
      requires Valid() && Enabled(c, View(), DeliverAccept(run, b, v, to))
      modifies this`msgs, nodes.Values
      ensures Valid() && nodes == old(nodes) && View() == Next(c, old(View()), DeliverAccept(run, b, v, to))
    {
      hide Reachable, AtLeast, A.Line;
      var r := nodes[to].Accept(b, v);
      if r { msgs := msgs + {AcceptOk(run, b, v, to)}; }
      OneMoved(to);
      assert !r ==> Acceptors() == old(Acceptors());
      ReachStep(c, old(View()), DeliverAccept(run, b, v, to), View());
    }

    /** The checks in decidereq hold: the process stays alive. */
    method OnDecide(v: Value, to: Node) returns (alive: bool)
      requires Valid() && Enabled(c, View(), DeliverDecide(v, to))
      modifies nodes.Values
      ensures alive && Valid() && nodes == old(nodes) && View() == Next(c, old(View()), DeliverDecide(v, to))
    {
      hide Reachable, A.Commit;
      DecideNeverAborts(c, View(), v, to);
      alive := nodes[to].Decide(c.instance, v);
      OneMoved(to);
      assert A.Decide(old(nodes[to].State()), c.instance, v).Ahead? ==> Acceptors() == old(Acceptors());
      ReachStep(c, old(View()), DeliverDecide(v, to), View());
    }

    /** A proposer that hears of an old instance has its own acceptor commit. */
    method OnOld(p: Node, v: Value)
      requires Valid() && Enabled(c, View(), GetOld(p, v))
      modifies this`prop, nodes.Values
      ensures Valid() && nodes == old(nodes) && View() == Next(c, old(View()), GetOld(p, v))
    {
      hide Reachable, A.Commit;
      nodes[p].Commit(c.instance, v);
      prop := prop[p := Idle(prop[p].my)];
      OneMoved(p);
      ReachStep(c, old(View()), GetOld(p, v), View());
    }

    /** A process dies and another one starts on its log. */
    method OnCrash(p: Node)
      requires Valid() && p in nodes && Enabled(c, View(), Crash(p))
      modifies this`nodes, this`prop
      ensures Valid() && p in nodes && fresh(nodes[p]) && View() == Next(c, old(View()), Crash(p))
    {
      hide Reachable, A.Durable, A.Step, A.Similar, Next, Enabled;
      IsDurable(p);
      var node := Restart(nodes[p]);
      TakeOver(p, node);
    }

    /** The new process takes the place of the old one. */
    method TakeOver(p: Node, node: AcceptorNode)
      requires Valid() && p in nodes && Enabled(c, View(), Crash(p))
      requires (forall x :: x in nodes ==> nodes[x] != node) && node.State() == A.Step(nodes[p].State(), A.Crash)
      modifies this`nodes, this`prop
      ensures Valid() && nodes == old(nodes)[p := node] && View() == Next(c, old(View()), Crash(p))
    {
      hide Reachable, A.Step, Next, Enabled, Acceptors, AcceptorNode.State;
      ghost var s := View();
      CrashIs(c, s, p);
      AcceptorAt(p);
      Replace(p, node);
      prop := prop[p := Idle(0)];
      assert View() == Next(c, s, Crash(p));
      ReachStep(c, s, Crash(p), View());
    }

    method Replace(p: Node, node: AcceptorNode)
      requires p in nodes && (forall x :: x in nodes ==> nodes[x] != node)
      requires forall x, y :: x in nodes && y in nodes && x != y ==> nodes[x] != nodes[y]
      modifies this`nodes
      ensures nodes == old(nodes)[p := node] && Acceptors() == old(Acceptors())[p := node.State()]
      ensures forall x, y :: x in nodes && y in nodes && x != y ==> nodes[x] != nodes[y]
    {
      nodes := nodes[p := node];
    }

    lemma AcceptorAt(p: Node)
      requires p in nodes
      ensures p in Acceptors() && Acceptors()[p] == nodes[p].State()
    {
    }

    lemma IsDurable(p: Node)
      requires Valid() && p in nodes
      ensures nodes[p].Valid()
    {
      hide Reachable, A.Durable;
      ReachableInv(c, View());
      AcceptorFacts(c, View(), p);
      assert View().acc[p] == nodes[p].State();
    }

    /** What proposers and the network do by themselves. */
    ghost method OtherStep(a: Action)
      requires Valid() && Enabled(c, View(), a) && !a.Crash? && !a.GetOld?
      requires !a.DeliverPrepare? && !a.DeliverAccept? && !a.DeliverDecide?
      modifies this`prop, this`msgs, this`phases, this`runs
      ensures Valid() && View() == Next(c, old(View()), a)
    {
      hide Reachable, Next, Enabled;
      var s := Next(c, View(), a);
      ReachStep(c, View(), a, s);
      AcceptorsStay(c, View(), a);
      prop, msgs, phases, runs := s.prop, s.msgs, s.phases, s.runs;
      assert Acceptors() == s.acc;
    }

    /** All acceptors that have decided the instance hold the same value for it. */
    lemma NodesAgree(x: Node, y: Node)
      requires Valid() && x in nodes && y in nodes
      requires nodes[x].instanceH >= c.instance && nodes[y].instanceH >= c.instance
      ensures A.ValueAt(nodes[x].values, c.instance) == A.ValueAt(nodes[y].values, c.instance)
    {
      hide Reachable;
      var s := View();
      assert s.acc[x] == nodes[x].State() && s.acc[y] == nodes[y].State();
      CommitsAgree(c, s, x, y);
    }
  }
}
