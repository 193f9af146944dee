/**
  What the runs of one Paxos instance guarantee.
 */
module PaxosAgreement {
  import opened Ballots
  import opened PaxosProtocol
  import opened PaxosSafety
  import A = Acceptors

  ghost predicate Reachable(c: Config, s: State) {
    exists ss, acts :: IsRun(c, ss, acts) && Init(c, ss[0]) && s == ss[|acts|]
  }

  lemma ReachStep(c: Config, s: State, a: Action, s': State)
    requires Reachable(c, s) && Enabled(c, s, a) && s' == Next(c, s, a)
    ensures Reachable(c, s')
  {
    hide Init, Next, Enabled;
    var ss, acts :| IsRun(c, ss, acts) && Init(c, ss[0]) && s == ss[|acts|];
    var ss', acts' := ss + [s'], acts + [a];
    forall i | 0 <= i < |acts'|
      ensures Takes(c, ss'[i], acts'[i], ss'[i + 1])
    {
      if i < |acts| { assert Takes(c, ss[i], acts[i], ss[i + 1]); }
    }
    assert IsRun(c, ss', acts') && s' == ss'[|acts'|];
  }

  lemma ReachableInv(c: Config, s: State)
    requires Reachable(c, s) && !c.late && !c.empty
    ensures Inv(c, s)
  {
    hide Init, Inv, Takes;
    var ss, acts :| IsRun(c, ss, acts) && Init(c, ss[0]) && s == ss[|acts|];
    InitInv(c, ss[0]);
    RunKeeps(c, ss, acts, |acts|);
  }

  /** Agreement: in every reachable state, any two runs that won an accept majority carry one value. */
  lemma Agreement(c: Config, s: State)
    requires Reachable(c, s) && !c.late && !c.empty
    ensures Agreed(c, s)
  {
    hide Reachable;
    ReachableInv(c, s);
    InvAgrees(c, s);
  }

  /** Ballot numbers may be reused after a restart, yet two accept phases never share a ballot. */
  lemma AcceptPhasesHaveOwnBallots(c: Config, s: State, r1: nat, r2: nat)
    requires Reachable(c, s) && !c.late && !c.empty
    requires r1 in s.phases && r2 in s.phases && s.phases[r1].b == s.phases[r2].b
    ensures r1 == r2
  {
    hide Reachable;
    ReachableInv(c, s);
    BallotsDoNotRepeat(c, s, r1, r2);
  }

  /** Every commit, by whatever path, stores the one value that won a majority. */
  lemma CommitsAgree(c: Config, s: State, x: Node, y: Node)
    requires Reachable(c, s) && !c.late && !c.empty
    requires x in s.acc && y in s.acc && s.acc[x].decided >= c.instance && s.acc[y].decided >= c.instance
    ensures Chosen(c.nodes, s.msgs, s.phases, A.ValueAt(s.acc[x].values, c.instance))
    ensures A.ValueAt(s.acc[x].values, c.instance) == A.ValueAt(s.acc[y].values, c.instance)
    ensures forall r :: Won(c.nodes, s.msgs, s.phases, r) ==> s.phases[r].v == A.ValueAt(s.acc[x].values, c.instance)
  {
    hide Reachable, OpenOk, A.Durable;
    ReachableInv(c, s);
    AcceptorFacts(c, s, x);
    AcceptorFacts(c, s, y);
    InvAgrees(c, s);
  }

  /** The VERIFY calls in decidereq never fail. */
  lemma DecideNeverAborts(c: Config, s: State, v: Value, to: Node)
    requires Reachable(c, s) && !c.late && !c.empty && Enabled(c, s, DeliverDecide(v, to))
    ensures !A.Decide(s.acc[to], c.instance, v).Aborted?
  {
    hide Reachable, Inv;
    ReachableInv(c, s);
    DecideKeeps(c, s, v, to);
  }
}
