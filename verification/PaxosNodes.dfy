/**
  The acceptor and the proposer of one node as objects.
 */
module PaxosNodes {
  import opened Option
  import opened Text
  import opened Ballots
  import opened Proposers
  import A = Acceptors

  /** `acceptor`, with the log file as a text. */
  class AcceptorNode {
    const me: Node
    var nH: Ballot
    var nA: Ballot
    var vA: Value
    var instanceH: nat
    var values: map<nat, Value>
    var log: string

    ghost function State(): A.Acceptor
      reads this
    {
      A.Acceptor(me, nH, nA, vA, instanceH, values, log)
    }

    /** The log is enough to rebuild the node, up to the name in a ballot numbered 0. */
    ghost predicate Valid()
      reads this
    {
      A.Durable(State())
    }

    /** The first part of the constructor; LogRead follows. */
    constructor (me: Node, log: string)
      ensures State() == A.Fresh(me, log)
    {
      this.me := me;
      nH := Ballot(0, me);
      nA := Ballot(0, me);
      vA := "";
      instanceH := 0;
      values := map[];
      this.log := log;
    }

    /** preparereq: a promise goes to every higher ballot of a later instance and to no other, and outlives the process. */
    method Prepare(instance: nat, n: Ballot) returns (r: A.PrepareReply)
      modifies this
      ensures (State(), r) == A.Prepare(old(State()), instance, n)
      ensures r.OldInstance? <==> instance <= old(instanceH)
      ensures r.OldInstance? ==> r.v == if instance in values then values[instance] else ""
      ensures r.Promised? <==> instance > old(instanceH) && Above(n, old(nH))
      ensures r.Promised? ==> r.na == old(nA) && r.va == old(vA) && nH == n && log == old(log) + A.Line(A.Seen(n))
      ensures !r.Promised? ==> nH == old(nH) && log == old(log)
      ensures nA == old(nA) && vA == old(vA) && instanceH == old(instanceH) && values == old(values)
      ensures AtLeast(nH, old(nH))
      ensures old(Valid()) && IsWord(n.node) ==> Valid()
    {
      hide A.Line, A.Durable;
      AtLeastIs(nH, nH);
      AtLeastIs(n, nH);
      if A.Durable(State()) && IsWord(n.node) { A.PrepareDurable(State(), instance, n); }
      if instanceH >= instance {
        r := A.OldInstance(if instance in values then values[instance] else "");
      } else if Above(n, nH) {
        nH := n;
        r := A.Promised(nA, vA);
        LogProp(nH);
      } else {
        r := A.Refused;
      }
    }

    /** acceptreq: votes never break a promise, and outlive the process. */
    method Accept(n: Ballot, v: Value) returns (r: bool)
      modifies this
      ensures (State(), r) == A.Accept(old(State()), n, v)
      ensures r <==> AtLeast(n, old(nH))
      ensures r ==> nA == n && vA == v && log == old(log) + A.Line(A.Voted(n, v))
      ensures !r ==> nA == old(nA) && vA == old(vA) && log == old(log)
      ensures nH == old(nH) && instanceH == old(instanceH) && values == old(values)
      ensures old(Valid()) && IsWord(n.node) && IsLine(v) ==> Valid()
    {
      hide A.Line, A.Durable, AtLeast;
      if A.Durable(State()) && IsWord(n.node) && IsLine(v) { A.AcceptDurable(State(), n, v); }
      if AtLeast(n, nH) {
        nA := n;
        r := true;
        vA := v;
        LogAccept(nA, vA);
      } else {
        r := false;
      }
    }

    /** decidereq; not alive afterwards means that one of its own checks has failed. */
    method Decide(instance: nat, v: Value) returns (alive: bool)
      modifies this
      ensures alive <==> instance <= old(instanceH) || (instance == old(instanceH) + 1 && v == old(vA))
      ensures alive && instance == old(instanceH) + 1 ==>
                instanceH == instance && values == old(values)[instance := v] && nH == nA == Ballot(0, me) && vA == ""
      ensures !alive || instance <= old(instanceH) ==> State() == old(State())
      ensures alive <==> !A.Decide(old(State()), instance, v).Aborted?
      ensures match A.Decide(old(State()), instance, v)
              case Committed(s) => State() == s
              case _ => State() == old(State())
      ensures old(Valid()) && IsLine(v) ==> Valid()
    {
      hide A.Commit, A.Durable;
      if instance == instanceH + 1 {
        if vA != v { return false; }
        Commit(instance, vA);
      } else if instance > instanceH {
        return false;
      }
      alive := true;
    }

    /** commit_wo, without the upcall: no value once decided is lost. */
    method Commit(instance: nat, value: Value)
      modifies this
      ensures State() == A.Commit(old(State()), instance, value)
      ensures instance > old(instanceH) ==>
                && instanceH == instance && values == old(values)[instance := value]
                && nH == nA == Ballot(0, me) && vA == "" && log == old(log) + A.Line(A.Done(instance, value))
      ensures instance <= old(instanceH) ==> State() == old(State())
      ensures forall i :: i in old(values) && (i != instance || i <= old(instanceH)) ==> i in values && values[i] == old(values)[i]
      ensures old(Valid()) && IsLine(value) ==> Valid()
    {
      hide A.Line, A.Durable;
      if A.Durable(State()) && IsLine(value) { A.CommitDurable(State(), instance, value); }
      if instance > instanceH {
        values := values[instance := value];
        LogInstance(instance, value);
        instanceH := instance;
        nH := Ballot(0, me);
        nA := Ballot(0, me);
        vA := "";
      }
    }

    method LogInstance(instance: nat, v: Value)
      modifies this`log
      ensures log == old(log) + A.Line(A.Done(instance, v))
    {
      log := log + ("done" + (" " + Decimal(instance) + (" " + v + "\n")));
    }

    method LogProp(n: Ballot)
      modifies this`log
      ensures log == old(log) + A.Line(A.Seen(n))
    {
      log := log + ("propseen" + (" " + Decimal(n.n) + (" " + n.node + "\n")));
    }

    method LogAccept(n: Ballot, v: Value)
      modifies this`log
      ensures log == old(log) + A.Line(A.Voted(n, v))
    {
      log := log + ("accepted" + (" " + Decimal(n.n) + (" " + n.node + (" " + v + "\n"))));
    }

    /** logread; false where the file holds something that is not a record. */
    method LogRead() returns (ok: bool)
      modifies this
      ensures log == old(log)
      ensures match A.ReadLog(old(State()), old(log))
              case Some(s) => ok && State() == s
              case None => !ok
    {
      hide A.ReadRecord;
      var from := log;
      var p := A.ReadRecord(from);
      while p.Rec?
        invariant p == A.ReadRecord(from) && log == old(log)
        invariant A.ReadLog(old(State()), old(log)) == A.ReadLog(State(), from)
        decreases |from|
      {
        match p.r {
          case Done(i, v) =>
            values := values[i := v];
            instanceH := i;
            vA := "";
            nH := nH.(n := 0);
            nA := nA.(n := 0);
          case Seen(b) =>
            nH := b;
          case Voted(b, v) =>
            nA := b;
            vA := v;
        }
        from := p.rest;
        p := A.ReadRecord(from);
      }
      ok := p.End?;
    }
  }

  /** A process that starts on the log of a lost one stands in for it. */
  method Restart(lost: AcceptorNode) returns (node: AcceptorNode)
    requires lost.Valid()
    ensures fresh(node) && node.me == lost.me && node.Valid()
    ensures A.Similar(lost.State(), node.State()) && node.State() == A.Step(lost.State(), A.Crash)
  {
    hide A.Durable, A.ReadLog, A.Similar;
    A.Recovered(lost.State());
    node := new AcceptorNode(lost.me, lost.log);
    var ok := node.LogRead();
  }

  // ------------------------------------------------------------ the proposer

  /** What came back from each node: a reply, or None if the call failed. */
  type PrepareReplies = seq<Option<A.PrepareReply>>

  predicate IsOld(r: Option<A.PrepareReply>) {
    r.Some? && r.value.OldInstance?
  }

  predicate IsPromise(r: Option<A.PrepareReply>) {
    r.Some? && r.value.Promised?
  }

  /** The tally of the first i replies. */
  function Gather(nodes: seq<Node>, rs: PrepareReplies, i: nat): Tally
    requires i <= |nodes| == |rs|
  {
    if i == 0 then NoTally()
    else
      var t := Gather(nodes, rs, i - 1);
      if IsPromise(rs[i - 1]) then Count(t, nodes[i - 1], rs[i - 1].value.na, rs[i - 1].value.va) else t
  }

  /** Those of the first i nodes that promised, in order. */
  function Promisers(nodes: seq<Node>, rs: PrepareReplies, i: nat): seq<Node>
    requires i <= |nodes| == |rs|
  {
    if i == 0 then []
    else Promisers(nodes, rs, i - 1) + if IsPromise(rs[i - 1]) then [nodes[i - 1]] else []
  }

  ghost predicate NoPromise(rs: PrepareReplies, i: nat)
    requires i <= |rs|
  {
    forall j :: 0 <= j < i ==> !IsPromise(rs[j])
  }

  /** The vote in reply k is a highest one among the first i replies. */
  ghost predicate Highest(rs: PrepareReplies, i: nat, k: nat)
    requires i <= |rs|
  {
    && k < i && IsPromise(rs[k])
    && forall j :: 0 <= j < i && IsPromise(rs[j]) ==> AtLeast(rs[k].value.na, rs[j].value.na)
  }

  ghost predicate Named(rs: PrepareReplies) {
    forall j :: 0 <= j < |rs| && IsPromise(rs[j]) ==> rs[j].value.na.node != ""
  }

  lemma NamedIsAbove(b: Ballot)
    requires b.node != ""
    ensures Above(b, Ballot(0, ""))
  {
  }

  lemma StillHighest(rs: PrepareReplies, i: nat, k: nat, k': nat)
    requires i < |rs| && Highest(rs, i, k) && k' <= i && IsPromise(rs[k'])
    requires AtLeast(rs[k'].value.na, rs[k].value.na)
    requires IsPromise(rs[i]) ==> AtLeast(rs[k'].value.na, rs[i].value.na)
    ensures Highest(rs, i + 1, k')
  {
    hide AtLeast, Above;
    forall j | 0 <= j < i + 1 && IsPromise(rs[j])
      ensures AtLeast(rs[k'].value.na, rs[j].value.na)
    {
      if j < i { AboveTransitive(rs[k'].value.na, rs[k].value.na, rs[j].value.na); }
    }
  }

  /** `prepare` collects exactly the nodes that promised and the value of a highest vote they reported. */
  lemma {:induction false} GatherIsHighest(nodes: seq<Node>, rs: PrepareReplies, i: nat) returns (k: nat)
    requires i <= |nodes| == |rs| && Named(rs)
    ensures Gather(nodes, rs, i).accepts == Promisers(nodes, rs, i)
    ensures if NoPromise(rs, i) then Gather(nodes, rs, i) == NoTally()
            else Highest(rs, i, k) && Gather(nodes, rs, i).high == rs[k].value.na && Gather(nodes, rs, i).v == rs[k].value.va
  {
    hide AtLeast, Above;
    k := 0;
    if i > 0 {
      k := GatherIsHighest(nodes, rs, i - 1);
      var r, t := rs[i - 1], Gather(nodes, rs, i - 1);
      if IsPromise(r) {
        NamedIsAbove(r.value.na);
        AtLeastIs(t.high, r.value.na);
        AtLeastIs(r.value.na, t.high);
        AtLeastIs(r.value.na, r.value.na);
        var fresh? := NoPromise(rs, i - 1);
        var k' := if Above(r.value.na, t.high) then i - 1 else k;
        if !fresh? { StillHighest(rs, i - 1, k, k'); }
        k := k';
      } else if !NoPromise(rs, i - 1) {
        AtLeastIs(rs[k].value.na, rs[k].value.na);
        StillHighest(rs, i - 1, k, k);
      }
    }
  }

  lemma {:induction false} GatherAccepts(nodes: seq<Node>, rs: PrepareReplies, i: nat)
    requires i <= |nodes| == |rs|
    ensures Gather(nodes, rs, i).accepts == Promisers(nodes, rs, i)
  {
    hide Above;
    if i > 0 { GatherAccepts(nodes, rs, i - 1); }
  }

  /** The nodes that accepted, in order. */
  function Accepters(nodes: seq<Node>, rs: seq<Option<bool>>, i: nat): seq<Node>
    requires i <= |nodes| == |rs|
  {
    if i == 0 then []
    else Accepters(nodes, rs, i - 1) + if rs[i - 1] == Some(true) then [nodes[i - 1]] else []
  }

  /** What a run does, given the replies it gets. */
  datatype Outcome = Busy | GaveUp | Learnt | Won(v: Value, accepts: seq<Node>)

  datatype Request =
    | PrepareMsg(to: Node, instance: nat, n: Ballot)
    | AcceptMsg(to: Node, instance: nat, n: Ballot, v: Value)
    | DecideMsg(to: Node, instance: nat, v: Value)

  /** The one request to each node, in order. */
  function PreparesTo(nodes: seq<Node>, instance: nat, n: Ballot): (ms: seq<Request>)
    ensures |ms| == |nodes| && forall i :: 0 <= i < |ms| ==> ms[i] == PrepareMsg(nodes[i], instance, n)
  {
    seq(|nodes|, i requires 0 <= i < |nodes| => PrepareMsg(nodes[i], instance, n))
  }

  function AcceptsTo(nodes: seq<Node>, instance: nat, n: Ballot, v: Value): (ms: seq<Request>)
    ensures |ms| == |nodes| && forall i :: 0 <= i < |ms| ==> ms[i] == AcceptMsg(nodes[i], instance, n, v)
  {
    seq(|nodes|, i requires 0 <= i < |nodes| => AcceptMsg(nodes[i], instance, n, v))
  }

  function DecidesTo(nodes: seq<Node>, instance: nat, v: Value): (ms: seq<Request>)
    ensures |ms| == |nodes| && forall i :: 0 <= i < |ms| ==> ms[i] == DecideMsg(nodes[i], instance, v)
  {
    seq(|nodes|, i requires 0 <= i < |nodes| => DecideMsg(nodes[i], instance, v))
  }

  /** Reply k is the first of an old instance. */
  ghost predicate FirstOld(rs: PrepareReplies, k: nat) {
    k < |rs| && IsOld(rs[k]) && forall j :: 0 <= j < k ==> !IsOld(rs[j])
  }

  ghost predicate NoneOld(rs: PrepareReplies) {
    forall j :: 0 <= j < |rs| ==> !IsOld(rs[j])
  }

  /** The value a run goes on with: that of a highest vote reported, or its own. */
  ghost predicate Picked(rs: PrepareReplies, newv: Value, v: Value) {
    exists k: nat :: Highest(rs, |rs|, k) && v == if rs[k].value.va == "" then newv else rs[k].value.va
  }

  lemma NobodyPromised(nodes: seq<Node>, rs: PrepareReplies, i: nat)
    requires i <= |nodes| == |rs| && NoPromise(rs, i)
    ensures Promisers(nodes, rs, i) == []
  {
  }

  lemma {:induction false} NoHits(nodes: seq<Node>)
    ensures Hits(nodes, []) == 0
  {
    if nodes != [] { NoHits(nodes[..|nodes| - 1]); }
  }

  /** With a majority of promises the tally's value is that of a highest vote. */
  lemma PicksHighest(nodes: seq<Node>, rs: PrepareReplies, newv: Value)
    requires |nodes| == |rs| && Named(rs) && IsMajority(nodes, Promisers(nodes, rs, |rs|))
    ensures var v := Gather(nodes, rs, |rs|).v; Picked(rs, newv, if v == "" then newv else v)
  {
    hide Promisers, Gather, Hits;
    var k := GatherIsHighest(nodes, rs, |rs|);
    if NoPromise(rs, |rs|) {
      NobodyPromised(nodes, rs, |rs|);
      NoHits(nodes);
    }
  }

  /** `proposer`; the replies of the other nodes are parameters. */
  class ProposerNode {
    const me: Node
    const acc: AcceptorNode
    var myN: Ballot
    var stable: bool

    constructor (me: Node, acc: AcceptorNode)
      ensures this.me == me && this.acc == acc && myN == Ballot(0, me) && stable
    {
      this.me := me;
      this.acc := acc;
      myN := Ballot(0, me);
      stable := true;
    }

    method SetMyN()
      modifies this`myN
      ensures myN == Ballot(SetN(acc.nH.n, old(myN).n), old(myN).node)
      ensures myN.n > acc.nH.n && myN.n > old(myN).n
    {
      myN := myN.(n := if acc.nH.n + 1 > myN.n + 1 then acc.nH.n + 1 else myN.n + 1);
    }

    /** prepare: asks each node in turn, but stops at the first that has decided the instance and commits what it says. */
    method Prepare(instance: nat, nodes: seq<Node>, rs: PrepareReplies)
      returns (ok: bool, accepts: seq<Node>, v: Value, sent: seq<Request>)
      requires |rs| == |nodes|
      modifies acc
      ensures ok <==> NoneOld(rs)
      ensures ok ==> acc.State() == old(acc.State()) && sent == PreparesTo(nodes, instance, myN)
      ensures ok ==> accepts == Promisers(nodes, rs, |nodes|) && v == Gather(nodes, rs, |nodes|).v
      ensures !ok ==> exists k: nat :: FirstOld(rs, k) && sent == PreparesTo(nodes[..k + 1], instance, myN)
                                  && acc.State() == A.Commit(old(acc.State()), instance, rs[k].value.v)
    {
      hide A.Commit, Above;
      var highestSeen := Ballot(0, "");
      accepts, v, sent := [], "", [];
      for i := 0 to |nodes|
        invariant acc.State() == old(acc.State()) && forall j :: 0 <= j < i ==> !IsOld(rs[j])
        invariant Tally(accepts, highestSeen, v) == Gather(nodes, rs, i)
        invariant sent == PreparesTo(nodes[..i], instance, myN)
      {
        sent := sent + [PrepareMsg(nodes[i], instance, myN)];
        assert sent == PreparesTo(nodes[..i + 1], instance, myN);
        if rs[i].Some? {
          match rs[i].value {
            case OldInstance(w) =>
              acc.Commit(instance, w);
              assert FirstOld(rs, i);
              return false, accepts, v, sent;
            case Promised(na, va) =>
              if Above(na, highestSeen) { highestSeen, v := na, va; }
              accepts := accepts + [nodes[i]];
            case Refused =>
          }
        }
      }
      ok := true;
      assert nodes[..|nodes|] == nodes;
      GatherAccepts(nodes, rs, |nodes|);
    }

    /** accept: asks each node for its vote and collects those that gave it. */
    method Accept(instance: nat, nodes: seq<Node>, v: Value, rs: seq<Option<bool>>)
      returns (accepts: seq<Node>, sent: seq<Request>)
      requires |rs| == |nodes|
      ensures accepts == Accepters(nodes, rs, |nodes|) && sent == AcceptsTo(nodes, instance, myN, v)
    {
      accepts, sent := [], [];
      for i := 0 to |nodes|
        invariant accepts == Accepters(nodes, rs, i)
        invariant |sent| == i && forall j :: 0 <= j < i ==> sent[j] == AcceptMsg(nodes[j], instance, myN, v)
      {
        sent := sent + [AcceptMsg(nodes[i], instance, myN, v)];
        if rs[i] == Some(true) { accepts := accepts + [nodes[i]]; }
      }
    }

    /** decide: every node that accepted is told once, in order; the answers are not looked at. */
    method Decide(instance: nat, accepts: seq<Node>, v: Value) returns (sent: seq<Request>)
      ensures sent == DecidesTo(accepts, instance, v)
    {
      sent := [];
      for i := 0 to |accepts|
        invariant |sent| == i && forall j :: 0 <= j < i ==> sent[j] == DecideMsg(accepts[j], instance, v)
      {
        sent := sent + [DecideMsg(accepts[i], instance, v)];
      }
    }

    /**
      run. `acks` are the answers of the nodes that promised. The outcome and all that is sent are
      determined by the replies: a run learns an old value exactly if some node has decided, wins
      exactly with two majorities, and gives up in every other case.
     */
    method Run(instance: nat, cur: seq<Node>, newv: Value, prep: PrepareReplies, acks: seq<Option<bool>>)
      returns (o: Outcome, sent: seq<Request>)
      requires |prep| == |cur| && |acks| == |Promisers(cur, prep, |cur|)|
      modifies this, acc
      ensures o == Busy <==> !old(stable)
      ensures o == Busy ==> myN == old(myN) && stable == old(stable) && sent == []
      ensures old(stable) ==> stable && myN == Ballot(SetN(old(acc.nH.n), old(myN).n), old(myN).node)
      ensures old(stable) ==> (o.Learnt? <==> !NoneOld(prep))
      ensures o.Learnt? ==> exists k: nat :: FirstOld(prep, k) && sent == PreparesTo(cur[..k + 1], instance, myN)
                                        && acc.State() == A.Commit(old(acc.State()), instance, prep[k].value.v)
      ensures !o.Learnt? ==> acc.State() == old(acc.State())
      ensures var promised := Promisers(cur, prep, |cur|);
              var accepted := Accepters(promised, acks, |acks|);
              && (old(stable) ==> (o.Won? <==> NoneOld(prep) && IsMajority(cur, promised) && IsMajority(cur, accepted)))
              && (o.Won? ==> o.accepts == accepted && (Named(prep) ==> Picked(prep, newv, o.v)))
              && (o.Won? ==> sent == PreparesTo(cur, instance, myN) + AcceptsTo(promised, instance, myN, o.v)
                                     + DecidesTo(accepted, instance, o.v))
              && (o == GaveUp && !IsMajority(cur, promised) ==> sent == PreparesTo(cur, instance, myN))
              && (o == GaveUp && IsMajority(cur, promised) ==>
                  exists v :: (Named(prep) ==> Picked(prep, newv, v))
                              && sent == PreparesTo(cur, instance, myN) + AcceptsTo(promised, instance, myN, v))
    {
      hide A.Commit, Gather, IsMajority, Promisers, Accepters, Picked, PreparesTo, AcceptsTo, DecidesTo;
      sent := [];
      if !stable { return Busy, []; }
      stable := false;
      SetMyN();
      o := GaveUp;
      var ok, accepts, v, asked := Prepare(instance, cur, prep);
      sent := asked;
      if ok {
        var promised := Majority(cur, accepts);
        if promised {
          if Named(prep) { PicksHighest(cur, prep, newv); }
          if |v| == 0 { v := newv; }
          var accepted, offered := Accept(instance, accepts, v, acks);
          sent := sent + offered;
          var won := Majority(cur, accepted);
          if won {
            var told := Decide(instance, accepted, v);
            sent := sent + told;
            o := Won(v, accepted);
          }
        }
      } else {
        o := Learnt;
      }
      stable := true;
    }
  }
}
