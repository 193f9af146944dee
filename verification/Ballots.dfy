/**
  Proposal numbers, their order, and the majority test of the proposer.
 */
module Ballots {
  import opened Text

  type Node = string
  type Value = string

  /** `prop_t`: a counter made unique by the proposer's name. */
  datatype Ballot = Ballot(n: nat, node: Node)

  predicate Above(a: Ballot, b: Ballot) {
    a.n > b.n || (a.n == b.n && After(a.node, b.node))
  }

  predicate AtLeast(a: Ballot, b: Ballot) {
    a.n > b.n || (a.n == b.n && (After(a.node, b.node) || a.node == b.node))
  }

  /** `>=` is `>` or equal, and exactly the negation of `<`. */
  lemma AtLeastIs(a: Ballot, b: Ballot)
    ensures AtLeast(a, b) <==> Above(a, b) || a == b
    ensures AtLeast(a, b) <==> !Above(b, a)
  {
    AfterTotal(a.node, b.node);
    AfterIrreflexive(a.node);
    if After(a.node, b.node) && After(b.node, a.node) {
      AfterTransitive(a.node, b.node, a.node);
    }
  }

  lemma AboveTransitive(a: Ballot, b: Ballot, c: Ballot)
    requires AtLeast(a, b) && AtLeast(b, c)
    ensures AtLeast(a, c)
    ensures Above(a, b) || Above(b, c) ==> Above(a, c)
  {
    if After(a.node, b.node) && After(b.node, c.node) {
      AfterTransitive(a.node, b.node, c.node);
    }
  }

  /** The two comparison operators form a total order on ballots. */
  lemma BallotOrder()
    ensures forall a: Ballot, b: Ballot :: AtLeast(a, b) <==> Above(a, b) || a == b
    ensures forall a: Ballot, b: Ballot :: AtLeast(a, b) <==> !Above(b, a)
    ensures forall a: Ballot, b: Ballot, c: Ballot {:trigger Above(a, b), Above(b, c)} ::
              Above(a, b) && Above(b, c) ==> Above(a, c)
  {
    forall a: Ballot, b: Ballot
      ensures (AtLeast(a, b) <==> Above(a, b) || a == b) && (AtLeast(a, b) <==> !Above(b, a))
    {
      AtLeastIs(a, b);
    }
    forall a: Ballot, b: Ballot, c: Ballot | Above(a, b) && Above(b, c)
      ensures Above(a, c)
    {
      AtLeastIs(a, b); AtLeastIs(b, c);
      AboveTransitive(a, b, c);
    }
  }

  method IsMember(m: Node, nodes: seq<Node>) returns (r: bool)
    ensures r <==> m in nodes
  {
    for i := 0 to |nodes|
      invariant m !in nodes[..i]
    {
      if nodes[i] == m { return true; }
    }
    return false;
  }

  /** How many positions of `nodes` hold a node of `l`; a name listed twice counts twice. */
  function Hits(nodes: seq<Node>, l: seq<Node>): nat {
    if nodes == [] then 0
    else Hits(nodes[..|nodes| - 1], l) + if nodes[|nodes| - 1] in l then 1 else 0
  }

  predicate IsMajority(nodes: seq<Node>, l: seq<Node>) {
    Hits(nodes, l) >= |nodes| / 2 + 1
  }

  method Majority(nodes: seq<Node>, l: seq<Node>) returns (r: bool)
    ensures r <==> IsMajority(nodes, l)
    ensures r <==> 2 * Hits(nodes, l) > |nodes|
  {
    var n := 0;
    for i := 0 to |nodes|
      invariant n == Hits(nodes[..i], l)
    {
      assert nodes[..i + 1][..i] == nodes[..i];
      var here := IsMember(nodes[i], l);
      if here { n := n + 1; }
    }
    assert nodes[..|nodes|] == nodes;
    return n >= |nodes| / 2 + 1;
  }

  lemma {:induction false} HitsOverlap(nodes: seq<Node>, a: seq<Node>, b: seq<Node>)
    requires forall x :: x in nodes ==> x !in a || x !in b
    ensures Hits(nodes, a) + Hits(nodes, b) <= |nodes|
  {
    if nodes != [] {
      var front := nodes[..|nodes| - 1];
      assert nodes[|nodes| - 1] in nodes;
      assert forall x :: x in front ==> x in nodes;
      HitsOverlap(front, a, b);
    }
  }

  /** Two majorities of one node list share a node, whatever names repeat in the list. */
  lemma MajoritiesMeet(nodes: seq<Node>, a: seq<Node>, b: seq<Node>) returns (x: Node)
    requires IsMajority(nodes, a) && IsMajority(nodes, b)
    ensures x in nodes && x in a && x in b
  {
    if forall y :: y in nodes ==> y !in a || y !in b {
      HitsOverlap(nodes, a, b);
    }
    x :| x in nodes && x in a && x in b;
  }
}
