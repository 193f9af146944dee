/**
  The client's list of answered calls, from which it tells the server what may be forgotten.
 */
module AckWindow {

  ghost predicate Sorted(w: seq<nat>) {
    forall i, j :: 0 <= i < j < |w| ==> w[i] <= w[j]
  }

  /** k is the greatest number such that all of 1..k have been reported. */
  ghost predicate IsFront(k: nat, reported: set<nat>) {
    (forall x :: 1 <= x <= k ==> x in reported) && k + 1 !in reported
  }

  /** The list holds the front and, above it, exactly the reported numbers. */
  ghost predicate Represents(w: seq<nat>, reported: set<nat>) {
    && w != [] && Sorted(w)
    && IsFront(w[0], reported)
    && (forall x :: x > w[0] ==> (x in w <==> x in reported))
  }

  /** Represents, except that the front may still have to move up. */
  ghost predicate Covers(w: seq<nat>, reported: set<nat>) {
    && w != [] && Sorted(w)
    && (forall x :: 1 <= x <= w[0] ==> x in reported)
    && (forall x :: x > w[0] ==> (x in w <==> x in reported))
  }

  lemma InsertCovers(w: seq<nat>, reported: set<nat>, i: nat, xid: nat)
    requires Covers(w, reported) && 1 <= i <= |w| && xid > w[0]
    requires (forall j :: 0 <= j < i ==> w[j] <= xid) && (i < |w| ==> w[i] > xid)
    ensures Covers(w[..i] + [xid] + w[i..], reported + {xid})
  {
    var w' := w[..i] + [xid] + w[i..];
    forall x
      ensures x in w' <==> x in w || x == xid
    {
      assert x in w <==> x in w[..i] || x in w[i..] by { assert w == w[..i] + w[i..]; }
    }
  }

  lemma PopCovers(w: seq<nat>, reported: set<nat>)
    requires Covers(w, reported) && |w| > 1 && w[1] <= w[0] + 1
    ensures Covers(w[1..], reported)
  {
    assert w == [w[0]] + w[1..];
    assert w[1] > w[0] ==> w[1] in reported;
  }

  /** The first loop: where the number goes. */
  method Place(w: seq<nat>, xid: nat) returns (i: nat)
    ensures i <= |w| && (forall j :: 0 <= j < i ==> w[j] <= xid) && (i < |w| ==> w[i] > xid)
  {
    i := 0;
    while i < |w| && w[i] <= xid
      invariant 0 <= i <= |w| && forall j :: 0 <= j < i ==> w[j] <= xid
    {
      i := i + 1;
    }
  }

  /** The inner loop: while the entry at the position continues the front, the front is dropped. */
  method PopFront(w: seq<nat>, it: nat, ghost reported: set<nat>) returns (w': seq<nat>, it': nat)
    requires Covers(w, reported) && 1 <= it < |w| && forall j :: 0 < j < it ==> w[j] != w[0] + 1
    ensures Covers(w', reported) && it' < |w'| && |w'| - it' == |w| - it
    ensures forall j :: 0 < j <= it' ==> w'[j] != w'[0] + 1
  {
    w', it' := w, it;
    while w'[0] + 1 == w'[it']
      invariant it' < |w'| && |w'| - it' == |w| - it && Covers(w', reported)
      invariant forall j :: 0 < j < it' ==> w'[j] != w'[0] + 1
      decreases |w'|
    {
      PopCovers(w', reported);
      w', it' := w'[1..], it' - 1;
    }
  }

  /** The outer loop: afterwards no entry continues the front. */
  method Compress(w: seq<nat>, ghost reported: set<nat>) returns (w': seq<nat>)
    requires Covers(w, reported)
    ensures Represents(w', reported)
  {
    w' := w;
    var it := 1;
    while it < |w'|
      invariant 1 <= it <= |w'| && Covers(w', reported)
      invariant forall j :: 0 < j < it ==> w'[j] != w'[0] + 1
      decreases |w'| - it
    {
      w', it := PopFront(w', it, reported);
      it := it + 1;
    }
    FrontFound(w', reported);
  }

  lemma FrontFound(w: seq<nat>, reported: set<nat>)
    requires Covers(w, reported) && forall j :: 0 < j < |w| ==> w[j] != w[0] + 1
    ensures Represents(w, reported)
  {
    assert w[0] + 1 !in w;
  }

  /** `rpcc`, as far as acknowledgements go; `reported` is what update_xid_rep was given. */
  class Acks {
    var window: seq<nat>
    ghost var reported: set<nat>

    ghost predicate Valid()
      reads this
    {
      Represents(window, reported)
    }

    constructor ()
      ensures Valid() && reported == {} && window == [0]
    {
      window := [0];
      reported := {};
    }

    /** update_xid_rep; the same number may be reported any number of times. */
    method Update(xid: nat)
      requires Valid()
      modifies this
      ensures Valid() && reported == old(reported) + {xid}
    {
      hide Covers, Represents;
      RepresentsCovers(window, reported, xid);
      reported := reported + {xid};
      if xid <= window[0] { return; }
      var i := Place(window, xid);
      InsertCovers(window, old(reported), i, xid);
      window := Compress(window[..i] + [xid] + window[i..], reported);
    }
  }

  lemma RepresentsCovers(w: seq<nat>, reported: set<nat>, xid: nat)
    requires Represents(w, reported)
    ensures w != [] && Covers(w, reported)
    ensures xid <= w[0] ==> Represents(w, reported + {xid})
  {
  }
}
