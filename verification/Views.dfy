/**
  Views as Paxos decides them, their text form, and the choice of the primary.
 */
module Views {
  import opened Option
  import opened Text

  type View = seq<string>

  /** config::members: the words of the text. */
  function Members(value: string): View
    decreases |value|
  {
    var (m, rest) := ReadWord(value);
    if m == "" then [] else [m] + Members(rest)
  }

  /** config::value: each name with a blank behind it. */
  function ValueOf(v: View): string {
    if v == [] then "" else v[0] + " " + ValueOf(v[1..])
  }

  /** remove_wo: the view without m. */
  function Dropped(v: View, m: string): (r: View)
    ensures forall x :: x in r <==> x in v && x != m
  {
    if v == [] then [] else if v[0] != m then [v[0]] + Dropped(v[1..], m) else Dropped(v[1..], m)
  }

  /** set_primary; None where the code would fail its assertion. */
  function Pick(primary: string, p: View, c: View): Option<string> {
    if primary in c then Some(primary) else FirstIn(p, c)
  }

  /** The first of p, in list order, that is in c. */
  function FirstIn(p: View, c: View): (r: Option<string>)
    ensures r.Some? ==> r.value in p && r.value in c
    ensures r.Some? ==> exists k :: 0 <= k < |p| && p[k] == r.value && forall i :: 0 <= i < k ==> p[i] !in c
    ensures r.None? ==> forall x :: x in p ==> x !in c
  {
    if p == [] then None else if p[0] in c then Some(p[0]) else FirstIn(p[1..], c)
  }

  // ------------------------------------------------------------ the text form

  ghost predicate AllWords(v: View) {
    forall i :: 0 <= i < |v| ==> IsWord(v[i])
  }

  lemma {:induction false} ViewReadBack(v: View)
    requires AllWords(v)
    ensures Members(ValueOf(v)) == v
    decreases |v|
  {
    hide ReadWord;
    if v == [] {
      NothingToRead("");
    } else {
      WordThenBlank(v[0], ValueOf(v[1..]));
      ViewReadBack(v[1..]);
      SkipBlank(ValueOf(v[1..]));
    }
  }

  lemma NothingToRead(s: string)
    requires s == ""
    ensures Members(s) == []
  {
  }

  lemma WordThenBlank(w: string, rest: string)
    requires IsWord(w)
    ensures ReadWord(w + " " + rest) == (w, " " + rest)
  {
    assert w + " " + rest == w + (" " + rest);
    WordReadBack(w, " " + rest);
  }

  /** White space in front makes no difference. */
  lemma SkipBlank(s: string)
    ensures Members(" " + s) == Members(s)
  {
    var t := " " + s;
    assert t[1..] == s;
    assert SkipSpace(t) == SkipSpace(s) by {
      assert Span(IsSpace, t) == 1 + Span(IsSpace, s);
    }
  }

  lemma ReadsAWord(s: string)
    requires ReadWord(s).0 != ""
    ensures IsWord(ReadWord(s).0)
  {
  }

  /** Whatever the text, members returns words. */
  lemma {:induction false} MembersAreWords(s: string)
    ensures AllWords(Members(s))
    decreases |s|
  {
    hide ReadWord, IsWord;
    var (m, rest) := ReadWord(s);
    if m != "" {
      ReadsAWord(s);
      MembersAreWords(rest);
    }
  }

  /** The text form carries a view exactly when its names are words. */
  lemma ViewReadBackExactly(v: View)
    ensures Members(ValueOf(v)) == v <==> AllWords(v)
  {
    hide Members, ValueOf;
    MembersAreWords(ValueOf(v));
    if AllWords(v) { ViewReadBack(v); }
  }

  lemma OneWord(w: string)
    requires IsWord(w)
    ensures Members(w) == [w]
  {
    WordReadBack(w, "");
    assert w + "" == w;
    NothingToRead("");
  }

  // ------------------------------------------------------------ chains of views

  ghost predicate NoRepeats(v: View) {
    forall i, j :: 0 <= i < j < |v| ==> v[i] != v[j]
  }

  /** `add` of a node that is not a member, or `remove_wo` of another node by a member. */
  ghost predicate Follows(v: View, w: View) {
    || (exists n :: IsWord(n) && n !in v && w == v + [n])
    || (exists me, m :: me in v && m != me && w == Dropped(v, m))
  }

  /** The views 1, 2, ... since the first node started alone. */
  ghost predicate Chain(vs: seq<View>) {
    && vs != [] && |vs[0]| == 1 && IsWord(vs[0][0])
    && forall i :: 0 <= i < |vs| - 1 ==> Follows(vs[i], vs[i + 1])
  }

  lemma ChainGrows(vs: seq<View>, w: View)
    requires Chain(vs) && Follows(vs[|vs| - 1], w)
    ensures Chain(vs + [w])
  {
    hide Follows, IsWord;
    var vs' := vs + [w];
    forall i | 0 <= i < |vs'| - 1
      ensures Follows(vs'[i], vs'[i + 1])
    {
      if i < |vs| - 1 { assert vs'[i] == vs[i] && vs'[i + 1] == vs[i + 1]; }
    }
  }

  ghost predicate Sound(v: View) {
    v != [] && NoRepeats(v) && AllWords(v)
  }

  lemma {:induction false} DroppedSound(v: View, m: string)
    requires NoRepeats(v) && AllWords(v)
    ensures NoRepeats(Dropped(v, m)) && AllWords(Dropped(v, m))
  {
    hide IsWord;
    if v != [] {
      DroppedSound(v[1..], m);
      var d := Dropped(v[1..], m);
      forall i | 0 <= i < |d|
        ensures d[i] != v[0]
      {
        assert d[i] in d;
        assert d[i] in v[1..];
      }
    }
  }

  /** Without m the others keep their order. */
  lemma {:induction false} DroppedIs(v: View, m: string)
    requires NoRepeats(v)
    ensures m !in v ==> Dropped(v, m) == v
    ensures forall k :: 0 <= k < |v| && v[k] == m ==> Dropped(v, m) == v[..k] + v[k + 1..]
  {
    if v != [] {
      var t := v[1..];
      DroppedIs(t, m);
      assert v == [v[0]] + t;
      forall k | 0 <= k < |v| && v[k] == m
        ensures Dropped(v, m) == v[..k] + v[k + 1..]
      {
        if k == 0 {
          assert m !in t;
          assert v[..0] + v[1..] == t;
        } else {
          assert t[k - 1] == m && v[0] != m;
          assert [v[0]] + (t[..k - 1] + t[k..]) == v[..k] + v[k + 1..];
        }
      }
    }
  }

  lemma FollowsSound(v: View, w: View)
    requires Sound(v) && Follows(v, w)
    ensures Sound(w) && exists x :: x in v && x in w
  {
    if n :| IsWord(n) && n !in v && w == v + [n] {
      assert forall i :: 0 <= i < |v| ==> v[i] in v && w[i] == v[i];
      assert v[0] in v && w[0] in w;
    } else {
      var me, m :| me in v && m != me && w == Dropped(v, m);
      DroppedSound(v, m);
      assert me in w;
    }
  }

  /** Every view is non-empty, free of repeats and made of words, and shares a node with the one before. */
  lemma {:induction false} ChainIsSound(vs: seq<View>, i: nat)
    requires Chain(vs) && i < |vs|
    ensures Sound(vs[i]) && Members(ValueOf(vs[i])) == vs[i]
    ensures i > 0 ==> exists x :: x in vs[i - 1] && x in vs[i]
  {
    if i > 0 {
      ChainIsSound(vs, i - 1);
      FollowsSound(vs[i - 1], vs[i]);
    }
    ViewReadBack(vs[i]);
  }

  // ------------------------------------------------------------ the primary

  /** View number vid; there is no view 0. */
  ghost function ViewAt(vs: seq<View>, vid: nat): View
    requires vid <= |vs|
  {
    if vid == 0 then [] else vs[vid - 1]
  }

  /** The primary after view vid was committed. */
  ghost predicate PrimaryOk(vs: seq<View>, vid: nat, primary: string) {
    vid <= |vs| && vs != [] && |vs[0]| > 0 && if vid == 0 then primary == vs[0][0] else primary in vs[vid - 1]
  }

  /** A later view always has a primary in it, and one newly chosen comes from the view before. */
  lemma PickSucceeds(vs: seq<View>, last: nat, primary: string, vid: nat)
    requires Chain(vs) && last < vid <= |vs| && PrimaryOk(vs, last, primary)
    ensures ViewAt(vs, vid) != []
    ensures primary !in ViewAt(vs, vid) ==> ViewAt(vs, vid - 1) != []
    ensures var r := Pick(primary, ViewAt(vs, vid - 1), ViewAt(vs, vid));
            r.Some? && PrimaryOk(vs, vid, r.value) && (r.value != primary ==> r.value in ViewAt(vs, vid - 1))
  {
    ChainIsSound(vs, vid - 1);
    if vid > 1 { ChainIsSound(vs, vid - 2); }
  }

  /** The primary after the views in vids were reported one after the other; old ones are ignored. */
  ghost function PrimaryAfter(vs: seq<View>, last: nat, primary: string, vids: seq<nat>): Option<string>
    requires forall i :: 0 <= i < |vids| ==> vids[i] <= |vs|
    decreases |vids|
  {
    if vids == [] then Some(primary)
    else if vids[0] <= last then PrimaryAfter(vs, last, primary, vids[1..])
    else match Pick(primary, ViewAt(vs, vids[0] - 1), ViewAt(vs, vids[0]))
      case None => None
      case Some(p) => PrimaryAfter(vs, vids[0], p, vids[1..])
  }

  function Latest(last: nat, vids: seq<nat>): nat
    decreases |vids|
  {
    if vids == [] then last else Latest(if vids[0] > last then vids[0] else last, vids[1..])
  }

  /** However a node learns of the views, choosing the primary never fails and yields a current member. */
  lemma {:induction false} PrimaryIsCurrent(vs: seq<View>, last: nat, primary: string, vids: seq<nat>)
    requires Chain(vs) && PrimaryOk(vs, last, primary) && forall i :: 0 <= i < |vids| ==> vids[i] <= |vs|
    ensures var r := PrimaryAfter(vs, last, primary, vids); r.Some? && PrimaryOk(vs, Latest(last, vids), r.value)
    decreases |vids|
  {
    hide Chain, PrimaryOk, Pick;
    if vids != [] {
      if vids[0] <= last {
        PrimaryIsCurrent(vs, last, primary, vids[1..]);
      } else {
        PickSucceeds(vs, last, primary, vids[0]);
        var p := Pick(primary, ViewAt(vs, vids[0] - 1), ViewAt(vs, vids[0])).value;
        PrimaryIsCurrent(vs, vids[0], p, vids[1..]);
      }
    }
  }
}
