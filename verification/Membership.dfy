/**
  The objects that follow the views: `config`, which holds the current one, and `rsm`, which
  keeps a primary.
 */
module Membership {
  import opened Option
  import opened Text
  import opened Views
  import opened Ballots

  method ReadMembers(value: string) returns (view: View)
    ensures view == Members(value)
  {
    hide ReadWord;
    view := [];
    var (m, rest) := ReadWord(value);
    while m != ""
      invariant view + (if m == "" then [] else [m] + Members(rest)) == Members(value)
      decreases |rest| + |m|
    {
      view := view + [m];
      var next := ReadWord(rest);
      m, rest := next.0, next.1;
    }
  }

  lemma {:induction false} ValueOfMore(v: View, m: string)
    ensures ValueOf(v + [m]) == ValueOf(v) + m + " "
  {
    if v == [] {
      assert v + [m] == [m] && [m][1..] == [];
    } else {
      ValueOfMore(v[1..], m);
      assert (v + [m])[1..] == v[1..] + [m];
    }
  }

  lemma {:induction false} DroppedMore(v: View, x: string, m: string)
    ensures Dropped(v + [x], m) == Dropped(v, m) + if x != m then [x] else []
  {
    if v == [] {
      assert v + [x] == [x];
    } else {
      DroppedMore(v[1..], x, m);
      assert (v + [x])[1..] == v[1..] + [x];
    }
  }

  method WriteValue(v: View) returns (s: string)
    ensures s == ValueOf(v)
  {
    s := "";
    for i := 0 to |v|
      invariant s == ValueOf(v[..i])
    {
      assert v[..i + 1] == v[..i] + [v[i]];
      ValueOfMore(v[..i], v[i]);
      s := s + v[i];
      s := s + " ";
    }
    assert v[..|v|] == v;
  }

  /** The loop of set_primary. */
  method Search(p: View, c: View) returns (r: Option<string>)
    ensures r == FirstIn(p, c)
  {
    assert p[0..] == p;
    for i := 0 to |p|
      invariant FirstIn(p, c) == FirstIn(p[i..], c)
    {
      var there := IsMember(p[i], c);
      if there { return Some(p[i]); }
      assert p[i..][1..] == p[i + 1..];
    }
    r := None;
  }

  /** The decided values are the texts of the views, and there are no others. */
  ghost predicate Mirrors(values: map<nat, string>, chain: seq<View>) {
    && (forall i :: i in values <==> 1 <= i <= |chain|)
    && forall i :: i in values ==> Members(values[i]) == chain[i - 1]
  }

  /** The views a node may know of: none yet, or a chain from the first node on. */
  ghost predicate Known(chain: seq<View>, first: string) {
    chain == [] || (Chain(chain) && chain[0] == [first])
  }

  ghost function Last(chain: seq<View>): View {
    if chain == [] then [] else chain[|chain| - 1]
  }

  lemma LastIsSound(chain: seq<View>, first: string)
    requires Known(chain, first)
    ensures NoRepeats(Last(chain)) && AllWords(Last(chain))
  {
    if chain != [] { ChainIsSound(chain, |chain| - 1); }
  }

  /** What a view of words is proposed as: never the empty text, and one line. */
  lemma {:induction false} ValueIsLine(v: View)
    requires AllWords(v)
    ensures IsLine(ValueOf(v)) && (v != [] ==> ValueOf(v) != "")
    decreases |v|
  {
    if v != [] {
      ValueIsLine(v[1..]);
      assert IsSpace('\n');
    }
  }

  lemma MirrorsMore(values: map<nat, string>, chain: seq<View>, value: string)
    requires Mirrors(values, chain)
    ensures Mirrors(values[|chain| + 1 := value], chain + [Members(value)])
  {
    hide Members;
  }

  lemma FirstMirror(me: string)
    requires IsWord(me)
    ensures Mirrors(map[1 := me], [[me]])
  {
    hide Members;
    OneWord(me);
  }

  /** `config`; `values` are the acceptor's decided values, `chain` the views they stand for. */
  class Config {
    const first: string
    const me: string
    var mems: View
    var myvid: nat
    var values: map<nat, string>
    ghost var chain: seq<View>

    ghost predicate Valid()
      reads this
    {
      Known(chain, first) && myvid == |chain| && mems == Last(chain) && Mirrors(values, chain)
    }

    /**
      A node that starts with what its log holds. The first node, on an empty log, is the only
      member of view 1, and its value has no blank behind it; any other node has yet to join.
     */
    constructor (first: string, me: string, instance: nat, logged: map<nat, string>, ghost views: seq<View>)
      requires IsWord(me) && Known(views, first) && Mirrors(logged, views) && instance == |views|
      ensures Valid() && this.first == first && this.me == me
      ensures chain == if views == [] && me == first then [[me]] else views
    {
      hide Members, IsWord, Follows;
      this.first := first;
      this.me := me;
      FirstMirror(me);
      chain := if views == [] && me == first then [[me]] else views;
      values := if instance == 0 && me == first then map[1 := me] else logged;
      mems := [];
      myvid := 0;
      new;
      Reconstruct(if instance == 0 && me == first then 1 else instance);
    }

    /** reconstruct, with the acceptor's highest instance: a node that knows some view takes the last one. */
    method Reconstruct(instance: nat)
      requires Known(chain, first) && Mirrors(values, chain) && instance == |chain|
      requires instance == 0 ==> myvid == 0 && mems == []
      modifies this`mems, this`myvid
      ensures Valid()
    {
      hide Members, Chain;
      if instance > 0 {
        myvid := instance;
        mems := ReadMembers(values[myvid]);
      }
    }

    /** restore: a node takes over a log; from a node that is no less far it stands where that one does. */
    method Restore(instance: nat, logged: map<nat, string>, ghost views: seq<View>)
      requires Valid() && Known(views, first) && Mirrors(logged, views) && instance == |views|
      modifies this
      ensures values == old(values) + logged
      ensures instance > 0 ==> myvid == instance && mems == Last(views)
      ensures old(chain) <= views ==> Valid() && chain == views
    {
      hide Members, Chain;
      LaterMirror(values, chain, logged, views);
      values := values + logged;
      chain := views;
      if instance > 0 {
        myvid := instance;
        mems := ReadMembers(values[myvid]);
      }
    }

    /** A number without a view gives the empty view. */
    method GetView(vid: nat) returns (v: View)
      requires Valid()
      ensures v == if 1 <= vid <= myvid then chain[vid - 1] else []
    {
      hide Members, Chain;
      var value := if vid in values then values[vid] else "";
      if vid !in values { NothingToRead(value); }
      v := ReadMembers(value);
    }

    /** The value `add` proposes for the next view; None if the view has moved on. */
    method Add(m: string, vid: nat) returns (r: Option<string>)
      requires Valid()
      ensures r.None? <==> vid != myvid
      ensures r.Some? ==> r.value == ValueOf(mems + [m])
      ensures r.Some? && IsWord(m) ==> Members(r.value) == mems + [m] && r.value != "" && IsLine(r.value)
      ensures r.Some? && IsWord(m) && m !in mems ==> Follows(mems, Members(r.value))
    {
      hide Members, ValueOf, Mirrors, IsWord, Chain;
      if vid != myvid { return None; }
      var v := mems + [m];
      var s := WriteValue(v);
      LastIsSound(chain, first);
      if IsWord(m) {
        ViewReadBack(v);
        ValueIsLine(v);
      }
      r := Some(s);
    }

    /** The value `remove_wo` proposes. */
    method Remove(m: string) returns (s: string)
      requires Valid()
      ensures Members(s) == Dropped(mems, m) && IsLine(s)
      ensures m !in mems ==> Members(s) == mems
      ensures forall k :: 0 <= k < |mems| && mems[k] == m ==> Members(s) == mems[..k] + mems[k + 1..]
      ensures me in mems && m != me ==> Follows(mems, Members(s)) && s != ""
    {
      hide Members, ValueOf, Mirrors, IsWord, Chain;
      var n: View := [];
      for i := 0 to |mems|
        invariant n == Dropped(mems[..i], m)
      {
        assert mems[..i + 1] == mems[..i] + [mems[i]];
        DroppedMore(mems[..i], mems[i], m);
        if mems[i] != m { n := n + [mems[i]]; }
      }
      assert mems[..|mems|] == mems;
      s := WriteValue(n);
      LastIsSound(chain, first);
      DroppedSound(mems, m);
      DroppedIs(mems, m);
      ViewReadBack(n);
      ValueIsLine(n);
      if me in mems && m != me { assert me in n; }
    }

    /** paxos_commit; what a member proposed for the next view extends the chain. */
    method PaxosCommit(instance: nat, value: string)
      modifies this
      ensures mems == Members(value) && myvid == instance && values == old(values)[instance := value]
      ensures old(Valid()) && old(chain) != [] && instance == old(myvid) + 1 && Follows(old(mems), Members(value)) ==>
                Valid() && chain == old(chain) + [Members(value)]
    {
      hide Members, Follows, Chain, Mirrors;
      if Valid() && chain != [] && instance == myvid + 1 && Follows(mems, Members(value)) {
        ChainGrows(chain, Members(value));
        MirrorsMore(values, chain, value);
      }
      values := values[instance := value];
      var newmem := ReadMembers(value);
      mems := newmem;
      myvid := instance;
      chain := chain + [newmem];
    }
  }

  lemma LaterMirror(values: map<nat, string>, chain: seq<View>, logged: map<nat, string>, views: seq<View>)
    requires Mirrors(values, chain) && Mirrors(logged, views)
    ensures chain <= views ==> Mirrors(values + logged, views)
    ensures |views| > 0 ==> |views| in values + logged && Members((values + logged)[|views|]) == Last(views)
  {
    hide Members;
  }

  /** The primary stays if it is in the new view, and otherwise is the first of the old view that is. */
  ghost predicate NextPrimary(was: string, p: View, c: View, now: string) {
    if was in c then now == was
    else exists k :: 0 <= k < |p| && p[k] == now && p[k] in c && forall i :: 0 <= i < k ==> p[i] !in c
  }

  /** `rsm`, as far as the choice of the primary goes. */
  class Rsm {
    const cfg: Config
    var primary: string
    var vidCommit: nat
    var inViewChange: bool

    /** Before any view is committed the first node is primary, and afterwards a member is. */
    ghost predicate Valid()
      reads this, cfg
    {
      && cfg.Valid() && vidCommit <= cfg.myvid
      && (if vidCommit == 0 then primary == cfg.first else primary in cfg.chain[vidCommit - 1])
    }

    constructor (cfg: Config)
      requires cfg.Valid()
      ensures Valid() && this.cfg == cfg && vidCommit == 0 && primary == cfg.first
    {
      this.cfg := cfg;
      primary := cfg.first;
      inViewChange := true;
      vidCommit := 0;
    }

    /** The asserts are the source's own checks; they never fail. */
    method SetPrimary(vid: nat)
      requires Valid() && vidCommit < vid <= cfg.myvid
      modifies this`primary
      ensures Pick(old(primary), ViewAt(cfg.chain, vid - 1), ViewAt(cfg.chain, vid)) == Some(primary)
      ensures NextPrimary(old(primary), ViewAt(cfg.chain, vid - 1), ViewAt(cfg.chain, vid), primary)
      ensures primary in ViewAt(cfg.chain, vid)
      ensures primary != old(primary) ==> old(primary) !in ViewAt(cfg.chain, vid) && primary in ViewAt(cfg.chain, vid - 1)
    {
      hide Chain, Pick, Mirrors;
      PickSucceeds(cfg.chain, vidCommit, primary, vid);
      PickIs(primary, ViewAt(cfg.chain, vid - 1), ViewAt(cfg.chain, vid));
      var c := cfg.GetView(vid);
      var p := cfg.GetView(vid - 1);
      assert |c| > 0;
      var stays := IsMember(primary, c);
      if stays { return; }
      assert |p| > 0;
      var found := Search(p, c);
      if found.None? { assert false; }
      primary := found.value;
    }

    /** commit_change_wo; a view already passed is ignored. */
    method CommitChange(vid: nat)
      requires Valid() && vid <= cfg.myvid
      modifies this
      ensures Valid()
      ensures vid <= old(vidCommit) ==>
                vidCommit == old(vidCommit) && primary == old(primary) && inViewChange == old(inViewChange)
      ensures vid > old(vidCommit) ==>
                vidCommit == vid && inViewChange && primary in ViewAt(cfg.chain, vid)
      ensures vid > old(vidCommit) ==> NextPrimary(old(primary), ViewAt(cfg.chain, vid - 1), ViewAt(cfg.chain, vid), primary)
      ensures primary != old(primary) ==>
                old(primary) !in ViewAt(cfg.chain, vid) && primary in ViewAt(cfg.chain, vid - 1)
    {
      hide Chain, Pick, Mirrors;
      if vid <= vidCommit { return; }
      SetPrimary(vid);
      vidCommit := vid;
      inViewChange := true;
    }
  }

  lemma PickIs(primary: string, p: View, c: View)
    ensures Pick(primary, p, c) == if primary in c then Some(primary) else FirstIn(p, c)
  {
  }
}
