/**
  Whatever bytes arrive, what is decoded from them is a value of the type asked for.
 */
module Decoding {
  import opened Option
  import opened Marshalling

  // ------------------------------------------------------------ the order of keys

  lemma {:induction false} BytesTransitive(a: seq<Byte>, b: seq<Byte>, c: seq<Byte>)
    requires LessBytes(a, b) && LessBytes(b, c)
    ensures LessBytes(a, c)
    decreases |a|
  {
    if a != [] && a[0] == b[0] == c[0] { BytesTransitive(a[1..], b[1..], c[1..]); }
  }

  lemma {:induction false} LessTransitive(a: Value, b: Value, c: Value)
    requires Less(a, b) && Less(b, c)
    ensures Less(a, c)
    decreases a, 1, 0
  {
    match a
    case B(_) =>
    case N(_) =>
    case S(s) => BytesTransitive(s, b.s, c.s);
    case L(_) => ListTransitive(a, b, c, 0);
    case M(_) => PairsTransitive(a, b, c, 0);
  }

  lemma {:induction false} ListTransitive(a: Value, b: Value, c: Value, i: nat)
    requires a.L? && b.L? && c.L? && i <= |a.xs| && i <= |b.xs| && i <= |c.xs|
    requires LessList(a, b, i) && LessList(b, c, i)
    ensures LessList(a, c, i)
    decreases a, 0, |a.xs| - i
  {
    hide Less;
    if i < |a.xs| {
      if Less(a.xs[i], b.xs[i]) {
        if Less(b.xs[i], c.xs[i]) { LessTransitive(a.xs[i], b.xs[i], c.xs[i]); }
      } else if b.xs[i] == c.xs[i] {
        ListTransitive(a, b, c, i + 1);
      }
    }
  }

  predicate LessPair(p: Pair, q: Pair) {
    Less(p.k, q.k) || (p.k == q.k && Less(p.v, q.v))
  }

  lemma PairTransitive(p: Pair, q: Pair, r: Pair)
    requires LessPair(p, q) && LessPair(q, r)
    ensures LessPair(p, r)
    decreases p, 2, 0
  {
    hide Less;
    if Less(p.k, q.k) && Less(q.k, r.k) {
      LessTransitive(p.k, q.k, r.k);
    } else if p.k == q.k == r.k {
      LessTransitive(p.v, q.v, r.v);
    }
  }

  lemma {:induction false} PairsTransitive(a: Value, b: Value, c: Value, i: nat)
    requires a.M? && b.M? && c.M? && i <= |a.ps| && i <= |b.ps| && i <= |c.ps|
    requires LessPairs(a, b, i) && LessPairs(b, c, i)
    ensures LessPairs(a, c, i)
    decreases a, 0, |a.ps| - i
  {
    hide Less;
    if i < |a.ps| {
      var p, q, r := a.ps[i], b.ps[i], c.ps[i];
      if LessPair(p, q) {
        if LessPair(q, r) { PairTransitive(p, q, r); }
      } else if q == r {
        PairsTransitive(a, b, c, i + 1);
      }
    }
  }

  /** Keys compare with themselves as neither less nor greater. */
  lemma {:induction false} LessIrreflexive(a: Value)
    ensures !Less(a, a)
    decreases a, 1, 0
  {
    match a
    case B(_) =>
    case N(_) =>
    case S(s) => BytesIrreflexive(s);
    case L(_) => ListIrreflexive(a, 0);
    case M(_) => PairsIrreflexive(a, 0);
  }

  lemma {:induction false} BytesIrreflexive(s: seq<Byte>)
    ensures !LessBytes(s, s)
  {
    if s != [] { BytesIrreflexive(s[1..]); }
  }

  lemma {:induction false} ListIrreflexive(a: Value, i: nat)
    requires a.L? && i <= |a.xs|
    ensures !LessList(a, a, i)
    decreases a, 0, |a.xs| - i
  {
    if i < |a.xs| {
      LessIrreflexive(a.xs[i]);
      ListIrreflexive(a, i + 1);
    }
  }

  lemma {:induction false} PairsIrreflexive(a: Value, i: nat)
    requires a.M? && i <= |a.ps|
    ensures !LessPairs(a, a, i)
    decreases a, 0, |a.ps| - i
  {
    if i < |a.ps| {
      LessIrreflexive(a.ps[i].k);
      LessIrreflexive(a.ps[i].v);
      PairsIrreflexive(a, i + 1);
    }
  }

  // ------------------------------------------------------------ maps stay maps

  /** d[k] = v keeps the keys ascending, adds at most one pair and changes no other key. */
  lemma {:induction false} InsertKeeps(ps: seq<Pair>, k: Value, v: Value)
    requires KeysAscend(ps)
    ensures KeysAscend(Insert(ps, k, v)) && |Insert(ps, k, v)| <= |ps| + 1
    ensures forall q :: q in Insert(ps, k, v) ==> q == Pair(k, v) || q in ps || exists p :: p in ps && q == Pair(p.k, v)
  {
    hide Less;
    if ps != [] {
      var first, rest := ps[0], ps[1..];
      InsertKeeps(rest, k, v);
      if Less(first.k, k) {
        forall q | q in Insert(rest, k, v)
          ensures Less(first.k, q.k)
        {
          if q != Pair(k, v) {
            var p :| p in rest && p.k == q.k;
            var i :| 0 <= i < |rest| && rest[i] == p;
            assert ps[i + 1] == p;
          }
        }
      } else if Less(k, first.k) {
        forall q | q in ps
          ensures Less(k, q.k)
        {
          var i :| 0 <= i < |ps| && ps[i] == q;
          if i > 0 { LessTransitive(k, first.k, q.k); }
        }
      }
    }
  }

  /** Afterwards k has the value v, and every pair of another key is still there. */
  lemma {:induction false} InsertSets(ps: seq<Pair>, k: Value, v: Value)
    ensures exists q :: q in Insert(ps, k, v) && !Less(q.k, k) && !Less(k, q.k) && q.v == v
    ensures forall p :: p in ps && (Less(p.k, k) || Less(k, p.k)) ==> p in Insert(ps, k, v)
  {
    hide Less;
    LessIrreflexive(k);
    var r := Insert(ps, k, v);
    if ps == [] {
      assert r[0] == Pair(k, v);
    } else if Less(ps[0].k, k) {
      InsertSets(ps[1..], k, v);
      var q :| q in Insert(ps[1..], k, v) && !Less(q.k, k) && !Less(k, q.k) && q.v == v;
      assert q in r && r[0] == ps[0];
    } else if Less(k, ps[0].k) {
      assert r[0] == Pair(k, v);
    } else {
      assert r[0] == Pair(ps[0].k, v) && r[0] in r;
    }
  }

  // ------------------------------------------------------------ decoded values

  lemma IntInRange(k: IntKind, s: seq<Byte>)
    requires ReadNumber(Width(k), s).Some?
    ensures InRange(k, FromUnsigned(k, ReadNumber(Width(k), s).value.0))
  {
    hide Number, Pow256;
    Powers();
    NumberBelow(s[..Width(k)]);
  }

  /** Every successful read yields a value of its type: sizes fit, and map keys ascend. */
  lemma {:induction false} DecodedHasType(t: Type, s: seq<Byte>)
    requires Decode(t, s).Some?
    ensures HasType(t, Decode(t, s).value.0)
    decreases t, 1, 0
  {
    hide Number, InRange, FromUnsigned, Less;
    match t
    case Bool =>
    case Int(k) => IntInRange(k, s);
    case Str => SizeBelow(s);
    case Vec(e) =>
      SizeBelow(s);
      var (n, r) := ReadNumber(4, s).value;
      ElemsHaveType(t, n, r, []);
    case Map(k, e) =>
      SizeBelow(s);
      var (n, r) := ReadNumber(4, s).value;
      PairsHaveType(t, n, r, []);
  }

  lemma {:induction false} ElemsHaveType(t: Type, n: nat, s: seq<Byte>, xs: seq<Value>)
    requires t.Vec? && DecodeElems(t, n, s, xs).Some? && |xs| + n < LIMIT
    requires forall i :: 0 <= i < |xs| ==> HasType(t.elem, xs[i])
    ensures HasType(t, DecodeElems(t, n, s, xs).value.0)
    decreases t, 0, n
  {
    hide Decode;
    if n > 0 {
      var (x, r) := Decode(t.elem, s).value;
      DecodedHasType(t.elem, s);
      ElemsHaveType(t, n - 1, r, xs + [x]);
    }
  }

  lemma {:induction false} PairsHaveType(t: Type, n: nat, s: seq<Byte>, ps: seq<Pair>)
    requires t.Map? && DecodePairs(t, n, s, ps).Some? && |ps| + n < LIMIT && KeysAscend(ps)
    requires forall i :: 0 <= i < |ps| ==> HasType(t.key, ps[i].k) && HasType(t.val, ps[i].v)
    ensures HasType(t, DecodePairs(t, n, s, ps).value.0)
    decreases t, 0, n
  {
    hide Decode, Insert, Less;
    if n > 0 {
      var (k, r) := Decode(t.key, s).value;
      DecodedHasType(t.key, s);
      var (v, r1) := Decode(t.val, r).value;
      DecodedHasType(t.val, r);
      InsertKeeps(ps, k, v);
      var ps' := Insert(ps, k, v);
      forall i | 0 <= i < |ps'|
        ensures HasType(t.key, ps'[i].k) && HasType(t.val, ps'[i].v)
      {
        assert ps'[i] in ps';
      }
      PairsHaveType(t, n - 1, r1, ps');
    }
  }

  /** Decoding is idempotent: what was read can be written and read again, and is the same. */
  lemma ReadWriteRead(t: Type, s: seq<Byte>, rest: seq<Byte>)
    requires Decode(t, s).Some?
    ensures HasType(t, Decode(t, s).value.0)
    ensures Decode(t, Encode(t, Decode(t, s).value.0) + rest) == Some((Decode(t, s).value.0, rest))
  {
    hide Decode, Encode, HasType;
    DecodedHasType(t, s);
    ValueReadBack(t, Decode(t, s).value.0, rest);
  }
}
