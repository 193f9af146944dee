/**
  The bytes on the wire and the order of map keys, said outright: what another program that speaks
  the protocol has to agree with.
 */
module WireFormat {
  import opened Option
  import opened Marshalling
  import opened Buffers

  /** The four bytes of a number below 2^32, highest first. */
  function Quad(x: nat): (r: seq<Byte>)
    requires x < 0x1_0000_0000
  {
    [x / 0x100_0000, x / 0x1_0000 % 256, x / 0x100 % 256, x % 256]
  }

  lemma FourBytes(x: nat)
    requires x < 0x1_0000_0000
    ensures BigEndian(x, 4) == Quad(x)
  {
    var x1, x2, x3 := x / 256, x / 0x1_0000, x / 0x100_0000;
    assert x1 / 256 == x2 && x2 / 256 == x3 && x3 % 256 == x3;
    assert BigEndian(x3, 1) == BigEndian(x3 / 256, 0) + [x3];
    assert BigEndian(x2, 2) == BigEndian(x3, 1) + [x2 % 256];
    assert BigEndian(x1, 3) == BigEndian(x2, 2) + [x1 % 256];
    assert BigEndian(x, 4) == BigEndian(x1, 3) + [x % 256];
  }

  lemma TwoBytes(x: nat)
    requires x < 0x1_0000
    ensures BigEndian(x, 2) == [x / 256, x % 256]
  {
    assert BigEndian(x / 256, 1) == BigEndian(x / 256 / 256, 0) + [x / 256 % 256];
    assert BigEndian(x, 2) == BigEndian(x / 256, 1) + [x % 256];
  }

  /** A header field or a length. */
  lemma WordBytes(x: int)
    ensures Word(x) == Quad(x % 0x1_0000_0000)
  {
    hide BigEndian;
    FourBytes(x % 0x1_0000_0000);
  }

  /** The range and the bytes of an unsigned integer of each width. */
  lemma UnsignedBytes(x: nat)
    ensures InRange(U8, x) <==> x < 0x100
    ensures x < 0x100 ==> Encode(Int(U8), N(x)) == [x]
    ensures InRange(U16, x) <==> x < 0x1_0000
    ensures x < 0x1_0000 ==> Encode(Int(U16), N(x)) == [x / 256, x % 256]
    ensures InRange(U32, x) <==> x < 0x1_0000_0000
    ensures x < 0x1_0000_0000 ==> Encode(Int(U32), N(x)) == Quad(x)
  {
    hide Pow256, Quad;
    Powers();
    if x < 0x100 { assert BigEndian(x, 1) == BigEndian(x / 256, 0) + [x % 256]; }
    if x < 0x1_0000 { TwoBytes(x); }
    if x < 0x1_0000_0000 { FourBytes(x); }
  }

  /** A 64-bit integer is two words, the higher first. */
  lemma LongBytes(x: nat)
    ensures InRange(U64, x) <==> x < 0x1_0000_0000_0000_0000
    ensures x < 0x1_0000_0000_0000_0000 ==>
              Encode(Int(U64), N(x)) == Quad(x / 0x1_0000_0000) + Quad(x % 0x1_0000_0000)
  {
    hide Pow256, BigEndian, Quad;
    Powers();
    if x < 0x1_0000_0000_0000_0000 {
      WideIs(x);
      WordBytes(x / 0x1_0000_0000);
      WordBytes(x);
    }
  }

  /** The cast of a signed integer to unsigned is the residue modulo its width. */
  lemma Casts(x: int)
    ensures InRange(I8, x) <==> -0x80 <= x < 0x80
    ensures InRange(I16, x) <==> -0x8000 <= x < 0x8000
    ensures InRange(I32, x) <==> -0x8000_0000 <= x < 0x8000_0000
    ensures InRange(I8, x) ==> Unsigned(I8, x) == x % 0x100
    ensures InRange(I16, x) ==> Unsigned(I16, x) == x % 0x1_0000
    ensures InRange(I32, x) ==> Unsigned(I32, x) == x % 0x1_0000_0000
  {
    hide Pow256;
    Powers();
  }

  /** A signed integer is written as the unsigned one that is equal to it modulo its width. */
  lemma SignedBytes(x: int)
    ensures InRange(I8, x) <==> -0x80 <= x < 0x80
    ensures -0x80 <= x < 0x80 ==> Encode(Int(I8), N(x)) == [x % 0x100]
    ensures InRange(I16, x) <==> -0x8000 <= x < 0x8000
    ensures -0x8000 <= x < 0x8000 ==> Encode(Int(I16), N(x)) == [x % 0x1_0000 / 256, x % 0x1_0000 % 256]
    ensures InRange(I32, x) <==> -0x8000_0000 <= x < 0x8000_0000
    ensures -0x8000_0000 <= x < 0x8000_0000 ==> Encode(Int(I32), N(x)) == Quad(x % 0x1_0000_0000)
  {
    hide InRange, Unsigned, BigEndian, Quad;
    Casts(x);
    if -0x80 <= x < 0x80 { ByteIs(x % 0x100); }
    if -0x8000 <= x < 0x8000 { TwoBytes(x % 0x1_0000); }
    if -0x8000_0000 <= x < 0x8000_0000 { FourBytes(x % 0x1_0000_0000); }
  }

  /** A truth value is one byte; any byte but 0 reads as true. */
  lemma BoolBytes(b: bool, x: Byte, rest: seq<Byte>)
    ensures Encode(Bool, B(b)) == [if b then 1 else 0]
    ensures Decode(Bool, [x] + rest) == Some((B(x != 0), rest))
  {
    var s := [x] + rest;
    assert s[..1] == [x] && s[1..] == rest;
    assert Number([x]) == Number([x][..0]) * 256 + x;
  }

  function Flat(ss: seq<seq<Byte>>): seq<Byte> {
    if ss == [] then [] else ss[0] + Flat(ss[1..])
  }

  ghost function Elements(t: Type, xs: seq<Value>): (ss: seq<seq<Byte>>)
    requires forall i :: 0 <= i < |xs| ==> HasType(t, xs[i])
    ensures |ss| == |xs| && forall i :: 0 <= i < |xs| ==> ss[i] == Encode(t, xs[i])
  {
    seq(|xs|, i requires 0 <= i < |xs| => Encode(t, xs[i]))
  }

  ghost function Pairs(k: Type, v: Type, ps: seq<Pair>): (ss: seq<seq<Byte>>)
    requires forall i :: 0 <= i < |ps| ==> HasType(k, ps[i].k) && HasType(v, ps[i].v)
    ensures |ss| == |ps| && forall i :: 0 <= i < |ps| ==> ss[i] == Encode(k, ps[i].k) + Encode(v, ps[i].v)
  {
    seq(|ps|, i requires 0 <= i < |ps| => Encode(k, ps[i].k) + Encode(v, ps[i].v))
  }

  lemma {:induction false} FlatElements(t: Type, xs: seq<Value>)
    requires t.Vec? && forall i :: 0 <= i < |xs| ==> HasType(t.elem, xs[i])
    ensures EncodeElems(t, xs) == Flat(Elements(t.elem, xs))
    decreases |xs|
  {
    hide Encode, HasType;
    if xs != [] {
      FlatElements(t, xs[1..]);
      assert Elements(t.elem, xs)[1..] == Elements(t.elem, xs[1..]);
    }
  }

  lemma {:induction false} FlatPairs(t: Type, ps: seq<Pair>)
    requires t.Map? && forall i :: 0 <= i < |ps| ==> HasType(t.key, ps[i].k) && HasType(t.val, ps[i].v)
    ensures EncodePairs(t, ps) == Flat(Pairs(t.key, t.val, ps))
    decreases |ps|
  {
    hide Encode, HasType;
    if ps != [] {
      FlatPairs(t, ps[1..]);
      assert Pairs(t.key, t.val, ps)[1..] == Pairs(t.key, t.val, ps[1..]);
    }
  }

  /** Strings, vectors and maps: a four-byte count, then what they hold, in order. */
  lemma CountedBytes(s: seq<Byte>, e: Type, xs: seq<Value>, k: Type, ps: seq<Pair>)
    requires HasType(Str, S(s)) && HasType(Vec(e), L(xs)) && HasType(Map(k, e), M(ps))
    ensures Encode(Str, S(s)) == Quad(|s|) + s
    ensures Encode(Vec(e), L(xs)) == Quad(|xs|) + Flat(Elements(e, xs))
    ensures Encode(Map(k, e), M(ps)) == Quad(|ps|) + Flat(Pairs(k, e, ps))
  {
    hide BigEndian, Quad, Flat, EncodeElems, EncodePairs;
    FourBytes(|s|);
    FourBytes(|xs|);
    FourBytes(|ps|);
    FlatElements(Vec(e), xs);
    FlatPairs(Map(k, e), ps);
  }

  // ------------------------------------------------------------ the order of keys

  lemma {:induction false} BytesOrder(s: seq<Byte>, t: seq<Byte>)
    ensures LessBytes(s, t) <==>
              exists k :: 0 <= k <= |s| && k < |t| && s[..k] == t[..k] && (k == |s| || s[k] < t[k])
    decreases |s|
  {
    if s != [] && t != [] && s[0] == t[0] {
      var s1, t1 := s[1..], t[1..];
      BytesOrder(s1, t1);
      if LessBytes(s, t) {
        var k :| 0 <= k <= |s1| && k < |t1| && s1[..k] == t1[..k] && (k == |s1| || s1[k] < t1[k]);
        assert s[..k + 1] == [s[0]] + s1[..k] && t[..k + 1] == [t[0]] + t1[..k];
      }
      if k :| 0 <= k <= |s| && k < |t| && s[..k] == t[..k] && (k == |s| || s[k] < t[k]) {
        assert k > 0;
        assert s1[..k - 1] == s[..k][1..] && t1[..k - 1] == t[..k][1..];
      }
    } else if t != [] && LessBytes(s, t) {
      assert s[..0] == t[..0];
    }
  }

  /** The two lists agree from i up to k, where the second goes on. */
  ghost predicate Same<T>(xs: seq<T>, ys: seq<T>, i: nat, k: nat) {
    i <= k <= |xs| && k < |ys| && xs[i..k] == ys[i..k]
  }

  lemma SameNone<T>(xs: seq<T>, ys: seq<T>, i: nat)
    requires i <= |xs| && i < |ys|
    ensures Same(xs, ys, i, i)
  {
  }

  lemma SameMore<T>(xs: seq<T>, ys: seq<T>, i: nat, k: nat)
    requires i < |xs| && i < |ys|
    ensures Same(xs, ys, i, k) <==> k == i || (xs[i] == ys[i] && Same(xs, ys, i + 1, k))
  {
    if i < k <= |xs| && k < |ys| {
      assert xs[i..k] == [xs[i]] + xs[i + 1..k] && ys[i..k] == [ys[i]] + ys[i + 1..k];
    }
  }

  /** The first list ends at k or is lower there. */
  ghost predicate LowerAt(xs: seq<Value>, ys: seq<Value>, i: nat, k: nat) {
    Same(xs, ys, i, k) && (k == |xs| || Less(xs[k], ys[k]))
  }

  lemma {:induction false} ListOrder(a: Value, b: Value, i: nat)
    requires a.L? && b.L? && i <= |a.xs| && i <= |b.xs|
    ensures LessList(a, b, i) <==> exists k: nat :: LowerAt(a.xs, b.xs, i, k)
    decreases |a.xs| - i
  {
    hide Less;
    var xs, ys := a.xs, b.xs;
    if i < |ys| { SameNone(xs, ys, i); }
    if i < |xs| && i < |ys| {
      ListOrder(a, b, i + 1);
      if xs[i] == ys[i] && LessList(a, b, i + 1) {
        var k: nat :| LowerAt(xs, ys, i + 1, k);
        SameMore(xs, ys, i, k);
        assert LowerAt(xs, ys, i, k);
      }
      if Less(xs[i], ys[i]) { assert LowerAt(xs, ys, i, i); }
      if k: nat :| LowerAt(xs, ys, i, k) {
        SameMore(xs, ys, i, k);
        assert k > i ==> LowerAt(xs, ys, i + 1, k);
      }
    } else {
      if i < |ys| { assert LowerAt(xs, ys, i, i); }
    }
  }

  /** The order of pairs: by the key, and for equal keys by the value. */
  predicate LessPair(p: Pair, q: Pair) {
    Less(p.k, q.k) || (p.k == q.k && Less(p.v, q.v))
  }

  ghost predicate PairLowerAt(xs: seq<Pair>, ys: seq<Pair>, i: nat, k: nat) {
    Same(xs, ys, i, k) && (k == |xs| || LessPair(xs[k], ys[k]))
  }

  lemma {:induction false} PairsOrder(a: Value, b: Value, i: nat)
    requires a.M? && b.M? && i <= |a.ps| && i <= |b.ps|
    ensures LessPairs(a, b, i) <==> exists k: nat :: PairLowerAt(a.ps, b.ps, i, k)
    decreases |a.ps| - i
  {
    hide Less;
    var xs, ys := a.ps, b.ps;
    if i < |ys| { SameNone(xs, ys, i); }
    if i < |xs| && i < |ys| {
      PairsOrder(a, b, i + 1);
      if xs[i] == ys[i] && LessPairs(a, b, i + 1) {
        var k: nat :| PairLowerAt(xs, ys, i + 1, k);
        SameMore(xs, ys, i, k);
        assert PairLowerAt(xs, ys, i, k);
      }
      if LessPair(xs[i], ys[i]) { assert PairLowerAt(xs, ys, i, i); }
      if k: nat :| PairLowerAt(xs, ys, i, k) {
        SameMore(xs, ys, i, k);
        assert k > i ==> PairLowerAt(xs, ys, i + 1, k);
      }
    } else {
      if i < |ys| { assert PairLowerAt(xs, ys, i, i); }
    }
  }

  /** Numbers by size, false before true; strings, vectors and maps by their first difference, a prefix first. */
  lemma KeyOrder(x: int, y: int, b: bool, c: bool, s: seq<Byte>, t: seq<Byte>, xs: seq<Value>, ys: seq<Value>, ps: seq<Pair>, qs: seq<Pair>)
    ensures Less(N(x), N(y)) <==> x < y
    ensures Less(B(b), B(c)) <==> !b && c
    ensures Less(S(s), S(t)) <==>
              exists k :: 0 <= k <= |s| && k < |t| && s[..k] == t[..k] && (k == |s| || s[k] < t[k])
    ensures Less(L(xs), L(ys)) <==>
              exists k: nat :: LowerAt(xs, ys, 0, k)
    ensures Less(M(ps), M(qs)) <==>
              exists k: nat :: PairLowerAt(ps, qs, 0, k)
  {
    hide LessBytes, LessList, LessPairs, LessPair;
    BytesOrder(s, t);
    ListOrder(L(xs), L(ys), 0);
    PairsOrder(M(ps), M(qs), 0);
  }
}
