/**
  The wire format of RPC arguments: how typed values become bytes and bytes become values.
 */
module Marshalling {
  import opened Option

  type Byte = x: nat | x < 256

  datatype IntKind = U8 | I8 | U16 | I16 | U32 | I32 | U64

  /** The C++ types that have stream operators; a vector or map may hold any of them. */
  datatype Type = Bool | Int(kind: IntKind) | Str | Vec(elem: Type) | Map(key: Type, val: Type)

  /** A map is the list of its pairs in iteration order. */
  datatype Value = B(b: bool) | N(x: int) | S(s: seq<Byte>) | L(xs: seq<Value>) | M(ps: seq<Pair>)
  datatype Pair = Pair(k: Value, v: Value)

  const LIMIT := 0x1_0000_0000

  // ------------------------------------------------------------ order of map keys

  /** operator<, lexicographic on strings, vectors and maps. */
  predicate Less(a: Value, b: Value)
    decreases a, 1, 0
  {
    match a
    case B(x) => b.B? && !x && b.b
    case N(x) => b.N? && x < b.x
    case S(s) => b.S? && LessBytes(s, b.s)
    case L(xs) => b.L? && LessList(a, b, 0)
    case M(ps) => b.M? && LessPairs(a, b, 0)
  }

  predicate LessBytes(s: seq<Byte>, t: seq<Byte>)
    decreases |s|
  {
    t != [] && (s == [] || s[0] < t[0] || (s[0] == t[0] && LessBytes(s[1..], t[1..])))
  }

  predicate LessList(a: Value, b: Value, i: nat)
    requires a.L? && b.L? && i <= |a.xs| && i <= |b.xs|
    decreases a, 0, |a.xs| - i
  {
    i < |b.xs| &&
    (i == |a.xs| || Less(a.xs[i], b.xs[i]) || (a.xs[i] == b.xs[i] && LessList(a, b, i + 1)))
  }

  predicate LessPairs(a: Value, b: Value, i: nat)
    requires a.M? && b.M? && i <= |a.ps| && i <= |b.ps|
    decreases a, 0, |a.ps| - i
  {
    i < |b.ps| &&
    (i == |a.ps| || Less(a.ps[i].k, b.ps[i].k)
     || (a.ps[i].k == b.ps[i].k && Less(a.ps[i].v, b.ps[i].v))
     || (a.ps[i] == b.ps[i] && LessPairs(a, b, i + 1)))
  }

  predicate KeysAscend(ps: seq<Pair>) {
    forall i, j :: 0 <= i < j < |ps| ==> Less(ps[i].k, ps[j].k)
  }

  /** d[k] = v. */
  function Insert(ps: seq<Pair>, k: Value, v: Value): seq<Pair> {
    if ps == [] then [Pair(k, v)]
    else if Less(ps[0].k, k) then [ps[0]] + Insert(ps[1..], k, v)
    else if Less(k, ps[0].k) then [Pair(k, v)] + ps
    else [Pair(ps[0].k, v)] + ps[1..]
  }

  // ------------------------------------------------------------ numbers

  function Pow256(w: nat): (p: nat)
    ensures p > 0
  {
    if w == 0 then 1 else 256 * Pow256(w - 1)
  }

  function BigEndian(x: nat, w: nat): (r: seq<Byte>)
    ensures |r| == w
  {
    if w == 0 then [] else BigEndian(x / 256, w - 1) + [x % 256]
  }

  function Number(s: seq<Byte>): nat {
    if s == [] then 0 else Number(s[..|s| - 1]) * 256 + s[|s| - 1]
  }

  function Width(k: IntKind): (w: nat)
    ensures w > 0
  {
    match k
    case U8 => 1
    case I8 => 1
    case U16 => 2
    case I16 => 2
    case U32 => 4
    case I32 => 4
    case U64 => 8
  }

  predicate Signed(k: IntKind) {
    k.I8? || k.I16? || k.I32?
  }

  predicate InRange(k: IntKind, x: int) {
    var p := Pow256(Width(k));
    if Signed(k) then -(p / 2) <= x < p / 2 else 0 <= x < p
  }

  /** The cast to unsigned, and back. */
  function Unsigned(k: IntKind, x: int): (u: nat)
    requires InRange(k, x)
    ensures u < Pow256(Width(k))
  {
    if x < 0 then x + Pow256(Width(k)) else x
  }

  function FromUnsigned(k: IntKind, u: nat): int {
    var p := Pow256(Width(k));
    if Signed(k) && u >= p / 2 then u - p else u
  }

  // ------------------------------------------------------------ typed values

  /** A value of the type; sizes fit the 32-bit length prefix. */
  ghost predicate HasType(t: Type, v: Value)
    decreases t
  {
    match t
    case Bool => v.B?
    case Int(k) => v.N? && InRange(k, v.x)
    case Str => v.S? && |v.s| < LIMIT
    case Vec(e) => v.L? && |v.xs| < LIMIT && forall i :: 0 <= i < |v.xs| ==> HasType(e, v.xs[i])
    case Map(k, e) =>
      && v.M? && |v.ps| < LIMIT && KeysAscend(v.ps)
      && forall i :: 0 <= i < |v.ps| ==> HasType(k, v.ps[i].k) && HasType(e, v.ps[i].v)
  }

  ghost function Encode(t: Type, v: Value): seq<Byte>
    requires HasType(t, v)
    decreases t, 1, 0
  {
    match t
    case Bool => [if v.b then 1 else 0]
    case Int(k) => BigEndian(Unsigned(k, v.x), Width(k))
    case Str => BigEndian(|v.s|, 4) + v.s
    case Vec(e) => BigEndian(|v.xs|, 4) + EncodeElems(t, v.xs)
    case Map(k, e) => BigEndian(|v.ps|, 4) + EncodePairs(t, v.ps)
  }

  ghost function EncodeElems(t: Type, xs: seq<Value>): seq<Byte>
    requires t.Vec? && forall i :: 0 <= i < |xs| ==> HasType(t.elem, xs[i])
    decreases t, 0, |xs|
  {
    if xs == [] then [] else Encode(t.elem, xs[0]) + EncodeElems(t, xs[1..])
  }

  ghost function EncodePairs(t: Type, ps: seq<Pair>): seq<Byte>
    requires t.Map? && forall i :: 0 <= i < |ps| ==> HasType(t.key, ps[i].k) && HasType(t.val, ps[i].v)
    decreases t, 0, |ps|
  {
    if ps == [] then []
    else Encode(t.key, ps[0].k) + Encode(t.val, ps[0].v) + EncodePairs(t, ps[1..])
  }

  /** None once the ok flag has dropped; otherwise the value and the bytes not read yet. */
  type Read<T> = Option<(T, seq<Byte>)>

  function ReadBytes(n: nat, s: seq<Byte>): Read<seq<Byte>> {
    if n <= |s| then Some((s[..n], s[n..])) else None
  }

  function ReadNumber(w: nat, s: seq<Byte>): Read<nat> {
    if w <= |s| then Some((Number(s[..w]), s[w..])) else None
  }

  function Decode(t: Type, s: seq<Byte>): Read<Value>
    decreases t, 1, 0
  {
    match t
    case Bool => (match ReadNumber(1, s) case None => None case Some((x, r)) => Some((B(x != 0), r)))
    case Int(k) =>
      (match ReadNumber(Width(k), s) case None => None case Some((x, r)) => Some((N(FromUnsigned(k, x)), r)))
    case Str => (match ReadNumber(4, s) case None => None case Some((n, r)) =>
      (match ReadBytes(n, r) case None => None case Some((b, r1)) => Some((S(b), r1))))
    case Vec(e) => (match ReadNumber(4, s) case None => None case Some((n, r)) => DecodeElems(t, n, r, []))
    case Map(k, e) => (match ReadNumber(4, s) case None => None case Some((n, r)) => DecodePairs(t, n, r, []))
  }

  /** The loop that pushes n elements. */
  function DecodeElems(t: Type, n: nat, s: seq<Byte>, xs: seq<Value>): Read<Value>
    requires t.Vec?
    decreases t, 0, n
  {
    if n == 0 then Some((L(xs), s))
    else match Decode(t.elem, s)
      case None => None
      case Some((x, r)) => DecodeElems(t, n - 1, r, xs + [x])
  }

  /** The loop that inserts n pairs. */
  function DecodePairs(t: Type, n: nat, s: seq<Byte>, ps: seq<Pair>): Read<Value>
    requires t.Map?
    decreases t, 0, n
  {
    if n == 0 then Some((M(ps), s))
    else match Decode(t.key, s)
      case None => None
      case Some((k, r)) => match Decode(t.val, r)
        case None => None
        case Some((v, r1)) => DecodePairs(t, n - 1, r1, Insert(ps, k, v))
  }

  // ------------------------------------------------------------ round trip of one value

  lemma {:induction false} NumberReadBack(x: nat, w: nat)
    requires x < Pow256(w)
    ensures Number(BigEndian(x, w)) == x
  {
    if w > 0 {
      NumberReadBack(x / 256, w - 1);
      var r := BigEndian(x, w);
      assert r[..|r| - 1] == BigEndian(x / 256, w - 1);
    }
  }

  lemma ReadNumberBack(x: nat, w: nat, rest: seq<Byte>)
    requires x < Pow256(w)
    ensures ReadNumber(w, BigEndian(x, w) + rest) == Some((x, rest))
  {
    NumberReadBack(x, w);
    var s := BigEndian(x, w) + rest;
    assert s[..w] == BigEndian(x, w) && s[w..] == rest;
  }

  lemma Powers()
    ensures Pow256(1) == 0x100 && Pow256(2) == 0x1_0000 && Pow256(4) == LIMIT && Pow256(8) == LIMIT * LIMIT
  {
    assert Pow256(2) == 256 * Pow256(1);
    assert Pow256(3) == 256 * Pow256(2);
    assert Pow256(4) == 256 * Pow256(3);
    assert Pow256(5) == 256 * Pow256(4);
    assert Pow256(6) == 256 * Pow256(5);
    assert Pow256(7) == 256 * Pow256(6);
    assert Pow256(8) == 256 * Pow256(7);
  }

  lemma CastBack(k: IntKind, x: int)
    requires InRange(k, x)
    ensures FromUnsigned(k, Unsigned(k, x)) == x
  {
    Powers();
  }

  /** A size prefix is read back. */
  lemma ReadSize(n: nat, rest: seq<Byte>)
    requires n < LIMIT
    ensures ReadNumber(4, BigEndian(n, 4) + rest) == Some((n, rest))
  {
    Powers();
    ReadNumberBack(n, 4, rest);
  }

  lemma {:induction false} NumberBelow(s: seq<Byte>)
    ensures Number(s) < Pow256(|s|)
  {
    if s != [] { NumberBelow(s[..|s| - 1]); }
  }

  lemma SizeBelow(s: seq<Byte>)
    requires ReadNumber(4, s).Some?
    ensures ReadNumber(4, s).value.0 < LIMIT
  {
    hide Number, Pow256;
    Powers();
    NumberBelow(s[..4]);
  }

  /** Whatever follows, an encoded value is read back and exactly its bytes are consumed. */
  lemma {:induction false} ValueReadBack(t: Type, v: Value, rest: seq<Byte>)
    requires HasType(t, v)
    ensures Decode(t, Encode(t, v) + rest) == Some((v, rest))
    decreases t, 1, 0
  {
    hide BigEndian, Number, ReadNumber, Less, InRange, Unsigned, FromUnsigned;
    match t
    case Bool => BoolReadBack(v.b, rest);
    case Int(k) => ReadNumberBack(Unsigned(k, v.x), Width(k), rest); CastBack(k, v.x);
    case Str =>
      assert BigEndian(|v.s|, 4) + v.s + rest == BigEndian(|v.s|, 4) + (v.s + rest);
      ReadSize(|v.s|, v.s + rest);
      assert (v.s + rest)[..|v.s|] == v.s && (v.s + rest)[|v.s|..] == rest;
    case Vec(e) =>
      var s := EncodeElems(t, v.xs);
      assert BigEndian(|v.xs|, 4) + s + rest == BigEndian(|v.xs|, 4) + (s + rest);
      ReadSize(|v.xs|, s + rest);
      assert [] + v.xs == v.xs;
      ElemsReadBack(t, [], v.xs, rest);
    case Map(k, e) =>
      var s := EncodePairs(t, v.ps);
      assert BigEndian(|v.ps|, 4) + s + rest == BigEndian(|v.ps|, 4) + (s + rest);
      ReadSize(|v.ps|, s + rest);
      assert [] + v.ps == v.ps;
      PairsReadBack(t, [], v.ps, rest);
  }

  lemma BoolReadBack(b: bool, rest: seq<Byte>)
    ensures Decode(Bool, Encode(Bool, B(b)) + rest) == Some((B(b), rest))
  {
    var x: Byte := if b then 1 else 0;
    var s := [x] + rest;
    assert s[..1] == [x] && s[1..] == rest;
    assert Number([x]) == Number([]) * 256 + x by { assert [x][..0] == []; }
  }

  lemma {:induction false} ElemsReadBack(t: Type, done: seq<Value>, xs: seq<Value>, rest: seq<Byte>)
    requires t.Vec? && forall i :: 0 <= i < |xs| ==> HasType(t.elem, xs[i])
    ensures DecodeElems(t, |xs|, EncodeElems(t, xs) + rest, done) == Some((L(done + xs), rest))
    decreases t, 0, |xs|
  {
    hide Decode, Encode, HasType;
    if xs == [] {
      assert done + xs == done && EncodeElems(t, xs) + rest == rest;
    } else {
      var tail := EncodeElems(t, xs[1..]);
      assert EncodeElems(t, xs) + rest == Encode(t.elem, xs[0]) + (tail + rest);
      ValueReadBack(t.elem, xs[0], tail + rest);
      ElemsReadBack(t, done + [xs[0]], xs[1..], rest);
      assert done + [xs[0]] + xs[1..] == done + xs;
    }
  }

  lemma {:induction false} InsertLast(ps: seq<Pair>, k: Value, v: Value)
    requires forall i :: 0 <= i < |ps| ==> Less(ps[i].k, k)
    ensures Insert(ps, k, v) == ps + [Pair(k, v)]
  {
    if ps != [] {
      InsertLast(ps[1..], k, v);
      assert [ps[0]] + (ps[1..] + [Pair(k, v)]) == ps + [Pair(k, v)];
    }
  }

  lemma {:induction false} PairsReadBack(t: Type, done: seq<Pair>, ps: seq<Pair>, rest: seq<Byte>)
    requires t.Map? && forall i :: 0 <= i < |ps| ==> HasType(t.key, ps[i].k) && HasType(t.val, ps[i].v)
    requires KeysAscend(done + ps)
    ensures DecodePairs(t, |ps|, EncodePairs(t, ps) + rest, done) == Some((M(done + ps), rest))
    decreases t, 0, |ps|
  {
    hide Decode, Encode, HasType, Less;
    if ps == [] {
      assert done + ps == done && EncodePairs(t, ps) + rest == rest;
    } else {
      var p, tail := ps[0], EncodePairs(t, ps[1..]);
      assert EncodePairs(t, ps) + rest == Encode(t.key, p.k) + (Encode(t.val, p.v) + (tail + rest));
      ValueReadBack(t.key, p.k, Encode(t.val, p.v) + (tail + rest));
      ValueReadBack(t.val, p.v, tail + rest);
      forall i | 0 <= i < |done|
        ensures Less(done[i].k, p.k)
      {
        assert (done + ps)[i] == done[i] && (done + ps)[|done|] == p;
      }
      InsertLast(done, p.k, p.v);
      assert done + [p] + ps[1..] == done + ps;
      PairsReadBack(t, done + [p], ps[1..], rest);
    }
  }

  // ------------------------------------------------------------ reading is local

  /** A read that succeeds does not look at what follows. */
  lemma {:induction false} Local(t: Type, s: seq<Byte>, q: seq<Byte>)
    requires Decode(t, s).Some?
    ensures Decode(t, s + q) == Some((Decode(t, s).value.0, Decode(t, s).value.1 + q))
    decreases t, 1, 0
  {
    hide Number, Less, InRange, FromUnsigned;
    match t
    case Bool => NumberLocal(1, s, q);
    case Int(k) => NumberLocal(Width(k), s, q);
    case Str =>
      NumberLocal(4, s, q);
      var (n, r) := ReadNumber(4, s).value;
      assert (r + q)[..n] == r[..n] && (r + q)[n..] == r[n..] + q;
    case Vec(e) =>
      NumberLocal(4, s, q);
      ElemsLocal(t, ReadNumber(4, s).value.0, ReadNumber(4, s).value.1, q, []);
    case Map(k, e) =>
      NumberLocal(4, s, q);
      PairsLocal(t, ReadNumber(4, s).value.0, ReadNumber(4, s).value.1, q, []);
  }

  lemma NumberLocal(w: nat, s: seq<Byte>, q: seq<Byte>)
    requires ReadNumber(w, s).Some?
    ensures ReadNumber(w, s + q) == Some((ReadNumber(w, s).value.0, ReadNumber(w, s).value.1 + q))
  {
    assert (s + q)[..w] == s[..w] && (s + q)[w..] == s[w..] + q;
  }

  lemma {:induction false} ElemsLocal(t: Type, n: nat, s: seq<Byte>, q: seq<Byte>, xs: seq<Value>)
    requires t.Vec? && DecodeElems(t, n, s, xs).Some?
    ensures var r := DecodeElems(t, n, s, xs).value; DecodeElems(t, n, s + q, xs) == Some((r.0, r.1 + q))
    decreases t, 0, n
  {
    hide Decode;
    if n > 0 {
      Local(t.elem, s, q);
      var (x, r) := Decode(t.elem, s).value;
      ElemsLocal(t, n - 1, r, q, xs + [x]);
    }
  }

  lemma {:induction false} PairsLocal(t: Type, n: nat, s: seq<Byte>, q: seq<Byte>, ps: seq<Pair>)
    requires t.Map? && DecodePairs(t, n, s, ps).Some?
    ensures var r := DecodePairs(t, n, s, ps).value; DecodePairs(t, n, s + q, ps) == Some((r.0, r.1 + q))
    decreases t, 0, n
  {
    hide Decode, Insert;
    if n > 0 {
      Local(t.key, s, q);
      var (k, r) := Decode(t.key, s).value;
      Local(t.val, r, q);
      var (v, r1) := Decode(t.val, r).value;
      PairsLocal(t, n - 1, r1, q, Insert(ps, k, v));
    }
  }

  // ------------------------------------------------------------ messages

  /** An RPC's arguments: a list of values and the types the handler reads. */
  ghost predicate Typed(ts: seq<Type>, vs: seq<Value>) {
    |ts| == |vs| && forall i :: 0 <= i < |vs| ==> HasType(ts[i], vs[i])
  }

  ghost function EncodeAll(ts: seq<Type>, vs: seq<Value>): seq<Byte>
    requires Typed(ts, vs)
    decreases |ts|
  {
    if ts == [] then [] else Encode(ts[0], vs[0]) + EncodeAll(ts[1..], vs[1..])
  }

  function DecodeAll(ts: seq<Type>, s: seq<Byte>): Read<seq<Value>>
    decreases |ts|
  {
    if ts == [] then Some(([], s))
    else match Decode(ts[0], s)
      case None => None
      case Some((v, r)) => Prepend([v], DecodeAll(ts[1..], r))
  }

  function Prepend(vs: seq<Value>, r: Read<seq<Value>>): Read<seq<Value>> {
    match r
    case None => None
    case Some((ws, s)) => Some((vs + ws, s))
  }

  lemma PrependNothing(r: Read<seq<Value>>)
    ensures Prepend([], r) == r
  {
    if r.Some? { assert [] + r.value.0 == r.value.0; }
  }

  lemma PrependMore(vs: seq<Value>, v: Value, r: Read<seq<Value>>)
    ensures Prepend(vs, Prepend([v], r)) == Prepend(vs + [v], r)
  {
    if r.Some? { assert vs + ([v] + r.value.0) == vs + [v] + r.value.0; }
  }

  /** okdone: nothing failed and nothing is left. */
  predicate OkDone(ts: seq<Type>, s: seq<Byte>) {
    match DecodeAll(ts, s)
    case None => false
    case Some((vs, r)) => r == []
  }

  lemma {:induction false} AllReadBack(ts: seq<Type>, vs: seq<Value>, rest: seq<Byte>)
    requires Typed(ts, vs)
    ensures DecodeAll(ts, EncodeAll(ts, vs) + rest) == Some((vs, rest))
    decreases |ts|
  {
    hide Decode, Encode, HasType;
    if ts == [] {
      assert EncodeAll(ts, vs) + rest == rest;
    } else {
      var tail := EncodeAll(ts[1..], vs[1..]);
      assert EncodeAll(ts, vs) + rest == Encode(ts[0], vs[0]) + (tail + rest);
      ValueReadBack(ts[0], vs[0], tail + rest);
      AllReadBack(ts[1..], vs[1..], rest);
      assert [vs[0]] + vs[1..] == vs;
    }
  }

  lemma {:induction false} AllLocal(ts: seq<Type>, s: seq<Byte>, q: seq<Byte>)
    requires DecodeAll(ts, s).Some?
    ensures DecodeAll(ts, s + q) == Some((DecodeAll(ts, s).value.0, DecodeAll(ts, s).value.1 + q))
    decreases |ts|
  {
    hide Decode;
    if ts != [] {
      Local(ts[0], s, q);
      AllLocal(ts[1..], Decode(ts[0], s).value.1, q);
    }
  }

  /** Every message is read back, and the reader ends exactly at its end. */
  lemma RoundTrip(ts: seq<Type>, vs: seq<Value>)
    requires Typed(ts, vs)
    ensures OkDone(ts, EncodeAll(ts, vs)) && DecodeAll(ts, EncodeAll(ts, vs)) == Some((vs, []))
  {
    AllReadBack(ts, vs, []);
    assert EncodeAll(ts, vs) + [] == EncodeAll(ts, vs);
  }

  /** A longer or a shorter byte string is never taken for a message of these types. */
  lemma NoOtherLength(ts: seq<Type>, vs: seq<Value>, s: seq<Byte>)
    requires Typed(ts, vs) && (EncodeAll(ts, vs) < s || s < EncodeAll(ts, vs))
    ensures !OkDone(ts, s)
  {
    hide DecodeAll, EncodeAll, Typed;
    var e := EncodeAll(ts, vs);
    if |e| < |s| {
      AllReadBack(ts, vs, s[|e|..]);
      assert e + s[|e|..] == s;
    } else {
      AllReadBack(ts, vs, []);
      assert e + [] == e && s + e[|s|..] == e;
      if DecodeAll(ts, s).Some? { AllLocal(ts, s, e[|s|..]); }
    }
  }

  /** Two messages of the same types with the same bytes are the same message. */
  lemma Unambiguous(ts: seq<Type>, vs: seq<Value>, ws: seq<Value>)
    requires Typed(ts, vs) && Typed(ts, ws) && EncodeAll(ts, vs) <= EncodeAll(ts, ws)
    ensures vs == ws
  {
    hide EncodeAll, DecodeAll, Typed;
    RoundTrip(ts, vs);
    RoundTrip(ts, ws);
    if EncodeAll(ts, vs) != EncodeAll(ts, ws) { NoOtherLength(ts, vs, EncodeAll(ts, ws)); }
  }
}
