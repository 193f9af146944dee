/**
  The buffer that the stream operators write to, and the headers in front of it.
 */
module Buffers {
  import opened Marshalling

  const DEFAULT_RPC_SZ := 1024
  const SIZE_FIELD := 4
  const RPC_HEADER_SZ := 24
  const REPLY_END := 12

  datatype ReqHeader = ReqHeader(xid: int, proc: int, cltNonce: nat, srvNonce: nat, xidRep: int)
  datatype ReplyHeader = ReplyHeader(xid: int, ret: int)

  predicate ReqFits(h: ReqHeader) {
    && InRange(I32, h.xid) && InRange(I32, h.proc) && InRange(I32, h.xidRep)
    && h.cltNonce < LIMIT && h.srvNonce < LIMIT
  }

  predicate ReplyFits(h: ReplyHeader) {
    InRange(I32, h.xid) && InRange(I32, h.ret)
  }

  /** The four bytes of a number taken modulo 2^32. */
  function Word(x: int): (r: seq<Byte>)
    ensures |r| == 4
  {
    BigEndian(x % LIMIT, 4)
  }

  function ReqBytes(h: ReqHeader): (r: seq<Byte>)
    ensures |r| == RPC_HEADER_SZ - SIZE_FIELD
  {
    Word(h.xid) + Word(h.proc) + Word(h.cltNonce) + Word(h.srvNonce) + Word(h.xidRep)
  }

  function ReplyBytes(h: ReplyHeader): (r: seq<Byte>)
    ensures |r| == 8
  {
    Word(h.xid) + Word(h.ret)
  }

  /** The byte (x >> 8k) & 0xff. */
  function Shifted(x: nat, k: nat): Byte {
    if k == 0 then x % 256 else Shifted(x / 256, k - 1)
  }

  /** Big-endian bytes are the shifts, highest first. */
  lemma {:induction false} BytesAreShifts(x: nat, w: nat, i: nat)
    requires i < w
    ensures BigEndian(x, w)[i] == Shifted(x, w - 1 - i)
  {
    if i < w - 1 { BytesAreShifts(x / 256, w - 1, i); }
  }

  lemma WordIs(x: int)
    ensures var u := x % LIMIT; Word(x) == [Shifted(u, 3), Shifted(u, 2), Shifted(u, 1), Shifted(u, 0)]
  {
    hide BigEndian, Shifted;
    var u := x % LIMIT;
    BytesAreShifts(u, 4, 0);
    BytesAreShifts(u, 4, 1);
    BytesAreShifts(u, 4, 2);
    BytesAreShifts(u, 4, 3);
  }

  lemma Times256(h: nat, p: nat)
    ensures h * (256 * p) == 256 * (h * p)
  {
  }

  lemma LastDigit(k: nat, l: nat)
    ensures (256 * k + l) / 256 == k + l / 256 && (256 * k + l) % 256 == l % 256
  {
  }

  lemma BigEndianMore(x: nat, w: nat)
    ensures BigEndian(x, w + 1) == BigEndian(x / 256, w) + [x % 256]
  {
  }

  /** A number that is two parts is written as the two parts. */
  lemma {:induction false} TwoParts(h: nat, l: nat, a: nat, w: nat)
    requires l < Pow256(w)
    ensures BigEndian(h * Pow256(w) + l, a + w) == BigEndian(h, a) + BigEndian(l, w)
  {
    hide BigEndian;
    if w == 0 {
      NoBytes(l);
    } else {
      var k := h * Pow256(w - 1);
      Times256(h, Pow256(w - 1));
      LastDigit(k, l);
      BigEndianMore(256 * k + l, a + w - 1);
      BigEndianMore(l, w - 1);
      TwoParts(h, l / 256, a, w - 1);
      assert BigEndian(h, a) + BigEndian(l / 256, w - 1) + [l % 256] == BigEndian(h, a) + (BigEndian(l / 256, w - 1) + [l % 256]);
    }
  }

  lemma NoBytes(x: nat)
    ensures BigEndian(x, 0) == []
  {
  }

  lemma {:induction false} NumberOfParts(s: seq<Byte>, t: seq<Byte>)
    ensures Number(s + t) == Number(s) * Pow256(|t|) + Number(t)
  {
    if t == [] {
      assert s + t == s;
    } else {
      var front := t[..|t| - 1];
      NumberOfParts(s, front);
      assert (s + t)[..|s + t| - 1] == s + front;
      Regroup(Number(s), Pow256(|front|), Number(front), t[|t| - 1]);
    }
  }

  lemma Regroup(n: nat, p: nat, f: nat, c: nat)
    ensures (n * p + f) * 256 + c == n * (256 * p) + (f * 256 + c)
  {
  }

  lemma WideIs(u: nat)
    requires u < LIMIT * LIMIT
    ensures BigEndian(u, 8) == Word(u / LIMIT) + Word(u)
  {
    hide BigEndian, Pow256;
    Powers();
    var h, l := u / LIMIT, u % LIMIT;
    assert u == h * LIMIT + l && h < LIMIT;
    TwoParts(h, l, 4, 4);
  }

  lemma ByteIs(u: Byte)
    ensures BigEndian(u, 1) == [u]
  {
  }

  lemma ShortIs(u: nat)
    ensures BigEndian(u, 2) == [Shifted(u, 1), Shifted(u, 0)]
  {
    BytesAreShifts(u, 2, 0);
    BytesAreShifts(u, 2, 1);
  }

  /** The header found in front of a message. */
  function ReqOf(s: seq<Byte>): ReqHeader
    requires |s| >= RPC_HEADER_SZ
  {
    ReqHeader(
      FromUnsigned(I32, Number(s[4..8])), FromUnsigned(I32, Number(s[8..12])),
      Number(s[12..16]), Number(s[16..20]), FromUnsigned(I32, Number(s[20..24])))
  }

  function ReplyOf(s: seq<Byte>): ReplyHeader
    requires |s| >= REPLY_END
  {
    ReplyHeader(FromUnsigned(I32, Number(s[4..8])), FromUnsigned(I32, Number(s[8..12])))
  }

  lemma WordReadBack(x: int)
    requires InRange(I32, x)
    ensures FromUnsigned(I32, Number(Word(x))) == x
  {
    hide BigEndian, Number, Pow256;
    Powers();
    NumberReadBack(x % LIMIT, 4);
  }

  lemma NonceReadBack(x: nat)
    requires x < LIMIT
    ensures Number(Word(x)) == x
  {
    hide BigEndian, Number, Pow256;
    Powers();
    NumberReadBack(x, 4);
  }

  lemma SliceOfSlice(s: seq<Byte>, a: nat, b: nat, i: nat, j: nat)
    requires a <= b <= |s| && i <= j <= b - a
    ensures s[a..b][i..j] == s[a + i..a + j]
  {
    forall k | 0 <= k < j - i
      ensures s[a..b][i..j][k] == s[a + i..a + j][k]
    {
      assert s[a..b][i + k] == s[a + i + k];
    }
  }

  /** A packed header is the one unpacked. */
  lemma ReqReadBack(h: ReqHeader, s: seq<Byte>)
    requires ReqFits(h) && |s| >= RPC_HEADER_SZ && s[SIZE_FIELD..RPC_HEADER_SZ] == ReqBytes(h)
    ensures ReqOf(s) == h
  {
    hide Word, Number, FromUnsigned, InRange;
    var b := s[4..24];
    SliceOfSlice(s, 4, 24, 0, 4);
    SliceOfSlice(s, 4, 24, 4, 8);
    SliceOfSlice(s, 4, 24, 8, 12);
    SliceOfSlice(s, 4, 24, 12, 16);
    SliceOfSlice(s, 4, 24, 16, 20);
    assert b[0..4] == Word(h.xid) && b[4..8] == Word(h.proc);
    assert b[8..12] == Word(h.cltNonce) && b[12..16] == Word(h.srvNonce) && b[16..20] == Word(h.xidRep);
    WordReadBack(h.xid);
    WordReadBack(h.proc);
    WordReadBack(h.xidRep);
    NonceReadBack(h.cltNonce);
    NonceReadBack(h.srvNonce);
  }

  /** Where each field of a request header is. */
  lemma ReqFields(s: seq<Byte>, h: ReqHeader)
    requires |s| == RPC_HEADER_SZ && s[SIZE_FIELD..] == ReqBytes(h)
    ensures s[4..8] == Word(h.xid) && s[8..12] == Word(h.proc) && s[12..16] == Word(h.cltNonce)
    ensures s[16..20] == Word(h.srvNonce) && s[20..24] == Word(h.xidRep)
  {
    hide Word;
    var b := s[4..24];
    SliceOfSlice(s, 4, 24, 0, 4);
    SliceOfSlice(s, 4, 24, 4, 8);
    SliceOfSlice(s, 4, 24, 8, 12);
    SliceOfSlice(s, 4, 24, 12, 16);
    SliceOfSlice(s, 4, 24, 16, 20);
  }

  lemma ReplyReadBack(h: ReplyHeader, s: seq<Byte>)
    requires ReplyFits(h) && |s| >= REPLY_END && s[SIZE_FIELD..REPLY_END] == ReplyBytes(h)
    ensures ReplyOf(s) == h
  {
    hide Word, Number, FromUnsigned, InRange;
    var b := s[4..12];
    SliceOfSlice(s, 4, 12, 0, 4);
    SliceOfSlice(s, 4, 12, 4, 8);
    assert b[0..4] == Word(h.xid) && b[4..8] == Word(h.ret);
    WordReadBack(h.xid);
    WordReadBack(h.ret);
  }

  /** `marshall`: capacity is the length of the array. */
  class Marshall {
    var buf: array<Byte>
    var ind: nat

    ghost predicate Valid()
      reads this
    {
      ind <= buf.Length && RPC_HEADER_SZ < buf.Length
    }

    /** Everything up to the write position. */
    ghost function Written(): seq<Byte>
      requires Valid()
      reads this, buf
    {
      buf[..ind]
    }

    ghost function Body(): seq<Byte>
      requires Valid() && RPC_HEADER_SZ <= ind
      reads this, buf
    {
      buf[RPC_HEADER_SZ..ind]
    }

    constructor ()
      ensures Valid() && fresh(buf) && ind == RPC_HEADER_SZ && Body() == []
    {
      buf := new Byte[DEFAULT_RPC_SZ];
      ind := RPC_HEADER_SZ;
    }

    /** realloc. */
    method Grow(capa: nat)
      requires Valid() && buf.Length <= capa
      modifies this`buf
      ensures Valid() && fresh(buf) && buf.Length == capa && buf[..old(buf.Length)] == old(buf[..])
    {
      var b := new Byte[capa];
      forall i | 0 <= i < buf.Length { b[i] := buf[i]; }
      buf := b;
    }

    method RawByte(x: Byte)
      requires Valid()
      modifies this, buf
      ensures Valid() && (buf == old(buf) || fresh(buf)) && old(buf.Length) <= buf.Length
      ensures ind == old(ind) + 1
      ensures Written() == old(Written()) + [x]
      ensures old(ind) < old(buf.Length) ==> buf == old(buf)
      ensures forall i :: ind <= i < old(buf.Length) ==> buf[i] == old(buf[i])
    {
      if ind >= buf.Length { Grow(buf.Length * 2); }
      buf[ind] := x;
      ind := ind + 1;
    }

    method RawBytes(p: seq<Byte>)
      requires Valid()
      modifies this, buf
      ensures Valid() && (buf == old(buf) || fresh(buf)) && old(buf.Length) <= buf.Length
      ensures Written() == old(Written()) + p
    {
      var n := |p|;
      if ind + n > buf.Length {
        Grow(if buf.Length > n then 2 * buf.Length else buf.Length + n);
      }
      assert Written() == old(Written());
      Copy(p);
    }

    /** memcpy to the write position. */
    method Copy(p: seq<Byte>)
      requires Valid() && ind + |p| <= buf.Length
      modifies this`ind, buf
      ensures Valid() && buf == old(buf) && Written() == old(Written()) + p
    {
      var n := |p|;
      forall i | 0 <= i < n { buf[ind + i] := p[i]; }
      ind := ind + n;
    }

    /** pack, and operator<< of an int or unsigned int. */
    method Pack(x: int)
      requires Valid()
      modifies this, buf
      ensures Valid() && (buf == old(buf) || fresh(buf)) && old(buf.Length) <= buf.Length
      ensures Written() == old(Written()) + Word(x)
      ensures old(ind) + 4 <= old(buf.Length) ==> buf == old(buf)
      ensures forall i :: ind <= i < old(buf.Length) ==> buf[i] == old(buf[i])
    {
      hide Word, Shifted;
      var u := x % LIMIT;
      WordIs(x);
      RawByte(Shifted(u, 3));
      RawByte(Shifted(u, 2));
      RawByte(Shifted(u, 1));
      RawByte(Shifted(u, 0));
    }

    method PackTwo(x: int, y: int)
      requires Valid() && ind + 8 <= buf.Length
      modifies this, buf
      ensures Valid() && buf == old(buf) && Written() == old(Written()) + (Word(x) + Word(y))
      ensures forall i :: ind <= i < buf.Length ==> buf[i] == old(buf[i])
    {
      hide Word;
      Pack(x);
      Pack(y);
    }

    /** The header is written after the body, in front of it. */
    method PackReqHeader(h: ReqHeader)
      requires Valid() && RPC_HEADER_SZ <= ind
      modifies this, buf
      ensures Valid() && buf == old(buf) && ind == old(ind)
      ensures Body() == old(Body()) && buf[..SIZE_FIELD] == old(buf[..SIZE_FIELD])
      ensures buf[SIZE_FIELD..RPC_HEADER_SZ] == ReqBytes(h)
      ensures buf[4..8] == Word(h.xid) && buf[8..12] == Word(h.proc) && buf[12..16] == Word(h.cltNonce)
      ensures buf[16..20] == Word(h.srvNonce) && buf[20..24] == Word(h.xidRep)
    {
      hide Word;
      var saved := ind;
      ghost var all := buf[..];
      ind := SIZE_FIELD;
      PackTwo(h.xid, h.proc);
      PackTwo(h.cltNonce, h.srvNonce);
      Pack(h.xidRep);
      assert buf[..RPC_HEADER_SZ] == all[..SIZE_FIELD] + ReqBytes(h);
      assert buf[RPC_HEADER_SZ..saved] == all[RPC_HEADER_SZ..saved];
      ind := saved;
      ReqFields(buf[..RPC_HEADER_SZ], h);
    }

    method PackReplyHeader(h: ReplyHeader)
      requires Valid() && RPC_HEADER_SZ <= ind
      modifies this, buf
      ensures Valid() && buf == old(buf) && ind == old(ind)
      ensures Body() == old(Body()) && buf[..SIZE_FIELD] == old(buf[..SIZE_FIELD])
      ensures buf[SIZE_FIELD..REPLY_END] == ReplyBytes(h)
      ensures buf[4..8] == Word(h.xid) && buf[8..12] == Word(h.ret)
    {
      hide Word;
      var saved := ind;
      ghost var all := buf[..];
      ind := SIZE_FIELD;
      PackTwo(h.xid, h.ret);
      assert buf[..REPLY_END] == all[..SIZE_FIELD] + ReplyBytes(h);
      SliceOfSlice(buf[..], 4, 12, 0, 4);
      SliceOfSlice(buf[..], 4, 12, 4, 8);
      assert buf[RPC_HEADER_SZ..saved] == all[RPC_HEADER_SZ..saved];
      ind := saved;
    }

    method WriteInt(k: IntKind, x: int)
      requires Valid() && InRange(k, x)
      modifies this, buf
      ensures Valid() && (buf == old(buf) || fresh(buf)) && old(buf.Length) <= buf.Length
      ensures Written() == old(Written()) + BigEndian(Unsigned(k, x), Width(k))
    {
      hide Shifted, BigEndian, InRange, Pow256;
      var u := Unsigned(k, x);
      Powers();
      match Width(k)
      case 1 =>
        ByteIs(u);
        RawByte(u);
      case 2 =>
        ShortIs(u);
        RawByte(Shifted(u, 1));
        RawByte(Shifted(u, 0));
      case 4 =>
        Pack(u);
      case _ =>
        WideIs(u);
        Pack(u / LIMIT);
        Pack(u);
    }

    /** operator<<, for every type. */
    method Write(t: Type, v: Value)
      requires Valid() && HasType(t, v)
      modifies this, buf
      ensures Valid() && (buf == old(buf) || fresh(buf)) && old(buf.Length) <= buf.Length
      ensures Written() == old(Written()) + Encode(t, v)
      decreases t
    {
      hide BigEndian, InRange, Word, Unsigned, EncodeElems, EncodePairs;
      match t
      case Bool =>
        RawByte(if v.b then 1 else 0);
      case Int(k) =>
        WriteInt(k, v.x);
      case Str =>
        WriteSize(|v.s|);
        RawBytes(v.s);
      case Vec(e) =>
        WriteSize(|v.xs|);
        WriteElems(t, v.xs);
      case Map(k, e) =>
        WriteSize(|v.ps|);
        WritePairs(t, v.ps);
    }

    method WriteSize(n: nat)
      requires Valid() && n < LIMIT
      modifies this, buf
      ensures Valid() && (buf == old(buf) || fresh(buf)) && old(buf.Length) <= buf.Length
      ensures Written() == old(Written()) + BigEndian(n, 4)
    {
      hide BigEndian;
      Pack(n);
    }

    method WriteElems(t: Type, xs: seq<Value>)
      requires Valid() && t.Vec? && forall i :: 0 <= i < |xs| ==> HasType(t.elem, xs[i])
      modifies this, buf
      ensures Valid() && (buf == old(buf) || fresh(buf)) && old(buf.Length) <= buf.Length
      ensures Written() == old(Written()) + EncodeElems(t, xs)
      decreases t, 0
    {
      hide Encode, HasType;
      ghost var all := Written() + EncodeElems(t, xs);
      for i := 0 to |xs|
        invariant Valid() && (buf == old(buf) || fresh(buf)) && old(buf.Length) <= buf.Length
        invariant Written() + EncodeElems(t, xs[i..]) == all
      {
        ghost var before := Written();
        assert xs[i..][1..] == xs[i + 1..];
        Write(t.elem, xs[i]);
        assert before + EncodeElems(t, xs[i..]) == Written() + EncodeElems(t, xs[i + 1..]);
      }
      assert Written() + [] == Written();
    }

    method WritePairs(t: Type, ps: seq<Pair>)
      requires Valid() && t.Map?
      requires forall i :: 0 <= i < |ps| ==> HasType(t.key, ps[i].k) && HasType(t.val, ps[i].v)
      modifies this, buf
      ensures Valid() && (buf == old(buf) || fresh(buf)) && old(buf.Length) <= buf.Length
      ensures Written() == old(Written()) + EncodePairs(t, ps)
      decreases t, 0
    {
      hide Encode, HasType;
      ghost var all := Written() + EncodePairs(t, ps);
      for i := 0 to |ps|
        invariant Valid() && (buf == old(buf) || fresh(buf)) && old(buf.Length) <= buf.Length
        invariant Written() + EncodePairs(t, ps[i..]) == all
      {
        ghost var before := Written();
        assert ps[i..][1..] == ps[i + 1..];
        Write(t.key, ps[i].k);
        Write(t.val, ps[i].v);
        assert before + EncodePairs(t, ps[i..]) == Written() + EncodePairs(t, ps[i + 1..]);
      }
      assert Written() + [] == Written();
    }
  }

  /** A request as the client builds it: the arguments, then the header in front of them. */
  method SendRequest(h: ReqHeader, ts: seq<Type>, vs: seq<Value>) returns (m: Marshall)
    requires Typed(ts, vs)
    ensures fresh(m) && fresh(m.buf) && m.Valid() && RPC_HEADER_SZ <= m.ind
    ensures m.Body() == EncodeAll(ts, vs) && m.buf[SIZE_FIELD..RPC_HEADER_SZ] == ReqBytes(h)
  {
    hide Encode, HasType, ReqBytes;
    m := new Marshall();
    ghost var all := m.Written() + EncodeAll(ts, vs);
    assert ts[0..] == ts && vs[0..] == vs;
    for i := 0 to |ts|
      invariant fresh(m) && fresh(m.buf) && m.Valid()
      invariant m.Written() + EncodeAll(ts[i..], vs[i..]) == all
    {
      ghost var before := m.Written();
      assert ts[i..][1..] == ts[i + 1..] && vs[i..][1..] == vs[i + 1..];
      m.Write(ts[i], vs[i]);
      assert before + EncodeAll(ts[i..], vs[i..]) == m.Written() + EncodeAll(ts[i + 1..], vs[i + 1..]);
    }
    assert m.Written() == all;
    assert m.Body() == m.Written()[RPC_HEADER_SZ..] == EncodeAll(ts, vs);
    m.PackReqHeader(h);
  }
}
