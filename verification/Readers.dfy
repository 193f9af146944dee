/**
  The reader behind the stream operators. It remembers failure, and it can be led past its buffer.
 */
module Readers {
  import opened Option
  import opened Marshalling
  import opened Overruns
  import opened Buffers

  /**
    `unmarshall`: ok drops at the first read that is refused and never comes back. `overrun` is set
    once a string was taken from past the end; from then on nothing is known.
   */
  class Unmarshall {
    var buf: seq<Byte>
    var ind: nat
    var ok: bool
    ghost var overrun: bool

    ghost predicate Valid()
      reads this
    {
      |buf| < MAX_SIZE && (ok ==> ind <= |buf|)
    }

    /** What has not been read yet. */
    ghost function Rest(): seq<Byte>
      requires ok && Valid()
      reads this
    {
      buf[ind..]
    }

    constructor (b: seq<Byte>)
      requires |b| < MAX_SIZE
      ensures Valid() && ok && !overrun && Rest() == b == buf
    {
      buf := b;
      ind := 0;
      ok := true;
      overrun := false;
    }

    /** take_in: the buffer moves over, and reading starts behind the header. */
    method TakeIn(another: Unmarshall)
      requires another != this && |another.buf| < MAX_SIZE
      modifies this, another
      ensures Valid() && buf == old(another.buf) && another.buf == [] && overrun == old(overrun)
      ensures ok <==> |buf| >= RPC_HEADER_SZ
      ensures ok ==> Rest() == buf[RPC_HEADER_SZ..]
    {
      buf, another.buf, another.ind := another.buf, [], 0;
      ind := RPC_HEADER_SZ;
      ok := |buf| >= RPC_HEADER_SZ;
    }

    method OkDone() returns (done: bool)
      requires Valid()
      ensures done <==> ok && Rest() == []
    {
      done := ok && ind == |buf|;
    }

    method RawByte() returns (c: Byte)
      modifies this`ind, this`ok
      ensures ok <==> old(ok) && old(ind) < |buf|
      ensures ind == if old(ind) < |buf| then old(ind) + 1 else old(ind)
      ensures c == if old(ind) < |buf| then buf[old(ind)] else 0
    {
      c := 0;
      if ind >= |buf| {
        ok := false;
      } else {
        c := buf[ind];
        ind := ind + 1;
      }
    }

    /** The next w bytes as a number, from the highest down. */
    method ReadRaw(w: nat) returns (x: nat)
      requires w > 0
      modifies this`ind, this`ok
      ensures ok <==> old(ok) && old(ind) + w <= |buf|
      ensures ok ==> ind == old(ind) + w && x == Number(buf[old(ind)..ind])
    {
      x := 0;
      for i := 0 to w
        invariant ok <==> old(ok) && (i == 0 || old(ind) + i <= |buf|)
        invariant i == 0 ==> ind == old(ind) && x == 0
        invariant ok && i > 0 ==> ind == old(ind) + i && x == Number(buf[old(ind)..ind])
      {
        var c := RawByte();
        if ok { NumberMore(buf, old(ind), i); }
        x := x * 256 + c;
      }
    }

    /** operator>> of a short, an int or one half of a long. */
    method ReadWord(w: nat) returns (x: nat)
      requires Valid() && w > 0
      modifies this`ind, this`ok
      ensures Valid()
      ensures ok <==> old(ok) && ReadNumber(w, old(Rest())).Some?
      ensures ok ==> ReadNumber(w, old(Rest())) == Some((x, Rest())) && ind == old(ind) + w
    {
      hide Number;
      x := ReadRaw(w);
      if ok { SliceOfRest(buf, old(ind), w); }
    }

    /** rawbytes, with the 32-bit sum of its bounds test; reached only while ok holds. */
    method RawBytes(n: nat) returns (s: seq<Byte>)
      requires Valid() && ok && n < LIMIT
      modifies this
      ensures Valid() && buf == old(buf) && (old(overrun) ==> overrun)
      ensures !old(overrun) ==> (overrun <==> n >= LIMIT - old(ind))
      ensures !overrun ==> (ok <==> ReadBytes(n, old(Rest())).Some?)
      ensures !overrun && ok ==> ReadBytes(n, old(Rest())) == Some((s, Rest()))
    {
      GuardExactly(ind, n, |buf|);
      s := [];
      if Refused(ind, n, |buf|) {
        ok := false;
      } else if ind + n > |buf| {
        overrun := true;
      } else {
        SliceOfRest(buf, ind, n);
        s := buf[ind..ind + n];
        ind := ind + n;
      }
    }

    /** An integer of any kind; a long is two words, the high one first. */
    method ReadInt(k: IntKind) returns (x: int)
      requires Valid()
      modifies this`ind, this`ok
      ensures Valid()
      ensures ok <==> old(ok) && ReadNumber(Width(k), old(Rest())).Some?
      ensures ok ==> exists u :: ReadNumber(Width(k), old(Rest())) == Some((u, Rest())) && x == FromUnsigned(k, u)
    {
      hide Number, Pow256;
      if k.U64? {
        var h := ReadWord(4);
        var l := ReadWord(4);
        x := l + h * LIMIT;
        if ok { WideReads(old(Rest()), h, l, Rest()); }
      } else {
        var u := ReadWord(Width(k));
        x := FromUnsigned(k, u);
      }
    }

    /** operator>>, for every type. */
    method Read(t: Type) returns (v: Value)
      requires Valid()
      modifies this
      ensures Valid() && buf == old(buf) && (old(overrun) ==> overrun)
      ensures !old(overrun) ==> (overrun <==> old(ok) && Overruns.Overruns(t, old(Rest()), old(ind)))
      ensures !overrun ==> (ok <==> old(ok) && Decode(t, old(Rest())).Some?)
      ensures !overrun && ok ==> Decode(t, old(Rest())) == Some((v, Rest()))
      decreases t, 1
    {
      hide ReadNumber, FromUnsigned;
      match t
      case Bool =>
        var x := ReadWord(1);
        v := B(x != 0);
      case Int(k) =>
        var x := ReadInt(k);
        v := N(x);
      case Str =>
        var n := ReadSizeWord();
        v := S([]);
        if ok {
          var s := RawBytes(n);
          v := S(s);
        }
      case Vec(e) =>
        var n := ReadSizeWord();
        v := ReadElems(t, n);
      case Map(k, e) =>
        var n := ReadSizeWord();
        v := ReadPairs(t, n);
    }

    /** A length prefix. */
    method ReadSizeWord() returns (n: nat)
      requires Valid()
      modifies this`ind, this`ok
      ensures Valid()
      ensures ok <==> old(ok) && ReadNumber(4, old(Rest())).Some?
      ensures ok ==> ReadNumber(4, old(Rest())) == Some((n, Rest())) && n < LIMIT && ind == old(ind) + 4
    {
      hide Number;
      n := ReadWord(4);
      if ok { SizeBelow(old(Rest())); }
    }

    method ReadElems(t: Type, n: nat) returns (v: Value)
      requires Valid() && t.Vec?
      modifies this
      ensures Valid() && buf == old(buf) && (old(overrun) ==> overrun)
      ensures !old(overrun) ==> (overrun <==> old(ok) && ElemsOverrun(t, n, old(Rest()), old(ind)))
      ensures !overrun ==> (ok <==> old(ok) && DecodeElems(t, n, old(Rest()), []).Some?)
      ensures !overrun && ok ==> DecodeElems(t, n, old(Rest()), []) == Some((v, Rest()))
      decreases t, 0
    {
      hide Decode, Overruns.Overruns;
      var xs := [];
      for i := 0 to n
        invariant Valid() && buf == old(buf) && (old(overrun) ==> overrun)
        invariant !old(overrun) && overrun ==> old(ok) && ElemsOverrun(t, n, old(Rest()), old(ind))
        invariant !overrun && ok ==>
                    && old(ok) && DecodeElems(t, n, old(Rest()), []) == DecodeElems(t, n - i, Rest(), xs)
                    && ElemsOverrun(t, n, old(Rest()), old(ind)) == ElemsOverrun(t, n - i, Rest(), ind)
        invariant !overrun && !ok && old(ok) ==>
                    DecodeElems(t, n, old(Rest()), []).None? && !ElemsOverrun(t, n, old(Rest()), old(ind))
      {
        var z := Read(t.elem);
        xs := xs + [z];
      }
      v := L(xs);
    }

    method ReadPairs(t: Type, n: nat) returns (v: Value)
      requires Valid() && t.Map?
      modifies this
      ensures Valid() && buf == old(buf) && (old(overrun) ==> overrun)
      ensures !old(overrun) ==> (overrun <==> old(ok) && PairsOverrun(t, n, old(Rest()), old(ind)))
      ensures !overrun ==> (ok <==> old(ok) && DecodePairs(t, n, old(Rest()), []).Some?)
      ensures !overrun && ok ==> DecodePairs(t, n, old(Rest()), []) == Some((v, Rest()))
      decreases t, 0
    {
      hide Decode, Insert, Overruns.Overruns;
      var ps: seq<Pair> := [];
      for i := 0 to n
        invariant Valid() && buf == old(buf) && (old(overrun) ==> overrun)
        invariant !old(overrun) && overrun ==> old(ok) && PairsOverrun(t, n, old(Rest()), old(ind))
        invariant !overrun && ok ==>
                    && old(ok) && DecodePairs(t, n, old(Rest()), []) == DecodePairs(t, n - i, Rest(), ps)
                    && PairsOverrun(t, n, old(Rest()), old(ind)) == PairsOverrun(t, n - i, Rest(), ind)
        invariant !overrun && !ok && old(ok) ==>
                    DecodePairs(t, n, old(Rest()), []).None? && !PairsOverrun(t, n, old(Rest()), old(ind))
      {
        var a := Read(t.key);
        var b := Read(t.val);
        ps := Insert(ps, a, b);
      }
      v := M(ps);
    }

    /** What an RPC handler does: read each argument, then ask okdone. */
    method ReadArgs(ts: seq<Type>) returns (vs: seq<Value>, done: bool)
      requires Valid()
      modifies this
      ensures Valid() && buf == old(buf) && (old(overrun) ==> overrun)
      ensures !old(overrun) ==> (overrun <==> old(ok) && ArgsOverrun(ts, old(Rest()), old(ind)))
      ensures !overrun ==> (done <==> old(ok) && Marshalling.OkDone(ts, old(Rest())))
      ensures !overrun && done ==> DecodeAll(ts, old(Rest())) == Some((vs, []))
    {
      hide Decode, Overruns.Overruns;
      vs := [];
      assert ts[0..] == ts;
      if ok { PrependNothing(DecodeAll(ts, Rest())); }
      for i := 0 to |ts|
        invariant Valid() && buf == old(buf) && (old(overrun) ==> overrun)
        invariant !old(overrun) && overrun ==> old(ok) && ArgsOverrun(ts, old(Rest()), old(ind))
        invariant !overrun && ok ==>
                    && old(ok) && DecodeAll(ts, old(Rest())) == Prepend(vs, DecodeAll(ts[i..], Rest()))
                    && ArgsOverrun(ts, old(Rest()), old(ind)) == ArgsOverrun(ts[i..], Rest(), ind)
        invariant !overrun && !ok && old(ok) ==>
                    DecodeAll(ts, old(Rest())).None? && !ArgsOverrun(ts, old(Rest()), old(ind))
      {
        assert ts[i..][1..] == ts[i + 1..];
        var v := Read(ts[i]);
        if ok { PrependMore(vs, v, DecodeAll(ts[i + 1..], Rest())); }
        vs := vs + [v];
      }
      assert vs + [] == vs;
      done := OkDone();
    }

    /** A message shorter than a header is not ok afterwards. */
    method UnpackReqHeader() returns (h: ReqHeader)
      requires Valid()
      modifies this`ind, this`ok
      ensures Valid() && (ok <==> old(ok) && |buf| >= 24)
      ensures ok ==> h == ReqOf(buf) && Rest() == buf[24..]
    {
      hide Number, FromUnsigned;
      ind := SIZE_FIELD;
      var xid := ReadRaw(4);
      var proc := ReadRaw(4);
      var clt := ReadRaw(4);
      var srv := ReadRaw(4);
      var rep := ReadRaw(4);
      ind := RPC_HEADER_SZ;
      h := ReqHeader(FromUnsigned(I32, xid), FromUnsigned(I32, proc), clt, srv, FromUnsigned(I32, rep));
    }

    /** A reply header ends before the room for it does, so a message in between is ok but not Valid. */
    method UnpackReplyHeader() returns (h: ReplyHeader)
      requires Valid()
      modifies this`ind, this`ok
      ensures (ok <==> old(ok) && |buf| >= 12) && ind == 24
      ensures ok ==> h == ReplyOf(buf)
      ensures Valid() <==> !(ok && |buf| < 24)
    {
      hide Number, FromUnsigned;
      ind := SIZE_FIELD;
      var xid := ReadRaw(4);
      var ret := ReadRaw(4);
      ind := RPC_HEADER_SZ;
      h := ReplyHeader(FromUnsigned(I32, xid), FromUnsigned(I32, ret));
    }
  }

  lemma NumberMore(s: seq<Byte>, a: nat, i: nat)
    requires a + i < |s|
    ensures Number(s[a..a + i + 1]) == Number(s[a..a + i]) * 256 + s[a + i]
    ensures Number(s[a..a]) == 0
  {
    var t := s[a..a + i + 1];
    assert t[..|t| - 1] == s[a..a + i];
  }

  lemma SliceOfRest(s: seq<Byte>, a: nat, w: nat)
    requires a + w <= |s|
    ensures s[a..][..w] == s[a..a + w] && s[a..][w..] == s[a + w..]
  {
  }

  /** Two words read one after the other are a long. */
  lemma WideReads(s: seq<Byte>, h: nat, l: nat, r: seq<Byte>)
    requires ReadNumber(4, s).Some? && ReadNumber(4, s).value.0 == h
    requires ReadNumber(4, ReadNumber(4, s).value.1) == Some((l, r))
    ensures ReadNumber(8, s) == Some((l + h * LIMIT, r))
  {
    Powers();
    NumberOfParts(s[..4], s[4..][..4]);
    assert s[..8] == s[..4] + s[4..][..4] && s[4..][4..] == s[8..];
  }

  /** A request of any header and arguments, within the size of an int, arrives as it was sent. */
  method SendAndReceive(h: ReqHeader, ts: seq<Type>, vs: seq<Value>) returns (h': ReqHeader, ws: seq<Value>, done: bool)
    requires ReqFits(h) && Typed(ts, vs) && RPC_HEADER_SZ + |EncodeAll(ts, vs)| < MAX_SIZE
    ensures h' == h && done && ws == vs
  {
    hide ReqBytes, ReqOf, EncodeAll, DecodeAll, ReqFits, Typed, ArgsOverrun;
    var m := SendRequest(h, ts, vs);
    var u := new Unmarshall(m.buf[..m.ind]);
    assert u.buf[RPC_HEADER_SZ..] == m.Body();
    assert u.buf[SIZE_FIELD..RPC_HEADER_SZ] == m.buf[SIZE_FIELD..RPC_HEADER_SZ];
    ReqReadBack(h, u.buf);
    h' := u.UnpackReqHeader();
    RoundTrip(ts, vs);
    MessagesDoNotOverrun(ts, vs, m.Body(), RPC_HEADER_SZ);
    ws, done := u.ReadArgs(ts);
  }
}
