/**
  Where the reader leaves its buffer: the bounds test on a string adds position and length
  as 32-bit numbers, and a length close to 2^32 wraps the sum.
 */
module Overruns {
  import opened Marshalling

  /** Sizes of buffers are non-negative ints. */
  const MAX_SIZE := 0x8000_0000

  /** The test of `rawbytes`: true refuses the read. */
  predicate Refused(at: nat, n: nat, size: nat) {
    (at + n) % LIMIT > size
  }

  /** A read that is let through stays inside the buffer if and only if the sum does not wrap. */
  lemma GuardExactly(at: nat, n: nat, size: nat)
    requires at <= size < MAX_SIZE && n < LIMIT
    ensures n < LIMIT - at <==> (Refused(at, n, size) <==> at + n > size)
    ensures n >= LIMIT - at ==> !Refused(at, n, size) && at + n > size
  {
    if at + n >= LIMIT { assert (at + n) % LIMIT == at + n - LIMIT; }
  }

  /** Reading a value of type t from s, which begins at position at, lets a wrapped length through. */
  predicate Overruns(t: Type, s: seq<Byte>, at: int)
    decreases t, 1, 0
  {
    match t
    case Bool => false
    case Int(_) => false
    case Str => (match ReadNumber(4, s) case None => false case Some((n, _)) => n >= LIMIT - (at + 4))
    case Vec(_) => (match ReadNumber(4, s) case None => false case Some((n, r)) => ElemsOverrun(t, n, r, at + 4))
    case Map(_, _) => (match ReadNumber(4, s) case None => false case Some((n, r)) => PairsOverrun(t, n, r, at + 4))
  }

  predicate ElemsOverrun(t: Type, n: nat, s: seq<Byte>, at: int)
    requires t.Vec?
    decreases t, 0, n
  {
    n > 0 &&
    (Overruns(t.elem, s, at) ||
     match Decode(t.elem, s)
     case None => false
     case Some((_, r)) => ElemsOverrun(t, n - 1, r, at + |s| - |r|))
  }

  predicate PairsOverrun(t: Type, n: nat, s: seq<Byte>, at: int)
    requires t.Map?
    decreases t, 0, n
  {
    n > 0 &&
    (Overruns(t.key, s, at) ||
     match Decode(t.key, s)
     case None => false
     case Some((_, r)) =>
       Overruns(t.val, r, at + |s| - |r|) ||
       match Decode(t.val, r)
       case None => false
       case Some((_, r1)) => PairsOverrun(t, n - 1, r1, at + |s| - |r1|))
  }

  predicate ArgsOverrun(ts: seq<Type>, s: seq<Byte>, at: int)
    decreases |ts|
  {
    ts != [] &&
    (Overruns(ts[0], s, at) ||
     match Decode(ts[0], s)
     case None => false
     case Some((_, r)) => ArgsOverrun(ts[1..], r, at + |s| - |r|))
  }

  // ------------------------------------------------------------ what overruns is not a message

  /** In a buffer below 2^32 bytes, bytes that overrun hold no value. */
  lemma {:induction false} OverrunIsNoValue(t: Type, s: seq<Byte>, at: int)
    requires Overruns(t, s, at) && at + |s| < LIMIT
    ensures Decode(t, s).None?
    decreases t, 1, 0
  {
    hide Number;
    match t
    case Str =>
    case Vec(_) =>
      var (n, r) := ReadNumber(4, s).value;
      ElemsOverrunNoValue(t, n, r, at + 4, []);
    case Map(_, _) =>
      var (n, r) := ReadNumber(4, s).value;
      PairsOverrunNoValue(t, n, r, at + 4, []);
  }

  lemma {:induction false} ElemsOverrunNoValue(t: Type, n: nat, s: seq<Byte>, at: int, xs: seq<Value>)
    requires t.Vec? && ElemsOverrun(t, n, s, at) && at + |s| < LIMIT
    ensures DecodeElems(t, n, s, xs).None?
    decreases t, 0, n
  {
    hide Decode, Overruns;
    if Overruns(t.elem, s, at) {
      OverrunIsNoValue(t.elem, s, at);
    } else {
      var (x, r) := Decode(t.elem, s).value;
      ElemsOverrunNoValue(t, n - 1, r, at + |s| - |r|, xs + [x]);
    }
  }

  lemma {:induction false} PairsOverrunNoValue(t: Type, n: nat, s: seq<Byte>, at: int, ps: seq<Pair>)
    requires t.Map? && PairsOverrun(t, n, s, at) && at + |s| < LIMIT
    ensures DecodePairs(t, n, s, ps).None?
    decreases t, 0, n
  {
    hide Decode, Overruns, Insert;
    if Overruns(t.key, s, at) {
      OverrunIsNoValue(t.key, s, at);
    } else {
      var (k, r) := Decode(t.key, s).value;
      if Overruns(t.val, r, at + |s| - |r|) {
        OverrunIsNoValue(t.val, r, at + |s| - |r|);
      } else {
        var (v, r1) := Decode(t.val, r).value;
        PairsOverrunNoValue(t, n - 1, r1, at + |s| - |r1|, Insert(ps, k, v));
      }
    }
  }

  lemma {:induction false} ArgsOverrunNoMessage(ts: seq<Type>, s: seq<Byte>, at: int)
    requires ArgsOverrun(ts, s, at) && at + |s| < LIMIT
    ensures DecodeAll(ts, s).None?
    decreases |ts|
  {
    hide Decode, Overruns;
    if Overruns(ts[0], s, at) {
      OverrunIsNoValue(ts[0], s, at);
    } else {
      var (_, r) := Decode(ts[0], s).value;
      ArgsOverrunNoMessage(ts[1..], r, at + |s| - |r|);
    }
  }

  // ------------------------------------------------------------ more bytes do not prevent it

  lemma {:induction false} OverrunStays(t: Type, s: seq<Byte>, at: int, q: seq<Byte>)
    requires Overruns(t, s, at)
    ensures Overruns(t, s + q, at)
    decreases t, 1, 0
  {
    hide Number;
    NumberLocal(4, s, q);
    var (n, r) := ReadNumber(4, s).value;
    match t
    case Str =>
    case Vec(_) => ElemsOverrunStays(t, n, r, at + 4, q);
    case Map(_, _) => PairsOverrunStays(t, n, r, at + 4, q);
  }

  lemma {:induction false} ElemsOverrunStays(t: Type, n: nat, s: seq<Byte>, at: int, q: seq<Byte>)
    requires t.Vec? && ElemsOverrun(t, n, s, at)
    ensures ElemsOverrun(t, n, s + q, at)
    decreases t, 0, n
  {
    hide Decode, Overruns;
    if Overruns(t.elem, s, at) {
      OverrunStays(t.elem, s, at, q);
    } else {
      Local(t.elem, s, q);
      var (_, r) := Decode(t.elem, s).value;
      ElemsOverrunStays(t, n - 1, r, at + |s| - |r|, q);
    }
  }

  lemma {:induction false} PairsOverrunStays(t: Type, n: nat, s: seq<Byte>, at: int, q: seq<Byte>)
    requires t.Map? && PairsOverrun(t, n, s, at)
    ensures PairsOverrun(t, n, s + q, at)
    decreases t, 0, n
  {
    hide Decode, Overruns;
    if Overruns(t.key, s, at) {
      OverrunStays(t.key, s, at, q);
    } else {
      Local(t.key, s, q);
      var (_, r) := Decode(t.key, s).value;
      if Overruns(t.val, r, at + |s| - |r|) {
        OverrunStays(t.val, r, at + |s| - |r|, q);
      } else {
        Local(t.val, r, q);
        var (_, r1) := Decode(t.val, r).value;
        PairsOverrunStays(t, n - 1, r1, at + |s| - |r1|, q);
      }
    }
  }

  lemma {:induction false} ArgsOverrunStays(ts: seq<Type>, s: seq<Byte>, at: int, q: seq<Byte>)
    requires ArgsOverrun(ts, s, at)
    ensures ArgsOverrun(ts, s + q, at)
    decreases |ts|
  {
    hide Decode, Overruns;
    if Overruns(ts[0], s, at) {
      OverrunStays(ts[0], s, at, q);
    } else {
      Local(ts[0], s, q);
      var (_, r) := Decode(ts[0], s).value;
      ArgsOverrunStays(ts[1..], r, at + |s| - |r|, q);
    }
  }

  // ------------------------------------------------------------ exactly which bytes

  /** A message, a prefix of one and an extension of one never overrun. */
  lemma MessagesDoNotOverrun(ts: seq<Type>, vs: seq<Value>, s: seq<Byte>, at: nat)
    requires Typed(ts, vs) && at + |EncodeAll(ts, vs)| < LIMIT && at + |s| < LIMIT
    requires EncodeAll(ts, vs) <= s || s <= EncodeAll(ts, vs)
    ensures !ArgsOverrun(ts, s, at)
  {
    hide EncodeAll, DecodeAll, ArgsOverrun, Typed;
    var e := EncodeAll(ts, vs);
    if ArgsOverrun(ts, s, at) {
      if |s| <= |e| {
        assert s + e[|s|..] == e == e + [];
        ArgsOverrunStays(ts, s, at, e[|s|..]);
        AllReadBack(ts, vs, []);
        ArgsOverrunNoMessage(ts, e, at);
      } else {
        assert e + s[|e|..] == s;
        AllReadBack(ts, vs, s[|e|..]);
        ArgsOverrunNoMessage(ts, s, at);
      }
    }
  }

  /** At every position there are lengths that overrun, whatever follows, and no other lengths do. */
  lemma WrappedLength(at: nat, n: nat, rest: seq<Byte>)
    requires n < LIMIT && at + 4 + |rest| < MAX_SIZE
    ensures Overruns(Str, BigEndian(n, 4) + rest, at) <==> n >= LIMIT - (at + 4)
    ensures n >= LIMIT - (at + 4) ==> Decode(Str, BigEndian(n, 4) + rest).None?
  {
    hide BigEndian, Number, ReadNumber;
    ReadSize(n, rest);
  }
}
