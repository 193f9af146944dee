/**
  The bytes of a file under reads, writes and changes of size.
 */
module FileContents {
  import opened Option

  const ZERO := '\0'

  /** std::string::resize; new characters are NUL. */
  function Resized(s: string, n: nat): (r: string)
    ensures |r| == n && forall i :: 0 <= i < n ==> r[i] == if i < |s| then s[i] else '\0'
  {
    if n <= |s| then s[..n] else s + seq(n - |s|, _ => ZERO)
  }

  /** writeFile; the file grows to the end of the write even if nothing is written. */
  function Written(s: string, off: nat, data: string): (r: string)
    ensures |r| == if off + |data| > |s| then off + |data| else |s|
    ensures forall i :: 0 <= i < |r| ==>
              r[i] == if off <= i < off + |data| then data[i - off] else if i < |s| then s[i] else '\0'
  {
    var t := if off + |data| > |s| then Resized(s, off + |data|) else s;
    t[..off] + data + t[off + |data|..]
  }

  /** readFile; None is IOERR. */
  function ReadAt(s: string, off: nat, size: nat): (r: Option<string>)
    ensures r.None? <==> |s| < off
    ensures r.Some? ==> |r.value| == (if off + size <= |s| then size else |s| - off)
    ensures r.Some? ==> forall i :: 0 <= i < |r.value| ==> r.value[i] == s[off + i]
  {
    if off > |s| then None
    else if off + size <= |s| then Some(s[off..off + size])
    else Some(s[off..])
  }

  // ------------------------------------------------------------ files as byte maps

  /** A size, and the bytes that were written and not cut off since. */
  datatype ByteMap = ByteMap(size: nat, bytes: map<nat, char>)

  function At(f: ByteMap, i: nat): char {
    if i in f.bytes then f.bytes[i] else ZERO
  }

  function ByteAt(off: nat, data: string, i: nat): char
    requires off <= i < off + |data|
  {
    data[i - off]
  }

  function MapWrite(f: ByteMap, off: nat, data: string): ByteMap {
    ByteMap(
      if off + |data| > f.size then off + |data| else f.size,
      f.bytes + map i | off <= i < off + |data| :: ByteAt(off, data, i))
  }

  function MapResize(f: ByteMap, n: nat): ByteMap {
    ByteMap(n, map i | i in f.bytes && i < n :: f.bytes[i])
  }

  function MapRead(f: ByteMap, off: nat, size: nat): Option<string> {
    if off > f.size then None
    else Some(seq(if off + size <= f.size then size else f.size - off, (i: nat) => At(f, off + i)))
  }

  ghost predicate Agrees(s: string, f: ByteMap) {
    && |s| == f.size
    && (forall i :: 0 <= i < |s| ==> s[i] == At(f, i))
    && (forall i :: i in f.bytes ==> i < f.size)
  }

  datatype Op = Write(off: nat, data: string) | Resize(n: nat) | Read(off: nat, size: nat)

  /** The new contents, and what a read returned. */
  function Step(s: string, op: Op): (string, Option<string>) {
    match op
    case Write(off, data) => (Written(s, off, data), None)
    case Resize(n) => (Resized(s, n), None)
    case Read(off, size) => (s, ReadAt(s, off, size))
  }

  function MapStep(f: ByteMap, op: Op): (ByteMap, Option<string>) {
    match op
    case Write(off, data) => (MapWrite(f, off, data), None)
    case Resize(n) => (MapResize(f, n), None)
    case Read(off, size) => (f, MapRead(f, off, size))
  }

  lemma WriteAgrees(s: string, f: ByteMap, off: nat, data: string)
    requires Agrees(s, f)
    ensures Agrees(Written(s, off, data), MapWrite(f, off, data))
  {
    var r, g := Written(s, off, data), MapWrite(f, off, data);
    forall i | 0 <= i < |r|
      ensures r[i] == At(g, i)
    {
      if off <= i < off + |data| {
        assert r[i] == data[i - off];
      } else {
        assert At(g, i) == At(f, i);
      }
    }
  }

  lemma ResizeAgrees(s: string, f: ByteMap, n: nat)
    requires Agrees(s, f)
    ensures Agrees(Resized(s, n), MapResize(f, n))
  {
    var r, g := Resized(s, n), MapResize(f, n);
    forall i | 0 <= i < n
      ensures r[i] == At(g, i)
    {
      if i < |s| { assert r[i] == s[i]; }
    }
  }

  lemma ReadAgrees(s: string, f: ByteMap, off: nat, size: nat)
    requires Agrees(s, f)
    ensures ReadAt(s, off, size) == MapRead(f, off, size)
  {
    if off <= |s| {
      assert ReadAt(s, off, size).value == MapRead(f, off, size).value;
    }
  }

  function Run(s: string, ops: seq<Op>): (string, seq<Option<string>>)
    decreases |ops|
  {
    if ops == [] then (s, [])
    else
      var (s1, out) := Step(s, ops[0]);
      var (s2, outs) := Run(s1, ops[1..]);
      (s2, [out] + outs)
  }

  function MapRun(f: ByteMap, ops: seq<Op>): (ByteMap, seq<Option<string>>)
    decreases |ops|
  {
    if ops == [] then (f, [])
    else
      var (f1, out) := MapStep(f, ops[0]);
      var (f2, outs) := MapRun(f1, ops[1..]);
      (f2, [out] + outs)
  }

  /** Over every run, every read returns what the byte map holds; gaps and regrown tails are zero. */
  lemma {:induction false} FileIsAByteMap(s: string, f: ByteMap, ops: seq<Op>)
    requires Agrees(s, f)
    ensures Run(s, ops).1 == MapRun(f, ops).1 && Agrees(Run(s, ops).0, MapRun(f, ops).0)
    decreases |ops|
  {
    hide Agrees, Written, Resized, ReadAt, MapWrite, MapResize, MapRead;
    if ops != [] {
      match ops[0] {
        case Write(off, data) => WriteAgrees(s, f, off, data);
        case Resize(n) => ResizeAgrees(s, f, n);
        case Read(off, size) => ReadAgrees(s, f, off, size);
      }
      FileIsAByteMap(Step(s, ops[0]).0, MapStep(f, ops[0]).0, ops[1..]);
    }
  }
}
