/**
  Creating, unlinking and looking up names in one directory, as the code does it on
  the directory's text and as it appears to its users: a map from name and kind to inum.
 */
module DirectoryMaps {
  import opened Option
  import opened Text
  import opened Directories

  /** `Undefined`: the code steps past the end of a list. */
  datatype Status = OK | EEXIST | NOENT | IOERR | Undefined

  /** `rnd` is what random() returned. */
  datatype Op = Create(name: string, file: bool, rnd: nat) | Unlink(name: string)

  /** random() stays below 2^31. */
  predicate Possible(op: Op) {
    op.Create? ==> op.rnd < 0x8000_0000
  }

  /** rnd | 0x80000000 for a file, rnd & 0x7FFFFFFF for a directory: the random number, and bit 31 for the kind. */
  function NewInum(file: bool, rnd: nat): (i: Inum)
    requires rnd < 0x8000_0000
    ensures IsFile(i) <==> file
    ensures i % 0x8000_0000 == rnd && i / 0x8000_0000 == if file then 1 else 0
  {
    if file then rnd + 0x8000_0000 else rnd
  }

  /** Two creates get the same inum only for the same kind and the same random number. */
  lemma InumsDiffer(file: bool, rnd: nat, file': bool, rnd': nat)
    requires rnd < 0x8000_0000 && rnd' < 0x8000_0000
    ensures NewInum(file, rnd) == NewInum(file', rnd') <==> file == file' && rnd == rnd'
  {
  }

  predicate Is(e: Dirent, name: string, file: bool) {
    e.name == name && IsFile(e.inum) == file
  }

  /** Position of the first entry of that name and kind, or the length. */
  function Find(l: seq<Dirent>, name: string, file: bool): (k: nat)
    ensures k <= |l| && (k < |l| ==> Is(l[k], name, file))
    ensures forall i :: 0 <= i < k ==> !Is(l[i], name, file)
  {
    if l == [] || Is(l[0], name, file) then 0 else 1 + Find(l[1..], name, file)
  }

  function Without(l: seq<Dirent>, k: nat): (r: seq<Dirent>)
    requires k < |l|
    ensures |r| == |l| - 1
  {
    l[..k] + l[k + 1..]
  }

  /** What the code does to the text of the directory. */
  function TextStep(buf: string, op: Op): (string, Status)
    requires Parse(buf).Some? && Possible(op)
  {
    var l := Parse(buf).value;
    match op
    case Create(name, file, rnd) =>
      if Find(l, name, file) < |l| then (buf, EEXIST)
      else (Appended(buf, l, Dirent(name, NewInum(file, rnd))), OK)
    case Unlink(name) =>
      var k := Find(l, name, true);
      if k == |l| then (buf, NOENT) else (Write(Without(l, k)), OK)
  }

  /** The inum of the first entry of that name, whatever its kind; 0 if there is none. */
  function LookupIn(l: seq<Dirent>, name: string): Inum {
    if l == [] then 0 else if l[0].name == name then l[0].inum else LookupIn(l[1..], name)
  }

  lemma FindIs(l: seq<Dirent>, name: string, file: bool, k: nat)
    requires k < |l| && Is(l[k], name, file) && forall i :: 0 <= i < k ==> !Is(l[i], name, file)
    ensures Find(l, name, file) == k
  {
  }

  // ------------------------------------------------------------ a directory is a map

  type Key = (string, bool)

  function KeyOf(e: Dirent): Key {
    (e.name, IsFile(e.inum))
  }

  /** No two entries share both name and kind. */
  ghost predicate Unique(l: seq<Dirent>) {
    forall i, j :: 0 <= i < j < |l| ==> KeyOf(l[i]) != KeyOf(l[j])
  }

  ghost function MapOf(l: seq<Dirent>): map<Key, Inum>
    requires Unique(l)
  {
    map e | e in l :: KeyOf(e) := e.inum
  }

  function MapStep(m: map<Key, Inum>, op: Op): (map<Key, Inum>, Status)
    requires Possible(op)
  {
    match op
    case Create(name, file, rnd) =>
      if (name, file) in m then (m, EEXIST) else (m[(name, file) := NewInum(file, rnd)], OK)
    case Unlink(name) =>
      if (name, true) in m then (m - {(name, true)}, OK) else (m, NOENT)
  }

  function ListStep(l: seq<Dirent>, op: Op): (seq<Dirent>, Status)
    requires Possible(op)
  {
    match op
    case Create(name, file, rnd) =>
      if Find(l, name, file) < |l| then (l, EEXIST) else (l + [Dirent(name, NewInum(file, rnd))], OK)
    case Unlink(name) =>
      var k := Find(l, name, true);
      if k == |l| then (l, NOENT) else (Without(l, k), OK)
  }

  /** The text follows the list for names that the codec can carry. */
  lemma TextFollowsList(l: seq<Dirent>, op: Op)
    requires Good(l) && Possible(op) && (op.Create? ==> GoodName(op.name))
    ensures Parse(Write(l)) == Some(l)
    ensures TextStep(Write(l), op) == (Write(ListStep(l, op).0), ListStep(l, op).1)
    ensures Good(ListStep(l, op).0)
  {
    hide Parse, Write, Appended;
    ReadBackExactly(l);
    if op.Create? { AppendedIsWritten(l, Dirent(op.name, NewInum(op.file, op.rnd))); }
  }

  lemma InMap(l: seq<Dirent>, name: string, file: bool)
    requires Unique(l)
    ensures (name, file) in MapOf(l) <==> Find(l, name, file) < |l|
    ensures Find(l, name, file) < |l| ==> MapOf(l)[(name, file)] == l[Find(l, name, file)].inum
  {
    var k := Find(l, name, file);
    if k < |l| {
      assert l[k] in l && KeyOf(l[k]) == (name, file);
    }
  }

  lemma MapAt(l: seq<Dirent>, i: nat)
    requires Unique(l) && i < |l|
    ensures KeyOf(l[i]) in MapOf(l) && MapOf(l)[KeyOf(l[i])] == l[i].inum
  {
    assert l[i] in l;
  }

  lemma MapHas(l: seq<Dirent>, k: Key) returns (i: nat)
    requires Unique(l) && k in MapOf(l)
    ensures i < |l| && KeyOf(l[i]) == k
  {
    i :| i < |l| && KeyOf(l[i]) == k;
  }

  lemma AppendAt(l: seq<Dirent>, e: Dirent, k: Key)
    requires Unique(l) && Unique(l + [e])
    ensures k in MapOf(l + [e]) <==> k in MapOf(l) || k == KeyOf(e)
    ensures k in MapOf(l + [e]) ==> MapOf(l + [e])[k] == if k == KeyOf(e) then e.inum else MapOf(l)[k]
  {
    hide MapOf, Unique, KeyOf;
    var l' := l + [e];
    MapAt(l', |l|);
    if k in MapOf(l') {
      var i := MapHas(l', k);
      MapAt(l', i);
      if i < |l| { MapAt(l, i); }
    }
    if k in MapOf(l) {
      var i := MapHas(l, k);
      MapAt(l', i);
    }
  }

  lemma AppendMaps(l: seq<Dirent>, e: Dirent)
    requires Unique(l) && Find(l, e.name, IsFile(e.inum)) == |l|
    ensures Unique(l + [e]) && MapOf(l + [e]) == MapOf(l)[KeyOf(e) := e.inum]
  {
    hide MapOf;
    assert forall i :: 0 <= i < |l| ==> !Is(l[i], e.name, IsFile(e.inum));
    forall k: Key
      ensures k in MapOf(l + [e]) <==> k in MapOf(l) || k == KeyOf(e)
      ensures k in MapOf(l + [e]) ==> MapOf(l + [e])[k] == if k == KeyOf(e) then e.inum else MapOf(l)[k]
    {
      AppendAt(l, e, k);
    }
  }

  lemma WithoutAt(l: seq<Dirent>, k: nat, i: nat)
    requires k < |l| && i < |l| - 1
    ensures Without(l, k)[i] == l[if i < k then i else i + 1]
  {
  }

  lemma WithoutUnique(l: seq<Dirent>, k: nat)
    requires Unique(l) && k < |l|
    ensures Unique(Without(l, k))
  {
    var l' := Without(l, k);
    forall i, j | 0 <= i < j < |l'|
      ensures KeyOf(l'[i]) != KeyOf(l'[j])
    {
      WithoutAt(l, k, i);
      WithoutAt(l, k, j);
    }
  }

  lemma RemoveAt(l: seq<Dirent>, k: nat, key: Key)
    requires Unique(l) && k < |l| && Unique(Without(l, k))
    ensures key in MapOf(Without(l, k)) <==> key in MapOf(l) && key != KeyOf(l[k])
    ensures key in MapOf(Without(l, k)) ==> MapOf(Without(l, k))[key] == MapOf(l)[key]
  {
    hide MapOf, KeyOf, Without;
    var l' := Without(l, k);
    if key in MapOf(l') {
      var i := MapHas(l', key);
      WithoutAt(l, k, i);
      MapAt(l', i);
      MapAt(l, if i < k then i else i + 1);
    }
    if key in MapOf(l) && key != KeyOf(l[k]) {
      var i := MapHas(l, key);
      WithoutAt(l, k, if i < k then i else i - 1);
      MapAt(l', if i < k then i else i - 1);
    }
  }

  lemma RemoveMaps(l: seq<Dirent>, k: nat)
    requires Unique(l) && k < |l|
    ensures Unique(Without(l, k)) && MapOf(Without(l, k)) == MapOf(l) - {KeyOf(l[k])}
  {
    hide MapOf, Unique, KeyOf, Without;
    WithoutUnique(l, k);
    forall key: Key
      ensures key in MapOf(Without(l, k)) <==> key in MapOf(l) && key != KeyOf(l[k])
      ensures key in MapOf(Without(l, k)) ==> MapOf(Without(l, k))[key] == MapOf(l)[key]
    {
      RemoveAt(l, k, key);
    }
  }

  lemma ListFollowsMap(l: seq<Dirent>, op: Op)
    requires Unique(l) && Possible(op)
    ensures Unique(ListStep(l, op).0)
    ensures (MapOf(ListStep(l, op).0), ListStep(l, op).1) == MapStep(MapOf(l), op)
  {
    hide MapOf, Unique;
    match op
    case Create(name, file, rnd) =>
      InMap(l, name, file);
      if Find(l, name, file) == |l| { AppendMaps(l, Dirent(name, NewInum(file, rnd))); }
    case Unlink(name) =>
      InMap(l, name, true);
      var k := Find(l, name, true);
      if k < |l| { RemoveMaps(l, k); }
  }

  // ------------------------------------------------------------ whole runs

  /** Names that are created are ones the codec carries; any name may be unlinked. */
  ghost predicate Proper(ops: seq<Op>) {
    forall i :: 0 <= i < |ops| ==> Possible(ops[i]) && (ops[i].Create? ==> GoodName(ops[i].name))
  }

  ghost function MapRun(m: map<Key, Inum>, ops: seq<Op>): (map<Key, Inum>, seq<Status>)
    requires Proper(ops)
    decreases |ops|
  {
    if ops == [] then (m, [])
    else
      var (m1, st) := MapStep(m, ops[0]);
      var (m2, sts) := MapRun(m1, ops[1..]);
      (m2, [st] + sts)
  }

  /** The text after a run, with what each call returned; None if some text could not be parsed. */
  ghost function TextRun(buf: string, ops: seq<Op>): Option<(string, seq<Status>)>
    requires Proper(ops)
    decreases |ops|
  {
    if ops == [] then Some((buf, []))
    else if Parse(buf).None? then None
    else
      var (buf1, st) := TextStep(buf, ops[0]);
      match TextRun(buf1, ops[1..])
      case None => None
      case Some((buf2, sts)) => Some((buf2, [st] + sts))
  }

  /**
    Over every run of creates and unlinks the text stays parseable, no two entries share
    name and kind, and the entries and the results are those of a map.
   */
  lemma {:induction false} DirectoryIsAMap(l: seq<Dirent>, ops: seq<Op>) returns (l': seq<Dirent>)
    requires Good(l) && Unique(l) && Proper(ops)
    ensures TextRun(Write(l), ops) == Some((Write(l'), MapRun(MapOf(l), ops).1))
    ensures Parse(Write(l')) == Some(l') && Good(l')
    ensures Unique(l') && MapOf(l') == MapRun(MapOf(l), ops).0
    decreases |ops|
  {
    hide Parse, Write, MapOf, Unique, Good, TextStep, ListStep, MapStep;
    if ops == [] {
      ReadBackExactly(l);
      l' := l;
    } else {
      TextFollowsList(l, ops[0]);
      ListFollowsMap(l, ops[0]);
      l' := DirectoryIsAMap(ListStep(l, ops[0]).0, ops[1..]);
    }
  }

  /** Unlink removes the one named file and keeps every other entry in its place in the order. */
  lemma UnlinkRemovesOne(l: seq<Dirent>, name: string) returns (a: seq<Dirent>, e: Dirent, z: seq<Dirent>)
    requires Unique(l) && ListStep(l, Unlink(name)).1 == OK
    ensures l == a + [e] + z && Is(e, name, true) && ListStep(l, Unlink(name)).0 == a + z
    ensures forall x :: x in a || x in z ==> !Is(x, name, true)
  {
    hide Find;
    var k := Find(l, name, true);
    a, e, z := l[..k], l[k], l[k + 1..];
    NoneBehind(l, k);
  }

  lemma NoneBehind(l: seq<Dirent>, k: nat)
    requires Unique(l) && k < |l|
    ensures forall x :: x in l[k + 1..] ==> KeyOf(x) != KeyOf(l[k])
  {
    hide KeyOf;
    var z := l[k + 1..];
    forall i | 0 <= i < |z|
      ensures KeyOf(z[i]) != KeyOf(l[k])
    {
      assert z[i] == l[k + 1 + i];
    }
  }

  /** When only one kind carries the name, lookup is the map; it prefers the older entry otherwise. */
  lemma {:induction false} LookupIsFirst(l: seq<Dirent>, name: string)
    ensures (forall e :: e in l ==> e.name != name) ==> LookupIn(l, name) == 0
    ensures (exists e :: e in l && e.name == name) ==>
              exists k :: 0 <= k < |l| && l[k].name == name && LookupIn(l, name) == l[k].inum
                          && forall i :: 0 <= i < k ==> l[i].name != name
  {
    if l != [] && l[0].name != name {
      LookupIsFirst(l[1..], name);
      if e :| e in l && e.name == name {
        assert e in l[1..];
        var k :| 0 <= k < |l[1..]| && l[1..][k].name == name && LookupIn(l[1..], name) == l[1..][k].inum
                 && forall i :: 0 <= i < k ==> l[1..][i].name != name;
        assert forall i :: 0 < i < k + 1 ==> l[i] == l[1..][i - 1];
        assert l[k + 1].name == name;
      }
    } else if l != [] {
      assert l[0].name == name;
    }
  }

  // ------------------------------------------------------------ names the codec cannot carry

  /** A successful create adds exactly the new entry if and only if the name is one the codec carries. */
  lemma CreateExactly(l: seq<Dirent>, name: string, file: bool, rnd: nat)
    requires Good(l) && rnd < 0x8000_0000 && Find(l, name, file) == |l|
    ensures Parse(Write(l)) == Some(l)
    ensures Parse(TextStep(Write(l), Create(name, file, rnd)).0) == Some(l + [Dirent(name, NewInum(file, rnd))])
       <==> GoodName(name)
  {
    hide Parse, Write, Appended, GoodName;
    var e := Dirent(name, NewInum(file, rnd));
    ReadBackExactly(l);
    AppendedIsWritten(l, e);
    ReadBackExactly(l + [e]);
    assert (l + [e])[|l|] == e;
  }

  /** Behind an '@' in a name nothing survives. */
  lemma CutAtAt(e: Dirent, x: string, y: string)
    requires GoodName(x) && NUL !in y && e.name == x + [INUM_SEPARATOR] + y
    ensures ParseDirent(Element(e)) == Some(Dirent(x, e.inum))
  {
    hide Split, Decimal, N2i;
    var d := Decimal(e.inum);
    DigitsAreClean(e.inum, INUM_SEPARATOR);
    WholeCStr(e.name);
    InumReadBack(e.inum);
    SplitHead(d, INUM_SEPARATOR, e.name);
    SplitHead(x, INUM_SEPARATOR, y);
  }

  lemma SplitHead(a: string, d: char, b: string)
    requires d !in a
    ensures Split(a + [d] + b, d) == [a] + Split(b, d)
  {
    var s := a + [d] + b;
    assert s[..|a|] == a && s[|a| + 1..] == b;
    UptoIs(s, d, |a|);
  }

  /** Creating a file called x@y twice succeeds twice, and leaves two files called x. */
  lemma SameNameTwice(x: string, y: string, rnd: nat, rnd': nat)
    requires GoodName(x) && ELEMENT_SEPARATOR !in y && NUL !in y && rnd < 0x8000_0000 && rnd' < 0x8000_0000
    ensures var name := x + [INUM_SEPARATOR] + y;
            && Parse("") == Some([])
            && var (b1, st1) := TextStep("", Create(name, true, rnd));
            && st1 == OK && Parse(b1).Some?
            && var (b2, st2) := TextStep(b1, Create(name, true, rnd'));
            && st2 == OK
            && Parse(b2) == Some([Dirent(x, NewInum(true, rnd)), Dirent(x, NewInum(true, rnd'))])
  {
    hide Parse, Write, Appended;
    var name := x + [INUM_SEPARATOR] + y;
    var e, e' := Dirent(name, NewInum(true, rnd)), Dirent(name, NewInum(true, rnd'));
    ReadBackExactly([]);
    assert Write([]) == "" by { WriteNothing(); }
    AppendedIsWritten([], e);
    assert [] + [e] == [e] && [e] + [e'] == [e, e'];
    ParseTwo(e, e', x, y);
    assert x != name;
    AppendedIsWritten([e], e');
    AppendedLength(Write([e]), [Dirent(x, e.inum)], [e], e');
  }

  lemma WriteNothing()
    ensures Write([]) == ""
  {
  }

  lemma AppendedLength(buf: string, l: seq<Dirent>, l': seq<Dirent>, e: Dirent)
    requires |l| == |l'|
    ensures Appended(buf, l, e) == Appended(buf, l', e)
  {
  }

  lemma ParseTwo(e: Dirent, e': Dirent, x: string, y: string)
    requires GoodName(x) && ELEMENT_SEPARATOR !in y && NUL !in y && e.name == e'.name == x + [INUM_SEPARATOR] + y
    ensures Parse(Write([e])) == Some([Dirent(x, e.inum)])
    ensures Parse(Write([e, e'])) == Some([Dirent(x, e.inum), Dirent(x, e'.inum)])
  {
    hide Split, ParseDirent, Element, ParseAll, Write;
    CutAtAt(e, x, y);
    CutAtAt(e', x, y);
    ParseNothing();
    PiecesOfWritten([e]);
    PiecesOfWritten([e, e']);
    assert Elements([e]) == [] + [Element(e)];
    assert Elements([e, e']) == [Element(e)] + [Element(e')];
    assert [] + [Element(e)] == [Element(e)];
    ParseOneMore([], Element(e));
    assert [] + [Dirent(x, e.inum)] == [Dirent(x, e.inum)];
    ParseOneMore([Element(e)], Element(e'));
    assert [Dirent(x, e.inum)] + [Dirent(x, e'.inum)] == [Dirent(x, e.inum), Dirent(x, e'.inum)];
  }
}
