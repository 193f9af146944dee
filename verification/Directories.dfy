/**
  How a directory is kept as text: printing, splitting and parsing its entries.
 */
module Directories {
  import opened Option
  import opened Text

  const ELEMENT_SEPARATOR := '/'
  const INUM_SEPARATOR := '@'
  const NUL := '\0'

  const INUM_LIMIT := 0x1_0000_0000_0000_0000

  type Inum = x: nat | x < INUM_LIMIT

  datatype Dirent = Dirent(name: string, inum: Inum)

  /** Bit 31. */
  predicate IsFile(inum: Inum) {
    inum / 0x8000_0000 % 2 == 1
  }

  /** Position of the first d, or the length. */
  function Upto(s: string, d: char): (k: nat)
    ensures k <= |s| && d !in s[..k] && (k < |s| ==> s[k] == d)
  {
    if s == "" || s[0] == d then 0
    else
      var k := Upto(s[1..], d);
      assert s[..k + 1] == [s[0]] + s[1..][..k];
      k + 1
  }

  /** The text behind the first d. */
  function Behind(s: string, d: char): (r: string)
    ensures |r| <= |s| && (s != "" ==> |r| < |s|)
  {
    if Upto(s, d) < |s| then s[Upto(s, d) + 1..] else ""
  }

  /** Repeated getline: a final empty piece is not produced. */
  function Split(s: string, d: char): seq<string>
    decreases |s|
  {
    if s == "" then [] else [s[..Upto(s, d)]] + Split(Behind(s, d), d)
  }

  /** c_str: a name ends at its first NUL. */
  function CStr(s: string): string {
    s[..Upto(s, NUL)]
  }

  /** createBuffElement. */
  function Element(e: Dirent): string {
    Decimal(e.inum) + [INUM_SEPARATOR] + CStr(e.name)
  }

  /** writeDirent. */
  function Write(l: seq<Dirent>): string {
    if l == [] then ""
    else if |l| == 1 then Element(l[0])
    else Write(l[..|l| - 1]) + [ELEMENT_SEPARATOR] + Element(l[|l| - 1])
  }

  /**
    n2i: blanks and a sign are passed over, a number that does not fit becomes the greatest, and
    text without digits gives 0.
   */
  function N2i(s: string): Inum {
    var t := SkipSpace(s);
    var signed := t != "" && (t[0] == '-' || t[0] == '+');
    var u := if signed then t[1..] else t;
    var n := NumberOf(u[..Span(IsDigit, u)]);
    if n >= INUM_LIMIT then INUM_LIMIT - 1
    else if signed && t[0] == '-' then (INUM_LIMIT - n) % INUM_LIMIT
    else n
  }

  /** None where the code would step past the last piece; pieces behind the second are dropped. */
  function ParseDirent(s: string): Option<Dirent> {
    var pieces := Split(s, INUM_SEPARATOR);
    if |pieces| < 2 then None else Some(Dirent(pieces[1], N2i(pieces[0])))
  }

  function ParseAll(pieces: seq<string>): Option<seq<Dirent>> {
    if pieces == [] then Some([])
    else match ParseAll(pieces[..|pieces| - 1])
      case None => None
      case Some(l) => match ParseDirent(pieces[|pieces| - 1])
        case None => None
        case Some(e) => Some(l + [e])
  }

  /** parsebuf. */
  function Parse(buf: string): Option<seq<Dirent>> {
    ParseAll(Split(buf, ELEMENT_SEPARATOR))
  }

  // ------------------------------------------------------------ the loops

  method SplitText(s: string, d: char) returns (elems: seq<string>)
    ensures elems == Split(s, d)
  {
    hide Upto, Behind;
    elems := [];
    var rest := s;
    while rest != ""
      invariant elems + Split(rest, d) == Split(s, d)
      decreases |rest|
    {
      var item := rest[..Upto(rest, d)];
      assert elems + ([item] + Split(Behind(rest, d), d)) == elems + [item] + Split(Behind(rest, d), d);
      elems := elems + [item];
      rest := Behind(rest, d);
    }
  }

  method ParseBuf(buf: string) returns (entries: Option<seq<Dirent>>)
    ensures entries == Parse(buf)
  {
    hide Split, ParseDirent;
    var pieces := SplitText(buf, ELEMENT_SEPARATOR);
    var l := [];
    assert pieces[..0] == [];
    for i := 0 to |pieces|
      invariant ParseAll(pieces[..i]) == Some(l)
    {
      assert pieces[..i + 1][..i] == pieces[..i];
      var e := ParseDirent(pieces[i]);
      if e.None? {
        UnreadablePiece(pieces, i);
        return None;
      }
      l := l + [e.value];
    }
    assert pieces[..|pieces|] == pieces;
    entries := Some(l);
  }

  method WriteDirent(l: seq<Dirent>) returns (s: string)
    ensures s == Write(l)
  {
    s := "";
    var firstLoop := true;
    for i := 0 to |l|
      invariant s == Write(l[..i]) && firstLoop == (i == 0)
    {
      assert l[..i + 1][..i] == l[..i];
      if !firstLoop { s := s + [ELEMENT_SEPARATOR]; }
      s := s + Element(l[i]);
      firstLoop := false;
    }
    assert l[..|l|] == l;
  }

  lemma {:induction false} UnreadablePiece(pieces: seq<string>, i: nat)
    requires i < |pieces| && ParseDirent(pieces[i]).None?
    ensures ParseAll(pieces).None?
    decreases |pieces|
  {
    if i < |pieces| - 1 { UnreadablePiece(pieces[..|pieces| - 1], i); }
  }

  // ------------------------------------------------------------ splitting

  lemma UptoIs(s: string, d: char, k: nat)
    requires k <= |s| && d !in s[..k] && (k < |s| ==> s[k] == d)
    ensures Upto(s, d) == k
  {
  }

  lemma SplitFirst(s: string, d: char)
    requires s != "" && Upto(s, d) < |s|
    ensures Split(s, d) == [s[..Upto(s, d)]] + Split(s[Upto(s, d) + 1..], d)
  {
    hide Upto;
  }

  /** One more piece at the end. */
  lemma {:induction false} SplitAppend(s: string, d: char, t: string)
    requires s != "" && s[|s| - 1] != d && t != "" && d !in t
    ensures Split(s + [d] + t, d) == Split(s, d) + [t]
    decreases |s|
  {
    hide Upto, Split;
    var k, all := Upto(s, d), s + [d] + t;
    assert all[..k] == s[..k];
    UptoIs(all, d, k);
    SplitFirst(all, d);
    if k == |s| {
      assert all[k + 1..] == t && all[..k] == s;
      SplitOne(t, d);
      SplitOne(s, d);
    } else {
      SplitFirst(s, d);
      var r := s[k + 1..];
      assert r != "" && r[|r| - 1] == s[|s| - 1];
      assert all[k + 1..] == r + [d] + t;
      SplitAppend(r, d, t);
      assert [s[..k]] + (Split(r, d) + [t]) == [s[..k]] + Split(r, d) + [t];
    }
  }

  lemma SplitOne(t: string, d: char)
    requires t != "" && d !in t
    ensures Split(t, d) == [t]
  {
    hide Upto;
    UptoIs(t, d, |t|);
    assert t[..|t|] == t;
    assert Behind(t, d) == "";
  }

  lemma BehindIsPart(s: string, d: char)
    ensures forall c :: c in Behind(s, d) ==> c in s
  {
    hide Upto;
  }

  /** No piece contains the separator, and every piece is made of characters of the text. */
  lemma {:induction false} PiecesAreClean(s: string, d: char, i: nat)
    requires i < |Split(s, d)|
    ensures d !in Split(s, d)[i]
    ensures forall c :: c in Split(s, d)[i] ==> c in s
    decreases |s|
  {
    hide Upto, Behind;
    BehindIsPart(s, d);
    if i > 0 { PiecesAreClean(Behind(s, d), d, i - 1); }
  }

  // ------------------------------------------------------------ one entry

  predicate GoodName(name: string) {
    name != "" && ELEMENT_SEPARATOR !in name && INUM_SEPARATOR !in name && NUL !in name
  }

  predicate Good(l: seq<Dirent>) {
    forall i :: 0 <= i < |l| ==> GoodName(l[i].name)
  }

  lemma DigitsAreClean(n: nat, d: char)
    requires !IsDigit(d)
    ensures d !in Decimal(n) && Decimal(n) != ""
  {
    DecimalRoundTrip(n);
  }

  lemma WholeCStr(name: string)
    requires NUL !in name
    ensures CStr(name) == name
  {
    UptoIs(name, NUL, |name|);
    assert name[..|name|] == name;
  }

  lemma InumReadBack(i: Inum)
    ensures N2i(Decimal(i)) == i
  {
    hide Decimal, NumberOf;
    DecimalRoundTrip(i);
    var d := Decimal(i);
    SpanIs(IsSpace, d, 0);
    SpanIs(IsDigit, d, |d|);
    assert d[0..] == d && d[..|d|] == d;
  }

  lemma OnePieceOnly(a: string, d: char)
    requires d !in a
    ensures Split(a + [d], d) == [a]
  {
    hide Upto;
    var s := a + [d];
    assert s[..|a|] == a;
    UptoIs(s, d, |a|);
    assert Behind(s, d) == "";
  }

  /** An entry is read back; one with an empty name is not. */
  lemma ElementReadBack(e: Dirent)
    requires INUM_SEPARATOR !in e.name && NUL !in e.name
    ensures ParseDirent(Element(e)) == if e.name == "" then None else Some(e)
  {
    hide Decimal, N2i, Upto, Split, CStr;
    var d, t := Decimal(e.inum), e.name;
    DigitsAreClean(e.inum, INUM_SEPARATOR);
    WholeCStr(t);
    InumReadBack(e.inum);
    if t == "" {
      assert Element(e) == d + [INUM_SEPARATOR];
      OnePieceOnly(d, INUM_SEPARATOR);
    } else {
      SplitAppend(d, INUM_SEPARATOR, t);
      SplitOne(d, INUM_SEPARATOR);
    }
  }

  lemma ElementIsOnePiece(e: Dirent)
    requires ELEMENT_SEPARATOR !in e.name
    ensures Element(e) != "" && ELEMENT_SEPARATOR !in Element(e)
  {
    DigitsAreClean(e.inum, ELEMENT_SEPARATOR);
  }

  // ------------------------------------------------------------ whole directories

  function Elements(l: seq<Dirent>): (r: seq<string>)
    ensures |r| == |l| && forall i :: 0 <= i < |l| ==> r[i] == Element(l[i])
  {
    if l == [] then [] else Elements(l[..|l| - 1]) + [Element(l[|l| - 1])]
  }

  lemma {:induction false} PiecesOfWritten(l: seq<Dirent>)
    requires forall i :: 0 <= i < |l| ==> ELEMENT_SEPARATOR !in l[i].name
    ensures Split(Write(l), ELEMENT_SEPARATOR) == Elements(l)
    ensures l != [] ==> Write(l) != "" && Write(l)[|Write(l)| - 1] != ELEMENT_SEPARATOR
  {
    hide Split, Element;
    if l != [] {
      var front, last := l[..|l| - 1], l[|l| - 1];
      ElementIsOnePiece(last);
      if |l| == 1 {
        SplitOne(Element(last), ELEMENT_SEPARATOR);
        assert Elements(front) == [];
      } else {
        PiecesOfWritten(front);
        SplitAppend(Write(front), ELEMENT_SEPARATOR, Element(last));
      }
    } else {
      SplitNothing();
    }
  }

  lemma SplitNothing()
    ensures Split("", ELEMENT_SEPARATOR) == []
  {
  }

  predicate Named(l: seq<Dirent>) {
    forall i :: 0 <= i < |l| ==> l[i].name != ""
  }

  lemma ParseOneMore(pieces: seq<string>, p: string)
    ensures ParseAll(pieces).Some? && ParseDirent(p).Some? ==>
              ParseAll(pieces + [p]) == Some(ParseAll(pieces).value + [ParseDirent(p).value])
    ensures ParseAll(pieces).None? || ParseDirent(p).None? ==> ParseAll(pieces + [p]).None?
  {
    hide ParseDirent;
    assert (pieces + [p])[..|pieces|] == pieces;
  }

  /** The elements of a list parse as that list, unless one has no name. */
  lemma {:induction false} ElementsParse(l: seq<Dirent>)
    requires forall i :: 0 <= i < |l| ==> INUM_SEPARATOR !in l[i].name && NUL !in l[i].name
    ensures ParseAll(Elements(l)) == if Named(l) then Some(l) else None
  {
    hide ParseDirent, Element, ParseAll;
    if l != [] {
      var front, last := l[..|l| - 1], l[|l| - 1];
      ElementsParse(front);
      ElementReadBack(last);
      assert front + [last] == l;
      ParseOneMore(Elements(front), Element(last));
    } else {
      ParseNothing();
    }
  }

  lemma ParseNothing()
    ensures ParseAll([]) == Some([])
  {
  }

  // ------------------------------------------------------------ exactly which directories survive

  /** Characters that appear in a printed directory never include NUL. */
  lemma {:induction false} WrittenHasNoNul(l: seq<Dirent>)
    ensures NUL !in Write(l)
  {
    if l != [] {
      DigitsAreClean(l[|l| - 1].inum, NUL);
      WrittenHasNoNul(l[..|l| - 1]);
    }
  }

  /** What was parsed has names free of separators and of anything not in the text. */
  lemma {:induction false} ParsedNames(pieces: seq<string>, i: nat)
    requires ParseAll(pieces).Some? && i < |ParseAll(pieces).value|
    ensures |ParseAll(pieces).value| == |pieces|
    ensures var name := ParseAll(pieces).value[i].name;
            INUM_SEPARATOR !in name && forall c :: c in name ==> c in pieces[i]
    decreases |pieces|
  {
    var n := |pieces| - 1;
    var front := ParseAll(pieces[..n]).value;
    if front != [] { ParsedNames(pieces[..n], if i < n && i < |front| then i else 0); }
    else { ParsedAll(pieces[..n]); }
    if i == n { PiecesAreClean(pieces[n], INUM_SEPARATOR, 1); }
  }

  lemma {:induction false} ParsedAll(pieces: seq<string>)
    requires ParseAll(pieces).Some?
    ensures |ParseAll(pieces).value| == |pieces|
  {
    if pieces != [] { ParsedAll(pieces[..|pieces| - 1]); }
  }

  /** A directory is read back exactly when its names are non-empty and free of '/', '@' and NUL. */
  lemma ReadBackExactly(l: seq<Dirent>)
    ensures Parse(Write(l)) == Some(l) <==> Good(l)
  {
    hide Split, ParseAll, Write;
    if Parse(Write(l)) == Some(l) {
      var pieces := Split(Write(l), ELEMENT_SEPARATOR);
      ParsedAll(pieces);
      WrittenHasNoNul(l);
      forall i | 0 <= i < |l|
        ensures ELEMENT_SEPARATOR !in l[i].name && INUM_SEPARATOR !in l[i].name && NUL !in l[i].name
      {
        ParsedNames(pieces, i);
        PiecesAreClean(Write(l), ELEMENT_SEPARATOR, i);
      }
      PiecesOfWritten(l);
      ElementsParse(l);
    } else if Good(l) {
      PiecesOfWritten(l);
      ElementsParse(l);
    }
  }

  /** The text after a create, as the code builds it in place. */
  function Appended(buf: string, l: seq<Dirent>, e: Dirent): string {
    buf + (if |l| != 0 then [ELEMENT_SEPARATOR] else "") + Element(e)
  }

  /** Appending in place gives the encoding of the longer list. */
  lemma AppendedIsWritten(l: seq<Dirent>, e: Dirent)
    ensures Appended(Write(l), l, e) == Write(l + [e])
  {
    assert (l + [e])[..|l|] == l;
  }
}
