/**
  The texts the system keeps and compares, said outright: numbers, names, directories, views and
  log lines.
 */
module TextForms {
  import opened Text
  import opened Ballots
  import D = Directories
  import V = Views
  import A = Acceptors

  // ------------------------------------------------------------ characters, numbers and names

  /** The six white-space characters. */
  lemma Spaces(c: char)
    ensures IsSpace(c) <==> c as int in {9, 10, 11, 12, 13, 32}
  {
  }

  /** The digit of the remainder by ten comes last. */
  lemma Digits(n: nat, r: nat)
    requires r < 10
    ensures Decimal(r) == [(48 + r) as char]
    ensures n > 0 ==> Decimal(10 * n + r) == Decimal(n) + [(48 + r) as char]
  {
    if n > 0 {
      assert (10 * n + r) / 10 == n && (10 * n + r) % 10 == r;
    }
  }

  /** Strings are compared at their first difference, and a prefix comes first. */
  lemma {:induction false} NameOrder(a: string, b: string)
    ensures After(a, b) <==> exists k :: 0 <= k <= |b| && k < |a| && a[..k] == b[..k] && (k == |b| || a[k] > b[k])
    decreases |a|
  {
    if a != "" && b != "" && a[0] == b[0] {
      var a1, b1 := a[1..], b[1..];
      NameOrder(a1, b1);
      if After(a, b) {
        var k :| 0 <= k <= |b1| && k < |a1| && a1[..k] == b1[..k] && (k == |b1| || a1[k] > b1[k]);
        assert a[..k + 1] == [a[0]] + a1[..k] && b[..k + 1] == [b[0]] + b1[..k];
      }
      if k :| 0 <= k <= |b| && k < |a| && a[..k] == b[..k] && (k == |b| || a[k] > b[k]) {
        assert a1[..k - 1] == a[..k][1..] && b1[..k - 1] == b[..k][1..];
      }
    } else if a != "" && After(a, b) {
      assert a[..0] == b[..0];
    }
  }

  /** Ballots are compared by number, and those of one number by the proposer's name. */
  lemma BallotsByNumber(a: Ballot, b: Ballot)
    ensures a.n > b.n ==> Above(a, b) && !Above(b, a)
    ensures a.n == b.n ==>
              (Above(a, b) <==> exists k :: 0 <= k <= |b.node| && k < |a.node| && a.node[..k] == b.node[..k]
                                            && (k == |b.node| || a.node[k] > b.node[k]))
  {
    hide After;
    NameOrder(a.node, b.node);
  }

  // ------------------------------------------------------------ directories

  /** Each piece with the separator behind it. */
  function Closed(pieces: seq<string>, d: char): string {
    if pieces == [] then "" else pieces[0] + [d] + Closed(pieces[1..], d)
  }

  lemma CloseMore(piece: string, pieces: seq<string>, d: char)
    ensures Closed([piece] + pieces, d) == piece + [d] + Closed(pieces, d)
  {
    assert ([piece] + pieces)[1..] == pieces;
  }

  lemma {:induction false} SplitCloses(s: string, d: char)
    ensures Closed(D.Split(s, d), d) == if s == "" || s[|s| - 1] == d then s else s + [d]
    decreases |s|
  {
    hide D.Upto, Closed, D.Split;
    var k := D.Upto(s, d);
    if s == "" {
      NoPieces(d);
    } else if k < |s| {
      D.SplitFirst(s, d);
      SplitCloses(s[k + 1..], d);
      CloseMore(s[..k], D.Split(s[k + 1..], d), d);
      assert s == s[..k] + [d] + s[k + 1..];
    } else {
      assert s[..k] == s;
      D.SplitOne(s, d);
      CloseMore(s, [], d);
      NoPieces(d);
      assert [s] + [] == [s];
      assert s[|s| - 1] in s;
    }
  }

  lemma NoPieces(d: char)
    ensures D.Split("", d) == [] && Closed([], d) == ""
  {
  }

  /** The pieces are free of the separator, and closing each gives the text back, closed if it was not. */
  lemma Pieces(s: string, d: char)
    ensures forall i :: 0 <= i < |D.Split(s, d)| ==> d !in D.Split(s, d)[i]
    ensures Closed(D.Split(s, d), d) == if s == "" || s[|s| - 1] == d then s else s + [d]
  {
    hide D.Split, Closed;
    SplitCloses(s, d);
    forall i | 0 <= i < |D.Split(s, d)|
      ensures d !in D.Split(s, d)[i]
    {
      D.PiecesAreClean(s, d, i);
    }
  }

  /** An entry is its number, '@' and its name; entries are parted by '/'. */
  lemma DirectoryText(l: seq<D.Dirent>, e: D.Dirent)
    requires '\0' !in e.name
    ensures D.Write([]) == "" && D.Write([e]) == Decimal(e.inum) + "@" + e.name
    ensures l != [] ==> D.Write(l + [e]) == D.Write(l) + "/" + Decimal(e.inum) + "@" + e.name
  {
    hide D.CStr, Decimal;
    D.WholeCStr(e.name);
    assert (l + [e])[..|l|] == l;
    if l != [] {
      assert D.Write(l + [e]) == D.Write(l) + "/" + D.Element(e);
      assert D.Write(l) + "/" + (Decimal(e.inum) + "@" + e.name) == D.Write(l) + "/" + Decimal(e.inum) + "@" + e.name;
    }
  }

  /** A name is printed up to its first NUL. */
  lemma NameUpToNul(inum: D.Inum, head: string, tail: string)
    requires '\0' !in head
    ensures D.Element(D.Dirent(head, inum)) == Decimal(inum) + "@" + head
    ensures D.Element(D.Dirent(head + "\0" + tail, inum)) == Decimal(inum) + "@" + head
  {
    hide D.Upto, Decimal;
    D.WholeCStr(head);
    var s := head + "\0" + tail;
    assert s[..|head|] == head && s[|head|] == '\0';
    D.UptoIs(s, '\0', |head|);
  }

  /** The names the text carries. */
  lemma GoodNames(name: string)
    ensures D.GoodName(name) <==> name != "" && '/' !in name && '@' !in name && '\0' !in name
  {
  }

  /** Bit 31 tells files from directories, whatever bits are above and below it. */
  lemma KindBit(high: nat, bit: nat, low: nat)
    requires high < 0x1_0000_0000 && bit < 2 && low < 0x8000_0000
    ensures D.IsFile(high * 0x1_0000_0000 + bit * 0x8000_0000 + low) <==> bit == 1
  {
    var i := high * 0x1_0000_0000 + bit * 0x8000_0000 + low;
    assert i == (2 * high + bit) * 0x8000_0000 + low;
    assert i / 0x8000_0000 == 2 * high + bit;
  }

  /** What is read as a number: blanks, and digits up to anything else; too great a number reads as the greatest. */
  lemma NumberRead(blanks: string, digits: string, rest: string)
    requires (forall c :: c in blanks ==> IsSpace(c)) && AllDigits(digits) && digits != "" && (rest == "" || !IsDigit(rest[0]))
    ensures var n, top := NumberOf(digits), 0x1_0000_0000_0000_0000;
            D.N2i(blanks + (digits + rest)) == if n < top then n else top - 1
  {
    hide NumberOf, SkipSpace;
    assert IsDigit(digits[0]);
    Skips(blanks, digits + rest);
    TakesDigits(digits, rest);
  }

  /** A sign may come between; a negative number is taken modulo 2^64, and a sign alone reads as 0. */
  lemma SignedRead(blanks: string, digits: string, rest: string)
    requires (forall c :: c in blanks ==> IsSpace(c)) && AllDigits(digits) && (rest == "" || !IsDigit(rest[0]))
    ensures var n, top := NumberOf(digits), 0x1_0000_0000_0000_0000;
            && D.N2i(blanks + ("+" + (digits + rest))) == (if n < top then n else top - 1)
            && D.N2i(blanks + ("-" + (digits + rest))) == if n >= top then top - 1 else if n == 0 then 0 else top - n
  {
    hide NumberOf, SkipSpace;
    var u := digits + rest;
    Skips(blanks, "+" + u);
    Skips(blanks, "-" + u);
    TakesDigits(digits, rest);
    assert ("+" + u)[1..] == u && ("-" + u)[1..] == u;
  }

  lemma Skips(blanks: string, t: string)
    requires (forall c :: c in blanks ==> IsSpace(c)) && t != "" && !IsSpace(t[0])
    ensures SkipSpace(blanks + t) == t
  {
    var s := blanks + t;
    assert forall i :: 0 <= i < |blanks| ==> s[i] == blanks[i] && blanks[i] in blanks;
    SpanIs(IsSpace, s, |blanks|);
    assert s[|blanks|..] == t;
  }

  lemma TakesDigits(digits: string, rest: string)
    requires AllDigits(digits) && (rest == "" || !IsDigit(rest[0]))
    ensures var u := digits + rest; u[..Span(IsDigit, u)] == digits
  {
    var u := digits + rest;
    SpanIs(IsDigit, u, |digits|);
    assert u[..|digits|] == digits;
  }

  /** Text that starts with neither a digit nor a sign reads as 0. */
  lemma NoNumberRead(s: string)
    requires var t := SkipSpace(s); t == "" || !(IsDigit(t[0]) || t[0] == '+' || t[0] == '-')
    ensures D.N2i(s) == 0
  {
    var t := SkipSpace(s);
    SpanIs(IsDigit, t, 0);
    assert t[..0] == "";
  }

  // ------------------------------------------------------------ views and logs

  /** A view is printed with a blank behind each name. */
  lemma ViewText(v: V.View)
    ensures V.ValueOf([]) == ""
    ensures v != [] ==> V.ValueOf(v) == v[0] + " " + V.ValueOf(v[1..])
  {
  }

  lemma Joined(a: string, b: string, c: string)
    ensures a + (" " + b + c) == a + " " + b + c
  {
  }

  /** The three kinds of line in the log. */
  lemma LogLines(i: nat, b: Ballot, v: Value)
    ensures A.Line(A.Done(i, v)) == "done" + " " + Decimal(i) + (" " + v + "\n")
    ensures A.Line(A.Seen(b)) == "propseen" + " " + Decimal(b.n) + (" " + b.node + "\n")
    ensures A.Line(A.Voted(b, v)) == "accepted" + " " + Decimal(b.n) + (" " + b.node + (" " + v + "\n"))
  {
    hide Decimal;
    Joined("done", Decimal(i), " " + v + "\n");
    Joined("propseen", Decimal(b.n), " " + b.node + "\n");
    Joined("accepted", Decimal(b.n), " " + b.node + (" " + v + "\n"));
  }
}
