/**
  The character-level conventions of C++ streams that the logs, views and
  directories rely on: white space, decimal numbers, words, lines and the
  lexicographic order of strings.
 */
module Text {

  // isspace in the "C" locale
  predicate IsSpace(c: char) {
    c == ' ' || '\t' <= c <= '\r'
  }

  predicate IsDigit(c: char) {
    '0' <= c <= '9'
  }

  predicate AllDigits(s: string) {
    forall i :: 0 <= i < |s| ==> IsDigit(s[i])
  }

  /** A word that `>>` reads back whole. */
  predicate IsWord(s: string) {
    s != "" && forall i :: 0 <= i < |s| ==> !IsSpace(s[i])
  }

  /** A value that `getline` reads back whole. */
  predicate IsLine(s: string) {
    '\n' !in s
  }

  /** Lexicographic `>` of std::string. */
  predicate After(a: string, b: string) {
    a != "" && (b == "" || a[0] > b[0] || (a[0] == b[0] && After(a[1..], b[1..])))
  }

  lemma {:induction false} AfterIrreflexive(a: string)
    ensures !After(a, a)
  {
    if a != "" { AfterIrreflexive(a[1..]); }
  }

  lemma {:induction false} AfterTransitive(a: string, b: string, c: string)
    requires After(a, b) && After(b, c)
    ensures After(a, c)
  {
    if c != "" && a[0] == b[0] == c[0] { AfterTransitive(a[1..], b[1..], c[1..]); }
  }

  lemma {:induction false} AfterTotal(a: string, b: string)
    ensures a == b || After(a, b) || After(b, a)
  {
    if a != "" && b != "" && a[0] == b[0] {
      AfterTotal(a[1..], b[1..]);
      assert a == [a[0]] + a[1..] && b == [b[0]] + b[1..];
    }
  }

  // ---------------------------------------------------------------- decimals

  function DigitChar(d: nat): char
    requires d < 10
  {
    '0' + d as char
  }

  /** What `<<` prints for an unsigned number. */
  function Decimal(n: nat): (d: string)
    ensures AllDigits(d)
  {
    if n < 10 then [DigitChar(n)] else Decimal(n / 10) + [DigitChar(n % 10)]
  }

  /** What `>>` computes from a run of digits. */
  function NumberOf(s: string): nat
    requires AllDigits(s)
  {
    if s == "" then 0 else NumberOf(s[..|s| - 1]) * 10 + (s[|s| - 1] as int - '0' as int)
  }

  lemma {:induction false} DecimalRoundTrip(n: nat)
    ensures Decimal(n) != "" && AllDigits(Decimal(n)) && NumberOf(Decimal(n)) == n
  {
    if n >= 10 {
      DecimalRoundTrip(n / 10);
      var front := Decimal(n / 10);
      assert Decimal(n)[..|Decimal(n)| - 1] == front;
    } else {
      assert Decimal(n)[..0] == "";
    }
  }

  // ---------------------------------------------------------------- readers

  /** Length of the longest prefix whose characters satisfy `p`. */
  function Span(p: char -> bool, s: string): (k: nat)
    ensures k <= |s|
    ensures forall i :: 0 <= i < k ==> p(s[i])
    ensures k < |s| ==> !p(s[k])
  {
    if s == "" || !p(s[0]) then 0 else 1 + Span(p, s[1..])
  }

  lemma {:induction false} SpanIs(p: char -> bool, s: string, k: nat)
    requires k <= |s| && (forall i :: 0 <= i < k ==> p(s[i])) && (k < |s| ==> !p(s[k]))
    ensures Span(p, s) == k
  {
    if k > 0 { SpanIs(p, s[1..], k - 1); }
  }

  /** `skipws`. */
  function SkipSpace(s: string): string {
    s[Span(IsSpace, s)..]
  }

  predicate NotSpace(c: char) {
    !IsSpace(c)
  }

  predicate NotNewline(c: char) {
    c != '\n'
  }

  /** `>>` into a string: the word read (empty when the stream is exhausted) and what is left. */
  function ReadWord(s: string): (r: (string, string))
    ensures |r.0| + |r.1| <= |s|
  {
    var t := SkipSpace(s);
    var k := Span(NotSpace, t);
    (t[..k], t[k..])
  }

  /** `>>` into an unsigned number: the digits read (empty on failure) and what is left. */
  function ReadDigits(s: string): (r: (string, string))
    ensures AllDigits(r.0) && |r.0| + |r.1| <= |s|
  {
    var t := SkipSpace(s);
    var k := Span(IsDigit, t);
    (t[..k], t[k..])
  }

  /** `getline`: the line without its newline, and what is left. */
  function ReadLine(s: string): (r: (string, string))
    ensures |r.0| + |r.1| <= |s|
  {
    var k := Span(NotNewline, s);
    (s[..k], if k < |s| then s[k + 1..] else "")
  }

  /** `get`: drops one character if there is one. */
  function Drop1(s: string): (r: string)
    ensures |r| <= |s|
  {
    if s == "" then "" else s[1..]
  }

  /** A word is read back whole after at most one separator and before any white space. */
  lemma WordReadBack(w: string, rest: string)
    requires IsWord(w) && (rest == "" || IsSpace(rest[0]))
    ensures ReadWord(w + rest) == (w, rest)
    ensures ReadWord(" " + w + rest) == (w, rest)
  {
    var s := w + rest;
    SpanIs(IsSpace, s, 0);
    assert s[0..] == s;
    SpanIs(NotSpace, s, |w|);
    assert s[..|w|] == w && s[|w|..] == rest;
    var s1 := " " + w + rest;
    assert forall i :: 0 <= i < |w| ==> s1[i + 1] == w[i];
    assert s1[1] == w[0];
    SpanIs(IsSpace, s1, 1);
    assert s1[1..] == s;
  }

  lemma DigitsReadBack(d: string, rest: string)
    requires d != "" && AllDigits(d) && (rest == "" || !IsDigit(rest[0]))
    ensures ReadDigits(d + rest) == (d, rest)
    ensures ReadDigits(" " + d + rest) == (d, rest)
  {
    var s := d + rest;
    SpanIs(IsSpace, s, 0);
    assert s[0..] == s;
    SpanIs(IsDigit, s, |d|);
    assert s[..|d|] == d && s[|d|..] == rest;
    var s1 := " " + d + rest;
    assert s1[1] == d[0];
    SpanIs(IsSpace, s1, 1);
    assert s1[1..] == s;
  }

  /** A printed number is read back before anything that is not a digit. */
  lemma DecimalReadBack(n: nat, rest: string)
    requires rest == "" || !IsDigit(rest[0])
    ensures ReadDigits(Decimal(n) + rest) == (Decimal(n), rest)
    ensures ReadDigits(" " + Decimal(n) + rest) == (Decimal(n), rest)
    ensures NumberOf(Decimal(n)) == n
  {
    DecimalRoundTrip(n);
    DigitsReadBack(Decimal(n), rest);
  }

  lemma LineReadBack(v: string, rest: string)
    requires IsLine(v)
    ensures ReadLine(v + "\n" + rest) == (v, rest)
  {
    var s := v + "\n" + rest;
    SpanIs(NotNewline, s, |v|);
    assert s[..|v|] == v && s[|v| + 1..] == rest;
  }

  /** A value written as the last field of a line. */
  lemma FieldReadBack(v: string, rest: string)
    requires IsLine(v)
    ensures ReadLine(Drop1(" " + v + "\n" + rest)) == (v, rest)
  {
    var s := " " + v + "\n" + rest;
    assert s[1..] == v + "\n" + rest;
    LineReadBack(v, rest);
  }
}
