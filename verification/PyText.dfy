/**
  The byte-string operations of Python 2 that the wire formats and the registry use. A string
  stands for a str of bytes; case and character classes are those of ASCII.
 */
module PyText {
  import opened Wrappers

  const CRLF: string := "\r\n"

  // ---- Character classes ------------------------------------------------------------

  predicate IsDigitChar(c: char) { '0' <= c <= '9' }

  predicate IsAlnumChar(c: char) {
    IsDigitChar(c) || 'a' <= c <= 'z' || 'A' <= c <= 'Z'
  }

  predicate IsSpaceChar(c: char) {
    c == ' ' || c == '\t' || c == '\n' || c == '\r' || c == '\U{0B}' || c == '\U{0C}'
  }

  /** str.isdigit */
  predicate IsDigit(s: string) {
    s != "" && forall i :: 0 <= i < |s| ==> IsDigitChar(s[i])
  }

  /** str.isalnum */
  predicate IsAlnum(s: string) {
    s != "" && forall i :: 0 <= i < |s| ==> IsAlnumChar(s[i])
  }

  function UpperChar(c: char): char {
    if 'a' <= c <= 'z' then (c as int - 'a' as int + 'A' as int) as char else c
  }

  function LowerChar(c: char): char {
    if 'A' <= c <= 'Z' then (c as int - 'A' as int + 'a' as int) as char else c
  }

  function Upper(s: string): (r: string)
    ensures |r| == |s| && forall i :: 0 <= i < |s| ==> r[i] == UpperChar(s[i])
  {
    seq(|s|, i requires 0 <= i < |s| => UpperChar(s[i]))
  }

  function Lower(s: string): (r: string)
    ensures |r| == |s| && forall i :: 0 <= i < |s| ==> r[i] == LowerChar(s[i])
  {
    seq(|s|, i requires 0 <= i < |s| => LowerChar(s[i]))
  }

  // ---- Searching and splitting ------------------------------------------------------

  /** Position of the first c, or the length. */
  function IndexOf(s: string, c: char): (i: nat)
    ensures i <= |s|
    ensures i < |s| ==> s[i] == c
    ensures forall j :: 0 <= j < i ==> s[j] != c
  {
    if s == "" || s[0] == c then 0 else 1 + IndexOf(s[1..], c)
  }

  /** s.split(c, 1) when c occurs. */
  function SplitFirst(s: string, c: char): Option<(string, string)> {
    var i := IndexOf(s, c);
    if i < |s| then Some((s[..i], s[i + 1..])) else None
  }

  /** s.split(c) */
  function SplitAll(s: string, c: char): (r: seq<string>)
    ensures |r| >= 1
    decreases |s|
  {
    var i := IndexOf(s, c);
    if i < |s| then [s[..i]] + SplitAll(s[i + 1..], c) else [s]
  }

  /** s.split(): the words between runs of white space. */
  function Words(s: string): seq<string> {
    WordsAfter(s, "")
  }

  function WordsAfter(s: string, word: string): seq<string>
    decreases |s|
  {
    if s == "" then (if word == "" then [] else [word])
    else if IsSpaceChar(s[0]) then (if word == "" then [] else [word]) + WordsAfter(s[1..], "")
    else WordsAfter(s[1..], word + [s[0]])
  }

  function StripLeft(s: string): string {
    if s != "" && IsSpaceChar(s[0]) then StripLeft(s[1..]) else s
  }

  function StripRight(s: string): string {
    if s != "" && IsSpaceChar(s[|s| - 1]) then StripRight(s[..|s| - 1]) else s
  }

  function Strip(s: string): string {
    StripRight(StripLeft(s))
  }

  /** Drops one trailing CRLF, if there is one. */
  function ChopLine(s: string): string {
    if |s| >= 2 && s[|s| - 2..] == CRLF then s[..|s| - 2] else s
  }

  /** Position of the first CRLF. */
  function FindCrlf(s: string): (r: Option<nat>)
    ensures r.Some? ==> r.value + 2 <= |s| && s[r.value] == '\r' && s[r.value + 1] == '\n'
  {
    if |s| < 2 then None
    else if s[0] == '\r' && s[1] == '\n' then Some(0)
    else match FindCrlf(s[1..])
      case None => None
      case Some(i) => Some(i + 1)
  }

  /** Bytes that follow do not move the first CRLF. */
  lemma {:induction false} FindCrlfExtends(s: string, more: string)
    requires FindCrlf(s).Some?
    ensures FindCrlf(s + more) == FindCrlf(s)
    decreases |s|
  {
    if !(s[0] == '\r' && s[1] == '\n') {
      FindCrlfExtends(s[1..], more);
      assert (s + more)[1..] == s[1..] + more;
    }
  }

  /** A line without a carriage return ends at the CRLF put behind it. */
  lemma {:induction false} FindCrlfAfterLine(line: string, rest: string)
    requires '\r' !in line
    ensures FindCrlf(line + CRLF + rest) == Some(|line|)
    decreases |line|
  {
    var s := line + CRLF + rest;
    if line != "" {
      FindCrlfAfterLine(line[1..], rest);
      assert s[1..] == line[1..] + CRLF + rest;
      assert s[0] == line[0];
    }
  }

  lemma IndexOfFirst(a: string, c: char, b: string)
    requires c !in a
    ensures IndexOf(a + [c] + b, c) == |a|
  {
    var s := a + [c] + b;
    assert s[|a|] == c;
    assert forall i :: 0 <= i < |a| ==> s[i] == a[i];
  }

  lemma SplitFirstAt(a: string, c: char, b: string)
    requires c !in a
    ensures SplitFirst(a + [c] + b, c) == Some((a, b))
  {
    IndexOfFirst(a, c, b);
    assert (a + [c] + b)[..|a|] == a && (a + [c] + b)[|a| + 1..] == b;
  }

  lemma SplitFirstNone(a: string, c: char)
    requires c !in a
    ensures SplitFirst(a, c) == None
  {
    assert forall i :: 0 <= i < |a| ==> a[i] != c;
  }

  // ---- Numbers ----------------------------------------------------------------------

  function DigitChar(d: nat): (c: char)
    requires d < 10
    ensures IsDigitChar(c) && DigitValue(c) == d
  {
    ('0' as int + d) as char
  }

  function DigitValue(c: char): nat
    requires IsDigitChar(c)
  {
    c as int - '0' as int
  }

  /** "%d" % n */
  function Decimal(n: nat): (s: string)
    ensures IsDigit(s)
  {
    if n < 10 then [DigitChar(n)] else Decimal(n / 10) + [DigitChar(n % 10)]
  }

  /** int(s) for a string of digits. */
  function ParseNat(s: string): nat
    requires forall i :: 0 <= i < |s| ==> IsDigitChar(s[i])
  {
    if s == "" then 0 else 10 * ParseNat(s[..|s| - 1]) + DigitValue(s[|s| - 1])
  }

  /** int(s): None stands for ValueError. */
  function ParseInt(s: string): Option<int> {
    var t := Strip(s);
    var signed := t != "" && (t[0] == '-' || t[0] == '+');
    var digits := if signed then t[1..] else t;
    if !IsDigit(digits) then None
    else
      var value: int := ParseNat(digits);
      Some(if signed && t[0] == '-' then -value else value)
  }

  lemma {:induction false} ParseNatDecimal(n: nat)
    ensures ParseNat(Decimal(n)) == n
  {
    if n >= 10 {
      ParseNatDecimal(n / 10);
      var s := Decimal(n);
      assert s[..|s| - 1] == Decimal(n / 10) && s[|s| - 1] == DigitChar(n % 10);
    } else {
      assert [DigitChar(n)][..0] == "";
    }
  }

  lemma StripKeeps(s: string)
    requires s != "" && !IsSpaceChar(s[0]) && !IsSpaceChar(s[|s| - 1])
    ensures Strip(s) == s && Strip(" " + s) == s
  {
    assert (" " + s)[1..] == s;
    assert StripLeft(" " + s) == StripLeft(s);
  }

  lemma DecimalIsPlain(n: nat)
    ensures Strip(Decimal(n)) == Decimal(n) && Strip(" " + Decimal(n)) == Decimal(n)
    ensures ParseInt(Decimal(n)) == Some(n)
    ensures IsAlnum(Decimal(n))
    ensures forall c :: c in Decimal(n) ==> IsDigitChar(c)
  {
    StripKeeps(Decimal(n));
    ParseNatDecimal(n);
  }

  /** Numbers below ten to the k take at most k digits. */
  lemma {:induction false} DecimalLength(n: nat, k: nat)
    requires k >= 1 && n < Power10(k)
    ensures |Decimal(n)| <= k
  {
    if n >= 10 {
      DecimalLength(n / 10, k - 1);
    }
  }

  function Power10(k: nat): (p: nat)
    ensures p >= 1
  {
    if k == 0 then 1 else 10 * Power10(k - 1)
  }
}
