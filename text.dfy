/** String operations the components perform: JavaScript's
    `charAt(0).toUpperCase() + slice(1).toLowerCase()` title-casing (on
    ASCII letters), number-to-text and text-to-number conversion, `join`
    and `String.prototype.replace` with a one-character string pattern. */
module Text {
  import opened Wrappers
  import opened Seqs

  predicate IsUpperAscii(c: char) { 'A' <= c <= 'Z' }
  predicate IsLowerAscii(c: char) { 'a' <= c <= 'z' }

  function Upper(c: char): (u: char)
    ensures !IsLowerAscii(u)
  {
    if IsLowerAscii(c) then (c as int - 32) as char else c
  }

  function Lower(c: char): (l: char)
    ensures !IsUpperAscii(l)
  {
    if IsUpperAscii(c) then (c as int + 32) as char else c
  }

  /** `s.toLowerCase()`. */
  function LowerAll(s: string): (r: string)
    ensures |r| == |s|
    ensures forall i :: 0 <= i < |s| ==> r[i] == Lower(s[i])
  {
    if |s| == 0 then "" else [Lower(s[0])] + LowerAll(s[1..])
  }

  /** First character not a lower-case letter, the rest not upper-case. */
  predicate IsTitleCased(s: string) {
    && (|s| > 0 ==> !IsLowerAscii(s[0]))
    && (forall i :: 1 <= i < |s| ==> !IsUpperAscii(s[i]))
  }

  /** The two strings differ at most in the case of their letters. */
  predicate SameIgnoringCase(a: string, b: string) {
    |a| == |b| && forall i :: 0 <= i < |a| ==> Lower(a[i]) == Lower(b[i])
  }

  /** `s.charAt(0).toUpperCase() + s.slice(1).toLowerCase()`: the
      title-cased spelling of `s` (`"SWEET"` becomes `"Sweet"`). */
  function TitleCase(s: string): (r: string)
    ensures |r| == |s|
    ensures IsTitleCased(r)
    ensures SameIgnoringCase(r, s)
  {
    if |s| == 0 then "" else [Upper(s[0])] + LowerAll(s[1..])
  }

  /** Title case is the only title-cased spelling of a string: any
      title-cased string equal to `s` up to case is `TitleCase(s)`. */
  lemma TitleCaseUnique(t: string, s: string)
    requires IsTitleCased(t) && SameIgnoringCase(t, s)
    ensures t == TitleCase(s)
  {
    var r := TitleCase(s);
    forall i | 0 <= i < |t| ensures t[i] == r[i] {
      assert Lower(t[i]) == Lower(s[i]);
    }
  }

  /** Title-casing twice is title-casing once. */
  lemma TitleCaseIdempotent(s: string)
    ensures TitleCase(TitleCase(s)) == TitleCase(s)
  {
    var t := TitleCase(s);
    TitleCaseUnique(t, t);
  }

  predicate IsDigit(c: char) { '0' <= c <= '9' }

  predicate AllDigits(s: string) { forall i :: 0 <= i < |s| ==> IsDigit(s[i]) }

  function DigitChar(d: nat): (c: char)
    requires d < 10
    ensures IsDigit(c) && c as int - '0' as int == d
  {
    ('0' as int + d) as char
  }

  /** Decimal text of a natural number, as a template string shows it. */
  function NatToString(n: nat): (r: string)
    ensures |r| > 0 && AllDigits(r)
  {
    if n < 10 then [DigitChar(n)] else NatToString(n / 10) + [DigitChar(n % 10)]
  }

  /** Decimal text of an integer, with a leading `-` when negative. */
  function IntToString(i: int): (r: string)
    ensures |r| > 0
  {
    if i < 0 then "-" + NatToString(-i) else NatToString(i)
  }

  /** Value of a string of decimal digits (leading zeros allowed). */
  function ParseDigits(s: string): nat
    requires AllDigits(s)
  {
    if |s| == 0 then 0
    else ParseDigits(s[..|s| - 1]) * 10 + (s[|s| - 1] as int - '0' as int)
  }

  /** Reading back the decimal text of `n` gives `n`. */
  lemma {:induction false} ParseNatToString(n: nat)
    ensures ParseDigits(NatToString(n)) == n
  {
    if n >= 10 {
      ParseNatToString(n / 10);
      var s := NatToString(n);
      assert s[..|s| - 1] == NatToString(n / 10);
    }
  }

  /** `Number(s)` for the strings this model covers: a string of decimal
      digits, including the empty string (which JavaScript reads as 0);
      anything else is `NaN`, here `None`. */
  function NumberOf(s: string): (r: Option<int>)
    ensures r.Some? <==> AllDigits(s)
    ensures s == "" ==> r == Some(0)
  {
    if AllDigits(s) then Some(ParseDigits(s)) else None
  }

  /** `xs.join(sep)`. */
  function Join(xs: seq<string>, sep: string): string {
    if |xs| == 0 then ""
    else if |xs| == 1 then xs[0]
    else Join(xs[..|xs| - 1], sep) + sep + xs[|xs| - 1]
  }

  /** `s.replace(from, to)` for one-character strings `from` and `to`:
      only the first occurrence of `from` is replaced. */
  function ReplaceFirst(s: string, from: char, to: char): (r: string)
    ensures |r| == |s|
    ensures from !in s ==> r == s
    ensures from in s ==> r[IndexOf(s, from)] == to
    ensures from in s ==> forall i :: 0 <= i < |s| && i != IndexOf(s, from) ==> r[i] == s[i]
  {
    if |s| == 0 then ""
    else if s[0] == from then [to] + s[1..]
    else
      assert from in s ==> from in s[1..] && IndexOf(s, from) == 1 + IndexOf(s[1..], from);
      [s[0]] + ReplaceFirst(s[1..], from, to)
  }
}
