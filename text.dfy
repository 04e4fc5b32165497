/** Text operations the command loop and the queries rely on: Python's
    `str.lower`, `str.strip`, `str.split(maxsplit=1)`, the `in` substring test,
    string ordering as used by `sorted`, and decimal rendering of counts.
    Case mapping and whitespace are restricted to ASCII. */
module Text {

  /** Whitespace as `str.isspace` sees it, restricted to ASCII:
      tab, line feed, vertical tab, form feed, carriage return,
      the four separators 0x1C..0x1F and space. */
  predicate IsSpace(c: char) {
    var n := c as int;
    (9 <= n <= 13) || (28 <= n <= 32)
  }

  /** Every character of `s` in positions `lo` up to `hi` is whitespace. */
  predicate SpaceBetween(s: string, lo: int, hi: int)
    requires 0 <= lo && hi <= |s|
  {
    forall i :: lo <= i < hi ==> IsSpace(s[i])
  }

  predicate AllSpace(s: string) {
    SpaceBetween(s, 0, |s|)
  }

  predicate NoSpace(s: string) {
    forall i :: 0 <= i < |s| ==> !IsSpace(s[i])
  }

  predicate IsUpper(c: char) {
    'A' <= c <= 'Z'
  }

  /** ASCII lowercasing of one character. */
  function LowerChar(c: char): (r: char)
    ensures !IsUpper(r)
    ensures IsUpper(c) ==> r as int == c as int + 32
    ensures !IsUpper(c) ==> r == c
  {
    if IsUpper(c) then (c as int + 32) as char else c
  }

  predicate IsLower(s: string) {
    forall i :: 0 <= i < |s| ==> !IsUpper(s[i])
  }

  /** `s.lower()`, ASCII letters only. */
  function Lower(s: string): (r: string)
    ensures |r| == |s|
    ensures forall i :: 0 <= i < |s| ==> r[i] == LowerChar(s[i])
    ensures IsLower(r)
  {
    if s == [] then [] else [LowerChar(s[0])] + Lower(s[1..])
  }

  /** Lowercasing twice is lowercasing once. */
  lemma LowerIdempotent(s: string)
    ensures Lower(Lower(s)) == Lower(s)
  {
    assert forall i :: 0 <= i < |s| ==> Lower(Lower(s))[i] == Lower(s)[i];
  }

  /** The position of the first non-whitespace character at or after `from`,
      or `|s|` if there is none. */
  function SkipSpace(s: string, from: nat): (r: nat)
    requires from <= |s|
    ensures from <= r <= |s|
    ensures SpaceBetween(s, from, r)
    ensures r < |s| ==> !IsSpace(s[r])
    decreases |s| - from
  {
    if from < |s| && IsSpace(s[from]) then SkipSpace(s, from + 1) else from
  }

  /** The position of the first whitespace character at or after `from`,
      or `|s|` if there is none. */
  function SkipToken(s: string, from: nat): (r: nat)
    requires from <= |s|
    ensures from <= r <= |s|
    ensures forall i :: from <= i < r ==> !IsSpace(s[i])
    ensures r < |s| ==> IsSpace(s[r])
    decreases |s| - from
  {
    if from < |s| && !IsSpace(s[from]) then SkipToken(s, from + 1) else from
  }

  /** The end of `s[..to]` once its trailing whitespace run is cut off. */
  function TrimEnd(s: string, to: nat): (r: nat)
    requires to <= |s|
    ensures r <= to
    ensures SpaceBetween(s, r, to)
    ensures r > 0 ==> !IsSpace(s[r - 1])
  {
    if to > 0 && IsSpace(s[to - 1]) then TrimEnd(s, to - 1) else to
  }

  /** `s.strip()`: `s` without the whitespace runs at both of its ends. */
  function Strip(s: string): (r: string)
    ensures exists i :: 0 <= i <= |s| - |r| && s[i..i + |r|] == r
                        && SpaceBetween(s, 0, i) && SpaceBetween(s, i + |r|, |s|)
    ensures r == [] || (!IsSpace(r[0]) && !IsSpace(r[|r| - 1]))
    ensures r == [] <==> AllSpace(s)
  {
    var i := SkipSpace(s, 0);
    var j := TrimEnd(s, |s|);
    if j <= i then [] else s[i..j]
  }

  /** `s.split(maxsplit=1)`: skip leading whitespace; the first part runs up to
      the next whitespace; the second, if any, is everything after the
      whitespace run that follows it, kept as it is. What it takes apart can
      be put back together: leading whitespace, the first part, then either
      whitespace only, or a non-empty whitespace run and the second part. */
  function SplitOnce(s: string): (parts: seq<string>)
    ensures |parts| <= 2
    ensures parts == [] <==> AllSpace(s)
    ensures forall j :: 0 <= j < |parts| ==> parts[j] != []
    ensures |parts| >= 1 ==> NoSpace(parts[0])
    ensures |parts| == 2 ==> !IsSpace(parts[1][0])
    ensures |parts| == 1 ==>
      var i := SkipSpace(s, 0); var a := i + |parts[0]|;
      a <= |s| && s[i..a] == parts[0] && SpaceBetween(s, a, |s|)
    ensures |parts| == 2 ==>
      var i := SkipSpace(s, 0); var a := i + |parts[0]|; var b := |s| - |parts[1]|;
      a < b && s[i..a] == parts[0] && SpaceBetween(s, a, b) && s[b..] == parts[1]
  {
    var i := SkipSpace(s, 0);
    if i == |s| then []
    else
      var k := SkipToken(s, i);
      var j := SkipSpace(s, k);
      if j == |s| then [s[i..k]] else [s[i..k], s[j..]]
  }

  /** Splitting a lower-case string gives lower-case parts. */
  lemma SplitOnceLower(s: string)
    requires IsLower(s)
    ensures forall j :: 0 <= j < |SplitOnce(s)| ==> IsLower(SplitOnce(s)[j])
  {
    var parts := SplitOnce(s);
    var i := SkipSpace(s, 0);
    if |parts| >= 1 {
      assert parts[0] == s[i..i + |parts[0]|];
    }
    if |parts| == 2 {
      assert parts[1] == s[|s| - |parts[1]|..];
    }
  }

  /** `needle` occurs in `hay` at position `i`. */
  ghost predicate OccursAt(hay: string, needle: string, i: int) {
    0 <= i && i + |needle| <= |hay| && hay[i..i + |needle|] == needle
  }

  /** `needle in hay`, scanning the start positions of `hay` from the left. */
  predicate Contains(hay: string, needle: string)
    ensures Contains(hay, needle) ==> |needle| <= |hay|
  {
    (|needle| <= |hay| && hay[..|needle|] == needle)
    || (hay != [] && Contains(hay[1..], needle))
  }

  /** The scan agrees with the definition of a substring, in both directions. */
  lemma {:induction false} ContainsIff(hay: string, needle: string)
    ensures Contains(hay, needle) <==> exists i :: OccursAt(hay, needle, i)
  {
    if |needle| <= |hay| && hay[..|needle|] == needle {
      assert OccursAt(hay, needle, 0);
    } else if hay != [] {
      ContainsIff(hay[1..], needle);
      if exists i :: OccursAt(hay[1..], needle, i) {
        var i :| OccursAt(hay[1..], needle, i);
        assert hay[1..][i..i + |needle|] == hay[i + 1..i + 1 + |needle|];
        assert OccursAt(hay, needle, i + 1);
      }
      if exists i :: OccursAt(hay, needle, i) {
        var i :| OccursAt(hay, needle, i);
        assert i != 0;
        assert hay[1..][i - 1..i - 1 + |needle|] == hay[i..i + |needle|];
        assert OccursAt(hay[1..], needle, i - 1);
      }
    }
  }

  /** The empty string occurs in every string. */
  lemma EmptyContained(hay: string)
    ensures Contains(hay, "")
  {
    assert hay[..0] == "";
  }

  /** Python's `<` on strings: code point by code point, a proper prefix first. */
  predicate Less(a: string, b: string) {
    if a == [] then b != []
    else if b == [] then false
    else if a[0] != b[0] then a[0] < b[0]
    else Less(a[1..], b[1..])
  }

  lemma {:induction false} LessIrreflexive(a: string)
    ensures !Less(a, a)
  {
    if a != [] {
      LessIrreflexive(a[1..]);
    }
  }

  lemma {:induction false} LessTransitive(a: string, b: string, c: string)
    requires Less(a, b) && Less(b, c)
    ensures Less(a, c)
  {
    if a != [] && b != [] && c != [] && a[0] == b[0] && b[0] == c[0] {
      LessTransitive(a[1..], b[1..], c[1..]);
    }
  }

  /** Any two different strings are ordered one way round. */
  lemma {:induction false} LessTotal(a: string, b: string)
    requires a != b
    ensures Less(a, b) || Less(b, a)
  {
    if a != [] && b != [] && a[0] == b[0] {
      assert a == [a[0]] + a[1..] && b == [b[0]] + b[1..];
      LessTotal(a[1..], b[1..]);
    }
  }

  lemma {:induction false} LessAsymmetric(a: string, b: string)
    ensures Less(a, b) ==> !Less(b, a)
  {
    if a != [] && b != [] && a[0] == b[0] {
      LessAsymmetric(a[1..], b[1..]);
    }
  }

  predicate IsDigit(c: char) {
    '0' <= c <= '9'
  }

  function DigitChar(d: nat): (c: char)
    requires d < 10
    ensures IsDigit(c) && c as int - '0' as int == d
  {
    ('0' as int + d) as char
  }

  /** The decimal text of `n`, as `f"{n}"` writes it. */
  function Decimal(n: nat): (s: string)
    ensures s != []
    ensures forall i :: 0 <= i < |s| ==> IsDigit(s[i])
    ensures |s| > 1 ==> s[0] != '0'
  {
    if n < 10 then [DigitChar(n)] else Decimal(n / 10) + [DigitChar(n % 10)]
  }

  /** The value of a string of decimal digits. */
  function DecimalValue(s: string): nat
    requires forall i :: 0 <= i < |s| ==> IsDigit(s[i])
  {
    if s == [] then 0
    else
      var last := s[|s| - 1];
      assert IsDigit(last);
      10 * DecimalValue(s[..|s| - 1]) + (last as int - '0' as int)
  }

  /** Reading back the decimal text of a count gives the count. */
  lemma {:induction false} DecimalRoundTrip(n: nat)
    ensures DecimalValue(Decimal(n)) == n
  {
    if n >= 10 {
      DecimalRoundTrip(n / 10);
      var s := Decimal(n);
      assert s[..|s| - 1] == Decimal(n / 10);
    }
  }
}
