/**
 * The few java.lang routines the trade-rewriting engine leans on, written out so that their
 * edge cases are part of the model: String.trim, String.startsWith, String.split on a dot,
 * Boolean.parseBoolean and Integer.parseInt.
 */
module JavaStrings {
  import opened Wrappers

  /** The range of a Java int. */
  const INT_MIN: int := -0x8000_0000
  const INT_MAX: int := 0x7fff_ffff

  /** String.trim removes every character whose code is at most U+0020. */
  predicate IsTrimmable(c: char) {
    c <= ' '
  }

  /** The number of white-space characters that start s. */
  function LeadingTrimmable(s: string): (n: nat)
    ensures n <= |s|
    ensures forall i :: 0 <= i < n ==> IsTrimmable(s[i])
    ensures n < |s| ==> !IsTrimmable(s[n])
  {
    if s == [] || !IsTrimmable(s[0]) then 0 else 1 + LeadingTrimmable(s[1..])
  }

  /** The number of white-space characters that end s. */
  function TrailingTrimmable(s: string): (n: nat)
    ensures n <= |s|
    ensures forall i :: |s| - n <= i < |s| ==> IsTrimmable(s[i])
    ensures n < |s| ==> !IsTrimmable(s[|s| - 1 - n])
  {
    if s == [] || !IsTrimmable(s[|s| - 1]) then 0 else 1 + TrailingTrimmable(s[..|s| - 1])
  }

  /** String.trim: s without its leading and trailing white space. */
  function Trim(s: string): (r: string)
    ensures LeadingTrimmable(s) + |r| <= |s|
    ensures r == s[LeadingTrimmable(s)..LeadingTrimmable(s) + |r|]
    ensures forall i :: LeadingTrimmable(s) + |r| <= i < |s| ==> IsTrimmable(s[i])
    ensures r == [] || (!IsTrimmable(r[0]) && !IsTrimmable(r[|r| - 1]))
  {
    var t := s[LeadingTrimmable(s)..];
    t[..|t| - TrailingTrimmable(t)]
  }

  /** Trimming twice is trimming once. */
  lemma TrimIdempotent(s: string)
    ensures Trim(Trim(s)) == Trim(s)
  {
    var r := Trim(s);
    assert LeadingTrimmable(r) == 0;
    assert TrailingTrimmable(r) == 0;
  }

  /** String.startsWith. */
  predicate StartsWith(s: string, prefix: string) {
    |prefix| <= |s| && s[..|prefix|] == prefix
  }

  /** Case folding of the Latin letters; the only ones Boolean.parseBoolean compares against. */
  function LowerAscii(c: char): char {
    if 'A' <= c <= 'Z' then (c as int + 32) as char else c
  }

  /** Boolean.parseBoolean: true exactly when s is "true" in any mix of cases. */
  predicate ParseBoolean(s: string) {
    |s| == 4 && forall i :: 0 <= i < 4 ==> LowerAscii(s[i]) == "true"[i]
  }

  lemma ParseBooleanExamples()
    ensures ParseBoolean("true") && ParseBoolean("TRUE") && ParseBoolean("tRuE")
    ensures !ParseBoolean("yes") && !ParseBoolean("1") && !ParseBoolean(" true") && !ParseBoolean("")
  {
    assert !ParseBoolean(" true") by { assert LowerAscii(" true"[0]) != 't'; }
  }

  predicate IsDigit(c: char) {
    '0' <= c <= '9'
  }

  predicate AllDigits(s: string) {
    forall i :: 0 <= i < |s| ==> IsDigit(s[i])
  }

  /** The value of a string of decimal digits, most significant first. */
  function DigitsValue(ds: string): nat
    requires AllDigits(ds)
  {
    if ds == [] then 0 else DigitsValue(ds[..|ds| - 1]) * 10 + (ds[|ds| - 1] as int - '0' as int)
  }

  /**
   * Integer.parseInt in radix 10: an optional '+' or '-', at least one digit, and a value that
   * fits in a Java int; anything else is a NumberFormatException (None).
   */
  function ParseInt(s: string): (r: Option<int>)
    ensures r.Some? ==> INT_MIN <= r.value <= INT_MAX
    ensures r.Some? ==> |s| > 0 && (IsDigit(s[0]) || s[0] == '-' || s[0] == '+')
  {
    var signed := |s| > 0 && (s[0] == '-' || s[0] == '+');
    var digits := if signed then s[1..] else s;
    if digits == [] || !AllDigits(digits) then None
    else
      var n: int := if signed && s[0] == '-' then 0 - DigitsValue(digits) as int else DigitsValue(digits);
      if INT_MIN <= n <= INT_MAX then Some(n) else None
  }

  /** Integer.toString for a non-negative number: the partner that ParseInt reads back. */
  function Decimal(n: nat): (ds: string)
    ensures |ds| > 0 && AllDigits(ds)
  {
    var d := ['0' + (n % 10) as char];
    if n < 10 then d else Decimal(n / 10) + d
  }

  lemma {:induction false} DecimalValue(n: nat)
    ensures DigitsValue(Decimal(n)) == n
  {
    var d := ['0' + (n % 10) as char];
    if n >= 10 {
      DecimalValue(n / 10);
      var ds := Decimal(n / 10) + d;
      assert ds[..|ds| - 1] == Decimal(n / 10);
    }
  }

  /** Every Java int written in decimal parses back to itself. */
  lemma ParseIntRoundTrip(n: int)
    requires INT_MIN <= n <= INT_MAX
    ensures n >= 0 ==> ParseInt(Decimal(n)) == Some(n)
    ensures n < 0 ==> ParseInt("-" + Decimal(-n)) == Some(n)
  {
    if n >= 0 {
      DecimalValue(n);
    } else {
      DecimalValue(-n);
      var s := "-" + Decimal(-n);
      assert s[1..] == Decimal(-n);
    }
  }

  /** Splits s at every '.', keeping empty pieces: "a..b." gives ["a", "", "b", ""]. */
  function SplitAll(s: string): (parts: seq<string>)
    ensures |parts| >= 1
    ensures forall i :: 0 <= i < |parts| ==> '.' !in parts[i]
  {
    if s == [] then [""]
    else
      var rest := SplitAll(s[1..]);
      if s[0] == '.' then [""] + rest else [[s[0]] + rest[0]] + rest[1..]
  }

  /** Joins pieces with '.' between them. */
  function JoinDots(parts: seq<string>): string {
    if parts == [] then "" else if |parts| == 1 then parts[0] else parts[0] + "." + JoinDots(parts[1..])
  }

  /** Splitting at every dot loses nothing: joining the pieces gives the string back. */
  lemma {:induction false} SplitAllJoin(s: string)
    ensures JoinDots(SplitAll(s)) == s
  {
    if s != [] {
      var rest := SplitAll(s[1..]);
      SplitAllJoin(s[1..]);
      if s[0] == '.' {
        assert SplitAll(s) == [""] + rest;
        assert JoinDots(SplitAll(s)) == "" + "." + JoinDots(rest);
      } else {
        var parts := [[s[0]] + rest[0]] + rest[1..];
        if |rest| == 1 {
          assert JoinDots(parts) == [s[0]] + rest[0];
        } else {
          assert parts[1..] == rest[1..];
          assert JoinDots(rest) == rest[0] + "." + JoinDots(rest[1..]);
        }
      }
    }
  }

  /** The pieces up to and including the last non-empty one. */
  function DropTrailingEmpty(parts: seq<string>): (r: seq<string>)
    ensures |r| <= |parts| && r == parts[..|r|]
    ensures forall i :: |r| <= i < |parts| ==> parts[i] == ""
    ensures r == [] || r[|r| - 1] != ""
  {
    if parts != [] && parts[|parts| - 1] == "" then DropTrailingEmpty(parts[..|parts| - 1]) else parts
  }

  /**
   * String.split("\\.") with its default limit of zero: a string without a dot is returned whole
   * (so "" gives [""]); otherwise the string is cut at every dot and the trailing empty pieces are
   * dropped ("a..b." gives ["a", "", "b"] and "." gives []).
   */
  function SplitOnDots(s: string): (r: seq<string>)
    ensures forall i :: 0 <= i < |r| ==> '.' !in r[i]
    ensures '.' !in s ==> r == [s]
    ensures '.' in s ==> r == [] || r[|r| - 1] != ""
  {
    if '.' !in s then [s] else DropTrailingEmpty(SplitAll(s))
  }

  /** What splitting drops is only empty pieces at the end; rejoining everything gives s back. */
  lemma SplitOnDotsRejoin(s: string)
    requires '.' in s
    ensures SplitAll(s)[..|SplitOnDots(s)|] == SplitOnDots(s)
    ensures forall i :: |SplitOnDots(s)| <= i < |SplitAll(s)| ==> SplitAll(s)[i] == ""
    ensures JoinDots(SplitAll(s)) == s
  {
    SplitAllJoin(s);
  }

  /** A piece without a dot is not cut. */
  lemma {:induction false} SplitAllNoDot(s: string)
    requires '.' !in s
    ensures SplitAll(s) == [s]
  {
    if s != [] {
      SplitAllNoDot(s[1..]);
      assert [s[0]] + s[1..] == s;
    }
  }

  /** Cutting at the first dot: the piece before it, then the pieces of the rest. */
  lemma {:induction false} SplitAllFirstDot(a: string, b: string)
    requires '.' !in a
    ensures SplitAll(a + "." + b) == [a] + SplitAll(b)
  {
    if a == [] {
      assert a + "." + b == ['.'] + b;
      assert (['.'] + b)[1..] == b;
    } else {
      SplitAllFirstDot(a[1..], b);
      var s := a + "." + b;
      assert s[1..] == a[1..] + "." + b;
      assert [a[0]] + a[1..] == a;
    }
  }


  lemma SplitDotOnlyExample()
    ensures SplitOnDots(".") == []
  {
    assert "." == "" + "." + "";
    SplitAllFirstDot("", "");
  }
}
