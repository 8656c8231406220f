/**
 * The string operations the descriptor engine and the path layer rely on,
 * written the way the Rust standard library behaves: `str::replace`,
 * `str::trim`, `[String]::join` (with its inverse `str::split`) and the
 * decimal rendering of an unsigned integer by `to_string`.
 */
module Text {

  // ---------------------------------------------------------------------
  // str::replace
  // ---------------------------------------------------------------------

  /** `pat` occurs in `s` starting at index `i`. */
  predicate OccursAt(s: string, pat: string, i: int) {
    0 <= i && i + |pat| <= |s| && s[i..i + |pat|] == pat
  }

  /** `pat` occurs somewhere in `s`. */
  predicate Contains(s: string, pat: string) {
    exists i :: 0 <= i <= |s| && OccursAt(s, pat, i)
  }

  /**
   * Rust's `s.replace(pat, rep)`: every leftmost, non-overlapping occurrence
   * of `pat` is replaced by `rep`, scanning left to right; the text that was
   * inserted is never scanned again by the same call. An empty pattern
   * matches at every character boundary, so `rep` is inserted before every
   * character and once more at the end.
   */
  function Replace(s: string, pat: string, rep: string): (r: string)
    ensures pat != [] && |rep| == |pat| ==> |r| == |s|
    ensures forall c :: c in r ==> c in s || c in rep
    decreases |s|
  {
    if pat == [] then Interleave(s, rep)
    else if |s| < |pat| then s
    else if s[..|pat|] == pat then rep + Replace(s[|pat|..], pat, rep)
    else [s[0]] + Replace(s[1..], pat, rep)
  }

  /** `rep` before every character of `s` and once more at its end. */
  function Interleave(s: string, rep: string): (r: string)
    ensures |r| == |s| + (|s| + 1) * |rep|
    ensures forall c :: c in r ==> c in s || c in rep
  {
    if s == [] then rep else rep + [s[0]] + Interleave(s[1..], rep)
  }

  /**
   * A prefix `a` in which no occurrence of `pat` starts is copied through
   * unchanged: replacing in `a + b` is `a` followed by replacing in `b`.
   */
  lemma {:induction false} ReplaceSkip(a: string, b: string, pat: string, rep: string)
    requires pat != []
    requires forall i :: 0 <= i < |a| ==> !OccursAt(a + b, pat, i)
    ensures Replace(a + b, pat, rep) == a + Replace(b, pat, rep)
    decreases |a|
  {
    if a == [] {
      assert a + b == b;
    } else {
      NoOccurrenceInTail(a, b, pat);
      ReplaceSkip(a[1..], b, pat, rep);
      ReplaceCons(a, b, pat, rep);
      var r := Replace(b, pat, rep);
      calc {
        [a[0]] + (a[1..] + r);
        ([a[0]] + a[1..]) + r;
        { assert [a[0]] + a[1..] == a; }
        a + r;
      }
    }
  }

  /** One step of `ReplaceSkip`: the first character of `a` is copied. */
  lemma ReplaceCons(a: string, b: string, pat: string, rep: string)
    requires pat != [] && a != [] && !OccursAt(a + b, pat, 0)
    ensures Replace(a + b, pat, rep) == [a[0]] + Replace(a[1..] + b, pat, rep)
  {
    var s := a + b;
    ReplaceNoMatchHere(s, pat, rep);
    assert s[1..] == a[1..] + b;
  }

  /** Dropping the first character of `a` keeps `a`'s remaining positions free of occurrences. */
  lemma NoOccurrenceInTail(a: string, b: string, pat: string)
    requires a != []
    requires forall i :: 0 <= i < |a| ==> !OccursAt(a + b, pat, i)
    ensures forall i :: 0 <= i < |a| - 1 ==> !OccursAt(a[1..] + b, pat, i)
  {
    var s := a + b;
    assert s[1..] == a[1..] + b;
    forall i | 0 <= i < |a| - 1
      ensures !OccursAt(a[1..] + b, pat, i)
    {
      OccursAtTail(s, pat, i);
    }
  }

  /** Where no occurrence starts at index 0, the first character is copied. */
  lemma ReplaceNoMatchHere(s: string, pat: string, rep: string)
    requires pat != [] && s != [] && !OccursAt(s, pat, 0)
    ensures Replace(s, pat, rep) == [s[0]] + Replace(s[1..], pat, rep)
  {
    if |s| < |pat| {
      assert Replace(s[1..], pat, rep) == s[1..];
      assert s == [s[0]] + s[1..];
    }
  }

  /** An occurrence in `s[1..]` is an occurrence in `s` one index later. */
  lemma OccursAtTail(s: string, pat: string, i: nat)
    requires s != []
    ensures OccursAt(s[1..], pat, i) <==> OccursAt(s, pat, i + 1)
  {
    if i + |pat| <= |s[1..]| {
      assert s[1..][i..i + |pat|] == s[i + 1..i + 1 + |pat|];
    }
  }

  /** A string in which `pat` does not occur comes back unchanged. */
  lemma ReplaceAbsent(s: string, pat: string, rep: string)
    requires pat != []
    requires !Contains(s, pat)
    ensures Replace(s, pat, rep) == s
  {
    assert s + [] == s;
    ReplaceSkip(s, [], pat, rep);
  }

  /**
   * The first occurrence is the one replaced: when `pat` occurs in `a + pat`
   * at no index before `|a|`, the occurrence right after `a` is replaced and
   * the scan resumes after it, so the inserted `rep` is never rescanned.
   */
  lemma ReplaceLeftmost(a: string, b: string, pat: string, rep: string)
    requires pat != []
    requires forall i :: 0 <= i < |a| ==> !OccursAt(a + pat, pat, i)
    ensures Replace(a + pat + b, pat, rep) == a + rep + Replace(b, pat, rep)
  {
    var s := a + pat + b;
    assert s == a + (pat + b);
    forall i | 0 <= i < |a|
      ensures !OccursAt(a + (pat + b), pat, i)
    {
      assert !OccursAt(a + pat, pat, i);
      assert (a + pat)[i..i + |pat|] == s[i..i + |pat|];
    }
    ReplaceSkip(a, pat + b, pat, rep);
    assert (pat + b)[..|pat|] == pat;
    assert (pat + b)[|pat|..] == b;
  }

  /** A string that is exactly the pattern becomes the replacement. */
  lemma ReplaceWhole(pat: string, rep: string)
    requires pat != []
    ensures Replace(pat, pat, rep) == rep
  {
    var none: string := [];
    ReplaceLeftmost(none, none, pat, rep);
    assert none + pat + none == pat;
    assert none + rep + Replace(none, pat, rep) == rep;
  }

  /** Replacing a non-empty pattern by itself changes nothing. */
  lemma {:induction false} ReplaceSelf(s: string, pat: string)
    requires pat != []
    ensures Replace(s, pat, pat) == s
    decreases |s|
  {
    if |s| >= |pat| {
      if s[..|pat|] == pat {
        ReplaceSelf(s[|pat|..], pat);
        assert s == s[..|pat|] + s[|pat|..];
      } else {
        ReplaceSelf(s[1..], pat);
        assert s == [s[0]] + s[1..];
      }
    }
  }

  // ---------------------------------------------------------------------
  // str::trim
  // ---------------------------------------------------------------------

  /** The ASCII characters Rust's `char::is_whitespace` accepts. */
  predicate IsWhitespace(c: char) {
    c == ' ' || c == '\t' || c == '\n' || c == '\U{B}' || c == '\U{C}' || c == '\r'
  }

  /** The number of whitespace characters `s` starts with. */
  function LeadingWhitespace(s: string): (n: nat)
    ensures n <= |s|
    ensures forall i :: 0 <= i < n ==> IsWhitespace(s[i])
    ensures n < |s| ==> !IsWhitespace(s[n])
  {
    if s != [] && IsWhitespace(s[0]) then 1 + LeadingWhitespace(s[1..]) else 0
  }

  /** The number of whitespace characters `s` ends with. */
  function TrailingWhitespace(s: string): (n: nat)
    ensures n <= |s|
    ensures forall i :: |s| - n <= i < |s| ==> IsWhitespace(s[i])
    ensures n < |s| ==> !IsWhitespace(s[|s| - n - 1])
  {
    if s != [] && IsWhitespace(s[|s| - 1]) then 1 + TrailingWhitespace(s[..|s| - 1]) else 0
  }

  /** Rust's `str::trim`: `s` without its leading and trailing whitespace. */
  function Trim(s: string): (r: string)
    ensures |r| <= |s|
    ensures r != [] ==> !IsWhitespace(r[0]) && !IsWhitespace(r[|r| - 1])
  {
    var a := LeadingWhitespace(s);
    var t := s[a..];
    var b := TrailingWhitespace(t);
    assert forall k :: a <= k < |s| ==> s[k] == t[k - a];
    s[a..|s| - b]
  }

  /**
   * `Trim(s)` is the slice of `s` between a whitespace-only prefix and a
   * whitespace-only suffix, and neither end of it is whitespace.
   */
  lemma TrimSlice(s: string)
    ensures exists i, j ::
              && 0 <= i <= j <= |s| && Trim(s) == s[i..j]
              && (forall k :: 0 <= k < i ==> IsWhitespace(s[k]))
              && (forall k :: j <= k < |s| ==> IsWhitespace(s[k]))
    ensures Trim(s) != [] ==> !IsWhitespace(Trim(s)[0]) && !IsWhitespace(Trim(s)[|Trim(s)| - 1])
  {
    var a := LeadingWhitespace(s);
    var t := s[a..];
    var b := TrailingWhitespace(t);
    assert forall k :: a + |t| - b <= k < |s| ==> s[k] == t[k - a];
    assert Trim(s) == s[a..a + |t| - b];
  }

  /** Trimming brings no character in. */
  lemma TrimAvoids(s: string, c: char)
    requires c !in s
    ensures c !in Trim(s)
  {
    TrimSlice(s);
  }

  /** Trimming twice is trimming once. */
  lemma TrimIdempotent(s: string)
    ensures Trim(Trim(s)) == Trim(s)
  {
    TrimSlice(s);
    var t := Trim(s);
    if t != [] {
      assert LeadingWhitespace(t) == 0;
      assert t[0..] == t;
      assert TrailingWhitespace(t) == 0;
      assert t[0..|t|] == t;
    }
  }

  // ---------------------------------------------------------------------
  // [String]::join and str::split
  // ---------------------------------------------------------------------

  /** Rust's `parts.join(sep)`. */
  function Join(parts: seq<string>, sep: string): (r: string)
    ensures parts != [] ==> parts[0] <= r
  {
    if parts == [] then ""
    else if |parts| == 1 then parts[0]
    else parts[0] + sep + Join(parts[1..], sep)
  }

  /** A character in neither the parts nor the separator is not in the joined string. */
  lemma {:induction false} JoinAvoids(parts: seq<string>, sep: string, c: char)
    requires c !in sep
    requires forall k :: 0 <= k < |parts| ==> c !in parts[k]
    ensures c !in Join(parts, sep)
  {
    if |parts| > 1 {
      JoinAvoids(parts[1..], sep, c);
    }
  }

  /** Rust's `s.split(c)`: the pieces between the occurrences of `c`. */
  function Split(s: string, c: char): (r: seq<string>)
    ensures |r| >= 1
    ensures forall k :: 0 <= k < |r| ==> c !in r[k]
  {
    if s == [] then [""]
    else if s[0] == c then [""] + Split(s[1..], c)
    else
      var rest := Split(s[1..], c);
      [[s[0]] + rest[0]] + rest[1..]
  }

  /** A piece without `c`, then `c`, then more: `t` is the first piece. */
  lemma {:induction false} SplitPiece(t: string, rest: string, c: char)
    requires c !in t
    ensures Split(t + [c] + rest, c) == [t] + Split(rest, c)
    ensures Split(t, c) == [t]
    decreases |t|
  {
    if t == [] {
      assert t + [c] + rest == [c] + rest;
    } else {
      SplitPiece(t[1..], rest, c);
      assert (t + [c] + rest)[1..] == t[1..] + [c] + rest;
      assert [t[0]] + t[1..] == t;
    }
  }

  /**
   * Splitting a join on its one-character separator gives the parts back,
   * provided there is at least one part and no part holds the separator.
   */
  lemma {:induction false} SplitJoin(parts: seq<string>, c: char)
    requires parts != []
    requires forall k :: 0 <= k < |parts| ==> c !in parts[k]
    ensures Split(Join(parts, [c]), c) == parts
  {
    if |parts| == 1 {
      SplitPiece(parts[0], "", c);
    } else {
      SplitJoin(parts[1..], c);
      SplitPiece(parts[0], Join(parts[1..], [c]), c);
      assert [parts[0]] + parts[1..] == parts;
    }
  }

  // ---------------------------------------------------------------------
  // to_string on an unsigned integer
  // ---------------------------------------------------------------------

  predicate IsDigit(c: char) {
    '0' <= c <= '9'
  }

  function DigitChar(d: nat): (c: char)
    requires d < 10
    ensures IsDigit(c) && c as int - '0' as int == d
  {
    ['0', '1', '2', '3', '4', '5', '6', '7', '8', '9'][d]
  }

  /** The plain decimal rendering of `n`, without sign or leading zeros. */
  function NatToString(n: nat): (r: string)
    ensures r != []
    ensures forall k :: 0 <= k < |r| ==> IsDigit(r[k])
    ensures |r| > 1 ==> r[0] != '0'
  {
    if n < 10 then [DigitChar(n)] else NatToString(n / 10) + [DigitChar(n % 10)]
  }

  /** The value of a string of decimal digits. */
  function ParseDecimal(s: string): nat
    requires forall k :: 0 <= k < |s| ==> IsDigit(s[k])
  {
    if s == [] then 0
    else
      var last := s[|s| - 1];
      assert IsDigit(last);
      10 * ParseDecimal(s[..|s| - 1]) + (last as int - '0' as int)
  }

  /** Reading back the decimal rendering gives the number. */
  lemma {:induction false} ParseNatToString(n: nat)
    ensures ParseDecimal(NatToString(n)) == n
  {
    var r := NatToString(n);
    if n >= 10 {
      ParseNatToString(n / 10);
      assert r[..|r| - 1] == NatToString(n / 10);
    }
  }

  /** Distinct numbers render differently. */
  lemma NatToStringInjective(m: nat, n: nat)
    requires NatToString(m) == NatToString(n)
    ensures m == n
  {
    ParseNatToString(m);
    ParseNatToString(n);
  }
}
