/**
 * The handful of Python string operations the scrapers and the database layer
 * rely on: `strip`, `replace` of one character, `lower`, `startswith`, `in`,
 * `split(c)[0]` and `float(...)` of a plain decimal numeral.
 */
module Text {
  import opened Wrappers

  /**
   * Characters `str.strip()` removes, as modelled: space, tab, line feed,
   * carriage return, vertical tab and form feed. The separators 0x1C-0x1F,
   * which Python also strips, are not included.
   */
  predicate IsSpace(c: char) {
    c == ' ' || c == '\t' || c == '\n' || c == '\r' || c == '\U{000B}' || c == '\U{000C}'
  }

  predicate IsDigit(c: char) {
    '0' <= c <= '9'
  }

  /** `s.lstrip()`: drops the leading whitespace and nothing else. */
  function StripLeft(s: string): (r: string)
    ensures |r| <= |s| && r == s[|s| - |r|..]
    ensures r == [] || !IsSpace(r[0])
    ensures forall i :: 0 <= i < |s| - |r| ==> IsSpace(s[i])
  {
    if s != [] && IsSpace(s[0]) then
      var r := StripLeft(s[1..]);
      assert r == s[|s| - |r|..] by {
        assert s[1..][|s| - 1 - |r|..] == s[|s| - |r|..];
      }
      assert forall i :: 0 <= i < |s| - |r| ==> IsSpace(s[i]) by {
        forall i | 0 <= i < |s| - |r| ensures IsSpace(s[i]) {
          if i > 0 {
            assert s[i] == s[1..][i - 1];
          }
        }
      }
      r
    else s
  }

  /** `s.rstrip()`: drops the trailing whitespace and nothing else. */
  function StripRight(s: string): (r: string)
    ensures |r| <= |s| && r == s[..|r|]
    ensures r == [] || !IsSpace(r[|r| - 1])
    ensures forall i :: |r| <= i < |s| ==> IsSpace(s[i])
  {
    if s != [] && IsSpace(s[|s| - 1]) then
      var r := StripRight(s[..|s| - 1]);
      assert r == s[..|r|] by {
        assert s[..|s| - 1][..|r|] == s[..|r|];
      }
      assert forall i :: |r| <= i < |s| ==> IsSpace(s[i]) by {
        forall i | |r| <= i < |s| ensures IsSpace(s[i]) {
          if i < |s| - 1 {
            assert s[i] == s[..|s| - 1][i];
          }
        }
      }
      r
    else s
  }

  /**
   * `s.strip()`: the slice of `s` after its leading whitespace, with only
   * whitespace after it, and
   * neither end of it whitespace; text without such ends is kept.
   */
  function Strip(s: string): (r: string)
    ensures |r| <= |s|
    ensures r == [] || (!IsSpace(r[0]) && !IsSpace(r[|r| - 1]))
    ensures s == [] || (!IsSpace(s[0]) && !IsSpace(s[|s| - 1])) ==> r == s
    ensures |s| - |StripLeft(s)| + |r| <= |s|
    ensures r == s[|s| - |StripLeft(s)|..][..|r|]
    ensures forall k :: 0 <= k < |s| - |StripLeft(s)| ==> IsSpace(s[k])
    ensures forall k :: |s| - |StripLeft(s)| + |r| <= k < |s| ==> IsSpace(s[k])
  {
    var l := StripLeft(s);
    var r := StripRight(l);
    TrailingOfSuffix(s, l, r);
    r
  }

  /** Whatever follows a prefix `r` of a suffix `l` of `s` in `l` also follows it in `s`. */
  lemma TrailingOfSuffix(s: string, l: string, r: string)
    requires |l| <= |s| && l == s[|s| - |l|..]
    requires |r| <= |l| && r == l[..|r|]
    requires forall k :: |r| <= k < |l| ==> IsSpace(l[k])
    ensures forall k :: |s| - |l| + |r| <= k < |s| ==> IsSpace(s[k])
  {
    forall k | |s| - |l| + |r| <= k < |s| ensures IsSpace(s[k]) {
      assert s[k] == l[k - (|s| - |l|)];
    }
  }

  /** `s.replace(a, b)` for single characters `a` and `b`. */
  function Replace(s: string, a: char, b: char): (r: string)
    ensures |r| == |s|
    ensures forall i :: 0 <= i < |s| ==> r[i] == if s[i] == a then b else s[i]
  {
    seq(|s|, i requires 0 <= i < |s| => if s[i] == a then b else s[i])
  }

  predicate IsUpper(c: char) {
    'A' <= c <= 'Z'
  }

  /** One character lower-cased: an ASCII capital becomes its small letter, anything else is kept. */
  function LowerChar(c: char): (r: char)
    ensures !IsUpper(r)
    ensures !IsUpper(c) ==> r == c
    ensures IsUpper(c) ==> 'a' <= r <= 'z' && r as int - 'a' as int == c as int - 'A' as int
  {
    if IsUpper(c) then (c as int - 'A' as int + 'a' as int) as char else c
  }

  /** `s.lower()` on ASCII letters. */
  function Lower(s: string): (r: string)
    ensures |r| == |s|
    ensures forall i :: 0 <= i < |s| ==> r[i] == LowerChar(s[i])
    ensures forall i :: 0 <= i < |s| ==> !IsUpper(r[i])
    ensures forall i :: 0 <= i < |s| && !IsUpper(s[i]) ==> r[i] == s[i]
  {
    seq(|s|, i requires 0 <= i < |s| => LowerChar(s[i]))
  }

  /** Lower-casing twice is lower-casing once. */
  lemma LowerIdempotent(s: string)
    ensures Lower(Lower(s)) == Lower(s)
  {
    var once := Lower(s);
    var twice := Lower(once);
    forall i | 0 <= i < |s| ensures twice[i] == once[i] {
      assert !IsUpper(once[i]);
    }
  }

  /** `r` is `s` with every space written as `sep`: the text `s.replace(' ', sep)` produces. */
  predicate SpacesAs(r: string, s: string, sep: char) {
    |r| == |s| && forall i :: 0 <= i < |s| ==> r[i] == if s[i] == ' ' then sep else s[i]
  }

  /** `s.startswith(p)`. */
  predicate StartsWith(s: string, p: string) {
    |p| <= |s| && s[..|p|] == p
  }

  /** `w` occurs in `s` starting at index `i`. */
  predicate OccursAt(s: string, w: string, i: int) {
    0 <= i && i + |w| <= |s| && s[i..i + |w|] == w
  }

  /** The leftmost index at or after `from` where `w` occurs in `s`. */
  function FindFrom(s: string, w: string, from: nat): (r: Option<nat>)
    decreases |s| - from
    ensures r.Some? ==> from <= r.value && OccursAt(s, w, r.value)
    ensures r.Some? ==> forall q :: from <= q < r.value ==> !OccursAt(s, w, q)
    ensures r.None? ==> forall q :: from <= q ==> !OccursAt(s, w, q)
  {
    if from + |w| > |s| then None
    else if s[from..from + |w|] == w then Some(from)
    else FindFrom(s, w, from + 1)
  }

  /** Python's `w in s`. */
  predicate Contains(s: string, w: string) {
    FindFrom(s, w, 0).Some?
  }

  lemma ContainsIff(s: string, w: string)
    ensures Contains(s, w) <==> exists q :: OccursAt(s, w, q)
  {
    if !Contains(s, w) {
      assert forall q :: 0 <= q ==> !OccursAt(s, w, q);
    }
  }

  /** `s.split(c)[0]`: everything before the first `c`, or all of `s`. */
  function Before(s: string, c: char): (r: string)
    ensures c !in r
    ensures |r| <= |s| && r == s[..|r|]
    ensures |r| < |s| ==> s[|r|] == c
  {
    if s == [] || s[0] == c then [] else [s[0]] + Before(s[1..], c)
  }

  /** `s.replace(c, '')`: every `c` deleted, every other character kept in order. */
  function Delete(s: string, c: char): (r: string)
    ensures c !in r
    ensures |r| <= |s|
    ensures forall x :: x != c ==> multiset(r)[x] == multiset(s)[x]
    ensures |s| == 1 ==> r == (if s[0] == c then [] else s)
  {
    if s == [] then []
    else
      var rest := Delete(s[1..], c);
      assert s == [s[0]] + s[1..];
      if s[0] == c then rest else [s[0]] + rest
  }

  /**
   * Deleting from a concatenation deletes from each part, in place: with the
   * one-character case above this fixes `Delete` on every text, order included.
   */
  lemma {:induction false} DeleteAppend(a: string, b: string, c: char)
    ensures Delete(a + b, c) == Delete(a, c) + Delete(b, c)
  {
    if a != [] {
      assert (a + b)[1..] == a[1..] + b;
      DeleteAppend(a[1..], b, c);
    } else {
      assert a + b == b;
    }
  }

  lemma DeleteAbsent(s: string, c: char)
    requires c !in s
    ensures Delete(s, c) == s
  {
    if s != [] {
      DeleteAbsent(s[1..], c);
    }
  }

  /** The value of a non-empty run of decimal digits. */
  function DigitsValue(d: string): nat
    requires forall i :: 0 <= i < |d| ==> IsDigit(d[i])
  {
    if d == [] then 0
    else
      var last := d[|d| - 1];
      assert IsDigit(last);
      10 * DigitsValue(d[..|d| - 1]) + (last as int - '0' as int)
  }

  predicate AllDigits(d: string) {
    d != [] && forall i :: 0 <= i < |d| ==> IsDigit(d[i])
  }

  /** A run of digits, with or without one leading sign. */
  predicate Numeral(t: string) {
    AllDigits(t) || (t != [] && (t[0] == '+' || t[0] == '-') && AllDigits(t[1..]))
  }

  lemma DigitsNotStripped(text: string)
    ensures AllDigits(text) ==> Strip(text) == text
  {
    if AllDigits(text) {
      assert !IsSpace(text[0]) && !IsSpace(text[|text| - 1]);
    }
  }

  /**
   * Python's `float(text)` for the numerals it is given here: surrounding
   * whitespace, an optional sign and a run of digits. `None` stands for the
   * ValueError raised on any other text.
   */
  function ParseNumber(text: string): (r: Option<real>)
    ensures r.Some? <==> Numeral(Strip(text))
    ensures AllDigits(Strip(text)) ==> r == Some(DigitsValue(Strip(text)) as real)
    ensures var t := Strip(text); Numeral(t) && t[0] == '+' ==> r == Some(DigitsValue(t[1..]) as real)
    ensures var t := Strip(text); Numeral(t) && t[0] == '-' ==> r == Some(-(DigitsValue(t[1..]) as real))
    ensures r.Some? ==> exists d :: AllDigits(d) && (r.value == DigitsValue(d) as real || r.value == -(DigitsValue(d) as real))
    ensures AllDigits(text) ==> r == Some(DigitsValue(text) as real)
    ensures r.Some? ==> r.value == r.value.Floor as real
  {
    var t := Strip(text);
    DigitsNotStripped(text);
    if AllDigits(t) then
      var n := DigitsValue(t);
      assert AllDigits(t) && n as real == DigitsValue(t) as real;
      Some(n as real)
    else if t != [] && (t[0] == '+' || t[0] == '-') && AllDigits(t[1..]) then
      var d := t[1..];
      var v: int := DigitsValue(d);
      var n := if t[0] == '-' then -v else v;
      assert AllDigits(d) && (n as real == DigitsValue(d) as real || n as real == -(DigitsValue(d) as real));
      Some(n as real)
    else
      None
  }

  /** Surrounding whitespace does not change a numeral's value. */
  lemma PaddingIgnored(d: string)
    requires AllDigits(d)
    ensures ParseNumber(" " + d + " ") == Some(DigitsValue(d) as real)
  {
    var s := " " + d + " ";
    var tail := d + " ";
    assert s[1..] == tail && IsSpace(s[0]);
    assert IsDigit(tail[0]) && !IsSpace(tail[0]);
    assert StripLeft(s) == tail;
    assert tail[..|tail| - 1] == d && IsSpace(tail[|tail| - 1]);
    assert IsDigit(d[|d| - 1]) && !IsSpace(d[|d| - 1]);
    assert StripRight(tail) == d;
    assert Strip(s) == d;
  }

  /** A signed run of digits has nothing to strip and is a numeral, but not a digit run. */
  lemma SignedNumeralKept(t: string)
    requires |t| >= 2 && (t[0] == '+' || t[0] == '-') && AllDigits(t[1..])
    ensures Strip(t) == t && Numeral(t) && !AllDigits(t)
  {
    assert t[|t| - 1] == t[1..][|t| - 2];
    assert IsDigit(t[|t| - 1]) && !IsSpace(t[|t| - 1]);
    assert !IsSpace(t[0]) && !IsDigit(t[0]);
  }

  /** A '+' sign reads as no sign, and a '-' sign negates the digits after it. */
  lemma SignRead(t: string)
    requires |t| >= 2 && (t[0] == '+' || t[0] == '-') && AllDigits(t[1..])
    ensures ParseNumber(t) == Some(if t[0] == '-' then -(DigitsValue(t[1..]) as real) else DigitsValue(t[1..]) as real)
  {
    SignedNumeralKept(t);
  }


}
