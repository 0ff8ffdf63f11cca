/**
 * The two pieces of text handling the player model relies on: `str.strip()`
 * (removing leading and trailing whitespace) and rendering an integer in decimal,
 * as an f-string does.
 */
module Text {

  /** The ASCII characters that `str.isspace()` accepts: tab, line feed, vertical tab (code 11),
      form feed, carriage return, the four information separators (codes 28 to 31) and the space. */
  predicate IsSpace(c: char) {
    ('\t' <= c <= '\r') || (28 <= c as int <= 31) || c == ' '
  }

  /** Every character of `s` is whitespace (vacuously true of the empty string). */
  predicate AllSpace(s: string) {
    forall i :: 0 <= i < |s| ==> IsSpace(s[i])
  }

  /** `s` without its leading whitespace. */
  function TrimStart(s: string): (r: string)
    ensures |r| <= |s| && r == s[|s| - |r|..]
    ensures AllSpace(s[..|s| - |r|])
    ensures r == [] || !IsSpace(r[0])
  {
    if s != [] && IsSpace(s[0]) then
      var t := TrimStart(s[1..]);
      assert s[1..][..|s| - 1 - |t|] == s[1..|s| - |t|];
      t
    else
      s
  }

  /** `s` without its trailing whitespace. */
  function TrimEnd(s: string): (r: string)
    ensures |r| <= |s| && r == s[..|r|]
    ensures AllSpace(s[|r|..])
    ensures r == [] || !IsSpace(r[|r| - 1])
  {
    if s != [] && IsSpace(s[|s| - 1]) then
      var t := TrimEnd(s[..|s| - 1]);
      assert s[..|s| - 1][|t|..] == s[|t|..|s| - 1];
      assert s[|t|..] == s[|t|..|s| - 1] + [s[|s| - 1]];
      t
    else
      s
  }

  /** Python's `s.strip()`: the result is the middle slice `s[i..j]` of `s`, everything
      cut off on either side is whitespace, and the result neither starts nor ends with
      whitespace. */
  function Strip(s: string): (r: string)
    ensures exists i, j :: 0 <= i <= j <= |s| && r == s[i..j] && AllSpace(s[..i]) && AllSpace(s[j..])
    ensures r == [] || (!IsSpace(r[0]) && !IsSpace(r[|r| - 1]))
  {
    var t := TrimStart(s);
    var r := TrimEnd(t);
    StripCuts(s, t, r);
    assert 0 <= |s| - |t| <= |s| - |t| + |r| <= |s|;
    r
  }

  /** Cutting whitespace off the front of `s` to give `t`, then off the back of `t` to
      give `r`, leaves a middle slice of `s` with whitespace on both sides. */
  lemma StripCuts(s: string, t: string, r: string)
    requires |t| <= |s| && t == s[|s| - |t|..] && AllSpace(s[..|s| - |t|])
    requires |r| <= |t| && r == t[..|r|] && AllSpace(t[|r|..])
    ensures var i := |s| - |t|;
            && r == s[i..i + |r|] && AllSpace(s[i + |r|..])
  {
    var i := |s| - |t|;
    TakeOfDrop(s, i, |r|);
    DropOfDrop(s, i, |r|);
  }

  lemma TakeOfDrop(s: string, i: nat, k: nat)
    requires i + k <= |s|
    ensures s[i..][..k] == s[i..i + k]
  {
  }

  lemma DropOfDrop(s: string, i: nat, k: nat)
    requires i + k <= |s|
    ensures s[i..][k..] == s[i + k..]
  {
  }

  /** Stripping a string leaves nothing exactly when the string is all whitespace;
      this is the `not name.strip()` test of the player model. */
  lemma StripEmptyIff(s: string)
    ensures Strip(s) == [] <==> AllSpace(s)
  {
    var t := TrimStart(s);
    TrimStartEmptyIff(s);
    TrimEndEmptyIff(t);
    assert t == [] || !IsSpace(t[0]);
  }

  /** Trimming the front leaves nothing exactly when `s` is blank. */
  lemma TrimStartEmptyIff(s: string)
    ensures TrimStart(s) == [] <==> AllSpace(s)
  {
    var r := TrimStart(s);
    if r == [] { assert s[..|s|] == s; } else { assert r[0] == s[|s| - |r|]; }
  }

  /** Trimming the back leaves nothing exactly when `s` is blank. */
  lemma TrimEndEmptyIff(s: string)
    ensures TrimEnd(s) == [] <==> AllSpace(s)
  {
    var r := TrimEnd(s);
    if r == [] { assert s[0..] == s; } else { assert r[|r| - 1] == s[|r| - 1]; }
  }

  /** Stripping twice is stripping once. */
  lemma StripIdempotent(s: string)
    ensures Strip(Strip(s)) == Strip(s)
  {
    var r := Strip(s);
    assert TrimStart(r) == r;
    assert TrimEnd(r) == r;
  }

  /** The character for a single decimal digit. */
  function DigitChar(d: nat): (c: char)
    requires d < 10
    ensures '0' <= c <= '9' && (c as int) - ('0' as int) == d
  {
    ('0' as int + d) as char
  }

  /** The digits of `n` in decimal, most significant first, with no leading zero. */
  function NatToString(n: nat): (r: string)
    ensures |r| >= 1 && IsDigits(r)
    ensures r[0] == '0' ==> n == 0 && r == "0"
  {
    if n < 10 then [DigitChar(n)] else NatToString(n / 10) + [DigitChar(n % 10)]
  }

  /** An integer as an f-string renders it: a minus sign for negative values, then the
      digits of the magnitude. */
  function IntToString(n: int): (r: string)
    ensures |r| >= 1
    ensures (r[0] == '-') <==> n < 0
    ensures n < 0 ==> |r| >= 2 && IsDigits(r[1..]) && DecimalValue(r[1..]) == -n
    ensures n >= 0 ==> IsDigits(r) && DecimalValue(r) == n
    ensures n >= 0 ==> (r[0] == '0' ==> n == 0 && r == "0")
    ensures n < 0 ==> r[1] != '0'
  {
    if n < 0 then
      NatToStringRoundTrip(-n);
      var r := "-" + NatToString(-n);
      assert r[1..] == NatToString(-n);
      r
    else
      NatToStringRoundTrip(n);
      NatToString(n)
  }

  predicate IsDigits(s: string) {
    forall i :: 0 <= i < |s| ==> '0' <= s[i] <= '9'
  }

  /** The number a string of decimal digits denotes (the reference reading of
      `NatToString`). */
  function DecimalValue(s: string): nat
    requires IsDigits(s)
  {
    if s == [] then 0
    else DecimalValue(s[..|s| - 1]) * 10 + ((s[|s| - 1] as int) - ('0' as int))
  }

  /** Rendering a natural number and reading the digits back gives the number. */
  lemma {:induction false} NatToStringRoundTrip(n: nat)
    ensures DecimalValue(NatToString(n)) == n
  {
    if n >= 10 {
      NatToStringRoundTrip(n / 10);
      var s := NatToString(n);
      assert s[..|s| - 1] == NatToString(n / 10);
    }
  }

  /** Distinct integers render differently. */
  lemma IntToStringInjective(m: int, n: int)
    ensures IntToString(m) == IntToString(n) ==> m == n
  {
  }

  /** Part `p` of `r` starts at offset `i`. */
  predicate At(r: string, i: int, p: string) {
    0 <= i && i + |p| <= |r| && r[i..i + |p|] == p
  }

  /** The slice of `r` at a part's offset is that part. */
  lemma AtSlice(r: string, i: int, p: string)
    requires At(r, i, p)
    ensures r[i..i + |p|] == p
  {
  }

  /** A string is a part of itself at offset 0. */
  lemma AtWhole(a: string)
    ensures At(a, 0, a)
  {
    assert a[0..|a|] == a;
  }

  /** Appending text keeps a part at its offset. */
  lemma AtAppendLeft(a: string, b: string, i: int, p: string)
    requires At(a, i, p)
    ensures At(a + b, i, p)
  {
    assert (a + b)[i..i + |p|] == a[i..i + |p|];
  }

  /** The appended text is a part at the old length. */
  lemma AtAppendRight(a: string, b: string)
    ensures At(a + b, |a|, b)
  {
    assert (a + b)[|a|..|a| + |b|] == b;
  }

  /** Prepending text shifts a part by its length. */
  lemma AtShift(a: string, b: string, i: int, p: string)
    requires At(b, i, p)
    ensures At(a + b, |a| + i, p)
  {
    assert (a + b)[|a| + i..|a| + i + |p|] == b[i..i + |p|];
  }

  /** Two adjacent parts form their concatenation. */
  lemma AtJoin(r: string, i: int, x: string, y: string)
    requires At(r, i, x) && At(r, i + |x|, y)
    ensures At(r, i, x + y)
  {
    assert r[i..i + |x| + |y|] == r[i..i + |x|] + r[i + |x|..i + |x| + |y|];
  }

  /** A part that starts at 0 and is as long as `r` is `r`. */
  lemma AtAll(r: string, p: string)
    requires At(r, 0, p) && |p| == |r|
    ensures r == p
  {
    assert r[0..|p|] == r;
  }

  /** The parts of a three-part concatenation, at their offsets. */
  lemma AtThree(x: string, y: string, z: string)
    ensures At(x + y + z, 0, x) && At(x + y + z, |x|, y) && At(x + y + z, |x| + |y|, z)
  {
    AtWhole(x);
    AtAppendLeft(x, y, 0, x);
    AtAppendRight(x, y);
    AtAppendLeft(x + y, z, 0, x);
    AtAppendLeft(x + y, z, |x|, y);
    AtAppendRight(x + y, z);
  }

  /** The parts of a four-part concatenation, at their offsets. */
  lemma AtFour(w: string, x: string, y: string, z: string)
    ensures var r := w + x + y + z;
            At(r, 0, w) && At(r, |w|, x) && At(r, |w| + |x|, y) && At(r, |w| + |x| + |y|, z)
  {
    AtThree(w, x, y);
    AtAppendLeft(w + x + y, z, 0, w);
    AtAppendLeft(w + x + y, z, |w|, x);
    AtAppendLeft(w + x + y, z, |w| + |x|, y);
    AtAppendRight(w + x + y, z);
  }
}
