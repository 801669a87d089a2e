/** The string operations of Python that the merge gate's text handling relies on:
    `strip`, `rstrip`, `find`, `startswith`, and decimal rendering. */
module Text {

  /** The characters `str.strip()` removes: the Unicode white-space characters of `str.isspace`. */
  predicate IsSpace(c: char) {
    var u := c as int;
    || 0x09 <= u <= 0x0d || 0x1c <= u <= 0x20 || u == 0x85 || u == 0xa0 || u == 0x1680
    || 0x2000 <= u <= 0x200a || u == 0x2028 || u == 0x2029 || u == 0x202f || u == 0x205f || u == 0x3000
  }

  predicate Blank(s: string) {
    forall i | 0 <= i < |s| :: IsSpace(s[i])
  }

  /** The first index at or after `i` that holds a visible character. */
  function VisibleStart(s: string, i: nat): (r: nat)
    requires i <= |s|
    ensures i <= r <= |s| && (forall k | i <= k < r :: IsSpace(s[k])) && (r < |s| ==> !IsSpace(s[r]))
    decreases |s| - i
  {
    if i < |s| && IsSpace(s[i]) then VisibleStart(s, i + 1) else i
  }

  /** The end of the visible part of the first `n` characters. */
  function VisibleEnd(s: string, n: nat): (r: nat)
    requires n <= |s|
    ensures r <= n && (forall k | r <= k < n :: IsSpace(s[k])) && (r > 0 ==> !IsSpace(s[r - 1]))
  {
    if n > 0 && IsSpace(s[n - 1]) then VisibleEnd(s, n - 1) else n
  }

  function LStrip(s: string): string {
    s[VisibleStart(s, 0)..]
  }

  function RStrip(s: string): string {
    s[..VisibleEnd(s, |s|)]
  }

  function Strip(s: string): string {
    RStrip(LStrip(s))
  }

  predicate OccursAt(s: string, p: string, i: int) {
    0 <= i <= |s| - |p| && forall k | 0 <= k < |p| :: p[k] == s[i + k]
  }

  /** The first index at or after `from` where `p` occurs in `s`, or -1. */
  function FindFrom(s: string, p: string, from: nat): (r: int)
    requires from <= |s| + 1
    ensures r == -1 || (from <= r && OccursAt(s, p, r))
    ensures forall i :: from <= i && OccursAt(s, p, i) ==> r != -1 && r <= i
    decreases |s| + 1 - from
  {
    if from + |p| > |s| then -1
    else if OccursAt(s, p, from) then from
    else FindFrom(s, p, from + 1)
  }

  function Find(s: string, p: string): (r: int)
    ensures r == -1 || OccursAt(s, p, r)
    ensures forall i :: OccursAt(s, p, i) ==> r != -1 && r <= i
  {
    FindFrom(s, p, 0)
  }

  predicate Contains(s: string, p: string) {
    Find(s, p) != -1
  }

  function AsciiLower(s: string): (r: string)
    ensures |r| == |s|
  {
    seq(|s|, i requires 0 <= i < |s| => if 'A' <= s[i] <= 'Z' then s[i] - 'A' + 'a' else s[i])
  }

  predicate IsDigit(c: char) { '0' <= c <= '9' }

  function Decimal(n: nat): (r: string)
    ensures r != "" && forall i | 0 <= i < |r| :: IsDigit(r[i])
  {
    var d := [('0' as int + n % 10) as char];
    if n < 10 then d else Decimal(n / 10) + d
  }

  /** The number a run of digits stands for. */
  function NumberOf(digits: string): nat
    requires forall i | 0 <= i < |digits| :: IsDigit(digits[i])
  {
    if digits == "" then 0
    else
      assert IsDigit(digits[|digits| - 1]);
      NumberOf(digits[..|digits| - 1]) * 10 + (digits[|digits| - 1] as int - '0' as int)
  }

  /** The decimal text of a number stands for it, and has no zero in front unless it is zero's. */
  lemma {:induction false} DecimalIs(n: nat)
    ensures NumberOf(Decimal(n)) == n && (n > 0 ==> Decimal(n)[0] != '0') && (n == 0 ==> Decimal(n) == "0")
    decreases n
  {
    var d := Decimal(n);
    if n >= 10 {
      DecimalIs(n / 10);
      assert d[..|d| - 1] == Decimal(n / 10);
    } else {
      assert d[..|d| - 1] == "";
    }
  }

  lemma RStripUnique(s: string, r: string)
    requires r <= s && forall k | |r| <= k < |s| :: IsSpace(s[k])
    requires r != "" ==> !IsSpace(r[|r| - 1])
    ensures RStrip(s) == r
  {
    var n := VisibleEnd(s, |s|);
    var last := if n > 0 then s[n - 1] else ' ';
    var lastOfR := if r != "" then s[|r| - 1] else ' ';
  }

  /** Stripping the right of a concatenation: all of `b` goes when it is blank, none of `a` otherwise. */
  lemma RStripConcat(a: string, b: string)
    ensures RStrip(a + b) == if Blank(b) then RStrip(a) else a + RStrip(b)
  {
    var s := a + b;
    assert forall k | 0 <= k < |b| :: s[|a| + k] == b[k];
    assert forall k | |a| <= k < |s| :: s[k] == b[k - |a|];
    if Blank(b) {
      RStripUnique(s, RStrip(a));
    } else {
      RStripUnique(s, a + RStrip(b));
    }
  }

  lemma LStripNoop(s: string)
    requires s != "" ==> !IsSpace(s[0])
    ensures LStrip(s) == s
  {
  }

  lemma LStripBlankPrefix(a: string, b: string)
    requires Blank(a) && b != "" && !IsSpace(b[0])
    ensures LStrip(a + b) == b
  {
    var n := VisibleStart(a + b, 0);
    var first := (a + b)[|a|];
    assert forall k | 0 <= k < |a| :: (a + b)[k] == a[k];
  }

  /** A stripped string has no white space at either end. */
  lemma StripEnds(s: string)
    ensures var r := Strip(s); r != "" ==> !IsSpace(r[0]) && !IsSpace(r[|r| - 1])
  {
  }
}
