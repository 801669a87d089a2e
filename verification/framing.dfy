/** Newline-terminated lines over a byte stream. */
module Framing {

  newtype Byte = x: int | 0 <= x < 256
  type Bytes = seq<Byte>

  const LF: Byte := 10

  predicate OneLine(l: Bytes) {
    forall i | 0 <= i < |l| :: l[i] != LF
  }

  predicate AllLines(lines: seq<Bytes>) {
    forall i | 0 <= i < |lines| :: OneLine(lines[i])
  }

  /** The stream that carries `lines`. */
  function Join(lines: seq<Bytes>): Bytes {
    if lines == [] then [] else Join(lines[..|lines| - 1]) + lines[|lines| - 1] + [LF]
  }

  /** The index of the first line feed at or after `from`, or the length. */
  function LineEnd(b: Bytes, from: nat): (r: nat)
    requires from <= |b|
    ensures from <= r <= |b| && (forall i | from <= i < r :: b[i] != LF) && (r < |b| ==> b[r] == LF)
    decreases |b| - from
  {
    if from < |b| && b[from] != LF then LineEnd(b, from + 1) else from
  }

  lemma {:induction false} JoinConcat(a: seq<Bytes>, b: seq<Bytes>)
    ensures Join(a + b) == Join(a) + Join(b)
    decreases |b|
  {
    if b == [] {
      assert a + b == a;
    } else {
      var n := |b| - 1;
      assert (a + b)[..|a + b| - 1] == a + b[..n];
      JoinConcat(a, b[..n]);
    }
  }

  lemma JoinCons(l: Bytes, rest: seq<Bytes>)
    ensures Join([l] + rest) == l + [LF] + Join(rest)
  {
    JoinConcat([l], rest);
    assert Join([l]) == l + [LF] by {
      assert [l][..0] == [];
    }
  }

  lemma FirstLine(l: Bytes, x: Bytes, m: Bytes, y: Bytes)
    requires OneLine(l) && OneLine(m) && l + [LF] + x <= m + [LF] + y
    ensures l == m && x <= y
  {
    var s, t := l + [LF] + x, m + [LF] + y;
    assert s[|l|] == LF && t[|m|] == LF;
    assert forall i | 0 <= i < |l| :: s[i] == l[i];
    assert forall i | 0 <= i < |m| :: t[i] == m[i];
    assert |l| == |m|;
    assert forall i | 0 <= i < |l| :: l[i] == s[i] == t[i];
    assert x == s[|l| + 1..] && y == t[|l| + 1..];
  }

  /** A stream that is read as complete lines `a` and an unterminated rest, and that is a prefix of the stream of
      lines `b`, was read as a prefix of `b`. */
  lemma {:induction false} LinesArePrefix(a: seq<Bytes>, rest: Bytes, b: seq<Bytes>)
    requires AllLines(a) && AllLines(b) && Join(a) + rest <= Join(b)
    ensures a <= b
    decreases |a|
  {
    if a != [] {
      assert a == [a[0]] + a[1..];
      JoinCons(a[0], a[1..]);
      assert |Join(a)| > 0;
      assert b == [b[0]] + b[1..];
      JoinCons(b[0], b[1..]);
      assert Join(a) + rest == a[0] + [LF] + (Join(a[1..]) + rest);
      FirstLine(a[0], Join(a[1..]) + rest, b[0], Join(b[1..]));
      LinesArePrefix(a[1..], rest, b[1..]);
    }
  }

  /** Reading is unambiguous: two ways to read one stream as complete lines and an unterminated rest agree. */
  lemma ReadingIsUnique(a: seq<Bytes>, rest: Bytes, b: seq<Bytes>, other: Bytes)
    requires AllLines(a) && AllLines(b) && OneLine(rest) && OneLine(other)
    requires Join(a) + rest == Join(b) + other
    ensures a == b && rest == other
  {
    var s := Join(a) + rest;
    assert OneLine(other) && AllLines(b + [other]) && AllLines(a + [rest]);
    assert Join(b + [other]) == s + [LF] by { assert (b + [other])[..|b|] == b; }
    assert Join(a + [rest]) == s + [LF] by { assert (a + [rest])[..|a|] == a; }
    LinesArePrefix(a + [rest], [], b + [other]);
    LinesArePrefix(b + [other], [], a + [rest]);
    assert a + [rest] == b + [other];
    assert a == (a + [rest])[..|a|] && b == (b + [other])[..|b|];
  }
}
