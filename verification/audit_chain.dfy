/** The append-only, hash-chained audit stream. */
module AuditChain {
  import opened Options

  /** JSON values as the chain compares them; everything that is neither a number, a flag nor a string is `Other`. */
  datatype Json = Missing | Flag(b: bool) | Int(n: int) | Float(r: real) | Str(s: string) | Other(text: string)

  /** One record: the chain fields, and the canonical text of all the others. */
  datatype Record = Record(seqNo: Json, prevHash: Json, body: string, hash: Json)

  /** A line of a stream file. `str.strip` takes more characters for white space than the JSON decoder does: `json` says
      that a blank line is blank for both, and a padded record is one that decodes only when it has been stripped. */
  datatype Line = Blank(json: bool) | Padded(record: Record) | Garbage | NotAnObject | Rec(record: Record)

  /** A stream file: its lines as `splitlines` finds them, those of them that end in a boundary other than a newline,
      and whether the last line ends in a boundary at all. */
  datatype File = File(lines: seq<Line>, soft: set<nat>, terminated: bool)

  const EMPTY_FILE := File([], {}, true)

  /** What the record hash is computed from: every field but the hash itself. */
  datatype Payload = Payload(seqNo: Json, prevHash: Json, body: string)

  type Hash = Payload -> string

  function PayloadOf(r: Record): Payload {
    Payload(r.seqNo, r.prevHash, r.body)
  }

  function RecordHash(h: Hash, r: Record): string {
    h(PayloadOf(r))
  }

  /** The one assumption on the hash, made of the two streams that are compared and of no other: no record of one has
      the digest of a different record of the other. */
  predicate NoCollision(h: Hash, a: seq<Line>, b: seq<Line>) {
    forall i, j | 0 <= i < |a| && 0 <= j < |b| && a[i].Rec? && b[j].Rec? ::
      RecordHash(h, a[i].record) == RecordHash(h, b[j].record) ==> PayloadOf(a[i].record) == PayloadOf(b[j].record)
  }

  /** Python's equality between a decoded value and an integer. */
  predicate EqualsInt(v: Json, n: int) {
    match v
    case Int(m) => m == n
    case Float(r) => r == n as real
    case Flag(b) => n == if b then 1 else 0
    case _ => false
  }

  /** Python's `int(...)` on a decoded value; a string goes through `parse`. `None` when it raises. */
  function ToInt(v: Json, parse: string -> Option<int>): Option<int> {
    match v
    case Missing => Some(0)
    case Int(n) => Some(n)
    case Flag(b) => Some(if b then 1 else 0)
    case Float(r) => Some(if r >= 0.0 then r.Floor else -(-r).Floor)
    case Str(s) => parse(s)
    case Other(_) => None
  }

  /** The integer that a stored number stands for: a fraction is cut off towards zero, and no number counts as zero. */
  predicate StandsFor(v: Json, parse: string -> Option<int>, k: int) {
    match v
    case Missing => k == 0
    case Int(n) => k == n
    case Flag(b) => (b && k == 1) || (!b && k == 0)
    case Float(r) =>
      && (r > 0.0 ==> k >= 0 && r - 1.0 < k as real <= r)
      && (r <= 0.0 ==> k <= 0 && r <= k as real < r + 1.0)
    case Str(s) => parse(s) == Some(k)
    case Other(_) => false
  }

  lemma ToIntIff(v: Json, parse: string -> Option<int>, k: int)
    ensures ToInt(v, parse) == Some(k) <==> StandsFor(v, parse, k)
  {
  }

  // ---------------------------------------------------------------------------------------------
  // Verification
  // ---------------------------------------------------------------------------------------------

  predicate GoodRecord(h: Hash, line: Line, index: nat, previousHash: string) {
    && line.Rec? && EqualsInt(line.record.seqNo, index)
    && line.record.prevHash == Str(previousHash)
    && line.record.hash == Str(RecordHash(h, line.record))
  }

  /** The lines that are not blank. */
  function Records(lines: seq<Line>): seq<Line> {
    if lines == [] then []
    else Records(lines[..|lines| - 1]) + if lines[|lines| - 1].Blank? then [] else [lines[|lines| - 1]]
  }

  function HashBefore(records: seq<Line>, index: nat): string
    requires index <= |records|
  {
    if index > 0 && records[index - 1].Rec? && records[index - 1].record.hash.Str? then
      records[index - 1].record.hash.s
    else ""
  }

  predicate GoodAt(h: Hash, records: seq<Line>, index: nat)
    requires index < |records|
  {
    GoodRecord(h, records[index], index, HashBefore(records, index))
  }

  /** The verdict of a whole stream: the first record that breaks the chain, if any. */
  ghost predicate FirstBroken(h: Hash, records: seq<Line>, verdict: Option<nat>) {
    match verdict
    case None => forall i | 0 <= i < |records| :: GoodAt(h, records, i)
    case Some(n) => n < |records| && !GoodAt(h, records, n) && forall i | 0 <= i < n :: GoodAt(h, records, i)
  }

  ghost predicate Intact(h: Hash, f: File) {
    FirstBroken(h, Records(f.lines), None)
  }

  lemma RecordsStep(lines: seq<Line>, k: nat)
    requires k < |lines|
    ensures Records(lines[..k + 1]) == Records(lines[..k]) + if lines[k].Blank? then [] else [lines[k]]
  {
    assert lines[..k + 1][..k] == lines[..k];
  }

  lemma {:induction false} RecordsPrefix(lines: seq<Line>, k: nat)
    requires k <= |lines|
    ensures Records(lines[..k]) <= Records(lines)
    decreases |lines| - k
  {
    hide Records;
    if k == |lines| {
      assert lines[..k] == lines;
    } else {
      RecordsPrefix(lines, k + 1);
      RecordsStep(lines, k);
    }
  }

  lemma NoLinesNoRecords(lines: seq<Line>)
    ensures Records(lines[..0]) == []
  {
  }

  method VerifyChain(h: Hash, f: File) returns (verdict: Option<nat>)
    ensures FirstBroken(h, Records(f.lines), verdict)
  {
    hide Records;
    var previousHash := "";
    var index := 0;
    ghost var all := Records(f.lines);
    NoLinesNoRecords(f.lines);
    for k := 0 to |f.lines|
      invariant Records(f.lines[..k]) <= all && index == |Records(f.lines[..k])|
      invariant forall i | 0 <= i < index :: GoodAt(h, all, i)
      invariant previousHash == HashBefore(all, index)
    {
      var line := f.lines[k];
      RecordsStep(f.lines, k);
      RecordsPrefix(f.lines, k + 1);
      if !line.Blank? {
        assert all[index] == line;
        if !line.Rec? || !EqualsInt(line.record.seqNo, index) {
          return Some(index);
        }
        if line.record.prevHash != Str(previousHash) || line.record.hash != Str(RecordHash(h, line.record)) {
          return Some(index);
        }
        previousHash := line.record.hash.s;
        index := index + 1;
      }
    }
    assert f.lines[..|f.lines|] == f.lines;
    return None;
  }

  lemma VerdictIsUnique(h: Hash, records: seq<Line>, v: Option<nat>, w: Option<nat>)
    requires FirstBroken(h, records, v) && FirstBroken(h, records, w)
    ensures v == w
  {
  }

  // ---------------------------------------------------------------------------------------------
  // Appending
  // ---------------------------------------------------------------------------------------------

  /** The last line that is not blank, when it is a record. */
  function Tail(lines: seq<Line>): Option<Record> {
    var records := Records(lines);
    if records != [] && records[|records| - 1].Rec? then Some(records[|records| - 1].record) else None
  }

  /** Writing a record's text at the end of a file whose last line has no line boundary joins the two into one line.
      Only white space of the JSON decoder in front leaves a readable record. */
  function Glued(last: Line, r: Record): Line {
    if last == Blank(true) then Rec(r) else if last == Blank(false) then Padded(r) else Garbage
  }

  function Written(f: File, r: Record): File {
    var n := |f.lines|;
    if n == 0 || f.terminated then File(f.lines + [Rec(r)], f.soft - {n}, true)
    else File(f.lines[..n - 1] + [Glued(f.lines[n - 1], r)], f.soft - {n - 1}, true)
  }

  function NewRecord(h: Hash, seqNo: int, prevHash: Json, body: string): Record {
    Record(Int(seqNo), prevHash, body, Str(h(Payload(Int(seqNo), prevHash, body))))
  }

  /** The file after an append, or `None` when the last record's number cannot be read and the append raises. */
  function Append(h: Hash, f: File, body: string, parse: string -> Option<int>): Option<File> {
    var previous := Tail(f.lines);
    if previous.None? then Some(Written(f, NewRecord(h, 0, Str(""), body)))
    else
      var n := ToInt(previous.value.seqNo, parse);
      if n.None? then None
      else
        var prev := if previous.value.hash.Missing? then Str("") else previous.value.hash;
        Some(Written(f, NewRecord(h, n.value + 1, prev, body)))
  }

  /** Whether a record written at the end of the file becomes a line of its own. */
  predicate EndsClean(f: File) {
    f.lines == [] || f.terminated || f.lines[|f.lines| - 1] == Blank(true)
  }

  /** The records before and after an append agree up to the last one before it, and differ there only when the file
      ends in a record without a line boundary. */
  lemma AppendedRecords(f: File, r: Record)
    ensures var before, after := Records(f.lines), Records(Written(f, r).lines);
            if EndsClean(f) then after == before + [Rec(r)]
            else if f.lines[|f.lines| - 1].Blank? then after == before + [Padded(r)]
            else before != [] && after == before[..|before| - 1] + [Garbage]
  {
    assert (f.lines + [Rec(r)])[..|f.lines|] == f.lines;
    if f.lines != [] {
      var n := |f.lines| - 1;
      var glued := f.lines[..n] + [Glued(f.lines[n], r)];
      assert glued[..n] == f.lines[..n];
      var before := Records(f.lines[..n]);
      assert (before + [f.lines[n]])[..|before|] == before;
    }
  }

  /** A write ends its line with a newline, and leaves every earlier line and line end as it was. */
  lemma WrittenEndsLine(f: File, r: Record)
    ensures var f1 := Written(f, r);
            var n := |f1.lines| - 1;
            && f1.terminated && n >= 0 && n !in f1.soft
            && n == (if f.lines != [] && !f.terminated then |f.lines| - 1 else |f.lines|)
            && f1.lines[..n] == f.lines[..n]
            && forall i: nat | i != n :: i in f1.soft <==> i in f.soft
  {
  }

  lemma IntactTail(h: Hash, f: File)
    requires Intact(h, f)
    ensures var records := Records(f.lines);
            if records == [] then Tail(f.lines) == None
            else
              var last := records[|records| - 1];
              && last.Rec? && Tail(f.lines) == Some(last.record)
              && EqualsInt(last.record.seqNo, |records| - 1) && last.record.hash == Str(HashBefore(records, |records|))
  {
    var records := Records(f.lines);
    if records != [] {
      assert GoodAt(h, records, |records| - 1);
    }
  }

  lemma ToIntOfEqual(v: Json, n: nat, parse: string -> Option<int>)
    requires EqualsInt(v, n)
    ensures ToInt(v, parse) == Some(n)
  {
  }

  lemma GoodPrefix(h: Hash, a: seq<Line>, b: seq<Line>, i: nat)
    requires i < |a| && i < |b| && a[..i + 1] == b[..i + 1]
    ensures GoodAt(h, a, i) <==> GoodAt(h, b, i)
  {
    assert a[i] == a[..i + 1][i] == b[i];
    assert i > 0 ==> a[i - 1] == a[..i + 1][i - 1] == b[i - 1];
  }

  /** The record an append to an intact stream writes. */
  function NextRecord(h: Hash, f: File, body: string): Record {
    var records := Records(f.lines);
    NewRecord(h, |records|, Str(HashBefore(records, |records|)), body)
  }

  lemma AppendToIntact(h: Hash, f: File, body: string, parse: string -> Option<int>)
    requires Intact(h, f)
    ensures Append(h, f, body, parse) == Some(Written(f, NextRecord(h, f, body)))
  {
    hide Written;
    var records := Records(f.lines);
    IntactTail(h, f);
    if records != [] {
      ToIntOfEqual(records[|records| - 1].record.seqNo, |records| - 1, parse);
    }
  }

  lemma ExtendKeepsGood(h: Hash, before: seq<Line>, after: seq<Line>, n: nat)
    requires n <= |before| && n <= |after| && before[..n] == after[..n]
    requires forall i | 0 <= i < n :: GoodAt(h, before, i)
    ensures forall i | 0 <= i < n :: GoodAt(h, after, i)
  {
    forall i | 0 <= i < n ensures GoodAt(h, after, i) {
      assert before[..i + 1] == before[..n][..i + 1] == after[..n][..i + 1] == after[..i + 1];
      GoodPrefix(h, before, after, i);
    }
  }

  /** Where an append that does not become a line of its own breaks the chain. */
  function BreakOf(f: File): int
    requires !EndsClean(f)
  {
    if f.lines[|f.lines| - 1].Blank? then |Records(f.lines)| else |Records(f.lines)| - 1
  }

  lemma WrittenIntactIff(h: Hash, f: File, body: string)
    requires Intact(h, f)
    ensures var f1 := Written(f, NextRecord(h, f, body));
            && (EndsClean(f) ==> Intact(h, f1) && Records(f1.lines) == Records(f.lines) + [Rec(NextRecord(h, f, body))])
            && (!EndsClean(f) ==> BreakOf(f) >= 0 && FirstBroken(h, Records(f1.lines), Some(BreakOf(f))))
  {
    hide Written, Records;
    var before := Records(f.lines);
    var entry := NextRecord(h, f, body);
    var after := Records(Written(f, entry).lines);
    AppendedRecords(f, entry);
    if EndsClean(f) {
      assert before == after[..|before|];
      ExtendKeepsGood(h, before, after, |before|);
      assert GoodAt(h, after, |before|);
    } else {
      var n := BreakOf(f);
      assert before[..n] == after[..n] && !after[n].Rec?;
      ExtendKeepsGood(h, before, after, n);
    }
  }

  /** An append to an intact stream never raises, and leaves it intact exactly when the file is empty or ends in a line
      boundary or in white space of the JSON decoder. Otherwise the new text is glued to what stands there and the
      chain breaks: at the last old record, or behind it when what stands there is blank for `str.strip` alone. */
  lemma AppendKeepsIntactIff(h: Hash, f: File, body: string, parse: string -> Option<int>)
    requires Intact(h, f)
    ensures var r := Append(h, f, body, parse);
            && r.Some?
            && (Intact(h, r.value) <==> EndsClean(f))
            && (!EndsClean(f) ==> BreakOf(f) >= 0 && FirstBroken(h, Records(r.value.lines), Some(BreakOf(f))))
  {
    hide Append, Written;
    AppendToIntact(h, f, body, parse);
    WrittenIntactIff(h, f, body);
    if !EndsClean(f) && Intact(h, Append(h, f, body, parse).value) {
      VerdictIsUnique(h, Records(Append(h, f, body, parse).value.lines), None, Some(BreakOf(f)));
    }
  }

  lemma AppendWrites(h: Hash, f: File, body: string, parse: string -> Option<int>) returns (entry: Record)
    requires Append(h, f, body, parse).Some?
    ensures Append(h, f, body, parse) == Some(Written(f, entry))
  {
    hide Written;
    var previous := Tail(f.lines);
    if previous.None? {
      entry := NewRecord(h, 0, Str(""), body);
    } else {
      var prev := if previous.value.hash.Missing? then Str("") else previous.value.hash;
      entry := NewRecord(h, ToInt(previous.value.seqNo, parse).value + 1, prev, body);
    }
  }

  /** Appending to a damaged stream never moves the first broken index, however the file ends. */
  lemma AppendKeepsBreak(h: Hash, f: File, body: string, parse: string -> Option<int>, broken: nat)
    requires FirstBroken(h, Records(f.lines), Some(broken))
    requires Append(h, f, body, parse).Some?
    ensures FirstBroken(h, Records(Append(h, f, body, parse).value.lines), Some(broken))
  {
    hide Append, Written, Records;
    var before := Records(f.lines);
    var entry := AppendWrites(h, f, body, parse);
    var f1 := Written(f, entry);
    AppendedRecords(f, entry);
    var after := Records(f1.lines);
    assert before[..broken] == after[..broken];
    ExtendKeepsGood(h, before, after, broken);
    if broken < |before| && after[broken] == before[broken] {
      assert before[..broken + 1] == after[..broken + 1];
      GoodPrefix(h, before, after, broken);
    }
  }

  /** The stream file, grown in place under its lock. */
  class Stream {
    var file: File

    constructor ()
      ensures file == EMPTY_FILE
    {
      file := EMPTY_FILE;
    }

    /** Appends one record after the last one on disk; `None` when the append raises. */
    method AppendAudit(h: Hash, body: string, parse: string -> Option<int>) returns (r: Option<Record>)
      modifies this
      ensures r.Some? <==> Append(h, old(file), body, parse).Some?
      ensures file == if r.Some? then Append(h, old(file), body, parse).value else old(file)
      ensures r.Some? ==> file == Written(old(file), r.value)
      ensures r.Some? ==> r.value.body == body && r.value.hash == Str(RecordHash(h, r.value))
      ensures Tail(old(file).lines).None? ==> r.Some? && r.value.seqNo == Int(0) && r.value.prevHash == Str("")
      ensures Tail(old(file).lines).Some? ==>
                var last := Tail(old(file).lines).value;
                && (r.None? ==> forall k :: !StandsFor(last.seqNo, parse, k))
                && (r.Some? ==>
                      && r.value.seqNo.Int? && StandsFor(last.seqNo, parse, r.value.seqNo.n - 1)
                      && r.value.prevHash == if last.hash == Missing then Str("") else last.hash)
    {
      var previous := Tail(file.lines);
      var seqNo, prevHash := 0, Str("");
      if previous.Some? {
        var n := ToInt(previous.value.seqNo, parse);
        if n.None? {
          forall k ensures !StandsFor(previous.value.seqNo, parse, k) {
            ToIntIff(previous.value.seqNo, parse, k);
          }
          return None;
        }
        ToIntIff(previous.value.seqNo, parse, n.value);
        seqNo := n.value + 1;
        if !previous.value.hash.Missing? {
          prevHash := previous.value.hash;
        }
      }
      var entry := NewRecord(h, seqNo, prevHash, body);
      file := Written(file, entry);
      return Some(entry);
    }
  }

  /** A stream that only ever grew by appends, starting from nothing, is intact. */
  function Grown(h: Hash, bodies: seq<string>, parse: string -> Option<int>): (f: File)
    decreases |bodies|
  {
    if bodies == [] then EMPTY_FILE
    else
      var r := Append(h, Grown(h, bodies[..|bodies| - 1], parse), bodies[|bodies| - 1], parse);
      if r.Some? then r.value else EMPTY_FILE
  }

  lemma {:induction false} GrownIsIntact(h: Hash, bodies: seq<string>, parse: string -> Option<int>)
    ensures var f := Grown(h, bodies, parse);
            Intact(h, f) && f.terminated && |Records(f.lines)| == |bodies|
            && forall i | 0 <= i < |bodies| :: Records(f.lines)[i].Rec? && Records(f.lines)[i].record.body == bodies[i]
    decreases |bodies|
  {
    hide Append, Records;
    NoLinesNoRecords([]);
    if bodies != [] {
      var n := |bodies| - 1;
      var f := Grown(h, bodies[..n], parse);
      GrownIsIntact(h, bodies[..n], parse);
      AppendToIntact(h, f, bodies[n], parse);
      WrittenIntactIff(h, f, bodies[n]);
    }
  }
}
