/** What a clean chain says about the past, once its head is anchored outside. */
module AnchorVerdicts {
  import opened AuditAnchor
  import opened AuditChain
  import opened Options

  datatype Verdict = Clean | HashMismatch | Truncated | LogUnreadable

  // ---------------------------------------------------------------------------------------------
  // How the comparison reads a stream
  // ---------------------------------------------------------------------------------------------

  /** The newline-delimited lines of a file: runs of lines that other boundaries part. */
  function Runs(lines: seq<Line>, soft: set<nat>): (runs: seq<seq<Line>>)
    ensures runs == [] <==> lines == []
    decreases |lines|
  {
    if lines == [] then []
    else
      var n := |lines| - 1;
      var before := Runs(lines[..n], soft);
      if n > 0 && n - 1 in soft then before[..|before| - 1] + [before[|before| - 1] + [lines[n]]]
      else before + [[lines[n]]]
  }

  /** What the JSON decoder makes of several lines on one newline-delimited line, boundaries included. */
  type Joined = seq<Line> -> Option<Record>

  /** The comparison strips each newline-delimited line, so blank lines in it do not count, nor does padding. */
  function ReadRun(joined: Joined, run: seq<Line>): Option<Record> {
    var visible := Records(run);
    if |visible| > 1 then joined(run)
    else if |visible| == 1 && (visible[0].Rec? || visible[0].Padded?) then Some(visible[0].record)
    else None
  }

  predicate Numbered(r: Option<Record>, n: int) {
    r.Some? && EqualsInt(r.value.seqNo, n)
  }

  function Compare(r: Record, anchor: Head): Verdict {
    if r.hash == Str(anchor.hash) then Clean else HashMismatch
  }

  /** The first record numbered as the anchor decides; what does not decode is skipped. */
  function VerdictOnRuns(joined: Joined, runs: seq<seq<Line>>, anchor: Head): Verdict
    decreases |runs|
  {
    if runs == [] then Truncated
    else
      var before := VerdictOnRuns(joined, runs[..|runs| - 1], anchor);
      var last := ReadRun(joined, runs[|runs| - 1]);
      if before != Truncated || !Numbered(last, anchor.seqNo) then before else Compare(last.value, anchor)
  }

  function VerdictOn(joined: Joined, f: File, anchor: Head): Verdict {
    VerdictOnRuns(joined, Runs(f.lines, f.soft), anchor)
  }

  /** Line `k` is the first one that reads as a record with the number. */
  predicate FirstNumbered(joined: Joined, runs: seq<seq<Line>>, k: nat, n: int) {
    && k < |runs| && Numbered(ReadRun(joined, runs[k]), n)
    && forall i | 0 <= i < k :: !Numbered(ReadRun(joined, runs[i]), n)
  }

  /** The first record with the anchored number decides, by its hash; a stream without one is truncated. */
  method CompareWithAnchor(joined: Joined, f: File, anchor: Head) returns (v: Verdict)
    ensures v == VerdictOn(joined, f, anchor)
    ensures var runs := Runs(f.lines, f.soft);
            && (v == Truncated <==> forall k | 0 <= k < |runs| :: !Numbered(ReadRun(joined, runs[k]), anchor.seqNo))
            && (v != Truncated ==>
                  exists k | 0 <= k < |runs| ::
                    && FirstNumbered(joined, runs, k, anchor.seqNo)
                    && v == if ReadRun(joined, runs[k]).value.hash == Str(anchor.hash) then Clean else HashMismatch)
  {
    hide ReadRun, Runs;
    var runs := Runs(f.lines, f.soft);
    for k := 0 to |runs|
      invariant VerdictOnRuns(joined, runs[..k], anchor) == Truncated
      invariant forall i | 0 <= i < k :: !Numbered(ReadRun(joined, runs[i]), anchor.seqNo)
    {
      assert runs[..k + 1][..k] == runs[..k];
      var r := ReadRun(joined, runs[k]);
      if Numbered(r, anchor.seqNo) {
        v := Compare(r.value, anchor);
        assert Numbered(ReadRun(joined, runs[k]), anchor.seqNo) && FirstNumbered(joined, runs, k, anchor.seqNo);
        VerdictStays(joined, runs, k + 1, anchor);
        assert Runs(f.lines, f.soft) == runs;
        return;
      }
    }
    assert runs[..|runs|] == runs;
    return Truncated;
  }

  lemma {:induction false} VerdictStays(joined: Joined, runs: seq<seq<Line>>, k: nat, anchor: Head)
    requires k <= |runs| && VerdictOnRuns(joined, runs[..k], anchor) != Truncated
    ensures VerdictOnRuns(joined, runs, anchor) == VerdictOnRuns(joined, runs[..k], anchor)
    decreases |runs| - k
  {
    hide ReadRun;
    if k == |runs| {
      assert runs[..k] == runs;
    } else {
      assert runs[..k + 1][..k] == runs[..k];
      VerdictStays(joined, runs, k + 1, anchor);
    }
  }

  function VerifyAgainst(joined: Joined, readable: bool, log: seq<Entry>, chain: string, f: File): Verdict {
    if !readable then LogUnreadable
    else if chain !in Strongest(log) then Clean
    else VerdictOn(joined, f, Strongest(log)[chain])
  }

  method VerifyAgainstAnchor(joined: Joined, readable: bool, log: seq<Entry>, chain: string, f: File)
    returns (v: Verdict)
    ensures v == VerifyAgainst(joined, readable, log, chain, f)
    ensures v == LogUnreadable <==> !readable
    ensures readable && chain !in Strongest(log) ==> v == Clean
    ensures readable && chain in Strongest(log) ==> v == VerdictOn(joined, f, Strongest(log)[chain])
  {
    if !readable {
      return LogUnreadable;
    }
    var anchored := Anchors(log);
    if chain !in anchored {
      return Clean;
    }
    v := CompareWithAnchor(joined, f, anchored[chain]);
  }

  // ---------------------------------------------------------------------------------------------
  // Streams that verify
  // ---------------------------------------------------------------------------------------------

  /** The records of several runs, one after the other. */
  function RecordsOf(runs: seq<seq<Line>>): seq<Line>
    decreases |runs|
  {
    if runs == [] then [] else RecordsOf(runs[..|runs| - 1]) + Records(runs[|runs| - 1])
  }

  lemma RecordsSnoc(lines: seq<Line>, last: Line)
    ensures Records(lines + [last]) == Records(lines) + if last.Blank? then [] else [last]
  {
    assert (lines + [last])[..|lines|] == lines;
  }

  lemma RecordsOfSnoc(runs: seq<seq<Line>>, last: seq<Line>)
    ensures RecordsOf(runs + [last]) == RecordsOf(runs) + Records(last)
  {
    assert (runs + [last])[..|runs|] == runs;
  }

  /** Both readers of a stream see the same lines, only parted differently. */
  lemma {:induction false} RunsHoldRecords(lines: seq<Line>, soft: set<nat>)
    ensures RecordsOf(Runs(lines, soft)) == Records(lines)
    decreases |lines|
  {
    hide Records, RecordsOf;
    if lines == [] {
      NoLinesNoRecords([]);
      NoRunsNoRecords();
    } else {
      var n := |lines| - 1;
      var before := Runs(lines[..n], soft);
      RunsHoldRecords(lines[..n], soft);
      assert lines[..n] + [lines[n]] == lines;
      RecordsSnoc(lines[..n], lines[n]);
      if n > 0 && n - 1 in soft {
        var m := |before| - 1;
        RecordsOfSnoc(before[..m], before[m]);
        RecordsOfSnoc(before[..m], before[m] + [lines[n]]);
        RecordsSnoc(before[m], lines[n]);
        assert before[..m] + [before[m]] == before;
      } else {
        RecordsOfSnoc(before, [lines[n]]);
        RecordsSnoc([], lines[n]);
        NoLinesNoRecords([]);
        assert [] + [lines[n]] == [lines[n]];
      }
    }
  }

  lemma NoRunsNoRecords()
    ensures RecordsOf([]) == []
  {
  }

  /** Run `k` is the record numbered `n` and nothing else that is visible. */
  predicate Alone(runs: seq<seq<Line>>, k: nat, n: int)
    requires k < |runs|
  {
    |RecordsOf(runs[..k])| == n && |Records(runs[k])| == 1
  }

  /** The record at position `n` stands alone on its newline-delimited line. */
  predicate StandsAlone(f: File, n: int) {
    var runs := Runs(f.lines, f.soft);
    exists k | 0 <= k < |runs| :: Alone(runs, k, n)
  }

  predicate AllRecords(lines: seq<Line>) {
    forall i | 0 <= i < |lines| :: lines[i].Rec?
  }

  /** Two or more whole records in a row are no JSON document: there is extra data behind the first. */
  predicate RecordsDoNotJoin(joined: Joined, f: File) {
    NoRunJoins(joined, Runs(f.lines, f.soft))
  }

  /** The verdict by position: the anchored record is there, stands alone, and has the anchored hash. */
  function VerdictAt(f: File, anchor: Head): Verdict {
    var records := Records(f.lines);
    var n := anchor.seqNo;
    if !(0 <= n < |records|) || !StandsAlone(f, n) || !records[n].Rec? then Truncated
    else Compare(records[n].record, anchor)
  }

  lemma IntactIsNumbered(h: Hash, records: seq<Line>)
    requires FirstBroken(h, records, None)
    ensures forall i | 0 <= i < |records| :: records[i].Rec? && EqualsInt(records[i].record.seqNo, i)
  {
    forall i | 0 <= i < |records| ensures records[i].Rec? && EqualsInt(records[i].record.seqNo, i) {
      assert GoodAt(h, records, i);
    }
  }

  predicate AllNumbered(records: seq<Line>) {
    forall i | 0 <= i < |records| :: records[i].Rec? && EqualsInt(records[i].record.seqNo, i)
  }

  lemma {:induction false} RecordsOfPrefix(runs: seq<seq<Line>>, k: nat)
    requires k < |runs|
    ensures RecordsOf(runs[..k]) + Records(runs[k]) <= RecordsOf(runs)
    decreases |runs|
  {
    var n := |runs| - 1;
    if k < n {
      RecordsOfPrefix(runs[..n], k);
      assert runs[..n][..k] == runs[..k];
    }
  }

  /** What a run of a numbered stream decodes to: its record when it has just one. */
  lemma RunReads(joined: Joined, runs: seq<seq<Line>>, k: nat)
    requires k < |runs| && AllNumbered(RecordsOf(runs))
    requires |Records(runs[k])| > 1 && AllRecords(Records(runs[k])) ==> joined(runs[k]).None?
    ensures var r, p := ReadRun(joined, runs[k]), |RecordsOf(runs[..k])|;
            if |Records(runs[k])| == 1 then
              && p < |RecordsOf(runs)| && RecordsOf(runs)[p].Rec?
              && r == Some(RecordsOf(runs)[p].record) && EqualsInt(r.value.seqNo, p)
            else r == None
  {
    hide Records, RecordsOf;
    RecordsOfPrefix(runs, k);
    var p, all, visible := |RecordsOf(runs[..k])|, RecordsOf(runs), Records(runs[k]);
    assert forall i | 0 <= i < |visible| :: all[p + i] == visible[i];
  }

  predicate NoRunJoins(joined: Joined, runs: seq<seq<Line>>) {
    forall k | 0 <= k < |runs| && |Records(runs[k])| > 1 && AllRecords(Records(runs[k])) :: joined(runs[k]).None?
  }

  lemma AloneInPrefix(runs: seq<seq<Line>>, m: nat, k: nat, n: int)
    requires k < m <= |runs|
    ensures Alone(runs[..m], k, n) <==> Alone(runs, k, n)
  {
    assert runs[..m][..k] == runs[..k];
  }

  lemma OneNumber(v: Json, m: int, n: int)
    requires EqualsInt(v, m) && EqualsInt(v, n)
    ensures m == n
  {
  }

  lemma AloneIsInside(runs: seq<seq<Line>>, k: nat, n: int)
    requires k < |runs| && Alone(runs, k, n)
    ensures 0 <= n < |RecordsOf(runs)|
  {
    RecordsOfPrefix(runs, k);
  }

  lemma {:induction false} VerdictByPosition(joined: Joined, runs: seq<seq<Line>>, anchor: Head)
    requires AllNumbered(RecordsOf(runs)) && NoRunJoins(joined, runs)
    ensures var n := anchor.seqNo;
            VerdictOnRuns(joined, runs, anchor)
            == if (exists k | 0 <= k < |runs| :: Alone(runs, k, n)) && 0 <= n < |RecordsOf(runs)|
               then Compare(RecordsOf(runs)[n].record, anchor) else Truncated
    decreases |runs|
  {
    hide Alone, Records, ReadRun, AllNumbered, NoRunJoins;
    var n := anchor.seqNo;
    if runs != [] {
      var m := |runs| - 1;
      var front := runs[..m];
      NumberedFront(joined, runs);
      VerdictByPosition(joined, front, anchor);
      forall k | 0 <= k < m ensures Alone(front, k, n) <==> Alone(runs, k, n) {
        AloneInPrefix(runs, m, k, n);
      }
      LastRunDecides(joined, runs, anchor);
      if k :| 0 <= k < m && Alone(front, k, n) {
        AloneIsInside(front, k, n);
        AloneOnce(runs, k, n);
      }
    }
  }

  lemma NumberedFront(joined: Joined, runs: seq<seq<Line>>)
    requires runs != [] && AllNumbered(RecordsOf(runs)) && NoRunJoins(joined, runs)
    ensures AllNumbered(RecordsOf(runs[..|runs| - 1])) && NoRunJoins(joined, runs[..|runs| - 1])
    ensures RecordsOf(runs[..|runs| - 1]) <= RecordsOf(runs)
  {
    hide Records, AllRecords;
    var m := |runs| - 1;
    NumberedPrefix(RecordsOf(runs[..m]), RecordsOf(runs));
    assert forall k | 0 <= k < m :: runs[..m][k] == runs[k];
  }

  lemma NumberedPrefix(a: seq<Line>, b: seq<Line>)
    requires a <= b && AllNumbered(b)
    ensures AllNumbered(a)
  {
    assert forall i | 0 <= i < |a| :: a[i] == b[i];
  }

  /** A record that stands alone before the last run is not the last run's. */
  lemma AloneOnce(runs: seq<seq<Line>>, k: nat, n: int)
    requires k < |runs| - 1 && Alone(runs[..|runs| - 1], k, n)
    ensures !Alone(runs, |runs| - 1, n)
  {
    AloneIsInside(runs[..|runs| - 1], k, n);
  }

  lemma LastRunDecides(joined: Joined, runs: seq<seq<Line>>, anchor: Head)
    requires runs != [] && AllNumbered(RecordsOf(runs)) && NoRunJoins(joined, runs)
    ensures var m, n := |runs| - 1, anchor.seqNo;
            var r := ReadRun(joined, runs[m]);
            && (Numbered(r, n) <==> Alone(runs, m, n))
            && (Numbered(r, n) ==> 0 <= n < |RecordsOf(runs)| && r == Some(RecordsOf(runs)[n].record))
  {
    hide Records, ReadRun, RecordsOf;
    var m, n := |runs| - 1, anchor.seqNo;
    RunReads(joined, runs, m);
    var r := ReadRun(joined, runs[m]);
    if |Records(runs[m])| == 1 && Numbered(r, n) {
      OneNumber(r.value.seqNo, |RecordsOf(runs[..m])|, n);
    }
  }

  lemma VerdictOnIntact(h: Hash, joined: Joined, f: File, anchor: Head)
    requires Intact(h, f) && RecordsDoNotJoin(joined, f)
    ensures VerdictOn(joined, f, anchor) == VerdictAt(f, anchor)
  {
    hide VerdictOnRuns, Records, RecordsOf, Runs, Alone;
    RunsHoldRecords(f.lines, f.soft);
    IntactIsNumbered(h, Records(f.lines));
    VerdictByPosition(joined, Runs(f.lines, f.soft), anchor);
  }

  lemma {:induction false} NewlinesPart(lines: seq<Line>, n: nat)
    requires n < |Records(lines)|
    ensures exists k | 0 <= k < |Runs(lines, {})| :: Alone(Runs(lines, {}), k, n)
    decreases |lines|
  {
    hide RecordsOf, Alone;
    var m := |lines| - 1;
    var front, runs := lines[..m], Runs(lines, {});
    var before := Runs(front, {});
    RunsHoldRecords(front, {});
    assert runs == before + [[lines[m]]];
    if n < |Records(front)| {
      NewlinesPart(front, n);
      var k :| 0 <= k < |before| && Alone(before, k, n);
      assert runs[..|before|] == before;
      AloneInPrefix(runs, |before|, k, n);
    } else {
      LastIsAlone(before, lines[m]);
    }
  }

  lemma LastIsAlone(runs: seq<seq<Line>>, line: Line)
    requires !line.Blank?
    ensures Alone(runs + [[line]], |runs|, |RecordsOf(runs)|)
  {
    assert (runs + [[line]])[..|runs|] == runs;
    assert [line][..0] == [];
  }

  /** Where every line ends in a newline, as every line the pipeline writes does, every record stands alone. */
  lemma NewlinesStandAlone(f: File, n: nat)
    requires f.soft == {} && n < |Records(f.lines)|
    ensures StandsAlone(f, n)
  {
    NewlinesPart(f.lines, n);
  }

  lemma SameHashSameRecord(h: Hash, a: seq<Line>, b: seq<Line>, n: nat)
    requires NoCollision(h, a, b) && n < |a| && n < |b| && GoodAt(h, a, n) && GoodAt(h, b, n)
    requires a[n].Rec? && b[n].Rec? && a[n].record.hash == b[n].record.hash
    ensures a[n] == b[n] && HashBefore(a, n) == HashBefore(b, n)
  {
    assert RecordHash(h, a[n].record) == RecordHash(h, b[n].record);
    assert PayloadOf(a[n].record) == PayloadOf(b[n].record);
  }

  /** Two streams that both verify and share the hash at number n have the same records 0..n. */
  lemma {:induction false} SharedHashSharedPrefix(h: Hash, a: seq<Line>, b: seq<Line>, n: nat)
    requires NoCollision(h, a, b) && FirstBroken(h, a, None) && FirstBroken(h, b, None) && n < |a| && n < |b|
    requires a[n].Rec? && b[n].Rec? && a[n].record.hash == b[n].record.hash
    ensures a[..n + 1] == b[..n + 1]
    decreases n
  {
    assert GoodAt(h, a, n) && GoodAt(h, b, n);
    SameHashSameRecord(h, a, b, n);
    if n == 0 {
      assert a[..1] == [a[0]] && b[..1] == [b[0]];
    } else {
      assert GoodAt(h, a, n - 1) && GoodAt(h, b, n - 1);
      SharedHashSharedPrefix(h, a, b, n - 1);
      assert a[..n + 1] == a[..n] + [a[n]] && b[..n + 1] == b[..n] + [b[n]];
    }
  }

  lemma HeadOfIntact(h: Hash, f: File)
    requires Intact(h, f) && HeadOf(f).Some?
    ensures var records := Records(f.lines);
            && records != [] && HeadOf(f).value.seqNo == |records| - 1
            && records[|records| - 1].Rec? && records[|records| - 1].record.hash == Str(HeadOf(f).value.hash)
  {
    hide Records;
    IntactTail(h, f);
  }

  /** The anchored-prefix theorem: a stream that verifies passes the check against a head anchored from an earlier
      stream that verified exactly when that whole earlier stream is still its beginning, and the anchored record
      stands alone on its newline-delimited line. */
  lemma CleanIff(h: Hash, joined: Joined, earlier: File, later: File)
    requires Intact(h, earlier) && Intact(h, later) && HeadOf(earlier).Some?
    requires NoCollision(h, Records(earlier.lines), Records(later.lines)) && RecordsDoNotJoin(joined, later)
    ensures VerdictOn(joined, later, HeadOf(earlier).value) == Clean
            <==> Records(earlier.lines) <= Records(later.lines) && StandsAlone(later, HeadOf(earlier).value.seqNo)
  {
    hide VerdictOn, Records, HeadOf, StandsAlone, RecordsDoNotJoin;
    var a, b := Records(earlier.lines), Records(later.lines);
    HeadOfIntact(h, earlier);
    VerdictOnIntact(h, joined, later, HeadOf(earlier).value);
    var n := |a| - 1;
    if n < |b| && b[n].Rec? && b[n].record.hash == a[n].record.hash {
      SharedHashSharedPrefix(h, a, b, n);
      assert a == a[..n + 1];
    }
  }

  /** For streams in which every line ends in a newline, the beginning alone decides. */
  lemma CleanIffPrefix(h: Hash, joined: Joined, earlier: File, later: File)
    requires Intact(h, earlier) && Intact(h, later) && HeadOf(earlier).Some? && later.soft == {}
    requires NoCollision(h, Records(earlier.lines), Records(later.lines)) && RecordsDoNotJoin(joined, later)
    ensures VerdictOn(joined, later, HeadOf(earlier).value) == Clean <==> Records(earlier.lines) <= Records(later.lines)
  {
    hide VerdictOn, Records, HeadOf, StandsAlone, RecordsDoNotJoin;
    CleanIff(h, joined, earlier, later);
    HeadOfIntact(h, earlier);
    if Records(earlier.lines) <= Records(later.lines) {
      NewlinesStandAlone(later, |Records(earlier.lines)| - 1);
    }
  }

  lemma OneRecordIsIntact(h: Hash, a: string)
    ensures var r := NewRecord(h, 0, Str(""), a);
            var f := Written(EMPTY_FILE, r);
            && Intact(h, f) && Records(f.lines) == [Rec(r)] && EndsClean(f) && f.soft == {}
            && (r.hash.s != "" ==> HeadOf(f) == Some(Head(0, r.hash.s)))
  {
    NoLinesNoRecords([]);
    assert NextRecord(h, EMPTY_FILE, a) == NewRecord(h, 0, Str(""), a);
    WrittenIntactIff(h, EMPTY_FILE, a);
  }

  lemma TwoRecordsAreIntact(h: Hash, a: string, b: string)
    ensures var r := NewRecord(h, 0, Str(""), a);
            var s := NewRecord(h, 1, r.hash, b);
            var f := Written(Written(EMPTY_FILE, r), s);
            Intact(h, f) && Records(f.lines) == [Rec(r), Rec(s)] && f.lines == [Rec(r), Rec(s)] && f.soft == {}
  {
    hide Records, Intact, EndsClean;
    OneRecordIsIntact(h, a);
    var r := NewRecord(h, 0, Str(""), a);
    var f := Written(EMPTY_FILE, r);
    assert NextRecord(h, f, b) == NewRecord(h, 1, r.hash, b);
    WrittenIntactIff(h, f, b);
  }

  const NO_JOIN: Joined := run => None

  /** The theorem is about streams there are: a hash, a stream, one that grew from it and one that was rewritten, which
      meet all its hypotheses, with the first found clean and the second not. */
  lemma StreamsToCompare() returns (h: Hash, earlier: File, grown: File, rewritten: File)
    ensures Intact(h, earlier) && Intact(h, grown) && Intact(h, rewritten) && HeadOf(earlier).Some?
    ensures NoCollision(h, Records(earlier.lines), Records(grown.lines)) && RecordsDoNotJoin(NO_JOIN, grown)
    ensures NoCollision(h, Records(earlier.lines), Records(rewritten.lines)) && RecordsDoNotJoin(NO_JOIN, rewritten)
    ensures VerdictOn(NO_JOIN, grown, HeadOf(earlier).value) == Clean
    ensures VerdictOn(NO_JOIN, rewritten, HeadOf(earlier).value) == HashMismatch
  {
    hide VerdictOn, Records, Intact, HeadOf, Written, StandsAlone, Runs;
    h := (p: Payload) => p.body;
    var r, q := NewRecord(h, 0, Str(""), "a"), NewRecord(h, 0, Str(""), "c");
    earlier := Written(EMPTY_FILE, r);
    grown := Written(earlier, NewRecord(h, 1, r.hash, "b"));
    rewritten := Written(Written(EMPTY_FILE, q), NewRecord(h, 1, q.hash, "b"));
    OneRecordIsIntact(h, "a");
    TwoRecordsAreIntact(h, "a", "b");
    TwoRecordsAreIntact(h, "c", "b");
    NewlinesStandAlone(grown, 0);
    NewlinesStandAlone(rewritten, 0);
    VerdictOnIntact(h, NO_JOIN, grown, Head(0, "a"));
    VerdictOnIntact(h, NO_JOIN, rewritten, Head(0, "a"));
  }

  /** The two readers of a stream part it differently. Two records with a line separator other than a newline between
      them verify, the anchored first record is still the beginning, and the comparison calls the stream truncated. */
  lemma JoinedRecordsAreTruncated() returns (h: Hash, earlier: File, later: File)
    ensures Intact(h, earlier) && Intact(h, later) && HeadOf(earlier).Some? && RecordsDoNotJoin(NO_JOIN, later)
    ensures Records(earlier.lines) <= Records(later.lines)
    ensures VerdictOn(NO_JOIN, later, HeadOf(earlier).value) == Truncated
  {
    hide Intact, HeadOf, Written, VerdictOn, StandsAlone, Runs, Records;
    h := (p: Payload) => p.body;
    var r := NewRecord(h, 0, Str(""), "a");
    var s := NewRecord(h, 1, r.hash, "b");
    earlier := Written(EMPTY_FILE, r);
    later := File([Rec(r), Rec(s)], {0}, true);
    OneRecordIsIntact(h, "a");
    TwoRecordsAreIntact(h, "a", "b");
    SameLinesIntact(h, Written(earlier, s), later);
    OneRunOfTwo(later);
    VerdictOnIntact(h, NO_JOIN, later, Head(0, "a"));
  }

  lemma RunsSnoc(lines: seq<Line>, last: Line, soft: set<nat>)
    ensures var before := Runs(lines, soft);
            Runs(lines + [last], soft)
            == if lines != [] && |lines| - 1 in soft then before[..|before| - 1] + [before[|before| - 1] + [last]]
               else before + [[last]]
  {
    assert (lines + [last])[..|lines|] == lines;
  }

  lemma OneRunOfTwo(f: File)
    requires |f.lines| == 2 && AllRecords(f.lines) && f.soft == {0}
    ensures !StandsAlone(f, 0)
  {
    var a, b := f.lines[0], f.lines[1];
    RunsSnoc([], a, {0});
    RunsSnoc([a], b, {0});
    assert [] + [a] == [a] && [a] + [b] == f.lines && [[a]][0] + [b] == f.lines;
    RecordsSnoc([], a);
    RecordsSnoc([a], b);
    assert Runs(f.lines, {0}) == [f.lines] && |Records(f.lines)| == 2;
  }

  lemma SameLinesIntact(h: Hash, f: File, g: File)
    requires f.lines == g.lines
    ensures Intact(h, f) <==> Intact(h, g)
  {
  }

  /** The chain is read once in the pass, with the head of stream `f`. */
  predicate ReadsOnly(readings: seq<Reading>, chain: string, f: File) {
    && (exists i | 0 <= i < |readings| :: readings[i] == Reading(chain, HeadOf(f)))
    && (forall i | 0 <= i < |readings| && readings[i].chain == chain :: readings[i].head == HeadOf(f))
  }

  predicate HeadAbove(f: File, g: File) {
    HeadOf(f).Some? && HeadOf(g).Some? && HeadOf(f).value.seqNo > HeadOf(g).value.seqNo
  }

  lemma OwnHeadIsCleanIff(h: Hash, joined: Joined, f: File)
    requires Intact(h, f) && HeadOf(f).Some? && RecordsDoNotJoin(joined, f)
    ensures VerdictOn(joined, f, HeadOf(f).value) == Clean <==> StandsAlone(f, HeadOf(f).value.seqNo)
  {
    hide VerdictOn, Records, HeadOf, StandsAlone, RecordsDoNotJoin;
    HeadOfIntact(h, f);
    VerdictOnIntact(h, joined, f, HeadOf(f).value);
  }

  /** How far one more pass launders a tampered stream. A stream whose head was anchored was replaced by another that
      also verifies; after a pass over the replacement the chain is reported clean exactly when the anchored stream is
      still its beginning, or when the replacement has grown past the anchor: then it is anchored in its turn. Either
      way the record that is then the anchored one must stand alone. */
  lemma CleanAfterPassIff(h: Hash, joined: Joined, log: seq<Entry>, chain: string, earlier: File, later: File,
                          readings: seq<Reading>)
    requires Intact(h, earlier) && Intact(h, later) && HeadOf(earlier).Some?
    requires NoCollision(h, Records(earlier.lines), Records(later.lines)) && RecordsDoNotJoin(joined, later)
    requires chain in Strongest(log) && Strongest(log)[chain] == HeadOf(earlier).value
    requires RealHeads(readings) && ReadsOnly(readings, chain, later)
    ensures VerifyAgainst(joined, true, AfterPass(log, readings), chain, later) == Clean
            <==> if HeadAbove(later, earlier) then StandsAlone(later, HeadOf(later).value.seqNo)
                 else Records(earlier.lines) <= Records(later.lines) && StandsAlone(later, HeadOf(earlier).value.seqNo)
  {
    hide Strongest, PassEntries, UsableChain, VerdictOn, Records, HeadOf, EntryOf, StandsAlone, RecordsDoNotJoin;
    OnlyUsableAnchored(log, chain);
    PassMovesIff(log, readings, chain);
    PassOrigin(log, readings, chain);
    CleanIff(h, joined, earlier, later);
    var i :| 0 <= i < |readings| && readings[i] == Reading(chain, HeadOf(later));
    assert Raises(Strongest(log), readings[i]) <==> HeadAbove(later, earlier);
    if HeadAbove(later, earlier) {
      OwnHeadIsCleanIff(h, joined, later);
    }
  }

  /** A verdict on a stream survives every run of passes that reads no head above the chain's anchor. */
  lemma VerdictSurvives(joined: Joined, log: seq<Entry>, passes: seq<seq<Reading>>, chain: string, f: File)
    requires chain in Strongest(log) && forall k | 0 <= k < |passes| :: RealHeads(passes[k])
    requires forall k | 0 <= k < |passes| :: !AboveAnchor(passes[k], chain, Strongest(log)[chain])
    ensures VerifyAgainst(joined, true, LogAfter(log, passes), chain, f) == VerifyAgainst(joined, true, log, chain, f)
  {
    AnchorSurvivesIff(log, passes, chain);
  }

  // ---------------------------------------------------------------------------------------------
  // Names
  // ---------------------------------------------------------------------------------------------

  const AUDIT_SUFFIX := ".audit.jsonl"
  const DECISIONS_SUFFIX := ".decisions.chain.jsonl"
  const HOST_FILE := ".audit.host.jsonl"

  datatype Source = PlanStream(plan: string) | DecisionsStream(plan: string) | HostStream

  predicate NoColon(s: string) {
    forall i | 0 <= i < |s| :: s[i] != ':'
  }

  /** The streams a pass visits. */
  predicate Visited(s: Source) {
    match s
    case PlanStream(plan) => NoColon(plan)
    case DecisionsStream(plan) => plan != "" && NoColon(plan)
    case HostStream => true
  }

  function ChainOf(s: Source): string {
    match s
    case PlanStream(plan) => plan
    case DecisionsStream(plan) => DECISIONS + plan
    case HostStream => HOST_CHAIN
  }

  function FileOf(s: Source): string {
    match s
    case PlanStream(plan) => plan + AUDIT_SUFFIX
    case DecisionsStream(plan) => plan + DECISIONS_SUFFIX
    case HostStream => HOST_FILE
  }

  function StreamFor(chain: string): string {
    if DECISIONS <= chain then chain[|DECISIONS|..] + DECISIONS_SUFFIX
    else if chain == HOST_CHAIN then HOST_FILE
    else chain + AUDIT_SUFFIX
  }

  lemma PlanIsNoDecisionsKey(plan: string)
    requires NoColon(plan)
    ensures !(DECISIONS <= plan)
  {
    assert DECISIONS[9] == ':';
  }

  lemma DecisionsKeyIsLong(plan: string)
    requires plan != ""
    ensures DECISIONS <= DECISIONS + plan && (DECISIONS + plan)[|DECISIONS|..] == plan && DECISIONS + plan != HOST_CHAIN
  {
  }

  lemma HostFileIsNoPlanFile()
    ensures HOST_FILE != HOST_CHAIN + AUDIT_SUFFIX && !(DECISIONS <= HOST_CHAIN)
  {
    assert HOST_FILE[0] == '.' && HOST_CHAIN[0] == 'h';
  }

  /** A chain is verified against the stream its head was read from, except for a plan that is called `host`. */
  lemma VerifiedWhereAnchoredIff(s: Source)
    requires Visited(s)
    ensures StreamFor(ChainOf(s)) == FileOf(s) <==> s != PlanStream(HOST_CHAIN)
  {
    HostFileIsNoPlanFile();
    match s
    case PlanStream(plan) => PlanIsNoDecisionsKey(plan);
    case DecisionsStream(plan) => DecisionsKeyIsLong(plan);
    case HostStream =>
  }

  /** Two visited streams share a chain name only when one is the host's and the other a plan called `host`. */
  lemma SharedChainNameIff(s: Source, t: Source)
    requires Visited(s) && Visited(t)
    ensures ChainOf(s) == ChainOf(t) <==> s == t || {s, t} == {PlanStream(HOST_CHAIN), HostStream}
  {
    HostFileIsNoPlanFile();
    forall u | u in {s, t}
      ensures DECISIONS <= ChainOf(u) <==> u.DecisionsStream?
      ensures u.DecisionsStream? ==> ChainOf(u)[|DECISIONS|..] == u.plan
    {
      match u
      case PlanStream(plan) => PlanIsNoDecisionsKey(plan);
      case DecisionsStream(plan) => DecisionsKeyIsLong(plan);
      case HostStream =>
    }
  }

  /** A plan name that can be told from a path and from the key of another chain. */
  predicate BareName(plan: string) {
    plan != "" && forall i | 0 <= i < |plan| :: plan[i] != '/' && plan[i] != '\\' && plan[i] != '\0' && plan[i] != ':'
  }

  /** The streams whose heads can be anchored. */
  predicate NameAnchors(s: Source) {
    match s
    case PlanStream(plan) => BareName(plan) && plan !in {".", "..", "*"}
    case DecisionsStream(plan) => BareName(plan)
    case HostStream => true
  }

  /** The first head of a visited stream is anchored under the stream's own chain name, exactly when the name of its
      plan is a bare one; any other head leaves no anchor at all. */
  lemma FirstHeadAnchorsIff(s: Source, head: Head)
    requires Visited(s) && head.hash != ""
    ensures Strongest(AfterPass([], [Reading(ChainOf(s), Some(head))]))
            == if NameAnchors(s) then map[ChainOf(s) := head] else map[]
  {
    hide UsableChain, ChainOf;
    var r := Reading(ChainOf(s), Some(head));
    UsableIff(s);
    assert [r][..0] == [] && [EntryOf(r)][..0] == [];
    assert PassEntries(map[], [r]) == [EntryOf(r)];
    assert [] + [EntryOf(r)] == [EntryOf(r)];
  }

  lemma UsableIff(s: Source)
    requires Visited(s)
    ensures UsableChain(ChainOf(s)) <==> NameAnchors(s)
  {
    match s
    case PlanStream(plan) => PlanIsNoDecisionsKey(plan);
    case DecisionsStream(plan) =>
      DecisionsKeyIsBare(plan);
    case HostStream => HostFileIsNoPlanFile();
  }

  lemma DecisionsKeyIsBare(plan: string)
    requires plan != "" && NoColon(plan)
    ensures UsableChain(DECISIONS + plan) <==> BareName(plan)
  {
    DecisionsKeyIsLong(plan);
    var chain := DECISIONS + plan;
    assert forall i | 0 <= i < |DECISIONS| :: chain[i] == DECISIONS[i];
    assert forall i | 0 <= i < |plan| :: chain[|DECISIONS| + i] == plan[i];
    assert forall i | 0 <= i < |DECISIONS| :: DECISIONS[i] != '/' && DECISIONS[i] != '\\' && DECISIONS[i] != '\0';
    assert |chain| > 2;
  }

  /** A visited stream whose head was anchored is compared with it from then on; one whose name anchors nothing is found
      clean whatever becomes of it. */
  lemma VerdictAfterFirstPass(joined: Joined, s: Source, earlier: File, later: File)
    requires Visited(s) && HeadOf(earlier).Some?
    ensures VerifyAgainst(joined, true, AfterPass([], [Reading(ChainOf(s), HeadOf(earlier))]), ChainOf(s), later)
            == if NameAnchors(s) then VerdictOn(joined, later, HeadOf(earlier).value) else Clean
  {
    hide ChainOf, AfterPass, VerdictOn;
    FirstHeadAnchorsIff(s, HeadOf(earlier).value);
  }

  /** A chain name whose plan part has a colon, or that reads as a path, never anchors anything, whatever the log
      says. */
  lemma AliasAnchorsNothing(log: seq<Entry>, chain: string)
    requires var plan := if "decisions:" <= chain then chain[10..] else chain;
             plan == "" || ':' in plan || '/' in chain || '\\' in chain || '\0' in chain
    ensures chain !in Strongest(log)
  {
    if chain in Strongest(log) {
      OnlyUsableAnchored(log, chain);
    }
  }
}
