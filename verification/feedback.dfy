/** The rework feedback of the merge gate: a failing CI check is reported to the implementer in
    front of which the earlier review text is carried forward. */
module Feedback {
  import opened Options
  import opened Text

  const PRIOR_FEEDBACK_HEADER :=
    "Earlier review feedback on this " + "branch (still relevant - " + "address it too):"
  const CI_FEEDBACK_MARKER :=
    "The merge-gate CI check failed " + "on your submitted branch"

  const LAST_WORD := "\nDo not call done until the full suite passes."

  /** What of the earlier feedback is worth keeping: the text before the first block that `marker` opens, without
      the `header` an earlier round put in front of it. */
  function CarriedBy(prior: string, header: string, marker: string): string {
    var text := Strip(prior);
    var markerAt := Find(text, marker);
    var cut := if markerAt != -1 then RStrip(text[..markerAt]) else text;
    if header <= cut then Strip(cut[|header|..]) else cut
  }

  function Carried(prior: string): string {
    CarriedBy(prior, PRIOR_FEEDBACK_HEADER, CI_FEEDBACK_MARKER)
  }

  function MergeCiReworkFeedback(prior: Option<string>, ciFeedback: string): string {
    var kept := Carried(TextOf(prior));
    if kept == "" then ciFeedback
    else PRIOR_FEEDBACK_HEADER + "\n" + kept + "\n\n" + ciFeedback
  }

  function TextOf(prior: Option<string>): string {
    if prior.Some? then prior.value else ""
  }

  /** What a brief says in front of its marker: nothing in the first round, one sentence in the later ones. */
  function BriefFront(attempts: nat): string {
    if attempts < 2 then "" else AttemptNote(attempts) + " "
  }

  /** What it says behind the marker. The instruction paragraphs and the pytest excerpt are inputs. */
  function BriefRest(gateError: string, attempts: nat, instructions: string, excerpt: Option<string>): string {
    var rest := " Gate error: " + gateError + "\n\n" + instructions;
    if attempts < 2 || excerpt.None? then rest
    else rest + ("\n\n" + excerpt.value) + LAST_WORD
  }

  /** The CI brief of rework round `attempts`. */
  function CiReworkFeedback(gateError: string, attempts: nat, instructions: string, excerpt: Option<string>): string {
    BriefFront(attempts) + CI_FEEDBACK_MARKER + BriefRest(gateError, attempts, instructions, excerpt)
  }

  function AttemptNote(attempts: nat): string
    requires attempts >= 2
  {
    "PREVIOUS REWORK ATTEMPT " + Decimal(attempts - 1) + " DID NOT FIX THIS."
  }

  /** The part of a CI brief in front of its first marker; all of it when it has none. */
  function Before(s: string, marker: string): string {
    var at := Find(s, marker);
    if at == -1 then s else s[..at]
  }

  /** What the proofs use of the two constants: both are visible single-line texts, and the marker's first
      character occurs nowhere in the header. */
  predicate GoodLabels(header: string, marker: string) {
    && header != "" && !IsSpace(header[0])
    && marker != "" && !IsSpace(marker[0]) && !IsSpace(marker[|marker| - 1])
    && (forall i | 0 <= i < |marker| :: marker[i] != '\n')
    && (forall i | 0 <= i < |header| :: header[i] != marker[0])
    && marker[0] != '\n'
  }

  lemma LabelsAreGood()
    ensures GoodLabels(PRIOR_FEEDBACK_HEADER, CI_FEEDBACK_MARKER)
    ensures |CI_FEEDBACK_MARKER| > 1 && CI_FEEDBACK_MARKER[0] == 'T' && CI_FEEDBACK_MARKER[1] == 'h'
    ensures PRIOR_FEEDBACK_HEADER[0] == 'E'
  {
    HeaderHasNoCapitalT();
  }

  lemma HeaderHasNoCapitalT()
    ensures forall i | 0 <= i < |PRIOR_FEEDBACK_HEADER| :: PRIOR_FEEDBACK_HEADER[i] != 'T'
  {
  }

  lemma AbsentWhenFirstCharAbsent(s: string, p: string)
    requires p != "" && forall i | 0 <= i < |s| :: s[i] != p[0]
    ensures Find(s, p) == -1
  {
    forall i ensures !OccursAt(s, p, i) {
      var first := p[0];
    }
  }

  lemma AbsentInSlice(s: string, p: string, i: nat, j: nat)
    requires i <= j <= |s| && Find(s, p) == -1
    ensures Find(s[i..j], p) == -1
  {
    forall k ensures !OccursAt(s[i..j], p, k) {
      assert !OccursAt(s, p, i + k);
    }
  }

  /** A newline-free pattern cannot straddle a line end, so searching past a clean line searches the rest. */
  lemma FindPastLine(a: string, b: string, p: string)
    requires p != "" && forall i | 0 <= i < |p| :: p[i] != '\n'
    requires a != "" && a[|a| - 1] == '\n' && Find(a, p) == -1
    ensures Find(a + b, p) == if Find(b, p) == -1 then -1 else |a| + Find(b, p)
  {
    var s := a + b;
    forall i ensures OccursAt(s, p, i) <==> OccursAt(b, p, i - |a|) {
      assert !OccursAt(a, p, i);
      assert |a| - |p| < i < |a| ==> p[|a| - 1 - i] != s[i + (|a| - 1 - i)];
    }
    assert Find(b, p) != -1 ==> OccursAt(s, p, |a| + Find(b, p));
    assert Find(s, p) != -1 ==> OccursAt(b, p, Find(s, p) - |a|);
  }

  /** A pattern that ends in a visible character is not touched by stripping trailing space. */
  lemma FindIgnoresTrailingSpace(s: string, p: string)
    requires p != "" && !IsSpace(p[|p| - 1])
    ensures Find(RStrip(s), p) == Find(s, p)
  {
    var r := RStrip(s);
    assert forall k | |r| <= k < |s| :: s[k] == s[|r|..][k - |r|];
    forall i ensures OccursAt(s, p, i) <==> OccursAt(r, p, i) {
      var last := p[|p| - 1];
    }
  }

  lemma FirstOccurrenceEndsClean(s: string, p: string)
    requires Find(s, p) != -1 && p != ""
    ensures Find(s[..Find(s, p)], p) == -1
  {
    var at := Find(s, p);
    forall k ensures !OccursAt(s[..at], p, k) {
      assert k < at ==> !OccursAt(s, p, k);
    }
  }

  lemma RStripKeepsAbsence(s: string, p: string)
    requires Find(s, p) == -1
    ensures Find(RStrip(s), p) == -1
  {
    AbsentInSlice(s, p, 0, |RStrip(s)|);
  }

  lemma StripKeepsAbsence(s: string, p: string)
    requires Find(s, p) == -1
    ensures Find(Strip(s), p) == -1
  {
    var l := LStrip(s);
    assert Find(l, p) == -1 by {
      assert l == s[|s| - |l|..|s|];
      AbsentInSlice(s, p, |s| - |l|, |s|);
    }
    RStripKeepsAbsence(l, p);
  }

  predicate Clean(kept: string, marker: string) {
    Find(kept, marker) == -1 && (kept != "" ==> !IsSpace(kept[0]) && !IsSpace(kept[|kept| - 1]))
  }

  /** The carried text holds no CI block and is stripped. */
  lemma CarriedIsClean(prior: string, header: string, marker: string)
    requires GoodLabels(header, marker)
    ensures Clean(CarriedBy(prior, header, marker), marker)
  {
    var text := Strip(prior);
    StripEnds(prior);
    var at := Find(text, marker);
    var cut := if at != -1 then RStrip(text[..at]) else text;
    if at != -1 {
      FirstOccurrenceEndsClean(text, marker);
      RStripKeepsAbsence(text[..at], marker);
      assert cut != "" ==> cut[0] == text[0];
    }
    if header <= cut {
      var rest := cut[|header|..];
      StripEnds(rest);
      assert rest == cut[|header|..|cut|];
      AbsentInSlice(cut, marker, |header|, |cut|);
      StripKeepsAbsence(rest, marker);
    }
  }

  /** A header with nothing behind it carries nothing. */
  lemma LoneHeaderIsDropped(header: string, marker: string)
    requires GoodLabels(header, marker) && !IsSpace(header[|header| - 1])
    ensures CarriedBy(header, header, marker) == ""
  {
    LStripNoop(header);
    RStripUnique(header, header);
    AbsentWhenFirstCharAbsent(header, marker);
    assert header[|header|..] == "";
  }

  /** The header block a round writes in front of its brief. */
  function Front(header: string, kept: string): string {
    header + "\n" + kept + "\n\n"
  }

  lemma FrontHasNoMarker(header: string, kept: string, marker: string)
    requires GoodLabels(header, marker) && Find(kept, marker) == -1
    ensures Find(Front(header, kept), marker) == -1
  {
    var h := header + "\n";
    AbsentWhenFirstCharAbsent(h, marker);
    FindPastLine(h, kept, marker);
    var hk := h + kept;
    var front := Front(header, kept);
    assert front == hk + "\n\n";
    forall i ensures !OccursAt(front, marker, i) {
      assert !OccursAt(hk, marker, i);
      var last := marker[|marker| - 1];
    }
  }

  /** The text in front of the first marker of an already stripped text. */
  function Cut(text: string, marker: string): string {
    var at := Find(text, marker);
    if at != -1 then RStrip(text[..at]) else text
  }

  lemma CutIgnoresTrailingSpace(s: string, marker: string)
    requires marker != "" && !IsSpace(marker[|marker| - 1])
    ensures Cut(RStrip(s), marker) == RStrip(Before(s, marker))
  {
    FindIgnoresTrailingSpace(s, marker);
    var at := Find(s, marker);
    if at != -1 {
      assert RStrip(s)[..at] == s[..at];
    }
  }

  lemma BeforePastLine(front: string, ci: string, marker: string)
    requires marker != "" && forall i | 0 <= i < |marker| :: marker[i] != '\n'
    requires front != "" && front[|front| - 1] == '\n' && Find(front, marker) == -1
    ensures Before(front + ci, marker) == front + Before(ci, marker)
  {
    FindPastLine(front, ci, marker);
    var at := Find(ci, marker);
    if at != -1 {
      assert (front + ci)[..|front| + at] == front + ci[..at];
    }
  }

  /** What a round keeps of the feedback the previous round produced: the same text again, followed by
      whatever the previous brief says before its marker. */
  lemma CarriedAfterMerge(header: string, kept: string, ci: string, marker: string)
    requires GoodLabels(header, marker) && kept != "" && Clean(kept, marker)
    ensures CarriedBy(Front(header, kept) + ci, header, marker)
            == if Blank(Before(ci, marker)) then kept else kept + "\n\n" + RStrip(Before(ci, marker))
  {
    var front := Front(header, kept);
    FrontHasNoMarker(header, kept, marker);
    assert front[|front| - 1] == '\n' && front[0] == header[0];
    LStripNoop(front + ci);
    CutIgnoresTrailingSpace(front + ci, marker);
    BeforePastLine(front, ci, marker);
    CutKeeps(header, kept, Before(ci, marker));
  }

  lemma CutKeeps(header: string, kept: string, before: string)
    requires kept != "" && !IsSpace(kept[0]) && !IsSpace(kept[|kept| - 1])
    ensures var cut := RStrip(Front(header, kept) + before);
            header <= cut && Strip(cut[|header|..])
            == if Blank(before) then kept else kept + "\n\n" + RStrip(before)
  {
    var front := Front(header, kept);
    var body := if Blank(before) then kept else kept + "\n\n" + RStrip(before);
    RStripConcat(front, before);
    if Blank(before) {
      RStripFront(header, kept);
    } else {
      RStripVisible(before);
    }
    var cut := header + ("\n" + body);
    assert RStrip(front + before) == cut;
    assert cut[|header|..] == "\n" + body;
    StripLine(body);
  }

  lemma RStripFront(header: string, kept: string)
    requires kept != "" && !IsSpace(kept[|kept| - 1])
    ensures RStrip(Front(header, kept)) == header + ("\n" + kept)
  {
    var head := header + ("\n" + kept);
    assert Front(header, kept) == head + "\n\n";
    RStripConcat(head, "\n\n");
    RStripUnique(head, head);
  }

  lemma RStripVisible(s: string)
    requires !Blank(s)
    ensures RStrip(s) != "" && !IsSpace(RStrip(s)[|RStrip(s)| - 1])
  {
  }

  lemma StripLine(body: string)
    requires body != "" && !IsSpace(body[0]) && !IsSpace(body[|body| - 1])
    ensures Strip("\n" + body) == body
  {
    LStripBlankPrefix("\n", body);
    RStripUnique(body, body);
  }

  lemma FirstAt(front: string, p: string, rest: string)
    requires forall i | 0 <= i < |front| :: !OccursAt(front + p + rest, p, i)
    ensures Contains(front + p + rest, p) && Before(front + p + rest, p) == front
  {
    var s := front + p + rest;
    assert OccursAt(s, p, |front|);
  }

  /** The marker is the first thing a first-round brief says; later rounds put one visible sentence in front. */
  lemma BeforeMarkerOfCiBrief(e: string, n: nat, ins: string, exc: Option<string>)
    ensures Before(CiReworkFeedback(e, n, ins, exc), CI_FEEDBACK_MARKER) == if n < 2 then "" else AttemptNote(n) + " "
    ensures Contains(CiReworkFeedback(e, n, ins, exc), CI_FEEDBACK_MARKER)
  {
    hide BriefRest, AttemptNote, Before;
    var rest := BriefRest(e, n, ins, exc);
    if n >= 2 {
      NoMarkerInNote(n, rest);
    }
    FirstAt(BriefFront(n), CI_FEEDBACK_MARKER, rest);
  }

  lemma OccursInMiddle(a: string, b: string, c: string, d: string)
    requires c != ""
    ensures a + b <= a + (b + c + d) && a + (b + c + d) != a + b && OccursAt(a + (b + c + d), c, |a + b|)
  {
    assert a + (b + c + d) == (a + b) + c + d;
  }

  /** What a CI brief says behind its marker up to the end of its instructions. */
  function BriefBody(e: string, ins: string): string {
    " Gate error: " + e + "\n\n" + ins
  }

  /** Behind its marker a CI brief tells the gate error in full and then what to do; the excerpt of the failing tests is
      added from the second round on, when there is one. */
  lemma BriefTells(e: string, n: nat, ins: string, exc: Option<string>)
    ensures var brief, told := CiReworkFeedback(e, n, ins, exc), BriefFront(n) + CI_FEEDBACK_MARKER + BriefBody(e, ins);
            && told <= brief
            && (brief == told <==> n < 2 || exc.None?)
            && (n >= 2 && exc.Some? ==> OccursAt(brief, "\n\n" + exc.value, |told|))
  {
    hide BriefFront, OccursAt;
    if n >= 2 && exc.Some? {
      var text := "\n\n" + exc.value;
      assert text[0] == '\n';
      ExcerptFollows(e, ins, n, exc);
      OccursInMiddle(BriefFront(n) + CI_FEEDBACK_MARKER, BriefBody(e, ins), text, LAST_WORD);
    }
  }

  lemma ExcerptFollows(e: string, ins: string, n: nat, exc: Option<string>)
    requires n >= 2 && exc.Some?
    ensures BriefRest(e, n, ins, exc) == BriefBody(e, ins) + ("\n\n" + exc.value) + LAST_WORD
  {
  }

  lemma NoMarkerInNote(n: nat, rest: string)
    requires n >= 2
    ensures var front := AttemptNote(n) + " ";
            forall i | 0 <= i < |front| :: !OccursAt(front + CI_FEEDBACK_MARKER + rest, CI_FEEDBACK_MARKER, i)
  {
    var m := CI_FEEDBACK_MARKER;
    var front := AttemptNote(n) + " ";
    var c := front + m + rest;
    LabelsAreGood();
    forall i | 0 <= i < |front| ensures !OccursAt(c, m, i) {
      NoteIsUpperCase(n, i + 1);
      assert c[i] == front[i] && c[i + 1] == (front + m)[i + 1];
      assert m[0] != c[i + 0] || m[1] != c[i + 1];
    }
  }

  /** Nothing in the sentence is followed by a lower-case letter, so the marker cannot begin inside it. */
  lemma NoteIsUpperCase(n: nat, i: nat)
    requires n >= 2 && 0 < i <= |AttemptNote(n)| + 1
    ensures var front := AttemptNote(n) + " ";
            if i < |front| then front[i] != 'h' else front[i - 1] == ' '
  {
    var a, d, b := "PREVIOUS REWORK ATTEMPT ", Decimal(n - 1), " DID NOT FIX THIS.";
    var front := AttemptNote(n) + " ";
    assert front == a + d + b + " ";
    assert |a| <= i < |a| + |d| ==> IsDigit(d[i - |a|]);
  }

  /** One CI brief. */
  datatype CiRound = CiRound(gateError: string, attempts: nat, instructions: string, excerpt: Option<string>) {
    function Brief(): string {
      CiReworkFeedback(gateError, attempts, instructions, excerpt)
    }
  }

  /** What a round adds to the text every later round carries. */
  function Accumulate(kept: string, attempts: nat): string {
    if attempts < 2 then kept
    else if kept == "" then AttemptNote(attempts)
    else kept + "\n\n" + AttemptNote(attempts)
  }

  lemma NoteIsStripped(n: nat)
    requires n >= 2
    ensures AttemptNote(n)[0] == 'P'
    ensures !Blank(AttemptNote(n) + " ") && RStrip(AttemptNote(n) + " ") == AttemptNote(n)
  {
    var note := AttemptNote(n);
    assert note[|note| - 1] == '.' && note[0] == 'P' && !IsSpace('.');
    assert (note + " ")[0] == 'P';
    RStripConcat(note, " ");
    RStripUnique(note, note);
  }

  lemma CarriedAfterCiRound(prior: Option<string>, round: CiRound)
    ensures Carried(MergeCiReworkFeedback(prior, round.Brief()))
            == Accumulate(Carried(TextOf(prior)), round.attempts)
  {
    var h, m := PRIOR_FEEDBACK_HEADER, CI_FEEDBACK_MARKER;
    var kept := Carried(TextOf(prior));
    var c := round.Brief();
    LabelsAreGood();
    CarriedIsClean(TextOf(prior), h, m);
    BeforeMarkerOfCiBrief(round.gateError, round.attempts, round.instructions, round.excerpt);
    if round.attempts >= 2 {
      NoteIsStripped(round.attempts);
    }
    if kept != "" {
      CarriedAfterMerge(h, kept, c, m);
      assert Front(h, kept) + c == MergeCiReworkFeedback(prior, c);
    } else {
      CarriedOfBareBrief(round);
    }
  }

  lemma BriefBegins(round: CiRound)
    ensures var c := round.Brief(); c != "" && c[0] == if round.attempts < 2 then 'T' else 'P'
  {
    hide BriefRest, AttemptNote;
    LabelsAreGood();
    if round.attempts >= 2 {
      NoteIsStripped(round.attempts);
    }
  }

  lemma HeaderIsNoNote(n: nat)
    requires n >= 2
    ensures !(PRIOR_FEEDBACK_HEADER <= AttemptNote(n))
  {
    hide AttemptNote;
    LabelsAreGood();
    NoteIsStripped(n);
  }

  lemma CarriedOfBareBrief(round: CiRound)
    ensures Carried(round.Brief()) == Accumulate("", round.attempts)
  {
    hide CiReworkFeedback, AttemptNote, CarriedBy, Before;
    var h, m := PRIOR_FEEDBACK_HEADER, CI_FEEDBACK_MARKER;
    LabelsAreGood();
    BriefBegins(round);
    BeforeMarkerOfCiBrief(round.gateError, round.attempts, round.instructions, round.excerpt);
    if round.attempts >= 2 {
      NoteIsStripped(round.attempts);
      HeaderIsNoNote(round.attempts);
    }
    CarriedOfVisible(round.Brief(), h, m);
  }

  lemma CarriedOfVisible(c: string, header: string, marker: string)
    requires GoodLabels(header, marker)
    requires c != "" && !IsSpace(c[0]) && !(header <= RStrip(Before(c, marker)))
    ensures CarriedBy(c, header, marker) == RStrip(Before(c, marker))
  {
    LStripNoop(c);
    CutIgnoresTrailingSpace(c, marker);
  }

  /** A CI failure reported after a CI failure leaves exactly the feedback the second one alone would leave,
      if and only if the first brief is the first of its story. The brief of any later round opens with a
      sentence in front of the marker, and that sentence is carried forward as if it were review text. */
  lemma CiFeedbackReplacesIff(prior: Option<string>, round: CiRound, next: string)
    ensures MergeCiReworkFeedback(Some(MergeCiReworkFeedback(prior, round.Brief())), next)
            == MergeCiReworkFeedback(prior, next)
            <==> round.attempts < 2
  {
    CarriedAfterCiRound(prior, round);
    var kept := Carried(TextOf(prior));
    assert round.attempts >= 2 ==> |Accumulate(kept, round.attempts)| > |kept|;
  }

  /** A rework the gate asks for: for a CI failure, or for a rebase conflict with its brief. */
  datatype Round = Ci(round: CiRound) | Conflict(brief: string) {
    function Text(): string {
      match this
      case Ci(round) => round.Brief()
      case Conflict(brief) => brief
    }
  }

  /** A brief that begins with a visible character and has neither the header in front nor the marker anywhere. */
  predicate Plain(brief: string) {
    && brief != "" && !IsSpace(brief[0])
    && !(PRIOR_FEEDBACK_HEADER <= RStrip(brief)) && !Contains(brief, CI_FEEDBACK_MARKER)
  }

  function AccumulateRound(kept: string, r: Round): string {
    match r
    case Ci(round) => Accumulate(kept, round.attempts)
    case Conflict(brief) => if kept == "" then RStrip(brief) else kept + "\n\n" + RStrip(brief)
  }

  predicate PlainConflicts(rounds: seq<Round>) {
    forall i | 0 <= i < |rounds| :: rounds[i].Conflict? ==> Plain(rounds[i].brief)
  }

  lemma CarriedAfterConflict(prior: Option<string>, brief: string)
    requires Plain(brief)
    ensures Carried(MergeCiReworkFeedback(prior, brief)) == AccumulateRound(Carried(TextOf(prior)), Conflict(brief))
  {
    hide CarriedBy, RStrip;
    var h, m := PRIOR_FEEDBACK_HEADER, CI_FEEDBACK_MARKER;
    var kept := Carried(TextOf(prior));
    LabelsAreGood();
    CarriedIsClean(TextOf(prior), h, m);
    assert Before(brief, m) == brief;
    if kept != "" {
      CarriedAfterMerge(h, kept, brief, m);
      assert !Blank(brief);
      assert Front(h, kept) + brief == MergeCiReworkFeedback(prior, brief);
    } else {
      CarriedOfVisible(brief, h, m);
    }
  }

  /** The feedback after a sequence of rounds. */
  function AfterRounds(prior: Option<string>, rounds: seq<Round>): Option<string> {
    if rounds == [] then prior
    else Some(MergeCiReworkFeedback(AfterRounds(prior, rounds[..|rounds| - 1]), rounds[|rounds| - 1].Text()))
  }

  function AccumulateAll(kept: string, rounds: seq<Round>): string {
    if rounds == [] then kept
    else AccumulateRound(AccumulateAll(kept, rounds[..|rounds| - 1]), rounds[|rounds| - 1])
  }

  /** Over any number of CI and conflict rounds in any order the review text survives unchanged at the front. What
      stacks behind it is the one sentence of each CI round after the first, and every conflict brief in full. */
  lemma {:induction false} CarriedAfterRounds(prior: Option<string>, rounds: seq<Round>)
    requires PlainConflicts(rounds)
    ensures Carried(TextOf(AfterRounds(prior, rounds))) == AccumulateAll(Carried(TextOf(prior)), rounds)
    decreases |rounds|
  {
    hide Carried, MergeCiReworkFeedback, Plain;
    if rounds != [] {
      var before, last := rounds[..|rounds| - 1], rounds[|rounds| - 1];
      CarriedAfterRounds(prior, before);
      if last.Ci? {
        CarriedAfterCiRound(AfterRounds(prior, before), last.round);
      } else {
        CarriedAfterConflict(AfterRounds(prior, before), last.brief);
      }
    }
  }

  /** A round that adds nothing to what is carried: a first CI round. */
  predicate AddsNothing(r: Round) {
    r.Ci? && r.round.attempts < 2
  }

  lemma {:induction false} ReviewTextStaysInFront(kept: string, rounds: seq<Round>)
    requires PlainConflicts(rounds)
    ensures kept <= AccumulateAll(kept, rounds)
    ensures (forall r | r in rounds :: AddsNothing(r)) <==> AccumulateAll(kept, rounds) == kept
    decreases |rounds|
  {
    if rounds != [] {
      var before, last := rounds[..|rounds| - 1], rounds[|rounds| - 1];
      assert rounds == before + [last];
      ReviewTextStaysInFront(kept, before);
      RoundAdds(AccumulateAll(kept, before), last);
    }
  }

  lemma RoundAdds(kept: string, r: Round)
    requires r.Conflict? ==> Plain(r.brief)
    ensures kept <= AccumulateRound(kept, r)
    ensures if AddsNothing(r) then AccumulateRound(kept, r) == kept else |AccumulateRound(kept, r)| > |kept|
  {
    if r.Conflict? {
      assert !Blank(r.brief);
      RStripVisible(r.brief);
    }
  }

  /** Review text that neither reports a CI failure nor opens with the carry-forward header is kept word for word. */
  lemma ReviewTextSurvives(prior: string, ci: string)
    requires Strip(prior) != "" && !Contains(Strip(prior), CI_FEEDBACK_MARKER)
    requires !(PRIOR_FEEDBACK_HEADER <= Strip(prior))
    ensures MergeCiReworkFeedback(Some(prior), ci) == PRIOR_FEEDBACK_HEADER + "\n" + Strip(prior) + "\n\n" + ci
  {
  }
}
