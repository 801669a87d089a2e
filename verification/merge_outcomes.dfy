/** The tick of the merge gate told from outside: what its inputs lead to, without the stages it goes through. */
module MergeOutcomes {
  import opened Feedback
  import opened MergeGate
  import opened MergeRuns
  import opened Options
  import opened Text

  // ---------------------------------------------------------------------------------------------
  // What the inputs say
  // ---------------------------------------------------------------------------------------------

  /** A story that the gate parked for a high risk, with other CI evidence than it was parked with. */
  predicate Reexamined(s: Story, inp: Inputs) {
    && s.status == Parked && s.parkedReason == Some("high risk held for human review") && s.approved && s.hasPr
    && inp.autonomyFull && inp.gathered.Some? && s.parkEvidence.Some? && s.parkEvidence.value != inp.gathered
  }

  predicate Examined(s: Story, inp: Inputs) {
    s.status == PrOpen || Reexamined(s, inp)
  }

  /** The review approved exactly what is at the head of the remote branch. */
  predicate HeadApproved(s: Story, inp: Inputs) {
    s.approved && s.verdictSha == inp.remoteHead && inp.remoteHead != ""
  }

  predicate AtGate(s: Story, inp: Inputs) {
    Examined(s, inp) && inp.ruling.merge && HeadApproved(s, inp)
  }

  predicate RebaseFails(s: Story, inp: Inputs) {
    Rebases(s, inp) && inp.rebase.error != ""
  }

  /** When CI was first seen pending. */
  function PendingFrom(s: Story, inp: Inputs): int {
    if s.ciPendingSince.Some? then s.ciPendingSince.value else inp.now
  }

  /** What a tick finds on its way to the merge call: nothing in the way, something to wait for, or an error, which is
      definitive when it is CI's own verdict. */
  datatype Finding = Clear | CiPends | JobRuns | Wrong(error: string, definitive: bool)

  function Finds(s: Story, inp: Inputs, cfg: Config): Finding {
    var ci := FinalCi(s, inp);
    if RebaseFails(s, inp) then Wrong(inp.rebase.error, false)
    else match ci.state
      case CiFail => Wrong("ci fail: " + ci.error, true)
      case CiCancelled => Wrong("ci fail: " + ci.error, false)
      case CiUnreadable => Wrong("ci unreadable: " + ci.error, false)
      case CiPending =>
        if inp.now < PendingFrom(s, inp) + cfg.pendingBound then CiPends else Wrong("ci pending: " + ci.error, false)
      case CiOther(_) => if cfg.detached then JobFinds(s, inp) else InlineFinds(inp)
  }

  function InlineFinds(inp: Inputs): (f: Finding)
    ensures f.Clear? || f.Wrong?
  {
    match (inp.acceptanceFailure, inp.buildFailure)
    case (Some(e), _) => Wrong("acceptance reverify fail: " + e, false)
    case (None, Some(e)) => Wrong("build reverify fail: " + e, false)
    case (None, None) => Clear
  }

  /** A job for exactly the commit of this tick is under way. */
  predicate JobUnderWay(s: Story, inp: Inputs) {
    !Rebases(s, inp) && s.job.Some? && s.job.value.sha == CarriedSha(s, inp)
  }

  function JobFinds(s: Story, inp: Inputs): (f: Finding)
    ensures !f.CiPends?
  {
    if !JobUnderWay(s, inp) then
      match inp.start
      case Launched(_) => JobRuns
      case NotLaunched(e) => Wrong("merge re-verify could not start: " + e, false)
    else
      match inp.collected
      case None => JobRuns
      case Some(r) => ResultFinds(r, CarriedSha(s, inp))
  }

  function ResultFinds(r: JobResult, sha: string): (f: Finding)
    ensures f.Clear? || f.Wrong?
  {
    if r.sha != Some(sha) then Wrong("merge re-verify" + " graded a different commit", false)
    else match r.grade
      case Passed => Clear
      case FailedWith(Missing) => Wrong("merge re-verify" + " failed", false)
      case FailedWith(Falsy) => Clear
      case FailedWith(Said(text)) => if text == "" then Clear else Wrong(text, false)
      case Ungraded(Some(problem)) => Wrong("merge re-verify harness error: " + problem, false)
      case Ungraded(None) => Wrong("merge re-verify harness error: " + "unrecognised re-verify result", false)
  }

  /** A failing rebase that speaks of a conflict, in letters of either case. */
  predicate SaysConflict(error: string) {
    "rebase:" <= error && exists i | 0 <= i < |error| :: ConflictAt(error, i)
  }

  predicate ConflictAt(error: string, i: nat) {
    i + 8 <= |error| && forall k | 0 <= k < 8 :: error[i + k] == "conflict"[k] || error[i + k] == "CONFLICT"[k]
  }

  /** A conflict still goes back to the implementer: the cap of the environment, or two. */
  predicate ConflictRound(s: Story, cfg: Config) {
    cfg.reworkOnConflict
    && s.conflictReworks < if cfg.conflictEnv.Some? && cfg.conflictEnv.value >= 0 then cfg.conflictEnv.value else 2
  }

  predicate CiRound(s: Story, cfg: Config) {
    cfg.reworkOnCiFail && s.mergeAttempts < cfg.maxAttempts
  }

  predicate LastAttempt(s: Story, cfg: Config) {
    s.mergeAttempts + 1 >= cfg.maxAttempts
  }

  // ---------------------------------------------------------------------------------------------
  // What a tick comes to
  // ---------------------------------------------------------------------------------------------

  function OutcomeOf(s: Story, inp: Inputs, cfg: Config): Outcome {
    if !Examined(s, inp) then Skipped
    else if !inp.ruling.merge then RulingParked
    else if !HeadApproved(s, inp) then BindingDenied
    else GateOutcome(s, inp, cfg, Finds(s, inp, cfg))
  }

  function GateOutcome(s: Story, inp: Inputs, cfg: Config, f: Finding): (o: Outcome)
    ensures o !in {Skipped, RulingParked, BindingDenied}
  {
    match f
    case CiPends => CiWait
    case JobRuns => ReverifyWait
    case Clear => if inp.mergeFailure.None? then Merged else if LastAttempt(s, cfg) then GaveUp else WillRetry
    case Wrong(error, definitive) =>
      if SaysConflict(error) && ConflictRound(s, cfg) then ConflictRework
      else if definitive && CiRound(s, cfg) then CiRework
      else if LastAttempt(s, cfg) then GaveUp
      else WillRetry
  }

  /** The record when the tick looks at it; a hold that is examined again takes the new evidence. */
  function Looked(s: Story, inp: Inputs): Story {
    if s.status == PrOpen then s
    else if inp.ruling.merge then
      s.(status := PrOpen, prChecks := inp.gathered, parkEvidence := None, parkedAt := None)
    else s.(prChecks := inp.gathered)
  }

  /** The handle once the tick has its finding. */
  function HandleOf(s: Story, inp: Inputs, cfg: Config): Option<Job> {
    var kept := if Rebases(s, inp) then None else s.job;
    if RebaseFails(s, inp) || !FinalCi(s, inp).state.CiOther? || !cfg.detached then kept
    else if JobUnderWay(s, inp) then if inp.collected.Some? then None else kept
    else if inp.start.Launched? then Some(Job(inp.start.id, CarriedSha(s, inp)))
    else None
  }

  /** The record once the tick has its finding: the approval follows the commit, CI's answer is noted, and a wait for CI
      is remembered with the commit and since when. */
  function Found(s: Story, inp: Inputs, cfg: Config): Story {
    var looked := Looked(s, inp).(job := HandleOf(s, inp, cfg));
    if RebaseFails(s, inp) then looked
    else
      var sha, waits := CarriedSha(s, inp), Finds(s, inp, cfg) == CiPends;
      looked.(verdictSha := if sha != "" then sha else s.verdictSha, prChecks := Some(FinalCi(s, inp)),
              ciRerunAttempted := s.ciRerunAttempted || inp.firstPoll.state == CiCancelled,
              ciPendingSha := if waits then sha else "",
              ciPendingSince := if waits then Some(PendingFrom(s, inp)) else None)
  }

  function ParkedFor(s: Story, inp: Inputs, reason: string): Story {
    var looked := Looked(s, inp);
    looked.(status := Parked, parkedReason := Some(reason), parkedAt := Some(inp.now),
            parkEvidence := Some(looked.prChecks), job := None)
  }

  function Told(s: Story, brief: string): Option<string> {
    Some(MergeCiReworkFeedback(s.reviewFeedback, brief))
  }

  /** What the outcome of the gate makes of the record `g`. */
  function Ended(g: Story, inp: Inputs, f: Finding, o: Outcome): Story {
    match o
    case Merged =>
      g.(status := Done, mergeAttempts := 0, parkedReason := None, ciRerunAttempted := false, ciRework := false)
    case ConflictRework =>
      g.(status := ChangesRequested, job := None, ciRework := true, conflictReworks := g.conflictReworks + 1,
         reviewFeedback := Told(g, inp.conflictBrief))
    case CiRework =>
      var error := if f.Wrong? then f.error else "";
      var brief := CiReworkFeedback(error, g.mergeAttempts + 1, inp.instructions, inp.excerpt);
      g.(status := ChangesRequested, job := None, ciRework := true, mergeAttempts := g.mergeAttempts + 1,
         reviewFeedback := Told(g, brief))
    case WillRetry => g.(mergeAttempts := g.mergeAttempts + 1)
    case GaveUp =>
      g.(status := Failed, mergeAttempts := g.mergeAttempts + 1, job := if f.Wrong? then None else g.job,
         mergeError := if f.Wrong? then Some(f.error) else inp.mergeFailure)
    case _ => g
  }

  function RecordAfter(s: Story, inp: Inputs, cfg: Config): Story {
    match OutcomeOf(s, inp, cfg)
    case Skipped => s
    case RulingParked => ParkedFor(s, inp, inp.ruling.reason)
    case BindingDenied => ParkedFor(s, inp, inp.denial)
    case o => Ended(Found(s, inp, cfg), inp, Finds(s, inp, cfg), o)
  }

  function Cancels(job: Option<Job>): seq<Event> {
    match job
    case Some(j) => [CancelledJob(j)]
    case None => []
  }

  function RebaseRequests(s: Story, inp: Inputs): seq<Event> {
    if Rebases(s, inp) then Cancels(s.job) + [Rebased] else []
  }

  function CiRequests(s: Story, inp: Inputs): seq<Event> {
    var sha := CarriedSha(s, inp);
    if RunsAgain(s, inp) then [PolledCi(sha), ReranCi(sha), PolledCi(sha)] else [PolledCi(sha)]
  }

  function JobRequests(s: Story, inp: Inputs, cfg: Config): seq<Event> {
    if !cfg.detached || !FinalCi(s, inp).state.CiOther? then []
    else if JobUnderWay(s, inp) then if inp.collected.Some? then [CollectedJob(s.job.value)] else []
    else
      Cancels(if Rebases(s, inp) then None else s.job)
      + if inp.start.Launched? then [StartedJob(Job(inp.start.id, CarriedSha(s, inp)))] else []
  }

  /** What is asked of the outside up to the finding. */
  function AskedToFind(s: Story, inp: Inputs, cfg: Config): seq<Event> {
    RebaseRequests(s, inp)
    + if RebaseFails(s, inp) then [] else CiRequests(s, inp) + JobRequests(s, inp, cfg)
  }

  /** The first cancelled run of a story is run again. */
  predicate RunsAgain(s: Story, inp: Inputs) {
    inp.firstPoll.state == CiCancelled && !s.ciRerunAttempted
  }

  function RequestsOf(s: Story, inp: Inputs, cfg: Config): seq<Event> {
    if !Examined(s, inp) then []
    else if !inp.ruling.merge || !HeadApproved(s, inp) then Cancels(s.job)
    else
      AskedToFind(s, inp, cfg) + AskedAtEnd(Finds(s, inp, cfg), OutcomeOf(s, inp, cfg), HandleOf(s, inp, cfg))
  }

  /** The merge call; and a job that still runs is cancelled when the story leaves the gate. */
  function AskedAtEnd(f: Finding, o: Outcome, job: Option<Job>): seq<Event> {
    match f
    case Clear => [CalledMerge]
    case Wrong(_, _) => if o == WillRetry then [] else Cancels(job)
    case _ => []
  }

  // ---------------------------------------------------------------------------------------------
  // The stages come to the same
  // ---------------------------------------------------------------------------------------------

  /** What the gate makes of a finding, with the record as it is by then. */
  function Concludes(g: Story, inp: Inputs, cfg: Config, f: Finding): TickResult {
    match f
    case CiPends => TickResult(g, CiWait, [])
    case JobRuns => TickResult(g, ReverifyWait, [])
    case Clear => OnMerge(g, inp, cfg)
    case Wrong(error, definitive) => OnGateError(g, inp, cfg, error, definitive)
  }

  lemma ConflictIsSaid(error: string)
    ensures SaysConflict(error) <==> "rebase:" <= error && Contains(AsciiLower(error), "conflict")
  {
    hide AsciiLower, ConflictAt;
    forall i: nat ensures OccursAt(AsciiLower(error), "conflict", i) <==> ConflictAt(error, i) {
      ConflictIsAt(error, i);
    }
    assert forall i: nat :: ConflictAt(error, i) ==> i + 8 <= |error| by {
      forall i: nat | ConflictAt(error, i) ensures i + 8 <= |error| {
        ConflictIsAt(error, i);
      }
    }
  }

  lemma ConflictIsAt(error: string, i: nat)
    ensures OccursAt(AsciiLower(error), "conflict", i) <==> ConflictAt(error, i)
    ensures ConflictAt(error, i) ==> i + 8 <= |error|
  {
  }

  /** The gate's conclusion, whatever the record and the finding. */
  lemma ConclusionIs(g: Story, inp: Inputs, cfg: Config, f: Finding)
    ensures var o := GateOutcome(g, inp, cfg, f);
            Concludes(g, inp, cfg, f) == TickResult(Ended(g, inp, f, o), o, AskedAtEnd(f, o, g.job))
  {
    hide AsciiLower, Contains, MergeCiReworkFeedback, CiReworkFeedback, SaysConflict;
    if f.Wrong? {
      ConflictIsSaid(f.error);
    }
  }

  /** What the commit stage hands on. */
  lemma ChooseFinds(s: Story, inp: Inputs)
    ensures var c := ChooseSha(s, inp);
            && c.story == s.(job := if Rebases(s, inp) then None else s.job)
            && c.error == (if Rebases(s, inp) then inp.rebase.error else "")
            && c.sha == CarriedSha(s, inp) && c.events == RebaseRequests(s, inp)
  {
  }

  /** The CI stage, for a record `q` that agrees with the tick's about earlier polls. */
  lemma PollFinds(s: Story, q: Story, inp: Inputs, cfg: Config)
    requires !RebaseFails(s, inp)
    requires q.ciPendingSince == s.ciPendingSince && q.ciRerunAttempted == s.ciRerunAttempted
    ensures var p, sha, f := PollCi(q, inp, cfg, CarriedSha(s, inp)), CarriedSha(s, inp), Finds(s, inp, cfg);
            && p.events == CiRequests(s, inp)
            && p.story == q.(ciRerunAttempted := s.ciRerunAttempted || inp.firstPoll.state == CiCancelled,
                             prChecks := Some(FinalCi(s, inp)), ciPendingSha := if f == CiPends then sha else "",
                             ciPendingSince := if f == CiPends then Some(PendingFrom(s, inp)) else None)
            && (p.wait <==> f == CiPends)
            && (!FinalCi(s, inp).state.CiOther? && f != CiPends ==> f == Wrong(p.error, p.definitive) && p.error != "")
            && (FinalCi(s, inp).state.CiOther? ==> p.error == "")
  {
    hide CarriedSha, Rebases, JobFinds, InlineFinds;
  }

  function FindingOf(error: string): Finding {
    if error == "" then Clear else Wrong(error, false)
  }

  lemma InlineIs(inp: Inputs)
    ensures InlineFinds(inp) == FindingOf(InlineError(inp))
  {
  }

  lemma ResultIs(r: JobResult, sha: string)
    ensures ResultFinds(r, sha) == FindingOf(ResultError(r, sha))
  {
  }

  lemma StartErrorIs(exception: string)
    ensures Wrong("merge re-verify could not start: " + exception, false) == FindingOf(StartError(exception))
  {
  }

  /** The re-verify stage, for a record `q` with the handle the tick has kept. */
  lemma ReverifyFinds(s: Story, q: Story, inp: Inputs, cfg: Config)
    requires !RebaseFails(s, inp) && FinalCi(s, inp).state.CiOther?
    requires q.job == if Rebases(s, inp) then None else s.job
    ensures var g := ReverifyGate(q, inp, cfg, CarriedSha(s, inp));
            && g.story == q.(job := HandleOf(s, inp, cfg)) && g.events == JobRequests(s, inp, cfg)
            && Finds(s, inp, cfg) == if g.wait then JobRuns else FindingOf(g.error)
  {
    hide CarriedSha, Rebases, FinalCi, InlineError, InlineFinds, ReverifyGate, JobFinds, HandleOf, JobRequests,
         FindingOf, RebaseFails;
    assert Finds(s, inp, cfg) == if cfg.detached then JobFinds(s, inp) else InlineFinds(inp);
    if cfg.detached {
      JobStage(s, q, inp, cfg);
    } else {
      InlineStage(s, q, inp, cfg);
    }
  }

  lemma InlineStage(s: Story, q: Story, inp: Inputs, cfg: Config)
    requires !RebaseFails(s, inp) && FinalCi(s, inp).state.CiOther? && !cfg.detached
    requires q.job == if Rebases(s, inp) then None else s.job
    ensures var g := ReverifyGate(q, inp, cfg, CarriedSha(s, inp));
            && g.story == q.(job := HandleOf(s, inp, cfg)) && g.events == JobRequests(s, inp, cfg)
            && !g.wait && InlineFinds(inp) == FindingOf(g.error)
  {
    hide CarriedSha, Rebases, FinalCi, InlineError, InlineFinds, FindingOf, RebaseFails;
    InlineIs(inp);
  }

  lemma JobStage(s: Story, q: Story, inp: Inputs, cfg: Config)
    requires !RebaseFails(s, inp) && FinalCi(s, inp).state.CiOther? && cfg.detached
    requires q.job == if Rebases(s, inp) then None else s.job
    ensures var g := ReverifyGate(q, inp, cfg, CarriedSha(s, inp));
            && g.story == q.(job := HandleOf(s, inp, cfg)) && g.events == JobRequests(s, inp, cfg)
            && JobFinds(s, inp) == if g.wait then JobRuns else FindingOf(g.error)
  {
    hide CarriedSha, Rebases, FinalCi, ResultError, ResultFinds, StartError, FindingOf, RebaseFails;
    var sha := CarriedSha(s, inp);
    assert JobUnderWay(s, inp) <==> q.job.Some? && q.job.value.sha == sha;
    if JobUnderWay(s, inp) {
      if inp.collected.Some? {
        ResultIs(inp.collected.value, sha);
      }
    } else if inp.start.NotLaunched? {
      StartErrorIs(inp.start.exception);
    }
  }

  /** The re-verify comes to its finding, and the merge call concludes from it. */
  lemma VerifyConcludes(s: Story, inp: Inputs, cfg: Config, sha: string)
    ensures var g := ReverifyGate(s, inp, cfg, sha);
            VerifyAndMerge(s, inp, cfg, sha)
            == Prefixed(g.events, Concludes(g.story, inp, cfg, if g.wait then JobRuns else FindingOf(g.error)))
  {
    hide OnGateError, OnMerge, ReverifyGate;
  }

  /** CI stands in the way, for a record `q` that agrees with the tick's about earlier polls. */
  lemma CiStops(s: Story, q: Story, inp: Inputs, cfg: Config)
    requires !RebaseFails(s, inp) && !FinalCi(s, inp).state.CiOther?
    requires q.ciPendingSince == s.ciPendingSince && q.ciRerunAttempted == s.ciRerunAttempted
    ensures var sha := CarriedSha(s, inp);
            PollAndMerge(q, inp, cfg, sha)
            == Prefixed(CiRequests(s, inp), Concludes(PollCi(q, inp, cfg, sha).story, inp, cfg, Finds(s, inp, cfg)))
  {
    hide OnGateError, VerifyAndMerge, PollCi, Rebases, CarriedSha, CiRequests, Finds, FinalCi, RebaseFails, OnMerge;
    PollFinds(s, q, inp, cfg);
  }

  /** CI lets the commit through, for a record `q` that also has the handle the tick has kept. */
  lemma CiPasses(s: Story, q: Story, inp: Inputs, cfg: Config)
    requires !RebaseFails(s, inp) && FinalCi(s, inp).state.CiOther?
    requires q.ciPendingSince == s.ciPendingSince && q.ciRerunAttempted == s.ciRerunAttempted
    requires q.job == if Rebases(s, inp) then None else s.job
    ensures var p := PollCi(q, inp, cfg, CarriedSha(s, inp)).story;
            PollAndMerge(q, inp, cfg, CarriedSha(s, inp))
            == Prefixed(CiRequests(s, inp) + JobRequests(s, inp, cfg),
                        Concludes(p.(job := HandleOf(s, inp, cfg)), inp, cfg, Finds(s, inp, cfg)))
  {
    hide OnGateError, VerifyAndMerge, PollCi, ReverifyGate, Rebases, CarriedSha, CiRequests, JobRequests, Finds,
         FinalCi, RebaseFails, OnMerge, Concludes, HandleOf;
    var p := PollCi(q, inp, cfg, CarriedSha(s, inp));
    PollFinds(s, q, inp, cfg);
    ReverifyFinds(s, p.story, inp, cfg);
    VerifyConcludes(p.story, inp, cfg, CarriedSha(s, inp));
  }

  /** The gate once the branch stands: the record `q` carries the commit, and the handle the tick has kept. */
  lemma PollConcludes(s: Story, q: Story, inp: Inputs, cfg: Config)
    requires !RebaseFails(s, inp) && s.status == PrOpen && s.approved
    requires q == Rebind(s.(job := if Rebases(s, inp) then None else s.job), CarriedSha(s, inp))
    ensures PollAndMerge(q, inp, cfg, CarriedSha(s, inp))
            == Prefixed(CiRequests(s, inp) + JobRequests(s, inp, cfg),
                        Concludes(Found(s, inp, cfg), inp, cfg, Finds(s, inp, cfg)))
  {
    hide PollAndMerge, PollCi, Rebases, CarriedSha, CiRequests, JobRequests, Finds, Found, FinalCi, HandleOf, Rebind,
         Concludes, RebaseFails;
    RebindEffect(s.(job := if Rebases(s, inp) then None else s.job), CarriedSha(s, inp));
    PollFinds(s, q, inp, cfg);
    FoundIs(s, q, inp, cfg);
    if FinalCi(s, inp).state.CiOther? {
      CiPasses(s, q, inp, cfg);
    } else {
      NoJobRequests(s, inp, cfg);
      CiStops(s, q, inp, cfg);
      assert CiRequests(s, inp) + [] == CiRequests(s, inp);
    }
  }

  /** The record at the finding, from the record that carries the commit. */
  lemma FoundIs(s: Story, q: Story, inp: Inputs, cfg: Config)
    requires !RebaseFails(s, inp) && s.status == PrOpen && s.approved
    requires q == Rebind(s.(job := if Rebases(s, inp) then None else s.job), CarriedSha(s, inp))
    ensures var f, sha := Finds(s, inp, cfg), CarriedSha(s, inp);
            Found(s, inp, cfg)
            == q.(ciRerunAttempted := s.ciRerunAttempted || inp.firstPoll.state == CiCancelled,
                  prChecks := Some(FinalCi(s, inp)), ciPendingSha := if f == CiPends then sha else "",
                  ciPendingSince := if f == CiPends then Some(PendingFrom(s, inp)) else None,
                  job := HandleOf(s, inp, cfg))
  {
    hide Finds, CarriedSha, Rebases, FinalCi, HandleOf;
  }

  lemma NoJobRequests(s: Story, inp: Inputs, cfg: Config)
    requires !FinalCi(s, inp).state.CiOther?
    ensures JobRequests(s, inp, cfg) == [] && HandleOf(s, inp, cfg) == if Rebases(s, inp) then None else s.job
  {
  }

  /** The gate comes to its finding, and concludes from it. */
  lemma GateConcludes(s: Story, inp: Inputs, cfg: Config)
    requires s.status == PrOpen && s.approved
    ensures Gate(s, inp, cfg)
            == Prefixed(AskedToFind(s, inp, cfg), Concludes(Found(s, inp, cfg), inp, cfg, Finds(s, inp, cfg)))
  {
    hide OnGateError, ChooseSha, PollAndMerge, Rebases, CarriedSha, CiRequests, JobRequests, OnMerge;
    var c := ChooseSha(s, inp);
    ChooseFinds(s, inp);
    if c.error == "" {
      PollConcludes(s, Rebind(c.story, c.sha), inp, cfg);
    }
  }

  lemma ExaminedIs(s: Story, inp: Inputs)
    ensures HoldChanged(s, inp) <==> Reexamined(s, inp)
    ensures Examined(s, inp) && inp.ruling.merge ==> Readjudicate(s, inp) == Looked(s, inp)
    ensures Examined(s, inp) ==>
              forall reason :: Park(Readjudicate(s, inp), reason, inp.now) == ParkedFor(s, inp, reason)
  {
  }

  /** Nothing a finding depends on is touched when a hold is examined again. */
  lemma LookedFinds(s: Story, inp: Inputs, cfg: Config)
    requires Examined(s, inp) && inp.ruling.merge
    ensures var t := Looked(s, inp);
            && Finds(t, inp, cfg) == Finds(s, inp, cfg) && AskedToFind(t, inp, cfg) == AskedToFind(s, inp, cfg)
            && Found(t, inp, cfg) == Found(s, inp, cfg)
  {
    hide ResultFinds, InlineFinds, Cancels;
    SameFinding(s, Looked(s, inp), inp, cfg);
  }

  lemma SameFinding(s: Story, t: Story, inp: Inputs, cfg: Config)
    requires t.ciPendingSha == s.ciPendingSha && t.ciPendingSince == s.ciPendingSince && t.job == s.job
    requires t.ciRerunAttempted == s.ciRerunAttempted
    ensures Finds(t, inp, cfg) == Finds(s, inp, cfg) && HandleOf(t, inp, cfg) == HandleOf(s, inp, cfg)
    ensures CarriedSha(t, inp) == CarriedSha(s, inp) && Rebases(t, inp) == Rebases(s, inp)
    ensures FinalCi(t, inp) == FinalCi(s, inp) && AskedToFind(t, inp, cfg) == AskedToFind(s, inp, cfg)
  {
    hide ResultFinds, InlineFinds, Cancels;
  }

  lemma LookedFields(s: Story, inp: Inputs)
    ensures var t := Looked(s, inp);
            && t.mergeError == s.mergeError
            && t.mergeAttempts == s.mergeAttempts && t.conflictReworks == s.conflictReworks
            && (Examined(s, inp) && inp.ruling.merge ==> t.status == PrOpen)
  {
  }

  lemma FoundFields(s: Story, inp: Inputs, cfg: Config)
    ensures var g := Found(s, inp, cfg);
            && g.job == HandleOf(s, inp, cfg) && g.mergeError == s.mergeError
            && g.mergeAttempts == s.mergeAttempts && g.conflictReworks == s.conflictReworks
            && (Examined(s, inp) && inp.ruling.merge ==> g.status == PrOpen)
  {
    hide Looked, Examined, Rebases, CarriedSha, HandleOf, FinalCi, PendingFrom, Finds, RebaseFails;
    LookedFields(s, inp);
  }

  lemma SameOutcome(g: Story, s: Story, inp: Inputs, cfg: Config, f: Finding)
    requires g.mergeAttempts == s.mergeAttempts && g.conflictReworks == s.conflictReworks
    ensures GateOutcome(g, inp, cfg, f) == GateOutcome(s, inp, cfg, f)
  {
    hide SaysConflict;
  }

  /** One tick, whatever its inputs: its outcome, the record it leaves, and what it asks of the outside. */
  lemma TickIs(s: Story, inp: Inputs, cfg: Config)
    ensures Tick(s, inp, cfg)
            == TickResult(RecordAfter(s, inp, cfg), OutcomeOf(s, inp, cfg), RequestsOf(s, inp, cfg))
  {
    hide Gate, Readjudicate, Park, HoldChanged, Reexamined, Finds, Found, AskedToFind, Concludes, Looked, GateOutcome,
         Ended, ParkedFor, AskedAtEnd, HandleOf;
    ExaminedIs(s, inp);
    LookedKeeps(s, inp);
    if AtGate(s, inp) {
      LookedFinds(s, inp, cfg);
      GateConcludes(Looked(s, inp), inp, cfg);
      ConclusionIs(Found(s, inp, cfg), inp, cfg, Finds(s, inp, cfg));
      FoundFields(s, inp, cfg);
      SameOutcome(Found(s, inp, cfg), s, inp, cfg, Finds(s, inp, cfg));
    }
  }

  lemma LookedKeeps(s: Story, inp: Inputs)
    ensures var t := Readjudicate(s, inp);
            t.approved == s.approved && t.verdictSha == s.verdictSha && t.job == s.job
    ensures !HoldChanged(s, inp) ==> Readjudicate(s, inp) == s
    ensures Examined(s, inp) && inp.ruling.merge ==> Looked(s, inp).status == PrOpen
  {
  }

  // ---------------------------------------------------------------------------------------------
  // Which error goes where
  // ---------------------------------------------------------------------------------------------

  /** The collected result of the job for this commit failed, with `text` as its error. */
  predicate JobSays(s: Story, inp: Inputs, cfg: Config, text: string) {
    && !RebaseFails(s, inp) && FinalCi(s, inp).state.CiOther? && cfg.detached && JobUnderWay(s, inp)
    && inp.collected == Some(JobResult(FailedWith(Said(text)), Some(CarriedSha(s, inp))))
  }

  predicate ConflictFound(s: Story, inp: Inputs, cfg: Config) {
    || (RebaseFails(s, inp) && SaysConflict(inp.rebase.error))
    || (&& inp.collected.Some? && inp.collected.value.grade.FailedWith? && inp.collected.value.grade.error.Said?
        && JobSays(s, inp, cfg, inp.collected.value.grade.error.text)
        && SaysConflict(inp.collected.value.grade.error.text))
  }

  lemma OnlyThoseSayConflict(s: Story, inp: Inputs, cfg: Config)
    ensures var f := Finds(s, inp, cfg); f.Wrong? && SaysConflict(f.error) <==> ConflictFound(s, inp, cfg)
  {
    hide ConflictAt, Rebases, CarriedSha, FinalCi, JobUnderWay, RebaseFails, SaysConflict, JobFinds, InlineFinds;
    OwnLabels(FinalCi(s, inp).error);
    if !RebaseFails(s, inp) && FinalCi(s, inp).state.CiOther? {
      if cfg.detached {
        JobSaysConflict(s, inp, cfg);
      } else {
        InlineSaysNone(inp);
      }
    }
  }

  lemma JobSaysConflict(s: Story, inp: Inputs, cfg: Config)
    requires !RebaseFails(s, inp) && FinalCi(s, inp).state.CiOther? && cfg.detached
    ensures var f := JobFinds(s, inp); f.Wrong? && SaysConflict(f.error) <==> ConflictFound(s, inp, cfg)
  {
    hide ConflictAt, Rebases, CarriedSha, FinalCi, JobUnderWay, RebaseFails, SaysConflict, ResultFinds;
    if inp.start.NotLaunched? {
      OwnLabels(inp.start.exception);
    }
    if inp.collected.Some? {
      ResultSaysConflict(inp.collected.value, CarriedSha(s, inp));
    }
  }

  lemma ResultSaysConflict(r: JobResult, sha: string)
    ensures var f := ResultFinds(r, sha);
            f.Wrong? && SaysConflict(f.error) <==>
              r.sha == Some(sha) && r.grade.FailedWith? && r.grade.error.Said? && SaysConflict(r.grade.error.text)
  {
    hide SaysConflict;
    FixedLabels();
    if r.grade.Ungraded? {
      OwnLabels(if r.grade.problem.Some? then r.grade.problem.value else "unrecognised re-verify result");
    }
  }

  lemma InlineSaysNone(inp: Inputs)
    ensures InlineFinds(inp).Wrong? ==> !SaysConflict(InlineFinds(inp).error)
  {
    hide SaysConflict;
    if inp.acceptanceFailure.Some? {
      OwnLabels(inp.acceptanceFailure.value);
    } else if inp.buildFailure.Some? {
      OwnLabels(inp.buildFailure.value);
    }
  }

  /** The gate's own labels are no rebase label. */
  lemma OtherLabel(name: string, rest: string)
    requires name != "" && name[0] != 'r'
    ensures !SaysConflict(name + rest)
  {
    assert (name + rest)[0] == name[0] && "rebase:"[0] == 'r';
  }

  lemma OwnLabels(e: string)
    ensures !SaysConflict("ci fail: " + e) && !SaysConflict("ci unreadable: " + e) && !SaysConflict("ci pending: " + e)
    ensures !SaysConflict("acceptance reverify fail: " + e) && !SaysConflict("build reverify fail: " + e)
    ensures !SaysConflict("merge re-verify could not start: " + e)
    ensures !SaysConflict("merge re-verify harness error: " + e)
  {
    hide SaysConflict;
    OtherLabel("ci fail: ", e);
    OtherLabel("ci unreadable: ", e);
    OtherLabel("ci pending: ", e);
    OtherLabel("acceptance reverify fail: ", e);
    OtherLabel("build reverify fail: ", e);
    OtherLabel("merge re-verify could not start: ", e);
    OtherLabel("merge re-verify harness error: ", e);
  }

  lemma FixedLabels()
    ensures !SaysConflict("merge re-verify" + " graded a different commit")
    ensures !SaysConflict("merge re-verify" + " failed") && !SaysConflict("")
  {
    hide SaysConflict;
    OtherLabel("merge re-verify", " graded a different commit");
    OtherLabel("merge re-verify", " failed");
    assert !SaysConflict("") by {
      NothingSaid();
    }
  }

  lemma NothingSaid()
    ensures !SaysConflict("")
  {
  }

  /** A conflict goes back to the implementer with the conflict brief, exactly while the setting and the cap allow it,
      and costs no merge attempt. */
  lemma ConflictReworkIff(s: Story, inp: Inputs, cfg: Config)
    ensures var r := Tick(s, inp, cfg);
            && (r.outcome == ConflictRework <==>
                  AtGate(s, inp) && ConflictFound(s, inp, cfg) && ConflictRound(s, cfg))
            && (r.outcome == ConflictRework ==>
                  && r.story.status == ChangesRequested && r.story.ciRework && r.story.job.None?
                  && r.story.conflictReworks == s.conflictReworks + 1 && r.story.mergeAttempts == s.mergeAttempts
                  && r.story.reviewFeedback == Some(MergeCiReworkFeedback(s.reviewFeedback, inp.conflictBrief)))
  {
    hide Tick, Examined, HeadApproved, Finds, ConflictFound, SaysConflict, ConflictRound, MergeCiReworkFeedback,
         CiReworkFeedback, HandleOf, Rebases, CarriedSha, FinalCi;
    TickIs(s, inp, cfg);
    OnlyThoseSayConflict(s, inp, cfg);
  }

  /** CI's own verdict of failure goes back with the CI brief, exactly while the setting and the attempts allow it; a
      cancelled, unreadable or overdue run does not. */
  lemma CiReworkIff(s: Story, inp: Inputs, cfg: Config)
    ensures var r := Tick(s, inp, cfg);
            && (r.outcome == CiRework <==>
                  && AtGate(s, inp) && !RebaseFails(s, inp) && FinalCi(s, inp).state == CiFail
                  && cfg.reworkOnCiFail && s.mergeAttempts < cfg.maxAttempts)
            && (r.outcome == CiRework ==>
                  var brief := CiReworkFeedback("ci fail: " + FinalCi(s, inp).error, s.mergeAttempts + 1,
                                                inp.instructions, inp.excerpt);
                  && r.story.status == ChangesRequested && r.story.ciRework && r.story.job.None?
                  && r.story.mergeAttempts == s.mergeAttempts + 1 && r.story.conflictReworks == s.conflictReworks
                  && r.story.reviewFeedback == Some(MergeCiReworkFeedback(s.reviewFeedback, brief)))
  {
    hide Tick, Examined, HeadApproved, ConflictFound, SaysConflict, ConflictRound, MergeCiReworkFeedback,
         CiReworkFeedback, HandleOf, Rebases, CarriedSha, FinalCi, JobFinds, InlineFinds, RebaseFails;
    TickIs(s, inp, cfg);
    OwnLabels(FinalCi(s, inp).error);
    if !RebaseFails(s, inp) && FinalCi(s, inp).state.CiOther? {
      ReverifyIsNotDefinitive(s, inp);
    }
  }

  lemma ReverifyIsNotDefinitive(s: Story, inp: Inputs)
    ensures JobFinds(s, inp).Wrong? ==> !JobFinds(s, inp).definitive
    ensures InlineFinds(inp).Wrong? ==> !InlineFinds(inp).definitive
  {
    hide JobUnderWay, CarriedSha;
  }

  /** An error of any kind that goes to neither rework, and a merge call that fails, cost one attempt: the last one
      fails the story and notes the error, an earlier one leaves it at the gate. */
  lemma RetryOrGiveUpIff(s: Story, inp: Inputs, cfg: Config)
    ensures var r, f := Tick(s, inp, cfg), Finds(s, inp, cfg);
            var fails := && AtGate(s, inp) && r.outcome !in {ConflictRework, CiRework}
                         && (f.Wrong? || (f.Clear? && inp.mergeFailure.Some?));
            && (r.outcome == GaveUp <==> fails && s.mergeAttempts + 1 >= cfg.maxAttempts)
            && (r.outcome == WillRetry <==> fails && s.mergeAttempts + 1 < cfg.maxAttempts)
            && (r.outcome == GaveUp ==>
                  && r.story.status == Failed
                  && r.story.mergeError == if f.Wrong? then Some(f.error) else inp.mergeFailure)
            && (r.outcome == WillRetry ==> r.story.status == PrOpen && r.story.mergeError == s.mergeError)
            && (fails ==> r.story.mergeAttempts == s.mergeAttempts + 1)
  {
    hide Tick, Examined, HeadApproved, Finds, SaysConflict, ConflictRound, MergeCiReworkFeedback, CiReworkFeedback,
         HandleOf, Rebases, CarriedSha, FinalCi, Found;
    TickIs(s, inp, cfg);
    FoundFields(s, inp, cfg);
  }
}
