/** One story's pass through the merge gate: what a tick does to the story record, and what it does to the
    outside world. The functions say what a tick computes; the class does it in place, as the scheduler does. */
module MergeGate {
  import opened Options
  import opened Text
  import opened Feedback

  const MERGE_HOLD_REASON := "high risk held for human review"
  const CONFLICT_REWORK_MAX_DEFAULT := 2

  datatype Status = PrOpen | Parked | ChangesRequested | Failed | Done | Elsewhere(name: string)

  datatype CiState = CiFail | CiCancelled | CiUnreadable | CiPending | CiOther(name: string)
  datatype Ci = Ci(state: CiState, error: string)

  /** The handle of a detached re-verify job. */
  datatype Job = Job(id: nat, sha: string)

  /** The fields of a story record that the merge gate reads or writes. Absent shas are empty strings. */
  datatype Story = Story(
    status: Status, parkedReason: Option<string>, parkedAt: Option<int>,
    approved: bool, verdictSha: string, hasPr: bool,
    parkEvidence: Option<Option<Ci>>, prChecks: Option<Ci>,
    mergeAttempts: nat, conflictReworks: nat, ciRework: bool, reviewFeedback: Option<string>,
    ciPendingSha: string, ciPendingSince: Option<int>, ciRerunAttempted: bool,
    job: Option<Job>, mergeError: Option<string>)

  /** The settings of a tick; `conflictEnv` is the conflict cap of the environment when it reads as an integer. */
  datatype Config = Config(
    detached: bool, conflictEnv: Option<int>, maxAttempts: int,
    reworkOnConflict: bool, reworkOnCiFail: bool, pendingBound: int) {
    function ConflictMax(): nat {
      ConflictReworkMax(conflictEnv)
    }
  }

  datatype Ruling = Ruling(merge: bool, reason: string)
  datatype Rebase = Rebase(error: string, pushedSha: string)
  datatype Start = Launched(id: nat) | NotLaunched(exception: string)

  /** The error field of a failing result: not there, there but false to Python (null, false, zero, empty), or a
      text. */
  datatype ErrorField = Missing | Falsy | Said(text: string)
  datatype Grade = Passed | FailedWith(error: ErrorField) | Ungraded(problem: Option<string>)
  datatype JobResult = JobResult(grade: Grade, sha: Option<string>)

  /** Everything one tick learns from outside. */
  datatype Inputs = Inputs(
    now: int, autonomyFull: bool, gathered: Option<Ci>, ruling: Ruling,
    remoteHead: string, denial: string, worktreeHead: string, rebase: Rebase,
    firstPoll: Ci, secondPoll: Ci,
    acceptanceFailure: Option<string>, buildFailure: Option<string>,
    start: Start, collected: Option<JobResult>, mergeFailure: Option<string>,
    conflictBrief: string, instructions: string, excerpt: Option<string>)

  /** What a tick asks of the outside world, in order. */
  datatype Event =
    | Rebased
    | PolledCi(sha: string)
    | ReranCi(sha: string)
    | StartedJob(job: Job)
    | CollectedJob(job: Job)
    | CancelledJob(job: Job)
    | CalledMerge

  datatype Outcome =
    | Skipped | RulingParked | BindingDenied | CiWait | ReverifyWait
    | ConflictRework | CiRework | WillRetry | GaveUp | Merged

  datatype TickResult = TickResult(story: Story, outcome: Outcome, events: seq<Event>)

  /** The conflict-rework cap; a negative or unreadable value falls back to the default. */
  function ConflictReworkMax(parsed: Option<int>): nat {
    if parsed.Some? && parsed.value >= 0 then parsed.value else CONFLICT_REWORK_MAX_DEFAULT
  }

  function Cancelled(job: Option<Job>): seq<Event> {
    if job.Some? then [CancelledJob(job.value)] else []
  }

  /** Whether a parked story is the gate's own high-risk hold and its CI evidence has changed. */
  predicate HoldChanged(s: Story, inp: Inputs) {
    && s.status == Parked && s.parkedReason == Some(MERGE_HOLD_REASON) && s.approved && s.hasPr
    && s.parkEvidence.Some? && inp.autonomyFull && inp.gathered.Some?
    && inp.gathered != s.parkEvidence.value
  }

  function Readjudicate(s: Story, inp: Inputs): Story {
    if !HoldChanged(s, inp) then s
    else if inp.ruling.merge then
      s.(prChecks := inp.gathered, parkEvidence := None, parkedAt := None, status := PrOpen)
    else
      s.(prChecks := inp.gathered, parkEvidence := Some(inp.gathered), parkedAt := Some(inp.now))
  }

  function Park(s: Story, reason: string, now: int): Story {
    s.(job := None, status := Parked, parkedReason := Some(reason),
       parkEvidence := Some(s.prChecks), parkedAt := Some(now))
  }

  /** Whether the approval covers the remote branch head. */
  predicate BindingOk(s: Story, head: string) {
    s.approved && s.verdictSha != "" && head != "" && s.verdictSha == head
  }

  datatype Chosen = Chosen(story: Story, error: string, sha: string, events: seq<Event>)

  /** The commit this tick works on: the one whose CI is pending, the one whose re-verify is running while the
      worktree still stands on it, or else a freshly rebased and pushed one. */
  function ChooseSha(s: Story, inp: Inputs): Chosen {
    if s.ciPendingSha != "" then Chosen(s, "", s.ciPendingSha, [])
    else if s.job.Some? && inp.worktreeHead != "" && inp.worktreeHead == s.job.value.sha then
      Chosen(s, "", inp.worktreeHead, [])
    else Chosen(s.(job := None), inp.rebase.error, inp.rebase.pushedSha, Cancelled(s.job) + [Rebased])
  }

  /** After the pipeline's own push the approval is bound to the pushed commit. */
  function Rebind(s: Story, sha: string): Story {
    if sha != "" && s.approved then s.(verdictSha := sha) else s
  }

  datatype Polled = Polled(story: Story, error: string, definitive: bool, wait: bool, events: seq<Event>)

  /** The gate error of a final CI answer that is not waited for; none when CI does not stand in the way. */
  function CiError(ci: Ci): string {
    match ci.state
    case CiFail => "ci fail: " + ci.error
    case CiCancelled => "ci fail: " + ci.error
    case CiUnreadable => "ci unreadable: " + ci.error
    case CiPending => "ci pending: " + ci.error
    case CiOther(_) => ""
  }

  /** The poll of `sha`: a first cancelled run is rerun once; a pending run is waited for within the bound. */
  function PollCi(s: Story, inp: Inputs, cfg: Config, sha: string): Polled {
    var rerun := inp.firstPoll.state == CiCancelled && !s.ciRerunAttempted;
    var ci := if rerun then inp.secondPoll else inp.firstPoll;
    var events := if rerun then [PolledCi(sha), ReranCi(sha), PolledCi(sha)] else [PolledCi(sha)];
    var since := if s.ciPendingSince.Some? then s.ciPendingSince.value else inp.now;
    var waits := ci.state == CiPending && inp.now - since < cfg.pendingBound;
    Polled(
      s.(ciRerunAttempted := s.ciRerunAttempted || rerun, prChecks := Some(ci),
         ciPendingSince := if waits then Some(since) else None, ciPendingSha := if waits then sha else ""),
      if waits then "" else CiError(ci), ci.state == CiFail, waits, events)
  }

  datatype Gated = Gated(story: Story, error: string, wait: bool, events: seq<Event>)

  /** The re-verify of `sha`, inline or as a detached job started on one tick and collected on a later one. */
  function ReverifyGate(s: Story, inp: Inputs, cfg: Config, sha: string): Gated {
    if !cfg.detached then
      Gated(s, InlineError(inp), false, [])
    else if s.job.Some? && s.job.value.sha == sha then
      if inp.collected.None? then Gated(s, "", true, [])
      else Gated(s.(job := None), ResultError(inp.collected.value, sha), false, [CollectedJob(s.job.value)])
    else match inp.start
      case NotLaunched(e) =>
        Gated(s.(job := None), StartError(e), false, Cancelled(s.job))
      case Launched(id) =>
        Gated(s.(job := Some(Job(id, sha))), "", true, Cancelled(s.job) + [StartedJob(Job(id, sha))])
  }

  function StartError(exception: string): string {
    "merge re-verify could not start: " + exception
  }

  function InlineError(inp: Inputs): string {
    if inp.acceptanceFailure.Some? then "acceptance reverify fail: " + inp.acceptanceFailure.value
    else if inp.buildFailure.Some? then "build reverify fail: " + inp.buildFailure.value
    else ""
  }

  /** A false error field comes back as it stands, and the gate takes it for no error. */
  function ResultError(r: JobResult, sha: string): string {
    if r.sha != Some(sha) then "merge re-verify" + " graded a different commit"
    else match r.grade
      case Passed => ""
      case FailedWith(Missing) => "merge re-verify" + " failed"
      case FailedWith(Falsy) => ""
      case FailedWith(Said(text)) => text
      case Ungraded(problem) =>
        "merge re-verify harness error: " + if problem.Some? then problem.value else "unrecognised re-verify result"
  }

  predicate RoutesConflict(s: Story, cfg: Config, error: string) {
    && "rebase:" <= error && Contains(AsciiLower(error), "conflict")
    && cfg.reworkOnConflict && s.conflictReworks < cfg.ConflictMax()
  }

  predicate RoutesCi(s: Story, cfg: Config, definitive: bool) {
    definitive && cfg.reworkOnCiFail && s.mergeAttempts < cfg.maxAttempts
  }

  /** Back to the implementer with `feedback`. */
  function Reworked(s: Story, feedback: string): Story {
    s.(ciRework := true, job := None, status := ChangesRequested, reviewFeedback := Some(feedback))
  }

  function CiBrief(s: Story, inp: Inputs, error: string): string {
    CiReworkFeedback(error, s.mergeAttempts + 1, inp.instructions, inp.excerpt)
  }

  function ConflictReworked(s: Story, inp: Inputs): Story {
    Reworked(s.(conflictReworks := s.conflictReworks + 1), MergeCiReworkFeedback(s.reviewFeedback, inp.conflictBrief))
  }

  function CiReworked(s: Story, inp: Inputs, error: string): Story {
    Reworked(s.(mergeAttempts := s.mergeAttempts + 1), MergeCiReworkFeedback(s.reviewFeedback, CiBrief(s, inp, error)))
  }

  function GivenUp(s: Story, error: string): Story {
    s.(mergeAttempts := s.mergeAttempts + 1, job := None, status := Failed, mergeError := Some(error))
  }

  /** A gate error: rework for a rebase conflict or a CI failure within their caps, else retry, else give up. */
  function OnGateError(s: Story, inp: Inputs, cfg: Config, error: string, definitive: bool): TickResult {
    if RoutesConflict(s, cfg, error) then TickResult(ConflictReworked(s, inp), ConflictRework, Cancelled(s.job))
    else if RoutesCi(s, cfg, definitive) then TickResult(CiReworked(s, inp, error), CiRework, Cancelled(s.job))
    else if s.mergeAttempts + 1 >= cfg.maxAttempts then TickResult(GivenUp(s, error), GaveUp, Cancelled(s.job))
    else TickResult(s.(mergeAttempts := s.mergeAttempts + 1), WillRetry, [])
  }

  /** The merge itself; a failing merge call counts against the attempts like a gate error. */
  function OnMerge(s: Story, inp: Inputs, cfg: Config): TickResult {
    if inp.mergeFailure.None? then
      TickResult(
        s.(status := Done, mergeAttempts := 0, parkedReason := None, ciRerunAttempted := false, ciRework := false),
        Merged, [CalledMerge])
    else if s.mergeAttempts + 1 >= cfg.maxAttempts then
      TickResult(
        s.(mergeAttempts := s.mergeAttempts + 1, status := Failed, mergeError := inp.mergeFailure),
        GaveUp, [CalledMerge])
    else TickResult(s.(mergeAttempts := s.mergeAttempts + 1), WillRetry, [CalledMerge])
  }

  function Prefixed(events: seq<Event>, r: TickResult): TickResult {
    r.(events := events + r.events)
  }

  /** Re-verify `sha`, then merge. */
  function VerifyAndMerge(s: Story, inp: Inputs, cfg: Config, sha: string): TickResult {
    var g := ReverifyGate(s, inp, cfg, sha);
    if g.wait then TickResult(g.story, ReverifyWait, g.events)
    else if g.error != "" then Prefixed(g.events, OnGateError(g.story, inp, cfg, g.error, false))
    else Prefixed(g.events, OnMerge(g.story, inp, cfg))
  }

  /** Poll CI for `sha`, and go on to the re-verify when it does not stand in the way. */
  function PollAndMerge(s: Story, inp: Inputs, cfg: Config, sha: string): TickResult {
    var p := PollCi(s, inp, cfg, sha);
    if p.wait then TickResult(p.story, CiWait, p.events)
    else if p.error != "" then Prefixed(p.events, OnGateError(p.story, inp, cfg, p.error, p.definitive))
    else Prefixed(p.events, VerifyAndMerge(p.story, inp, cfg, sha))
  }

  /** The gate proper, for a story whose ruling is to merge and whose approval covers the branch head. */
  function Gate(s: Story, inp: Inputs, cfg: Config): TickResult {
    var c := ChooseSha(s, inp);
    if c.error != "" then Prefixed(c.events, OnGateError(c.story, inp, cfg, c.error, false))
    else Prefixed(c.events, PollAndMerge(Rebind(c.story, c.sha), inp, cfg, c.sha))
  }

  /** One tick of one story. */
  function Tick(s: Story, inp: Inputs, cfg: Config): TickResult {
    var s1 := Readjudicate(s, inp);
    if !HoldChanged(s, inp) && s1.status != PrOpen then TickResult(s1, Skipped, [])
    else if !inp.ruling.merge then TickResult(Park(s1, inp.ruling.reason, inp.now), RulingParked, Cancelled(s1.job))
    else if !BindingOk(s1, inp.remoteHead) then
      TickResult(Park(s1, inp.denial, inp.now), BindingDenied, Cancelled(s1.job))
    else Gate(s1, inp, cfg)
  }

  /** A story record of the manifest, updated in place by the tick. */
  class StoryRecord {
    var status: Status
    var parkedReason: Option<string>
    var parkedAt: Option<int>
    var approved: bool
    var verdictSha: string
    var hasPr: bool
    var parkEvidence: Option<Option<Ci>>
    var prChecks: Option<Ci>
    var mergeAttempts: nat
    var conflictReworks: nat
    var ciRework: bool
    var reviewFeedback: Option<string>
    var ciPendingSha: string
    var ciPendingSince: Option<int>
    var ciRerunAttempted: bool
    var job: Option<Job>
    var mergeError: Option<string>

    function State(): Story
      reads this
    {
      Story(status, parkedReason, parkedAt, approved, verdictSha, hasPr, parkEvidence, prChecks,
            mergeAttempts, conflictReworks, ciRework, reviewFeedback, ciPendingSha, ciPendingSince,
            ciRerunAttempted, job, mergeError)
    }

    constructor (s: Story)
      ensures State() == s
    {
      status, parkedReason, parkedAt := s.status, s.parkedReason, s.parkedAt;
      approved, verdictSha, hasPr := s.approved, s.verdictSha, s.hasPr;
      parkEvidence, prChecks := s.parkEvidence, s.prChecks;
      mergeAttempts, conflictReworks, ciRework := s.mergeAttempts, s.conflictReworks, s.ciRework;
      reviewFeedback, ciPendingSha, ciPendingSince := s.reviewFeedback, s.ciPendingSha, s.ciPendingSince;
      ciRerunAttempted, job, mergeError := s.ciRerunAttempted, s.job, s.mergeError;
    }

    /** Pops the re-verify handle and cancels its job. */
    method DropJob() returns (events: seq<Event>)
      modifies this`job
      ensures job == None && events == Cancelled(old(job))
    {
      events := [];
      if job.Some? {
        events := [CancelledJob(job.value)];
      }
      job := None;
    }

    /** Re-examines a parked high-risk hold; a changed hold takes the fresh ruling. */
    method ReadjudicateParkedMergeHold(inp: Inputs) returns (decision: Option<Ruling>)
      modifies this
      ensures State() == Readjudicate(old(State()), inp)
      ensures decision == if HoldChanged(old(State()), inp) then Some(inp.ruling) else None
    {
      if status != Parked || parkedReason != Some(MERGE_HOLD_REASON) || !approved || !hasPr {
        return None;
      }
      if parkEvidence.None? || !inp.autonomyFull || inp.gathered.None? || inp.gathered == parkEvidence.value {
        return None;
      }
      prChecks := inp.gathered;
      if inp.ruling.merge {
        parkEvidence, parkedAt := None, None;
        status := PrOpen;
      } else {
        parkEvidence := Some(prChecks);
        parkedAt := Some(inp.now);
      }
      return Some(inp.ruling);
    }

    method ParkStory(reason: string, now: int) returns (events: seq<Event>)
      modifies this
      ensures State() == Park(old(State()), reason, now) && events == Cancelled(old(job))
    {
      events := DropJob();
      status := Parked;
      parkedReason := Some(reason);
      parkEvidence := Some(prChecks);
      parkedAt := Some(now);
    }

    method PickSha(inp: Inputs) returns (error: string, sha: string, events: seq<Event>)
      modifies this
      ensures Chosen(State(), error, sha, events) == ChooseSha(old(State()), inp)
    {
      if ciPendingSha != "" {
        return "", ciPendingSha, [];
      }
      events := [];
      if job.Some? {
        if inp.worktreeHead != "" && inp.worktreeHead == job.value.sha {
          return "", inp.worktreeHead, [];
        }
        events := DropJob();
      }
      return inp.rebase.error, inp.rebase.pushedSha, events + [Rebased];
    }

    method Poll(inp: Inputs, cfg: Config, sha: string)
      returns (error: string, definitive: bool, wait: bool, events: seq<Event>)
      modifies this
      ensures Polled(State(), error, definitive, wait, events) == PollCi(old(State()), inp, cfg, sha)
    {
      error, definitive, wait := "", false, false;
      var ci := inp.firstPoll;
      events := [PolledCi(sha)];
      if ci.state == CiCancelled && !ciRerunAttempted {
        ciRerunAttempted := true;
        ci := inp.secondPoll;
        events := events + [ReranCi(sha), PolledCi(sha)];
      }
      prChecks := Some(ci);
      match ci.state {
        case CiFail =>
          error := "ci fail: " + ci.error;
          definitive := true;
        case CiCancelled =>
          error := "ci fail: " + ci.error;
        case CiUnreadable =>
          error := "ci unreadable: " + ci.error;
        case CiPending =>
          if ciPendingSince.None? {
            ciPendingSince := Some(inp.now);
          }
          ciPendingSha := sha;
          if inp.now - ciPendingSince.value >= cfg.pendingBound {
            ciPendingSince, ciPendingSha := None, "";
            error := "ci pending: " + ci.error;
          } else {
            wait := true;
          }
        case CiOther(_) =>
      }
      if ci.state != CiPending {
        ciPendingSince, ciPendingSha := None, "";
      }
    }

    method Reverify(inp: Inputs, cfg: Config, sha: string) returns (error: string, wait: bool, events: seq<Event>)
      modifies this`job
      ensures Gated(State(), error, wait, events) == ReverifyGate(old(State()), inp, cfg, sha)
    {
      events := [];
      if !cfg.detached {
        error := "";
        if inp.acceptanceFailure.Some? {
          error := "acceptance reverify fail: " + inp.acceptanceFailure.value;
        }
        if error == "" && inp.buildFailure.Some? {
          error := "build reverify fail: " + inp.buildFailure.value;
        }
        return error, false, events;
      }
      if job.Some? && job.value.sha != sha {
        events := DropJob();
      }
      if job.None? {
        match inp.start {
          case NotLaunched(e) =>
            return StartError(e), false, events;
          case Launched(id) =>
            job := Some(Job(id, sha));
            return "", true, events + [StartedJob(job.value)];
        }
      }
      if inp.collected.None? {
        return "", true, events;
      }
      events := events + [CollectedJob(job.value)];
      job := None;
      return ResultError(inp.collected.value, sha), false, events;
    }

    method Rework(feedback: string) returns (events: seq<Event>)
      modifies this
      ensures State() == Reworked(old(State()), feedback) && events == Cancelled(old(job))
    {
      ciRework := true;
      reviewFeedback := Some(feedback);
      events := DropJob();
      status := ChangesRequested;
    }

    method ReworkConflict(inp: Inputs) returns (events: seq<Event>)
      modifies this
      ensures State() == ConflictReworked(old(State()), inp) && events == Cancelled(old(job))
    {
      hide MergeCiReworkFeedback;
      conflictReworks := conflictReworks + 1;
      events := Rework(MergeCiReworkFeedback(reviewFeedback, inp.conflictBrief));
    }

    method ReworkCi(inp: Inputs, error: string) returns (events: seq<Event>)
      modifies this
      ensures State() == CiReworked(old(State()), inp, error) && events == Cancelled(old(job))
    {
      hide MergeCiReworkFeedback, CiBrief;
      var brief := CiBrief(State(), inp, error);
      mergeAttempts := mergeAttempts + 1;
      events := Rework(MergeCiReworkFeedback(reviewFeedback, brief));
    }

    method GiveUp(error: string) returns (events: seq<Event>)
      modifies this
      ensures State() == GivenUp(old(State()), error) && events == Cancelled(old(job))
    {
      mergeAttempts := mergeAttempts + 1;
      events := DropJob();
      status := Failed;
      mergeError := Some(error);
    }

    method RecordGateError(inp: Inputs, cfg: Config, error: string, definitive: bool)
      returns (outcome: Outcome, events: seq<Event>)
      modifies this
      ensures TickResult(State(), outcome, events) == OnGateError(old(State()), inp, cfg, error, definitive)
    {
      hide RoutesConflict, RoutesCi, ConflictReworked, CiReworked, GivenUp;
      if RoutesConflict(State(), cfg, error) {
        events := ReworkConflict(inp);
        return ConflictRework, events;
      }
      if RoutesCi(State(), cfg, definitive) {
        events := ReworkCi(inp, error);
        return CiRework, events;
      }
      if mergeAttempts + 1 >= cfg.maxAttempts {
        events := GiveUp(error);
        return GaveUp, events;
      }
      mergeAttempts := mergeAttempts + 1;
      return WillRetry, [];
    }

    method MergePr(inp: Inputs, cfg: Config) returns (outcome: Outcome, events: seq<Event>)
      modifies this
      ensures TickResult(State(), outcome, events) == OnMerge(old(State()), inp, cfg)
    {
      events := [CalledMerge];
      if inp.mergeFailure.Some? {
        mergeAttempts := mergeAttempts + 1;
        if mergeAttempts >= cfg.maxAttempts {
          status := Failed;
          mergeError := inp.mergeFailure;
          return GaveUp, events;
        }
        return WillRetry, events;
      }
      status := Done;
      mergeAttempts := 0;
      parkedReason := None;
      ciRerunAttempted := false;
      ciRework := false;
      return Merged, events;
    }

    method RunVerify(inp: Inputs, cfg: Config, sha: string) returns (outcome: Outcome, events: seq<Event>)
      modifies this
      ensures TickResult(State(), outcome, events) == VerifyAndMerge(old(State()), inp, cfg, sha)
    {
      var gateError, wait, more;
      gateError, wait, events := Reverify(inp, cfg, sha);
      if wait {
        return ReverifyWait, events;
      }
      if gateError != "" {
        outcome, more := RecordGateError(inp, cfg, gateError, false);
      } else {
        outcome, more := MergePr(inp, cfg);
      }
      events := events + more;
    }

    method RunPoll(inp: Inputs, cfg: Config, sha: string) returns (outcome: Outcome, events: seq<Event>)
      modifies this
      ensures TickResult(State(), outcome, events) == PollAndMerge(old(State()), inp, cfg, sha)
    {
      var gateError, definitive, wait, more;
      gateError, definitive, wait, events := Poll(inp, cfg, sha);
      if wait {
        return CiWait, events;
      }
      if gateError != "" {
        outcome, more := RecordGateError(inp, cfg, gateError, definitive);
      } else {
        outcome, more := RunVerify(inp, cfg, sha);
      }
      events := events + more;
    }

    method RunGate(inp: Inputs, cfg: Config) returns (outcome: Outcome, events: seq<Event>)
      modifies this
      ensures TickResult(State(), outcome, events) == Gate(old(State()), inp, cfg)
    {
      var gateError, sha, more;
      gateError, sha, events := PickSha(inp);
      if gateError != "" {
        outcome, more := RecordGateError(inp, cfg, gateError, false);
      } else {
        if sha != "" && approved {
          verdictSha := sha;
        }
        outcome, more := RunPoll(inp, cfg, sha);
      }
      events := events + more;
    }

    method Adjudicate(inp: Inputs, cfg: Config) returns (outcome: Outcome, events: seq<Event>)
      modifies this
      ensures TickResult(State(), outcome, events) == Tick(old(State()), inp, cfg)
    {
      var decision := ReadjudicateParkedMergeHold(inp);
      if decision.None? {
        if status != PrOpen {
          return Skipped, [];
        }
        decision := Some(inp.ruling);
      }
      if !decision.value.merge {
        events := ParkStory(decision.value.reason, inp.now);
        return RulingParked, events;
      }
      if !BindingOk(State(), inp.remoteHead) {
        events := ParkStory(inp.denial, inp.now);
        return BindingDenied, events;
      }
      outcome, events := RunGate(inp, cfg);
    }
  }

  /** An exception in story `at`, raised when `reach` of its requests to the outside had been made. */
  datatype Abort = Abort(at: nat, reach: nat)

  /** The tick over every story of a manifest. Each record takes exactly its own step, and what is on disk afterwards
      is the new states. An exception ends the tick: the stories before it have taken their steps in memory and
      outside, the raising one as far as it got, but the one write of the manifest does not happen. */
  method AdjudicateMerges(records: seq<StoryRecord>, inputs: seq<Inputs>, cfg: Config, abort: Option<Abort>)
    returns (outcomes: seq<Outcome>, events: seq<seq<Event>>, disk: seq<Story>)
    requires |inputs| == |records|
    requires forall i, j | 0 <= i < j < |records| :: records[i] != records[j]
    modifies records
    ensures |outcomes| == if abort.Some? && abort.value.at < |records| then abort.value.at else |records|
    ensures |events| == |outcomes| + if |outcomes| < |records| then 1 else 0
    ensures forall i | 0 <= i < |outcomes| ::
              TickResult(records[i].State(), outcomes[i], events[i])
              == Tick(old(records[i].State()), inputs[i], cfg)
    ensures |outcomes| < |records| ==>
              var n := |outcomes|;
              var asked := Tick(old(records[n].State()), inputs[n], cfg).events;
              events[n] == asked[..if abort.value.reach < |asked| then abort.value.reach else |asked|]
    ensures forall i | |outcomes| < i < |records| :: records[i].State() == old(records[i].State())
    ensures |disk| == |records|
    ensures forall i | 0 <= i < |records| ::
              disk[i] == if |outcomes| == |records| then records[i].State() else old(records[i].State())
  {
    outcomes, events := [], [];
    disk := States(records);
    for n := 0 to |records|
      invariant |outcomes| == |events| == n && (abort.Some? ==> n <= abort.value.at)
      invariant forall i | 0 <= i < n ::
                  TickResult(records[i].State(), outcomes[i], events[i])
                  == Tick(old(records[i].State()), inputs[i], cfg)
      invariant forall i | n <= i < |records| :: records[i].State() == old(records[i].State())
    {
      var outcome, asked := records[n].Adjudicate(inputs[n], cfg);
      if abort.Some? && abort.value.at == n {
        events := events + [asked[..if abort.value.reach < |asked| then abort.value.reach else |asked|]];
        return;
      }
      outcomes, events := outcomes + [outcome], events + [asked];
    }
    disk := States(records);
  }

  function States(records: seq<StoryRecord>): seq<Story>
    reads records
  {
    seq(|records|, i requires 0 <= i < |records| reads records => records[i].State())
  }
}
