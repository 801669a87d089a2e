/** What holds of the merge gate over whole runs: the evidence every merge rests on, that retries end, and that
    re-verify jobs neither leak nor double up. */
module MergeRuns {
  import opened MergeGate
  import opened Options

  // ---------------------------------------------------------------------------------------------
  // One tick, stated without reference to how the tick computes it
  // ---------------------------------------------------------------------------------------------

  predicate JobStandsOnHead(s: Story, inp: Inputs) {
    s.job.Some? && inp.worktreeHead != "" && inp.worktreeHead == s.job.value.sha
  }

  /** Whether this tick rebases and pushes the branch anew. */
  predicate Rebases(s: Story, inp: Inputs) {
    s.ciPendingSha == "" && !JobStandsOnHead(s, inp)
  }

  /** The commit a tick's evidence is about. */
  function CarriedSha(s: Story, inp: Inputs): string {
    if s.ciPendingSha != "" then s.ciPendingSha
    else if JobStandsOnHead(s, inp) then s.job.value.sha
    else inp.rebase.pushedSha
  }

  /** The CI answer a tick acts on: a first cancelled run of a story is re-run once. */
  function FinalCi(s: Story, inp: Inputs): Ci {
    if inp.firstPoll.state == CiCancelled && !s.ciRerunAttempted then inp.secondPoll else inp.firstPoll
  }

  /** An error field that Python takes for false. */
  predicate Silent(e: ErrorField) {
    e.Falsy? || e == Said("")
  }

  /** A collected result lets the merge of `sha` through. A failing result whose error is empty or null does too: the
      gate tells success from failure by that value alone. */
  predicate ResultLetsThrough(r: JobResult, sha: string) {
    r.sha == Some(sha) && (r.grade.Passed? || (r.grade.FailedWith? && Silent(r.grade.error)))
  }

  predicate Adjudicated(s: Story, inp: Inputs) {
    s.status == PrOpen || HoldChanged(s, inp)
  }

  /** The approval is bound to the remote head, and nothing went wrong on the way to the CI poll. */
  predicate ReachesCi(s: Story, inp: Inputs) {
    && Adjudicated(s, inp) && inp.ruling.merge
    && s.approved && s.verdictSha != "" && s.verdictSha == inp.remoteHead
    && (Rebases(s, inp) ==> inp.rebase.error == "")
  }

  /** Detached: the job that was running for exactly this commit has been collected with a result that names it and
      lets it through. Inline: neither check said fail. */
  predicate ReverifyPassed(s: Story, inp: Inputs, cfg: Config) {
    LetsThrough(s, inp, cfg, CarriedSha(s, inp)) && (cfg.detached ==> !Rebases(s, inp))
  }

  /** The re-verify lets the merge of `sha` through. */
  predicate LetsThrough(s: Story, inp: Inputs, cfg: Config, sha: string) {
    if cfg.detached then
      s.job.Some? && s.job.value.sha == sha && inp.collected.Some? && ResultLetsThrough(inp.collected.value, sha)
    else inp.acceptanceFailure.None? && inp.buildFailure.None?
  }

  predicate MergeEvidence(s: Story, inp: Inputs, cfg: Config) {
    && ReachesCi(s, inp)
    && FinalCi(s, inp).state.CiOther?
    && ReverifyPassed(s, inp, cfg)
    && inp.mergeFailure.None?
  }

  /** What a gate error leaves behind. */
  lemma GateErrorEffect(s: Story, inp: Inputs, cfg: Config, error: string, definitive: bool)
    ensures var r := OnGateError(s, inp, cfg, error, definitive);
            && r.outcome in {ConflictRework, CiRework, WillRetry, GaveUp}
            && r.story.status == (if r.outcome == WillRetry then s.status else if r.outcome == GaveUp then Failed
                                  else ChangesRequested)
            && r.story.job == (if r.outcome == WillRetry then s.job else None)
            && r.events == (if r.outcome == WillRetry then [] else Cancelled(s.job))
            && r.story.conflictReworks == s.conflictReworks + (if r.outcome == ConflictRework then 1 else 0)
            && r.story.mergeAttempts == s.mergeAttempts + (if r.outcome == ConflictRework then 0 else 1)
            && r.story.ciPendingSha == s.ciPendingSha
            && r.story.approved == s.approved && r.story.verdictSha == s.verdictSha
            && (r.outcome == ConflictRework ==> s.conflictReworks < cfg.ConflictMax())
            && (r.outcome == CiRework ==> s.mergeAttempts < cfg.maxAttempts)
            && (r.outcome == WillRetry ==> s.mergeAttempts + 1 < cfg.maxAttempts)
  {
  }

  lemma CiErrorIff(ci: Ci)
    ensures CiError(ci) == "" <==> ci.state.CiOther?
  {
  }

  lemma PollFields(s: Story, inp: Inputs, cfg: Config, sha: string)
    ensures var p := PollCi(s, inp, cfg, sha);
            && p.story.status == s.status && p.story.job == s.job
            && p.story.approved == s.approved && p.story.verdictSha == s.verdictSha
            && p.story.mergeAttempts == s.mergeAttempts && p.story.conflictReworks == s.conflictReworks
            && p.story.prChecks == Some(FinalCi(s, inp))
  {
    hide CiError;
  }

  lemma PollEvents(s: Story, inp: Inputs, cfg: Config, sha: string)
    ensures forall e | e in PollCi(s, inp, cfg, sha).events :: e == PolledCi(sha) || e == ReranCi(sha)
  {
    hide CiError;
  }

  lemma PollDecides(s: Story, inp: Inputs, cfg: Config, sha: string)
    ensures var p := PollCi(s, inp, cfg, sha);
            && (p.wait || p.error != "" <==> !FinalCi(s, inp).state.CiOther?)
            && (p.wait ==> p.error == "")
            && p.story.ciPendingSha == (if p.wait then sha else "")
  {
    hide CiError;
    CiErrorIff(FinalCi(s, inp));
  }

  /** What the CI poll leaves behind. */
  lemma PollEffect(s: Story, inp: Inputs, cfg: Config, sha: string)
    ensures var p := PollCi(s, inp, cfg, sha);
            && p.story.status == s.status && p.story.job == s.job
            && p.story.approved == s.approved && p.story.verdictSha == s.verdictSha
            && p.story.mergeAttempts == s.mergeAttempts && p.story.conflictReworks == s.conflictReworks
            && p.story.prChecks == Some(FinalCi(s, inp))
            && (p.wait || p.error != "" <==> !FinalCi(s, inp).state.CiOther?)
            && (p.wait ==> p.error == "")
            && p.story.ciPendingSha == (if p.wait then sha else "")
            && (forall e | e in p.events :: e == PolledCi(sha) || e == ReranCi(sha))
  {
    hide PollCi, FinalCi;
    PollFields(s, inp, cfg, sha);
    PollEvents(s, inp, cfg, sha);
    PollDecides(s, inp, cfg, sha);
  }

  lemma ReverifyCallsNoMerge(s: Story, inp: Inputs, cfg: Config, sha: string)
    ensures CalledMerge !in ReverifyGate(s, inp, cfg, sha).events
  {
    hide InlineError, ResultError, StartError;
  }

  /** What the re-verify gate leaves behind. */
  lemma ReverifyEffect(s: Story, inp: Inputs, cfg: Config, sha: string)
    ensures var g := ReverifyGate(s, inp, cfg, sha);
            && g.story == s.(job := g.story.job)
            && CalledMerge !in g.events
  {
    hide InlineError, ResultError, StartError;
    ReverifyCallsNoMerge(s, inp, cfg, sha);
  }

  lemma ReverifyLetsThroughIff(s: Story, inp: Inputs, cfg: Config, sha: string)
    ensures var g := ReverifyGate(s, inp, cfg, sha);
            !g.wait && g.error == "" <==> LetsThrough(s, inp, cfg, sha)
  {
    hide InlineError, ResultError, StartError, ResultLetsThrough;
    if !cfg.detached {
      InlineErrorIff(inp);
    } else {
      if inp.collected.Some? {
        ResultErrorIff(inp.collected.value, sha);
      }
      if inp.start.NotLaunched? {
        StartErrorIsSome(inp.start.exception);
      }
    }
  }

  lemma StartErrorIsSome(exception: string)
    ensures StartError(exception) != ""
  {
  }

  lemma InlineErrorIff(inp: Inputs)
    ensures InlineError(inp) == "" <==> inp.acceptanceFailure.None? && inp.buildFailure.None?
  {
  }

  lemma ResultErrorIff(r: JobResult, sha: string)
    ensures ResultError(r, sha) == "" <==> ResultLetsThrough(r, sha)
  {
  }

  lemma VerifyMergesIff(s: Story, inp: Inputs, cfg: Config, sha: string)
    requires s.status == PrOpen
    ensures var r := VerifyAndMerge(s, inp, cfg, sha);
            var g := ReverifyGate(s, inp, cfg, sha);
            && (r.outcome == Merged <==> !g.wait && g.error == "" && inp.mergeFailure.None?)
            && (r.story.status == Done <==> !g.wait && g.error == "" && inp.mergeFailure.None?)
            && (CalledMerge in r.events <==> !g.wait && g.error == "")
  {
    hide OnGateError, ReverifyGate;
    var g := ReverifyGate(s, inp, cfg, sha);
    ReverifyEffect(s, inp, cfg, sha);
    GateErrorEffect(g.story, inp, cfg, g.error, false);
  }

  /** CI and the re-verify let the merge of `sha` through. */
  predicate ChecksPass(s: Story, inp: Inputs, cfg: Config, sha: string) {
    FinalCi(s, inp).state.CiOther? && LetsThrough(s, inp, cfg, sha)
  }

  lemma PollMergesIff(s: Story, inp: Inputs, cfg: Config, sha: string)
    requires s.status == PrOpen
    ensures var r := PollAndMerge(s, inp, cfg, sha);
            && (r.outcome == Merged <==> ChecksPass(s, inp, cfg, sha) && inp.mergeFailure.None?)
            && (r.story.status == Done <==> ChecksPass(s, inp, cfg, sha) && inp.mergeFailure.None?)
            && (CalledMerge in r.events <==> ChecksPass(s, inp, cfg, sha))
  {
    hide OnGateError, VerifyAndMerge, ReverifyGate, PollCi, FinalCi;
    var p := PollCi(s, inp, cfg, sha);
    PollEffect(s, inp, cfg, sha);
    GateErrorEffect(p.story, inp, cfg, p.error, p.definitive);
    VerifyMergesIff(p.story, inp, cfg, sha);
    ReverifyLetsThroughIff(p.story, inp, cfg, sha);
  }

  lemma ChooseEffect(s: Story, inp: Inputs)
    ensures var c := ChooseSha(s, inp);
            && c.sha == CarriedSha(s, inp)
            && c.error == (if Rebases(s, inp) then inp.rebase.error else "")
            && c.story == (if Rebases(s, inp) then s.(job := None) else s)
            && c.events == (if Rebases(s, inp) then Cancelled(s.job) + [Rebased] else [])
  {
  }

  lemma RebindEffect(s: Story, sha: string)
    ensures Rebind(s, sha) == s.(verdictSha := if sha != "" && s.approved then sha else s.verdictSha)
  {
  }

  lemma GateMergesIff(s: Story, inp: Inputs, cfg: Config)
    requires s.status == PrOpen
    ensures var r := Gate(s, inp, cfg);
            var ok := && (Rebases(s, inp) ==> inp.rebase.error == "") && FinalCi(s, inp).state.CiOther?
                      && ReverifyPassed(s, inp, cfg);
            && (r.outcome == Merged <==> ok && inp.mergeFailure.None?)
            && (r.story.status == Done <==> ok && inp.mergeFailure.None?)
            && (CalledMerge in r.events <==> ok)
  {
    hide OnGateError, PollAndMerge, ChooseSha, Rebind, Rebases, CarriedSha;
    var c := ChooseSha(s, inp);
    ChooseEffect(s, inp);
    RebindEffect(c.story, c.sha);
    GateErrorEffect(c.story, inp, cfg, c.error, false);
    PollMergesIff(Rebind(c.story, c.sha), inp, cfg, c.sha);
  }

  /** A story is merged by a tick exactly when every piece of evidence is there, for the one commit the tick carries. */
  lemma MergedIff(s: Story, inp: Inputs, cfg: Config)
    ensures Tick(s, inp, cfg).outcome == Merged <==> MergeEvidence(s, inp, cfg)
    ensures s.status != Done ==> (Tick(s, inp, cfg).story.status == Done <==> MergeEvidence(s, inp, cfg))
    ensures CalledMerge in Tick(s, inp, cfg).events <==> MergeEvidence(s, inp.(mergeFailure := None), cfg)
  {
    hide Gate;
    var s1 := Readjudicate(s, inp);
    if Adjudicated(s, inp) && inp.ruling.merge && BindingOk(s1, inp.remoteHead) {
      GateMergesIff(s1, inp, cfg);
    }
  }

  function WithFailure(s: Story, inp: Inputs, e: ErrorField): Inputs {
    inp.(collected := Some(JobResult(FailedWith(e), Some(CarriedSha(s, inp)))))
  }

  /** The gate takes a failing result for a passing one exactly when its error is empty or false: where everything else
      is in place, a story is merged although the re-verify of its commit failed. */
  lemma FailedReverifyMergesIff(s: Story, inp: Inputs, cfg: Config, e: ErrorField)
    requires cfg.detached && MergeEvidence(s, inp, cfg)
    ensures Tick(s, WithFailure(s, inp, e), cfg).outcome == Merged <==> Silent(e)
  {
    hide Tick;
    MergedIff(s, WithFailure(s, inp, e), cfg);
  }

  // ---------------------------------------------------------------------------------------------
  // Re-verify jobs
  // ---------------------------------------------------------------------------------------------

  datatype Counts = Counts(started: nat, collected: nat, cancelled: nat)

  function Add(a: Counts, b: Counts): Counts {
    Counts(a.started + b.started, a.collected + b.collected, a.cancelled + b.cancelled)
  }

  function One(e: Event): Counts {
    Counts(if e.StartedJob? then 1 else 0, if e.CollectedJob? then 1 else 0, if e.CancelledJob? then 1 else 0)
  }

  /** How many jobs a trace starts, collects and cancels. */
  function Tally(events: seq<Event>): Counts {
    if events == [] then Counts(0, 0, 0) else Add(One(events[0]), Tally(events[1..]))
  }

  function Held(job: Option<Job>): nat {
    if job.Some? then 1 else 0
  }

  /** The handle after one event, or `None` when the event is out of turn: a job is started only while none is
      held, and only the held job is collected or cancelled. */
  function Handle(held: Option<Job>, e: Event): Option<Option<Job>> {
    match e
    case StartedJob(j) => if held.None? then Some(Some(j)) else None
    case CollectedJob(j) => if held == Some(j) then Some(None) else None
    case CancelledJob(j) => if held == Some(j) then Some(None) else None
    case _ => Some(held)
  }

  /** The handle after a whole trace, or `None` when some event of it is out of turn. */
  function Replay(held: Option<Job>, events: seq<Event>): Option<Option<Job>>
    decreases |events|
  {
    if events == [] then Some(held)
    else
      var next := Handle(held, events[0]);
      if next.None? then None else Replay(next.value, events[1..])
  }

  lemma {:induction false} ReplayConcat(held: Option<Job>, a: seq<Event>, b: seq<Event>)
    requires Replay(held, a).Some?
    ensures Replay(held, a + b) == Replay(Replay(held, a).value, b)
    decreases |a|
  {
    if a == [] {
      assert a + b == b;
    } else {
      assert (a + b)[1..] == a[1..] + b;
      ReplayConcat(Handle(held, a[0]).value, a[1..], b);
    }
  }

  /** A trace that keeps the protocol conserves jobs: started is collected plus cancelled plus what is held. */
  lemma {:induction false} ReplayConserves(held: Option<Job>, events: seq<Event>)
    requires Replay(held, events).Some?
    ensures var t := Tally(events);
            Held(held) + t.started == t.collected + t.cancelled + Held(Replay(held, events).value)
    decreases |events|
  {
    if events != [] {
      ReplayConserves(Handle(held, events[0]).value, events[1..]);
    }
  }

  /** What is held at the end of a trace was held at its start or was started in it. */
  lemma {:induction false} HeldWasStarted(held: Option<Job>, events: seq<Event>, job: Job)
    requires Replay(held, events) == Some(Some(job))
    ensures held == Some(job) || StartedJob(job) in events
    decreases |events|
  {
    if events != [] {
      HeldWasStarted(Handle(held, events[0]).value, events[1..], job);
    }
  }

  lemma {:induction false} QuietReplay(held: Option<Job>, events: seq<Event>)
    requires forall e | e in events :: e.PolledCi? || e.ReranCi? || e.Rebased? || e.CalledMerge?
    ensures Replay(held, events) == Some(held)
    decreases |events|
  {
    if events != [] {
      assert events[0] in events;
      QuietReplay(held, events[1..]);
    }
  }

  lemma GateErrorJobs(s: Story, inp: Inputs, cfg: Config, error: string, definitive: bool)
    ensures var r := OnGateError(s, inp, cfg, error, definitive);
            Replay(s.job, r.events) == Some(r.story.job) && forall e | e in r.events :: e.CancelledJob?
  {
    hide OnGateError;
    GateErrorEffect(s, inp, cfg, error, definitive);
  }

  lemma CancelThen(job: Option<Job>, rest: seq<Event>)
    ensures Replay(job, Cancelled(job) + rest) == Replay(None, rest)
    ensures Replay(job, Cancelled(job)) == Some(None)
  {
    assert Replay(job, Cancelled(job)) == Some(None);
    ReplayConcat(job, Cancelled(job), rest);
  }

  lemma ReverifyJobs(s: Story, inp: Inputs, cfg: Config, sha: string)
    ensures var g := ReverifyGate(s, inp, cfg, sha);
            && Replay(s.job, g.events) == Some(g.story.job)
            && (!g.wait ==> g.story.job == if cfg.detached then None else s.job)
            && (g.wait ==> g.story.job.Some? && g.story.job.value.sha == sha)
            && (forall e | e in g.events ::
                  && (e.StartedJob? || e.CollectedJob? || e.CancelledJob?)
                  && (e.StartedJob? ==> g.wait && e.job.sha == sha))
  {
    var g := ReverifyGate(s, inp, cfg, sha);
    if inp.start.Launched? {
      CancelThen(s.job, [StartedJob(Job(inp.start.id, sha))]);
    } else {
      CancelThen(s.job, []);
    }
  }

  lemma VerifyJobs(s: Story, inp: Inputs, cfg: Config, sha: string)
    ensures var r := VerifyAndMerge(s, inp, cfg, sha);
            && Replay(s.job, r.events) == Some(r.story.job)
            && (forall e | e in r.events ::
                  && !e.Rebased? && !e.PolledCi? && !e.ReranCi?
                  && (e.StartedJob? ==> r.outcome == ReverifyWait && e.job.sha == sha))
            && (r.outcome == ReverifyWait ==> r.story.job.Some? && r.story.job.value.sha == sha)
            && (r.story.job.Some? && r.story.job != s.job ==> r.outcome == ReverifyWait)
            && (CalledMerge in r.events ==> r.outcome in {Merged, GaveUp, WillRetry})
            && (CalledMerge in r.events ==> r.story.job == if cfg.detached then None else s.job)
            && (r.story.status != s.status && CalledMerge !in r.events ==> r.story.job == None)
  {
    hide OnGateError, ReverifyGate, Replay;
    var g := ReverifyGate(s, inp, cfg, sha);
    ReverifyJobs(s, inp, cfg, sha);
    ReverifyEffect(s, inp, cfg, sha);
    if g.error != "" {
      GateErrorJobs(g.story, inp, cfg, g.error, false);
      GateErrorEffect(g.story, inp, cfg, g.error, false);
      ReplayConcat(s.job, g.events, OnGateError(g.story, inp, cfg, g.error, false).events);
    } else {
      QuietReplay(g.story.job, [CalledMerge]);
      ReplayConcat(s.job, g.events, [CalledMerge]);
    }
  }

  /** What one tick does to the retry counters, by outcome. */
  predicate CounterLaw(s: Story, cfg: Config, r: TickResult) {
    var m, c := r.story.mergeAttempts, r.story.conflictReworks;
    match r.outcome
    case ConflictRework =>
      c == s.conflictReworks + 1 <= cfg.ConflictMax() && m == s.mergeAttempts && r.story.status == ChangesRequested
    case CiRework =>
      c == s.conflictReworks && m == s.mergeAttempts + 1 <= cfg.maxAttempts && r.story.status == ChangesRequested
    case WillRetry =>
      c == s.conflictReworks && m == s.mergeAttempts + 1 < cfg.maxAttempts && r.story.status == PrOpen
    case GaveUp =>
      c == s.conflictReworks && m == s.mergeAttempts + 1 >= cfg.maxAttempts && r.story.status == Failed
    case Merged => c == s.conflictReworks && m == 0 && r.story.status == Done
    case CiWait => c == s.conflictReworks && m == s.mergeAttempts && r.story.status == PrOpen
    case ReverifyWait => c == s.conflictReworks && m == s.mergeAttempts && r.story.status == PrOpen
    case Skipped => c == s.conflictReworks && m == s.mergeAttempts && r.story.status == s.status
    case _ => c == s.conflictReworks && m == s.mergeAttempts && r.story.status == Parked
  }

  lemma CounterLawFrame(s: Story, t: Story, cfg: Config, r: TickResult, events: seq<Event>)
    requires s.mergeAttempts == t.mergeAttempts && s.conflictReworks == t.conflictReworks && s.status == t.status
    requires CounterLaw(t, cfg, r)
    ensures CounterLaw(s, cfg, r.(events := events))
  {
  }

  lemma GateErrorCounters(s: Story, inp: Inputs, cfg: Config, error: string, definitive: bool)
    requires s.status == PrOpen
    ensures CounterLaw(s, cfg, OnGateError(s, inp, cfg, error, definitive))
  {
    GateErrorEffect(s, inp, cfg, error, definitive);
  }

  lemma VerifyCounters(s: Story, inp: Inputs, cfg: Config, sha: string)
    requires s.status == PrOpen
    ensures var r := VerifyAndMerge(s, inp, cfg, sha);
            && CounterLaw(s, cfg, r)
            && r.story.ciPendingSha == s.ciPendingSha
            && r.outcome !in {Skipped, RulingParked, BindingDenied, CiWait}
            && r.story.approved == s.approved && r.story.verdictSha == s.verdictSha
  {
    hide OnGateError, ReverifyGate;
    var g := ReverifyGate(s, inp, cfg, sha);
    var r := VerifyAndMerge(s, inp, cfg, sha);
    ReverifyEffect(s, inp, cfg, sha);
    if !g.wait && g.error != "" {
      GateErrorEffect(g.story, inp, cfg, g.error, false);
      GateErrorCounters(g.story, inp, cfg, g.error, false);
      CounterLawFrame(s, g.story, cfg, OnGateError(g.story, inp, cfg, g.error, false), r.events);
    }
  }

  /** What the gate does from the CI poll on, for the commit `sha`. */
  predicate PollLaw(s: Story, inp: Inputs, cfg: Config, sha: string, r: TickResult) {
    && CounterLaw(s, cfg, r) && r.outcome !in {Skipped, RulingParked, BindingDenied}
    && Replay(s.job, r.events) == Some(r.story.job)
    && (forall e | e in r.events ::
          && !e.Rebased? && (e.PolledCi? || e.ReranCi? ==> e.sha == sha)
          && (e.StartedJob? ==> r.outcome == ReverifyWait && e.job.sha == sha && FinalCi(s, inp).state.CiOther?))
    && (r.outcome in {Merged, GaveUp, WillRetry} && CalledMerge in r.events
        ==> r.story.job == if cfg.detached then None else s.job)
    && (r.story.status != PrOpen && CalledMerge !in r.events ==> r.story.job == None)
    && (CalledMerge in r.events ==> r.outcome in {Merged, GaveUp, WillRetry})
    && r.story.ciPendingSha == (if r.outcome == CiWait then sha else "")
    && (r.outcome == CiWait ==> r.story.job == s.job)
    && (r.outcome == ReverifyWait ==> r.story.job.Some? && r.story.job.value.sha == sha)
    && (r.story.job.Some? && r.story.job != s.job ==> r.outcome == ReverifyWait)
    && r.story.approved == s.approved && r.story.verdictSha == s.verdictSha
  }

  lemma PollKeepsLaw(s: Story, inp: Inputs, cfg: Config, sha: string)
    requires s.status == PrOpen
    ensures PollLaw(s, inp, cfg, sha, PollAndMerge(s, inp, cfg, sha))
  {
    hide OnGateError, VerifyAndMerge, PollCi, FinalCi, Replay;
    var p := PollCi(s, inp, cfg, sha);
    PollEffect(s, inp, cfg, sha);
    QuietReplay(s.job, p.events);
    if p.error != "" {
      GateErrorJobs(p.story, inp, cfg, p.error, p.definitive);
      GateErrorEffect(p.story, inp, cfg, p.error, p.definitive);
      GateErrorCounters(p.story, inp, cfg, p.error, p.definitive);
      ReplayConcat(s.job, p.events, OnGateError(p.story, inp, cfg, p.error, p.definitive).events);
    } else if !p.wait {
      var v := VerifyAndMerge(p.story, inp, cfg, sha);
      VerifyCounters(p.story, inp, cfg, sha);
      VerifyJobs(p.story, inp, cfg, sha);
      VerifyMergesIff(p.story, inp, cfg, sha);
      ReplayConcat(s.job, p.events, v.events);
    }
  }

  /** What a whole gate pass does, for a story on its way to a merge. */
  predicate GateLaw(s: Story, inp: Inputs, cfg: Config, r: TickResult) {
    && CounterLaw(s, cfg, r) && r.outcome !in {Skipped, RulingParked, BindingDenied}
    && Replay(s.job, r.events) == Some(r.story.job)
    && (Rebased in r.events <==> Rebases(s, inp))
    && (forall e | e in r.events ::
          && (e.PolledCi? || e.ReranCi? ==> e.sha == CarriedSha(s, inp))
          && (e.StartedJob? ==>
                r.outcome == ReverifyWait && e.job.sha == CarriedSha(s, inp) && FinalCi(s, inp).state.CiOther?))
    && (CalledMerge in r.events ==> r.outcome in {Merged, GaveUp, WillRetry})
    && (CalledMerge in r.events ==> r.story.job == if cfg.detached || Rebases(s, inp) then None else s.job)
    && (r.story.status != PrOpen && CalledMerge !in r.events ==> r.story.job == None)
    && r.story.ciPendingSha == (if r.outcome == CiWait then CarriedSha(s, inp) else "")
    && (r.outcome == CiWait ==> r.story.job == if Rebases(s, inp) then None else s.job)
    && (r.outcome == ReverifyWait ==> r.story.job.Some? && r.story.job.value.sha == CarriedSha(s, inp))
    && (r.story.job.Some? && r.outcome != ReverifyWait ==> r.story.job == s.job && !Rebases(s, inp))
    && r.story.approved == s.approved
    && (r.story.verdictSha == s.verdictSha || r.story.verdictSha == CarriedSha(s, inp))
    && (!Rebases(s, inp) && s.approved && CarriedSha(s, inp) != "" ==> r.story.verdictSha == CarriedSha(s, inp))
    && (r.outcome in {CiWait, ReverifyWait} && s.approved && CarriedSha(s, inp) != ""
        ==> r.story.verdictSha == CarriedSha(s, inp))
  }

  lemma ChooseJobs(s: Story, inp: Inputs)
    ensures var c := ChooseSha(s, inp);
            && Replay(s.job, c.events) == Some(c.story.job)
            && (Rebased in c.events <==> Rebases(s, inp))
            && (forall e | e in c.events :: e.Rebased? || e.CancelledJob?)
  {
    CancelThen(s.job, [Rebased]);
    QuietReplay(None, [Rebased]);
    assert Rebased in Cancelled(s.job) + [Rebased];
  }

  lemma GateKeepsLaw(s: Story, inp: Inputs, cfg: Config)
    requires s.status == PrOpen
    ensures GateLaw(s, inp, cfg, Gate(s, inp, cfg))
  {
    hide OnGateError, PollAndMerge, ChooseSha, Rebind, Rebases, CarriedSha, Replay, CounterLaw;
    var c := ChooseSha(s, inp);
    var r := Gate(s, inp, cfg);
    ChooseEffect(s, inp);
    ChooseJobs(s, inp);
    if c.error != "" {
      var last := OnGateError(c.story, inp, cfg, c.error, false);
      GateErrorJobs(c.story, inp, cfg, c.error, false);
      GateErrorEffect(c.story, inp, cfg, c.error, false);
      GateErrorCounters(c.story, inp, cfg, c.error, false);
      CounterLawFrame(s, c.story, cfg, last, r.events);
      ReplayConcat(s.job, c.events, last.events);
      NotPendingWhenRebasing(s, inp);
    } else {
      var s1 := Rebind(c.story, c.sha);
      RebindEffect(c.story, c.sha);
      var last := PollAndMerge(s1, inp, cfg, c.sha);
      PollKeepsLaw(s1, inp, cfg, c.sha);
      CounterLawFrame(s, s1, cfg, last, r.events);
      ReplayConcat(s.job, c.events, last.events);
    }
  }

  lemma NotPendingWhenRebasing(s: Story, inp: Inputs)
    ensures Rebases(s, inp) ==> s.ciPendingSha == ""
  {
  }

  lemma ReadjudicateEffect(s: Story, inp: Inputs)
    ensures var t := Readjudicate(s, inp);
            && t.status == (if HoldChanged(s, inp) && inp.ruling.merge then PrOpen else s.status)
            && t == s.(status := t.status, prChecks := t.prChecks, parkEvidence := t.parkEvidence,
                       parkedAt := t.parkedAt)
  {
  }

  /** What any tick does. A tick that goes as far as the gate obeys the gate's law; every other tick asks nothing of
      the outside world beyond cancelling the job of a story it parks. */
  lemma TickKeepsLaw(s: Story, inp: Inputs, cfg: Config)
    ensures var r := Tick(s, inp, cfg);
            && CounterLaw(s, cfg, r)
            && Replay(s.job, r.events) == Some(r.story.job)
            && (r.outcome == Skipped <==> !Adjudicated(s, inp))
            && (r.outcome == Skipped ==> r.story == s && r.events == [])
            && (r.outcome in {RulingParked, BindingDenied} ==>
                  r.events == Cancelled(s.job) && r.story.job == None && r.story.ciPendingSha == s.ciPendingSha
                  && r.story.approved == s.approved && r.story.verdictSha == s.verdictSha)
            && (r.outcome !in {Skipped, RulingParked, BindingDenied} ==>
                  s.approved && GateLaw(s, inp, cfg, r))
  {
    hide Gate, CounterLaw, Replay, FinalCi, CarriedSha, Rebases;
    ReadjudicateEffect(s, inp);
    var s1 := Readjudicate(s, inp);
    var r := Tick(s, inp, cfg);
    CancelLaw(s.job);
    QuietReplay(s.job, []);
    TickCounters(s, inp, cfg);
    if s1.status == PrOpen {
      GateKeepsLaw(s1, inp, cfg);
      if r.outcome !in {Skipped, RulingParked, BindingDenied} {
        GateLawFrame(s, s1, inp, cfg, r);
      }
    }
  }

  lemma CancelLaw(job: Option<Job>)
    ensures Replay(job, Cancelled(job)) == Some(None)
  {
    CancelThen(job, []);
  }

  lemma GateLawFrame(s: Story, t: Story, inp: Inputs, cfg: Config, r: TickResult)
    requires t == s.(status := t.status, prChecks := t.prChecks, parkEvidence := t.parkEvidence, parkedAt := t.parkedAt)
    requires GateLaw(t, inp, cfg, r)
    ensures GateLaw(s, inp, cfg, r)
  {
  }

  lemma TickCounters(s: Story, inp: Inputs, cfg: Config)
    ensures CounterLaw(s, cfg, Tick(s, inp, cfg))
  {
    hide Gate, Replay, FinalCi, CarriedSha, Rebases;
    ReadjudicateEffect(s, inp);
    var s1 := Readjudicate(s, inp);
    if s1.status == PrOpen {
      GateKeepsLaw(s1, inp, cfg);
    }
  }

  lemma {:induction false} ReplayPrefix(held: Option<Job>, events: seq<Event>, k: nat)
    requires Replay(held, events).Some? && k <= |events|
    ensures Replay(held, events[..k]).Some?
    decreases k
  {
    if k > 0 {
      assert events[..k][1..] == events[1..][..k - 1];
      ReplayPrefix(Handle(held, events[0]).value, events[1..], k - 1);
    }
  }

  /** When the write of a tick is skipped: the jobs that are live agree with the handle on disk exactly when the story
      did not change its handle, and a live job is lost only when the tick had started it and was to wait for it.
      A tick cut short has kept the protocol as far as it got. */
  lemma SkippedWriteIff(s: Story, inp: Inputs, cfg: Config, reach: nat)
    requires reach <= |Tick(s, inp, cfg).events|
    ensures var r := Tick(s, inp, cfg);
            && Replay(s.job, r.events[..reach]).Some?
            && (Replay(s.job, r.events) == Some(s.job) <==> r.story.job == s.job)
            && (r.story.job.Some? && r.story.job != s.job ==>
                  r.outcome == ReverifyWait && StartedJob(r.story.job.value) in r.events)
  {
    hide Tick, Replay, FinalCi, CarriedSha, Rebases, CounterLaw;
    TickKeepsLaw(s, inp, cfg);
    ReplayPrefix(s.job, Tick(s, inp, cfg).events, reach);
    if Tick(s, inp, cfg).story.job.Some? {
      HeldWasStarted(s.job, Tick(s, inp, cfg).events, Tick(s, inp, cfg).story.job.value);
    }
  }
}
