/** Whole histories of one story: gate ticks with arbitrary inputs, interleaved with what other actors (dispatch,
    review, people) do to the record between ticks. */
module MergeHistory {
  import opened Feedback
  import opened MergeGate
  import opened Options
  import opened MergeRuns

  datatype Step = Ticked(inp: Inputs, cfg: Config) | Other(to: Story)

  /** What the rest of the pipeline leaves to the gate: the two counters, the pending commit and since when it pends,
      the rerun flag and the job handle. It does not take a story with a running job away from the gate, and does not
      reopen a merged one. It may put a failed story back to work. */
  predicate OtherActor(s: Story, t: Story) {
    && t.mergeAttempts == s.mergeAttempts && t.conflictReworks == s.conflictReworks
    && t.ciPendingSha == s.ciPendingSha && t.ciPendingSince == s.ciPendingSince
    && t.ciRerunAttempted == s.ciRerunAttempted && t.job == s.job
    && ((s.job.Some? && s.status != Failed) || s.status == Done ==> t.status == s.status)
  }

  function After(s: Story, step: Step): Story {
    match step
    case Ticked(inp, cfg) => Tick(s, inp, cfg).story
    case Other(t) => t
  }

  function Asked(s: Story, step: Step): seq<Event> {
    if step.Ticked? then Tick(s, step.inp, step.cfg).events else []
  }

  function StateAt(s0: Story, run: seq<Step>, k: nat): Story
    requires k <= |run|
  {
    if k == 0 then s0 else After(StateAt(s0, run, k - 1), run[k - 1])
  }

  /** Everything asked of the outside world in the first `k` steps. */
  function Trace(s0: Story, run: seq<Step>, k: nat): seq<Event>
    requires k <= |run|
  {
    if k == 0 then [] else Trace(s0, run, k - 1) + Asked(StateAt(s0, run, k - 1), run[k - 1])
  }

  predicate Valid(s0: Story, run: seq<Step>) {
    forall k | 0 <= k < |run| && run[k].Other? :: OtherActor(StateAt(s0, run, k), run[k].to)
  }

  /** The whole trace of a history keeps the job protocol: never two jobs live, never a job collected or cancelled
      twice, and never one that was not started. */
  lemma {:induction false} HistoryKeepsProtocol(s0: Story, run: seq<Step>, k: nat)
    requires Valid(s0, run) && k <= |run|
    ensures Replay(s0.job, Trace(s0, run, k)) == Some(StateAt(s0, run, k).job)
  {
    hide Tick, Replay;
    if k == 0 {
      QuietReplay(s0.job, []);
    } else {
      HistoryKeepsProtocol(s0, run, k - 1);
      var s, step := StateAt(s0, run, k - 1), run[k - 1];
      if step.Ticked? {
        TickKeepsLaw(s, step.inp, step.cfg);
      } else {
        QuietReplay(s.job, []);
      }
      ReplayConcat(s0.job, Trace(s0, run, k - 1), Asked(s, step));
    }
  }

  /** Over any history, jobs started are jobs collected plus jobs cancelled plus the one still held, if any. */
  lemma JobsAreConserved(s0: Story, run: seq<Step>)
    requires Valid(s0, run)
    ensures var t := Tally(Trace(s0, run, |run|));
            Held(s0.job) + t.started == t.collected + t.cancelled + Held(StateAt(s0, run, |run|).job)
  {
    HistoryKeepsProtocol(s0, run, |run|);
    ReplayConserves(s0.job, Trace(s0, run, |run|));
  }

  predicate AllDetached(run: seq<Step>) {
    forall k | 0 <= k < |run| && run[k].Ticked? :: run[k].cfg.detached
  }

  /** In detached mode a handle exists only while the story is at the gate: every park, rework, failure and merge
      leaves none behind. */
  lemma {:induction false} NoHandleAwayFromGate(s0: Story, run: seq<Step>, k: nat)
    requires Valid(s0, run) && AllDetached(run) && k <= |run|
    requires s0.job.Some? ==> s0.status == PrOpen
    ensures StateAt(s0, run, k).job.Some? ==> StateAt(s0, run, k).status == PrOpen
  {
    hide Tick;
    if k > 0 {
      NoHandleAwayFromGate(s0, run, k - 1);
      if run[k - 1].Ticked? {
        TickKeepsLaw(StateAt(s0, run, k - 1), run[k - 1].inp, run[k - 1].cfg);
      }
    }
  }

  /** In inline mode a handle that an earlier detached tick left is not touched, so a story leaves the gate with a
      handle exactly when it had one, does not rebase, has all the evidence for a merge, and the merge call either
      succeeds or fails for the last time. */
  lemma HandleLeftBehindIff(s: Story, inp: Inputs, cfg: Config)
    requires Adjudicated(s, inp) && (s.job.Some? ==> s.status == PrOpen)
    ensures var r := Tick(s, inp, cfg);
            r.story.status != PrOpen && r.story.job.Some?
            <==> && !cfg.detached && s.job.Some? && !Rebases(s, inp)
                 && MergeEvidence(s, inp.(mergeFailure := None), cfg)
                 && (inp.mergeFailure.None? || s.mergeAttempts + 1 >= cfg.maxAttempts)
  {
    hide Tick, Rebases, CarriedSha, FinalCi, MergeEvidence;
    TickKeepsLaw(s, inp, cfg);
    MergedIff(s, inp, cfg);
    NoFailureMerges(s, inp, cfg);
  }

  lemma NoFailureMerges(s: Story, inp: Inputs, cfg: Config)
    ensures MergeEvidence(s, inp, cfg) <==> MergeEvidence(s, inp.(mergeFailure := None), cfg) && inp.mergeFailure.None?
  {
  }

  /** Whether step `i` of a history started `job` for the commit whose CI had just stopped standing in the way. */
  predicate StartsAt(s0: Story, run: seq<Step>, i: nat, job: Job)
    requires i < |run|
  {
    var s := StateAt(s0, run, i);
    && run[i].Ticked?
    && StartedJob(job) in Asked(s, run[i])
    && job.sha == CarriedSha(s, run[i].inp) && FinalCi(s, run[i].inp).state.CiOther?
  }

  lemma {:induction false} HandleHasOrigin(s0: Story, run: seq<Step>, k: nat)
    requires Valid(s0, run) && s0.job.None? && k <= |run|
    ensures var job := StateAt(s0, run, k).job;
            job.Some? ==> exists i | 0 <= i < k :: StartsAt(s0, run, i, job.value)
  {
    hide Tick, Rebases, CarriedSha, FinalCi, Replay;
    if k > 0 {
      HandleHasOrigin(s0, run, k - 1);
      var s, step := StateAt(s0, run, k - 1), run[k - 1];
      var job := After(s, step).job;
      if job.Some? {
        if job == s.job {
          var i :| 0 <= i < k - 1 && StartsAt(s0, run, i, job.value);
        } else {
          TickKeepsLaw(s, step.inp, step.cfg);
          HeldWasStarted(s.job, Asked(s, step), job.value);
          assert StartsAt(s0, run, k - 1, job.value);
        }
      }
    }
  }

  /** No merge without a re-verify of the merged commit: a detached tick that merges collects a job that an earlier
      tick of the same history started for exactly the commit this tick carries, after CI had let that commit
      through; CI let it through again in this tick, and the job's result names it. */
  lemma MergeRestsOnEarlierJob(s0: Story, run: seq<Step>, k: nat)
    requires Valid(s0, run) && s0.job.None? && k < |run| && run[k].Ticked? && run[k].cfg.detached
    requires Tick(StateAt(s0, run, k), run[k].inp, run[k].cfg).outcome == Merged
    ensures var s, inp := StateAt(s0, run, k), run[k].inp;
            && s.job.Some? && s.job.value.sha == CarriedSha(s, inp)
            && (exists i | 0 <= i < k :: StartsAt(s0, run, i, s.job.value))
            && FinalCi(s, inp).state.CiOther?
            && inp.collected.Some? && ResultLetsThrough(inp.collected.value, CarriedSha(s, inp))
  {
    hide Tick, Rebases, CarriedSha, FinalCi;
    MergedIff(StateAt(s0, run, k), run[k].inp, run[k].cfg);
    HandleHasOrigin(s0, run, k);
  }

  /** While a commit's CI is pending the branch is not rebased or pushed, and only that commit is polled. */
  lemma PendingCommitIsNotRebased(s: Story, inp: Inputs, cfg: Config)
    requires s.ciPendingSha != ""
    ensures var r := Tick(s, inp, cfg);
            && Rebased !in r.events
            && (forall e | e in r.events && (e.PolledCi? || e.ReranCi?) :: e.sha == s.ciPendingSha)
            && (r.story.ciPendingSha == s.ciPendingSha || r.story.ciPendingSha == "")
            && (r.story.ciPendingSha == "" <==> r.outcome !in {CiWait, Skipped, RulingParked, BindingDenied})
  {
    hide Tick, FinalCi;
    TickKeepsLaw(s, inp, cfg);
  }

  /** A pending commit and a running job are about the same commit, and the approval stands on it. */
  predicate OneCommit(s: Story) {
    && (s.ciPendingSha != "" && s.job.Some? ==> s.job.value.sha == s.ciPendingSha)
    && (s.approved && s.ciPendingSha != "" ==> s.verdictSha == s.ciPendingSha)
    && (s.approved && s.job.Some? && s.job.value.sha != "" ==> s.verdictSha == s.job.value.sha)
  }

  lemma TickKeepsOneCommit(s: Story, inp: Inputs, cfg: Config)
    requires OneCommit(s)
    ensures OneCommit(Tick(s, inp, cfg).story)
  {
    hide Tick, FinalCi, Replay, CounterLaw;
    TickKeepsLaw(s, inp, cfg);
  }

  /** The first half of `OneCommit` holds over every history, whatever other actors do to the approval. */
  lemma {:induction false} PendingMatchesJob(s0: Story, run: seq<Step>, k: nat)
    requires Valid(s0, run) && k <= |run|
    requires s0.ciPendingSha != "" && s0.job.Some? ==> s0.job.value.sha == s0.ciPendingSha
    ensures var s := StateAt(s0, run, k); s.ciPendingSha != "" && s.job.Some? ==> s.job.value.sha == s.ciPendingSha
  {
    hide Tick, FinalCi, Replay, CounterLaw;
    if k > 0 {
      PendingMatchesJob(s0, run, k - 1);
      if run[k - 1].Ticked? {
        TickKeepsLaw(StateAt(s0, run, k - 1), run[k - 1].inp, run[k - 1].cfg);
      }
    }
  }

  /** Whoever else writes the record keeps the three commits together. */
  predicate OthersKeepOneCommit(run: seq<Step>) {
    forall k | 0 <= k < |run| && run[k].Other? :: OneCommit(run[k].to)
  }

  lemma {:induction false} HistoryKeepsOneCommit(s0: Story, run: seq<Step>, k: nat)
    requires OneCommit(s0) && OthersKeepOneCommit(run) && k <= |run|
    ensures OneCommit(StateAt(s0, run, k))
    decreases k
  {
    hide Tick, OneCommit;
    if k > 0 {
      HistoryKeepsOneCommit(s0, run, k - 1);
      if run[k - 1].Ticked? {
        TickKeepsOneCommit(StateAt(s0, run, k - 1), run[k - 1].inp, run[k - 1].cfg);
      }
    }
  }

  /** The commit that is merged is the commit that was checked: over any history in which nobody else separates
      approval, pending commit and job, a tick that merges without pushing anew finds on the remote exactly the
      commit whose CI it polled. */
  lemma MergedCommitIsChecked(s0: Story, run: seq<Step>, k: nat)
    requires OneCommit(s0) && OthersKeepOneCommit(run) && k < |run| && run[k].Ticked?
    requires Tick(StateAt(s0, run, k), run[k].inp, run[k].cfg).outcome == Merged
    requires !Rebases(StateAt(s0, run, k), run[k].inp)
    ensures var s, inp := StateAt(s0, run, k), run[k].inp;
            && inp.remoteHead == CarriedSha(s, inp)
            && forall e | e in Tick(s, inp, run[k].cfg).events && e.PolledCi? :: e.sha == inp.remoteHead
  {
    hide Tick, FinalCi, Replay, CounterLaw, StateAt;
    var s, inp := StateAt(s0, run, k), run[k].inp;
    HistoryKeepsOneCommit(s0, run, k);
    MergedIff(s, inp, run[k].cfg);
    TickKeepsLaw(s, inp, run[k].cfg);
  }

  /** Exactly when the commit that is merged is the commit that was checked: for a tick that merges without pushing
      anew, when the approval it met stood on the commit whose CI it polled. */
  lemma MergedHeadIsCheckedIff(s: Story, inp: Inputs, cfg: Config)
    requires Tick(s, inp, cfg).outcome == Merged && !Rebases(s, inp)
    ensures inp.remoteHead == CarriedSha(s, inp) <==> s.verdictSha == CarriedSha(s, inp)
    ensures forall e | e in Tick(s, inp, cfg).events && e.PolledCi? :: e.sha == CarriedSha(s, inp)
  {
    hide Tick, FinalCi, Replay, CounterLaw;
    MergedIff(s, inp, cfg);
    TickKeepsLaw(s, inp, cfg);
  }

  /** Over a history, a merge without a fresh push merges a commit other than the one it checked only after some other
      actor had bound the approval away from a pending commit or a running job. */
  lemma UncheckedMergeNeedsOther(s0: Story, run: seq<Step>, k: nat)
    requires OneCommit(s0) && k < |run| && run[k].Ticked?
    requires Tick(StateAt(s0, run, k), run[k].inp, run[k].cfg).outcome == Merged
    requires !Rebases(StateAt(s0, run, k), run[k].inp)
    requires run[k].inp.remoteHead != CarriedSha(StateAt(s0, run, k), run[k].inp)
    ensures exists i | 0 <= i < k :: run[i].Other? && !OneCommit(run[i].to)
  {
    hide Tick, FinalCi, OneCommit, StateAt, Rebases, CarriedSha;
    var front := run[..k + 1];
    if forall i | 0 <= i < k :: run[i].Other? ==> OneCommit(run[i].to) {
      SameStates(s0, run, k + 1, k);
      assert forall i | 0 <= i < |front| :: front[i] == run[i];
      MergedCommitIsChecked(s0, front, k);
    }
  }

  lemma {:induction false} SameStates(s0: Story, run: seq<Step>, n: nat, k: nat)
    requires k <= n <= |run|
    ensures StateAt(s0, run[..n], k) == StateAt(s0, run, k)
    decreases k
  {
    if k > 0 {
      SameStates(s0, run, n, k - 1);
    }
  }

  // ---------------------------------------------------------------------------------------------
  // Retries end
  // ---------------------------------------------------------------------------------------------

  predicate Failing(o: Outcome) {
    o in {ConflictRework, CiRework, WillRetry, GaveUp}
  }

  /** The number of failing gate or merge attempts in the first `k` steps. */
  function FailingTicks(s0: Story, run: seq<Step>, k: nat): nat
    requires k <= |run|
  {
    if k == 0 then 0
    else
      var s, step := StateAt(s0, run, k - 1), run[k - 1];
      FailingTicks(s0, run, k - 1) + if step.Ticked? && Failing(Tick(s, step.inp, step.cfg).outcome) then 1 else 0
  }

  function Max(a: int, b: int): int {
    if a > b then a else b
  }

  predicate FixedCaps(run: seq<Step>, conflictMax: nat, maxAttempts: int) {
    forall k | 0 <= k < |run| && run[k].Ticked? ::
      run[k].cfg.ConflictMax() == conflictMax && run[k].cfg.maxAttempts == maxAttempts
  }

  /** How often the story was given up in the first `k` steps. */
  function GiveUps(s0: Story, run: seq<Step>, k: nat): nat
    requires k <= |run|
  {
    if k == 0 then 0
    else
      var s, step := StateAt(s0, run, k - 1), run[k - 1];
      GiveUps(s0, run, k - 1) + if step.Ticked? && Tick(s, step.inp, step.cfg).outcome == GaveUp then 1 else 0
  }

  /** How often somebody put a failed story back to work. */
  function Revivals(s0: Story, run: seq<Step>, k: nat): nat
    requires k <= |run|
  {
    if k == 0 then 0
    else
      var s, step := StateAt(s0, run, k - 1), run[k - 1];
      Revivals(s0, run, k - 1) + if step.Other? && s.status == Failed && step.to.status != Failed then 1 else 0
  }

  /** `n` failing ticks are accounted for by the counters, which are within their caps but for the `g` times the story
      was given up. */
  predicate Accounted(s: Story, n: nat, g: nat, conflictMax: nat, maxAttempts: int) {
    && s.conflictReworks <= conflictMax && s.mergeAttempts <= Max(maxAttempts, 0) + g
    && (s.status != Done ==> n == s.mergeAttempts + s.conflictReworks)
    && n <= conflictMax + Max(maxAttempts, 0) + g
  }

  lemma TickIsAccounted(s: Story, inp: Inputs, cfg: Config, n: nat, g: nat)
    requires Accounted(s, n, g, cfg.ConflictMax(), cfg.maxAttempts)
    ensures var r := Tick(s, inp, cfg);
            Accounted(r.story, n + (if Failing(r.outcome) then 1 else 0), g + (if r.outcome == GaveUp then 1 else 0),
                      cfg.ConflictMax(), cfg.maxAttempts)
  {
    hide Tick, Replay, FinalCi, CarriedSha, Rebases, GateLaw;
    TickKeepsLaw(s, inp, cfg);
  }

  /** The counters account for every failing tick over any history, whoever puts the story back to work, and stay
      within their caps but for the give-ups. */
  lemma {:induction false} FailuresAreCounted(s0: Story, run: seq<Step>, k: nat, conflictMax: nat, maxAttempts: int)
    requires Valid(s0, run) && FixedCaps(run, conflictMax, maxAttempts) && k <= |run|
    requires s0.mergeAttempts == s0.conflictReworks == 0 && s0.status != Done
    ensures Accounted(StateAt(s0, run, k), FailingTicks(s0, run, k), GiveUps(s0, run, k), conflictMax, maxAttempts)
  {
    hide Tick;
    if k > 0 {
      FailuresAreCounted(s0, run, k - 1, conflictMax, maxAttempts);
      var s, step := StateAt(s0, run, k - 1), run[k - 1];
      if step.Ticked? {
        TickIsAccounted(s, step.inp, step.cfg, FailingTicks(s0, run, k - 1), GiveUps(s0, run, k - 1));
      }
    }
  }

  lemma GivingUpFails(s: Story, inp: Inputs, cfg: Config)
    ensures var r := Tick(s, inp, cfg);
            && (r.outcome == GaveUp ==> r.story.status == Failed && s.status != Failed)
            && (s.status == Failed ==> r.story.status == Failed)
  {
    hide Tick, Replay, GateLaw;
    TickKeepsLaw(s, inp, cfg);
  }

  /** A story is given up at most once, and once more each time somebody revives it. */
  lemma {:induction false} GiveUpsNeedRevivals(s0: Story, run: seq<Step>, k: nat)
    requires k <= |run| && s0.status != Failed
    ensures GiveUps(s0, run, k) <= Revivals(s0, run, k) + if StateAt(s0, run, k).status == Failed then 1 else 0
  {
    hide Tick;
    if k > 0 {
      GiveUpsNeedRevivals(s0, run, k - 1);
      var s, step := StateAt(s0, run, k - 1), run[k - 1];
      if step.Ticked? {
        GivingUpFails(s, step.inp, step.cfg);
      }
    }
  }

  /** Retries end: a story fails the gate at most `conflictMax + maxAttempts` times before it is given up, whatever
      rework and review happen in between, and the give-up is one more. After that it fails only when it has been put
      back to work: the whole count is bounded by the caps, one, and the number of revivals. */
  lemma RetriesEnd(s0: Story, run: seq<Step>, conflictMax: nat, maxAttempts: int)
    requires Valid(s0, run) && FixedCaps(run, conflictMax, maxAttempts)
    requires s0.mergeAttempts == s0.conflictReworks == 0 && s0.status != Failed && s0.status != Done
    ensures var n := |run|;
            && FailingTicks(s0, run, n) <= conflictMax + Max(maxAttempts, 0) + GiveUps(s0, run, n)
            && FailingTicks(s0, run, n) <= conflictMax + Max(maxAttempts, 0) + 1 + Revivals(s0, run, n)
            && (Revivals(s0, run, n) == 0 && FailingTicks(s0, run, n) == conflictMax + Max(maxAttempts, 0) + 1
                ==> StateAt(s0, run, n).status == Failed)
  {
    FailuresAreCounted(s0, run, |run|, conflictMax, maxAttempts);
    GiveUpsNeedRevivals(s0, run, |run|);
  }

  // ---------------------------------------------------------------------------------------------
  // Parking, waiting and rework
  // ---------------------------------------------------------------------------------------------

  /** A parked hold is put to the ruling again only when its CI evidence changed: while the gathered state is what
      the park recorded, further ticks leave the story alone. */
  lemma UnchangedHoldIsLeftAlone(s: Story, inp: Inputs, cfg: Config, later: Inputs, laterCfg: Config)
    requires Tick(s, inp, cfg).outcome in {RulingParked, BindingDenied}
    ensures var t := Tick(s, inp, cfg).story;
            && (later.gathered == t.prChecks ==> Tick(t, later, laterCfg) == TickResult(t, Skipped, []))
            && (Tick(t, later, laterCfg).outcome != Skipped
                <==> t.parkedReason == Some(MERGE_HOLD_REASON) && t.approved && t.hasPr && later.autonomyFull
                     && later.gathered.Some? && later.gathered != t.prChecks)
  {
    hide Gate, Tick;
    TickKeepsLaw(s, inp, cfg);
    ParkedTick(s, inp, cfg);
    TickKeepsLaw(Tick(s, inp, cfg).story, later, laterCfg);
  }

  lemma ParkedTick(s: Story, inp: Inputs, cfg: Config)
    requires Tick(s, inp, cfg).outcome in {RulingParked, BindingDenied}
    ensures var t := Tick(s, inp, cfg).story; t.status == Parked && t.parkEvidence == Some(t.prChecks)
  {
    hide Gate;
    if Readjudicate(s, inp).status == PrOpen {
      GateKeepsLaw(Readjudicate(s, inp), inp, cfg);
    }
  }

  /** A CI rework hands the failure to the implementer and keeps the review text in front of it. The round it
      reports is the merge-attempt count, so the carried text also grows when only retries came before. */
  lemma CiReworkKeepsReviewText(s: Story, inp: Inputs, cfg: Config, error: string, definitive: bool)
    requires RoutesCi(s, cfg, definitive) && !RoutesConflict(s, cfg, error)
    ensures var t := OnGateError(s, inp, cfg, error, definitive).story;
            && t.ciRework && t.reviewFeedback == Some(MergeCiReworkFeedback(s.reviewFeedback, CiBrief(s, inp, error)))
            && Carried(TextOf(t.reviewFeedback)) == Accumulate(Carried(TextOf(s.reviewFeedback)), s.mergeAttempts + 1)
            && (Carried(TextOf(t.reviewFeedback)) == Carried(TextOf(s.reviewFeedback)) <==> s.mergeAttempts == 0)
  {
    hide Carried, MergeCiReworkFeedback;
    var round := CiRound(error, s.mergeAttempts + 1, inp.instructions, inp.excerpt);
    CarriedAfterCiRound(s.reviewFeedback, round);
  }

  /** A story that comes back to the gate, newly approved on a head other than the commit whose CI was pending when it
      was parked: all that the park left behind is the pending commit. */
  predicate ComesBack(s: Story, inp: Inputs, cfg: Config, t: Story, later: Inputs) {
    && Tick(s, inp, cfg).outcome in {RulingParked, BindingDenied} && s.ciPendingSha != ""
    && OtherActor(Tick(s, inp, cfg).story, t) && t.status == PrOpen && t.approved
    && t.verdictSha == later.remoteHead && later.remoteHead != "" && later.remoteHead != s.ciPendingSha
    && later.ruling.merge && FinalCi(t, later).state.CiOther?
  }

  lemma PendingSurvivesPark(s: Story, inp: Inputs, cfg: Config, t: Story, later: Inputs)
    requires ComesBack(s, inp, cfg, t, later)
    ensures t.ciPendingSha == s.ciPendingSha && t.job.None? && ReachesCi(t, later) && !Rebases(t, later)
    ensures CarriedSha(t, later) == s.ciPendingSha
  {
    hide Tick, FinalCi;
    TickKeepsLaw(s, inp, cfg);
  }

  /** A pending commit survives a park. In inline mode the gate then settles the old commit's CI and merges the new
      head: the approval check looks at one commit, the CI poll at the other. */
  lemma ParkedPendingCommitGoesStale(s: Story, inp: Inputs, cfg: Config, t: Story, later: Inputs, laterCfg: Config)
    requires ComesBack(s, inp, cfg, t, later) && !laterCfg.detached
    ensures var r := Tick(t, later, laterCfg);
            && (r.outcome == Merged
                <==> later.acceptanceFailure.None? && later.buildFailure.None? && later.mergeFailure.None?)
            && PolledCi(later.remoteHead) !in r.events && Rebased !in r.events && !OneCommit(t)
  {
    hide Tick, FinalCi;
    PendingSurvivesPark(s, inp, cfg, t, later);
    MergedIff(t, later, laterCfg);
    PendingCommitIsNotRebased(t, later, laterCfg);
  }

  /** In detached mode the same tick merges nothing: it re-verifies the old commit and moves the approval to it, and a
      later tick that finds the new head still on the remote refuses the merge. */
  lemma StaleCommitIsRefusedDetached(s: Story, inp: Inputs, cfg: Config, t: Story, later: Inputs, laterCfg: Config,
                                     last: Inputs, lastCfg: Config)
    requires ComesBack(s, inp, cfg, t, later) && laterCfg.detached && later.start.Launched?
    requires last.ruling.merge && last.remoteHead == later.remoteHead
    ensures var r := Tick(t, later, laterCfg);
            && r.outcome == ReverifyWait && StartedJob(Job(later.start.id, s.ciPendingSha)) in r.events
            && r.story.verdictSha == s.ciPendingSha
            && Tick(r.story, last, lastCfg).outcome == BindingDenied
  {
    hide Tick, FinalCi, PollCi, Replay;
    PendingSurvivesPark(s, inp, cfg, t, later);
    var r := Tick(t, later, laterCfg);
    TickKeepsLaw(t, later, laterCfg);
    DetachedStart(t, later, laterCfg);
    BindingDenies(r.story, last, lastCfg);
  }

  lemma DetachedStart(t: Story, inp: Inputs, cfg: Config)
    requires t.status == PrOpen && inp.ruling.merge && ReachesCi(t, inp) && FinalCi(t, inp).state.CiOther?
    requires !Rebases(t, inp) && cfg.detached && t.job.None? && inp.start.Launched?
    ensures var r := Tick(t, inp, cfg);
            r.outcome == ReverifyWait && StartedJob(Job(inp.start.id, CarriedSha(t, inp))) in r.events
  {
    hide PollCi, FinalCi, OnGateError;
    var sha := CarriedSha(t, inp);
    ChooseEffect(t, inp);
    var s1 := Rebind(t, sha);
    PollEffect(s1, inp, cfg, sha);
    var p := PollCi(s1, inp, cfg, sha);
    assert FinalCi(s1, inp) == FinalCi(t, inp) by {
      SameFinalCi(t, s1, inp);
    }
    assert ReverifyGate(p.story, inp, cfg, sha).events == [StartedJob(Job(inp.start.id, sha))];
    assert VerifyAndMerge(p.story, inp, cfg, sha).outcome == ReverifyWait;
  }

  lemma SameFinalCi(s: Story, t: Story, inp: Inputs)
    requires s.ciRerunAttempted == t.ciRerunAttempted
    ensures FinalCi(s, inp) == FinalCi(t, inp)
  {
  }

  lemma BindingDenies(s: Story, inp: Inputs, cfg: Config)
    requires s.status == PrOpen && inp.ruling.merge && !BindingOk(s, inp.remoteHead)
    ensures Tick(s, inp, cfg).outcome == BindingDenied
  {
  }
}
