/** Waiting on CI over whole histories: the wait for a commit is bounded, and a story's CI is rerun at most once. */
module MergeWaits {
  import opened MergeGate
  import opened MergeHistory
  import opened MergeRuns
  import opened Options

  function Reruns(events: seq<Event>): nat {
    if events == [] then 0 else (if events[0].ReranCi? then 1 else 0) + Reruns(events[1..])
  }

  lemma {:induction false} RerunsConcat(a: seq<Event>, b: seq<Event>)
    ensures Reruns(a + b) == Reruns(a) + Reruns(b)
    decreases |a|
  {
    if a == [] {
      assert a + b == b;
    } else {
      assert (a + b)[1..] == a[1..] + b;
      RerunsConcat(a[1..], b);
    }
  }

  lemma {:induction false} NoReruns(events: seq<Event>)
    requires forall e | e in events :: !e.ReranCi?
    ensures Reruns(events) == 0
    decreases |events|
  {
    if events != [] {
      assert events[0] in events;
      NoReruns(events[1..]);
    }
  }

  // ---------------------------------------------------------------------------------------------
  // One tick
  // ---------------------------------------------------------------------------------------------

  /** The first pending observation of the wait a tick belongs to. */
  function Since(s: Story, inp: Inputs): int {
    if s.ciPendingSince.Some? then s.ciPendingSince.value else inp.now
  }

  /** The wait goes on, or ends; without a poll it is left as it is. */
  predicate WaitLaw(s: Story, inp: Inputs, cfg: Config, r: TickResult) {
    && (r.outcome == CiWait ==>
          r.story.ciPendingSince == Some(Since(s, inp)) && inp.now - Since(s, inp) < cfg.pendingBound)
    && (r.outcome != CiWait ==> r.story.ciPendingSince.None? || r.story.ciPendingSince == s.ciPendingSince)
    && (s.ciPendingSha != "" && r.outcome !in {CiWait, Skipped, RulingParked, BindingDenied} ==>
          r.story.ciPendingSince.None?)
  }

  /** The rerun flag counts the reruns, until a merge clears it. */
  predicate RerunLaw(s: Story, r: TickResult) {
    && Reruns(r.events) <= 1 && (Reruns(r.events) == 1 ==> !s.ciRerunAttempted)
    && (r.outcome != Merged ==> (r.story.ciRerunAttempted <==> s.ciRerunAttempted || Reruns(r.events) == 1))
  }

  lemma GateErrorKeepsWait(s: Story, inp: Inputs, cfg: Config, error: string, definitive: bool)
    ensures var r := OnGateError(s, inp, cfg, error, definitive);
            && r.story.ciPendingSince == s.ciPendingSince && r.story.ciRerunAttempted == s.ciRerunAttempted
            && r.outcome !in {CiWait, Merged, Skipped, RulingParked, BindingDenied} && Reruns(r.events) == 0
  {
    hide RoutesConflict, RoutesCi;
    assert Reruns(Cancelled(s.job)) == 0;
  }

  lemma VerifyReruns(s: Story, inp: Inputs, cfg: Config, sha: string)
    ensures Reruns(VerifyAndMerge(s, inp, cfg, sha).events) == 0
  {
    hide Reruns, VerifyAndMerge, Replay;
    VerifyJobs(s, inp, cfg, sha);
    NoReruns(VerifyAndMerge(s, inp, cfg, sha).events);
  }

  lemma VerifyKeepsWait(s: Story, inp: Inputs, cfg: Config, sha: string)
    ensures var r := VerifyAndMerge(s, inp, cfg, sha);
            && r.story.ciPendingSince == s.ciPendingSince
            && r.outcome !in {CiWait, Skipped, RulingParked, BindingDenied}
            && (r.outcome != Merged ==> r.story.ciRerunAttempted == s.ciRerunAttempted)
  {
    hide OnGateError, ReverifyGate, Reruns;
    var g := ReverifyGate(s, inp, cfg, sha);
    ReverifyEffect(s, inp, cfg, sha);
    GateErrorKeepsWait(g.story, inp, cfg, g.error, false);
  }

  lemma PollReruns(s: Story, inp: Inputs, cfg: Config, sha: string)
    ensures var p := PollCi(s, inp, cfg, sha);
            && Reruns(p.events) <= 1 && (Reruns(p.events) == 1 ==> !s.ciRerunAttempted)
            && (p.story.ciRerunAttempted <==> s.ciRerunAttempted || Reruns(p.events) == 1)
  {
    var once, rerun := [PolledCi(sha)], [PolledCi(sha), ReranCi(sha), PolledCi(sha)];
    assert Reruns(once) == 0;
    assert rerun[1..][1..] == once;
    assert Reruns(rerun) == 1;
    hide Reruns;
  }

  lemma PollWaits(s: Story, inp: Inputs, cfg: Config, sha: string)
    ensures var p := PollCi(s, inp, cfg, sha);
            && (p.wait ==> p.story.ciPendingSince == Some(Since(s, inp)) && inp.now - Since(s, inp) < cfg.pendingBound)
            && (!p.wait ==> p.story.ciPendingSince.None?)
  {
  }

  lemma PollKeepsWait(s: Story, inp: Inputs, cfg: Config, sha: string)
    ensures var r := PollAndMerge(s, inp, cfg, sha);
            && r.outcome !in {Skipped, RulingParked, BindingDenied}
            && (r.outcome == CiWait ==>
                  r.story.ciPendingSince == Some(Since(s, inp)) && inp.now - Since(s, inp) < cfg.pendingBound)
            && (r.outcome != CiWait ==> r.story.ciPendingSince.None?)
            && RerunLaw(s, r)
  {
    hide OnGateError, VerifyAndMerge, PollCi;
    var p := PollCi(s, inp, cfg, sha);
    PollWaits(s, inp, cfg, sha);
    PollReruns(s, inp, cfg, sha);
    GateErrorKeepsWait(p.story, inp, cfg, p.error, p.definitive);
    VerifyKeepsWait(p.story, inp, cfg, sha);
    VerifyReruns(p.story, inp, cfg, sha);
    RerunsConcat(p.events, OnGateError(p.story, inp, cfg, p.error, p.definitive).events);
    RerunsConcat(p.events, VerifyAndMerge(p.story, inp, cfg, sha).events);
  }

  lemma GateKeepsWait(s: Story, inp: Inputs, cfg: Config)
    ensures var r := Gate(s, inp, cfg);
            r.outcome !in {Skipped, RulingParked, BindingDenied} && WaitLaw(s, inp, cfg, r) && RerunLaw(s, r)
  {
    hide OnGateError, PollAndMerge, ChooseSha, Rebind, CarriedSha;
    var c := ChooseSha(s, inp);
    var s1 := Rebind(c.story, c.sha);
    ChooseEffect(s, inp);
    RebindEffect(c.story, c.sha);
    NoReruns(c.events);
    GateErrorKeepsWait(c.story, inp, cfg, c.error, false);
    PollKeepsWait(s1, inp, cfg, c.sha);
    RerunsConcat(c.events, OnGateError(c.story, inp, cfg, c.error, false).events);
    RerunsConcat(c.events, PollAndMerge(s1, inp, cfg, c.sha).events);
  }

  lemma TickKeepsWait(s: Story, inp: Inputs, cfg: Config)
    ensures WaitLaw(s, inp, cfg, Tick(s, inp, cfg)) && RerunLaw(s, Tick(s, inp, cfg))
  {
    hide Gate;
    ReadjudicateEffect(s, inp);
    GateKeepsWait(Readjudicate(s, inp), inp, cfg);
    assert Reruns(Cancelled(s.job)) == 0;
  }

  // ---------------------------------------------------------------------------------------------
  // Histories
  // ---------------------------------------------------------------------------------------------

  /** Tick `i` made the first pending observation of the wait that lasts until the state at `k`, for one commit. */
  predicate WaitsSince(s0: Story, run: seq<Step>, i: nat, k: nat)
    requires i < k <= |run|
  {
    var s := StateAt(s0, run, i);
    && run[i].Ticked? && Tick(s, run[i].inp, run[i].cfg).outcome == CiWait && s.ciPendingSince.None?
    && forall m | i < m <= k ::
         && StateAt(s0, run, m).ciPendingSince == Some(run[i].inp.now)
         && (CarriedSha(s, run[i].inp) != "" ==> StateAt(s0, run, m).ciPendingSha == CarriedSha(s, run[i].inp))
  }

  lemma WaitStep(s: Story, inp: Inputs, cfg: Config)
    requires Tick(s, inp, cfg).story.ciPendingSince.Some?
    ensures var r := Tick(s, inp, cfg);
            if s.ciPendingSince.Some? then
              && r.story.ciPendingSince == s.ciPendingSince
              && (s.ciPendingSha != "" ==> r.story.ciPendingSha == s.ciPendingSha)
            else
              && r.outcome == CiWait && r.story.ciPendingSince == Some(inp.now)
              && r.story.ciPendingSha == CarriedSha(s, inp)
  {
    hide Tick, FinalCi, Replay, CounterLaw;
    TickKeepsWait(s, inp, cfg);
    TickKeepsLaw(s, inp, cfg);
  }

  lemma StepKeepsSince(s: Story, step: Step)
    requires step.Other? ==> OtherActor(s, step.to)
    requires s.ciPendingSince.Some? && After(s, step).ciPendingSince.Some?
    ensures var t := After(s, step);
            t.ciPendingSince == s.ciPendingSince && (s.ciPendingSha != "" ==> t.ciPendingSha == s.ciPendingSha)
  {
    hide Tick;
    if step.Ticked? {
      WaitStep(s, step.inp, step.cfg);
    }
  }

  lemma WaitGoesOn(s0: Story, run: seq<Step>, i: nat, k: nat)
    requires Valid(s0, run) && i < k < |run| && WaitsSince(s0, run, i, k)
    requires StateAt(s0, run, k + 1).ciPendingSince.Some?
    ensures WaitsSince(s0, run, i, k + 1)
  {
    hide Tick, CarriedSha, After;
    var s := StateAt(s0, run, k);
    assert StateAt(s0, run, k + 1) == After(s, run[k]);
    assert s.ciPendingSince == Some(run[i].inp.now);
    StepKeepsSince(s, run[k]);
    hide StateAt;
  }

  lemma WaitBegins(s0: Story, run: seq<Step>, k: nat)
    requires Valid(s0, run) && k < |run|
    requires StateAt(s0, run, k).ciPendingSince.None? && StateAt(s0, run, k + 1).ciPendingSince.Some?
    ensures WaitsSince(s0, run, k, k + 1)
  {
    hide Tick, CarriedSha;
    var s, step := StateAt(s0, run, k), run[k];
    assert StateAt(s0, run, k + 1) == After(s, step);
    if step.Ticked? {
      WaitStep(s, step.inp, step.cfg);
    }
  }

  lemma {:induction false} WaitHasStart(s0: Story, run: seq<Step>, k: nat)
    requires Valid(s0, run) && s0.ciPendingSince.None? && k <= |run|
    ensures StateAt(s0, run, k).ciPendingSince.Some? ==> exists i | 0 <= i < k :: WaitsSince(s0, run, i, k)
    decreases k
  {
    hide Tick, CarriedSha, Valid, WaitsSince;
    if k > 0 && StateAt(s0, run, k).ciPendingSince.Some? {
      WaitHasStart(s0, run, k - 1);
      if StateAt(s0, run, k - 1).ciPendingSince.Some? {
        var i :| 0 <= i < k - 1 && WaitsSince(s0, run, i, k - 1);
        WaitGoesOn(s0, run, i, k - 1);
      } else {
        WaitBegins(s0, run, k - 1);
      }
    }
  }

  /** The wait for a commit is bounded: over any history, a tick that waits on CI lies within the bound of the tick
      that first saw this commit pending; in between nothing settled, and no other commit was waited for. */
  lemma CiWaitIsBounded(s0: Story, run: seq<Step>, k: nat)
    requires Valid(s0, run) && s0.ciPendingSince.None? && k < |run| && run[k].Ticked?
    requires Tick(StateAt(s0, run, k), run[k].inp, run[k].cfg).outcome == CiWait
    ensures exists i | 0 <= i <= k ::
              && WaitsSince(s0, run, i, k + 1)
              && run[k].inp.now - run[i].inp.now < run[k].cfg.pendingBound
              && (CarriedSha(StateAt(s0, run, i), run[i].inp) != "" ==>
                    CarriedSha(StateAt(s0, run, k), run[k].inp) == CarriedSha(StateAt(s0, run, i), run[i].inp))
  {
    hide Tick, CarriedSha, Replay, CounterLaw, FinalCi, WaitsSince;
    var s, inp := StateAt(s0, run, k), run[k].inp;
    TickKeepsWait(s, inp, run[k].cfg);
    TickKeepsLaw(s, inp, run[k].cfg);
    WaitHasStart(s0, run, k + 1);
    var i :| 0 <= i < k + 1 && WaitsSince(s0, run, i, k + 1);
    WaitShows(s0, run, i, k + 1);
  }

  lemma WaitShows(s0: Story, run: seq<Step>, i: nat, k: nat)
    requires i < k <= |run| && WaitsSince(s0, run, i, k)
    ensures run[i].Ticked? && StateAt(s0, run, k).ciPendingSince == Some(run[i].inp.now)
    ensures CarriedSha(StateAt(s0, run, i), run[i].inp) != "" ==>
              StateAt(s0, run, k).ciPendingSha == CarriedSha(StateAt(s0, run, i), run[i].inp)
  {
    hide Tick, CarriedSha, StateAt;
  }

  function One(b: bool): nat {
    if b then 1 else 0
  }

  lemma {:induction false} RerunsAreCounted(s0: Story, run: seq<Step>, k: nat)
    requires Valid(s0, run) && s0.status != Done && k <= |run|
    ensures var s, n := StateAt(s0, run, k), Reruns(Trace(s0, run, k));
            && n + One(s0.ciRerunAttempted) <= 1
            && (s.status != Done ==> n + One(s0.ciRerunAttempted) == One(s.ciRerunAttempted))
    decreases k
  {
    hide Tick, Reruns, WaitLaw, Replay, GateLaw;
    if k == 0 {
      NoReruns([]);
    } else {
      var s, step := StateAt(s0, run, k - 1), run[k - 1];
      RerunsAreCounted(s0, run, k - 1);
      RerunsConcat(Trace(s0, run, k - 1), Asked(s, step));
      if step.Ticked? {
        TickKeepsWait(s, step.inp, step.cfg);
        TickKeepsLaw(s, step.inp, step.cfg);
      }
      NoReruns([]);
    }
  }

  /** A story's CI is rerun by the gate at most once in its whole life, and not at all when it was rerun before. */
  lemma RerunAtMostOnce(s0: Story, run: seq<Step>)
    requires Valid(s0, run) && s0.status != Done
    ensures Reruns(Trace(s0, run, |run|)) + One(s0.ciRerunAttempted) <= 1
  {
    RerunsAreCounted(s0, run, |run|);
  }
}
