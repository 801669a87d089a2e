/** The dispatch part of one tick: which ready stories are launched, within the slots and the budget of the tick. */
module DispatchTick {
  import opened Dispatch
  import opened Options

  /** How `dispatch_story` ended: with a record of one of five kinds, with a value that is no record, with an
      exception, or without the plan lock. */
  datatype Result = Launched | StillPending | StoreBusy | NotARecord | Refused | Raised | LockLost

  /** A ready story and what happens to it: its device, its gate, the clock and the processes gone at its claim, the
      result of its dispatch, and the manifest the others left when the lock came back. */
  datatype Candidate = Candidate(key: Key, onDevice: bool, holdsSlot: bool, gateOpen: bool, now: int, gone: set<Pid>,
                                 result: Result, meanwhile: Manifest)

  datatype Verdict = NotReached | NoSlot | Gated | NotClaimed | Ran | Broke

  datatype Limits = Limits(maxAgents: int, running: nat, perTick: int, ttl: int, pid: Pid, maxAttempts: int)

  predicate Ok(r: Result) {
    !r.Refused? && !r.Raised?
  }

  predicate Attempted(v: Verdict) {
    v.Ran? || v.Broke?
  }

  predicate TakesSlot(c: Candidate) {
    c.onDevice && !c.holdsSlot
  }

  function FreeSlots(l: Limits): int {
    if l.maxAgents > l.running then l.maxAgents - l.running else 0
  }

  predicate Claimable(m: Manifest, c: Candidate) {
    c.key in m && Dispatchable(m[c.key].status) && !Live(m[c.key].lease, c.now, c.gone)
  }

  /** The story is planned, waits to be dispatched, and no lease is in the way. */
  predicate Free(m: Manifest, c: Candidate) {
    && c.key in m && m[c.key].status in {Todo, Interrupted, ChangesRequested}
    && (|| m[c.key].lease.None?
        || m[c.key].lease.value.expires <= c.now
        || (m[c.key].lease.value.owner.Some? && m[c.key].lease.value.owner.value in c.gone))
  }

  /** The manifest with the claim in it. */
  function WithClaim(l: Limits, m: Manifest, c: Candidate): Manifest
    requires c.key in m
  {
    var s := m[c.key];
    m[c.key := Story(s.status, Some(Lease(c.now + l.ttl, Some(l.pid))), s.attempts, s.rest)]
  }

  /** Claim, window, settlement: the manifest afterwards, and whether the tick goes on. */
  function DispatchOne(l: Limits, m: Manifest, c: Candidate): (Manifest, Verdict) {
    if !Claimable(m, c) then (m, NotClaimed)
    else if c.result.LockLost? || c.key !in c.meanwhile then (c.meanwhile, Broke)
    else (c.meanwhile[c.key := Settle(c.meanwhile[c.key], Ok(c.result), l.maxAttempts)], Ran)
  }

  /** Attempts that took a slot. */
  function SlotsTaken(ready: seq<Candidate>, vs: seq<Verdict>): nat
    requires |vs| <= |ready|
    decreases |vs|
  {
    if vs == [] then 0
    else
      var n := |vs| - 1;
      SlotsTaken(ready, vs[..n]) + if Attempted(vs[n]) && TakesSlot(ready[n]) then 1 else 0
  }

  /** Dispatches that came back with a record of success. */
  function Counted(ready: seq<Candidate>, vs: seq<Verdict>): nat
    requires |vs| <= |ready|
    decreases |vs|
  {
    if vs == [] then 0
    else
      var n := |vs| - 1;
      Counted(ready, vs[..n]) + if Counts(ready[n], vs[n]) then 1 else 0
  }

  predicate Counts(c: Candidate, v: Verdict) {
    Attempted(v) && (c.result.Launched? || c.result.StillPending? || c.result.StoreBusy?)
  }

  predicate Stopped(vs: seq<Verdict>) {
    vs != [] && (vs[|vs| - 1].NotReached? || vs[|vs| - 1].Broke?)
  }

  datatype Tick = Tick(disk: Manifest, verdicts: seq<Verdict>)

  /** Whether the budget of the tick is spent, or the tick has ended. */
  predicate Over(l: Limits, front: seq<Candidate>, vs: seq<Verdict>)
    requires |vs| == |front|
  {
    Stopped(vs) || (l.perTick > 0 && Counted(front, vs) >= l.perTick)
  }

  predicate Full(l: Limits, front: seq<Candidate>, vs: seq<Verdict>)
    requires |vs| == |front|
  {
    l.maxAgents > 0 && SlotsTaken(front, vs) >= FreeSlots(l)
  }

  /** What the tick does next, stated by what it attempted before. */
  function OneMore(l: Limits, t: Tick, front: seq<Candidate>, c: Candidate): (t1: Tick)
    requires |t.verdicts| == |front|
    ensures |t1.verdicts| == |front| + 1 && t1.verdicts[..|front|] == t.verdicts
  {
    if Over(l, front, t.verdicts) then t.(verdicts := t.verdicts + [NotReached])
    else if TakesSlot(c) && Full(l, front, t.verdicts) then t.(verdicts := t.verdicts + [NoSlot])
    else if !c.gateOpen then t.(verdicts := t.verdicts + [Gated])
    else
      var r := DispatchOne(l, t.disk, c);
      Tick(r.0, t.verdicts + [r.1])
  }

  /** The tick over the first candidates. */
  function TickOver(l: Limits, m: Manifest, ready: seq<Candidate>): (t: Tick)
    ensures |t.verdicts| == |ready|
    decreases |ready|
  {
    if ready == [] then Tick(m, [])
    else
      var n := |ready| - 1;
      OneMore(l, TickOver(l, m, ready[..n]), ready[..n], ready[n])
  }

  lemma CountsOfPrefix(ready: seq<Candidate>, c: Candidate, vs: seq<Verdict>, v: Verdict)
    requires |vs| == |ready|
    ensures SlotsTaken(ready + [c], vs + [v]) == SlotsTaken(ready, vs) + if Attempted(v) && TakesSlot(c) then 1 else 0
    ensures Counted(ready + [c], vs + [v]) == Counted(ready, vs) + if Counts(c, v) then 1 else 0
  {
    assert (vs + [v])[..|vs|] == vs;
    SameCounts(ready, ready + [c], vs);
  }

  lemma {:induction false} SameCounts(ready: seq<Candidate>, more: seq<Candidate>, vs: seq<Verdict>)
    requires |vs| <= |ready| && ready <= more
    ensures SlotsTaken(ready, vs) == SlotsTaken(more, vs) && Counted(ready, vs) == Counted(more, vs)
    decreases |vs|
  {
    if vs != [] {
      SameCounts(ready, more, vs[..|vs| - 1]);
    }
  }

  /** The candidates that were tried on a device and needed a slot of their own. */
  function OnSlots(ready: seq<Candidate>, vs: seq<Verdict>): set<nat>
    requires |vs| <= |ready|
  {
    set i: nat | i < |vs| && (vs[i].Ran? || vs[i].Broke?) && ready[i].onDevice && !ready[i].holdsSlot
  }

  /** The candidates whose dispatch came back with a record that does not say it failed. */
  function CameBack(ready: seq<Candidate>, vs: seq<Verdict>): set<nat>
    requires |vs| <= |ready|
  {
    set i: nat | i < |vs| && (vs[i].Ran? || vs[i].Broke?)
                 && (ready[i].result.Launched? || ready[i].result.StillPending? || ready[i].result.StoreBusy?)
  }

  /** What the two counters of a tick count. */
  lemma {:induction false} CountersCount(ready: seq<Candidate>, vs: seq<Verdict>)
    requires |vs| <= |ready|
    ensures SlotsTaken(ready, vs) == |OnSlots(ready, vs)| && Counted(ready, vs) == |CameBack(ready, vs)|
    decreases |vs|
  {
    hide OnSlots, CameBack;
    SetsStep(ready, vs);
    if vs != [] {
      CountersCount(ready, vs[..|vs| - 1]);
    }
  }

  lemma SetsStep(ready: seq<Candidate>, vs: seq<Verdict>)
    requires |vs| <= |ready|
    ensures vs == [] ==> OnSlots(ready, vs) == CameBack(ready, vs) == {}
    ensures vs != [] ==>
              var n := |vs| - 1;
              var slots, back := OnSlots(ready, vs[..n]), CameBack(ready, vs[..n]);
              && n !in slots && n !in back
              && OnSlots(ready, vs) == slots + (if Attempted(vs[n]) && TakesSlot(ready[n]) then {n} else {})
              && CameBack(ready, vs) == back + (if Counts(ready[n], vs[n]) then {n} else {})
  {
  }

  /** A tick never takes more slots than were free, and never counts more dispatches than its budget. */
  lemma WithinLimits(l: Limits, m: Manifest, ready: seq<Candidate>)
    ensures var vs := TickOver(l, m, ready).verdicts;
            && (l.maxAgents > 0 ==>
                  |OnSlots(ready, vs)| <= if l.maxAgents > l.running then l.maxAgents - l.running else 0)
            && (l.perTick > 0 ==> |CameBack(ready, vs)| <= l.perTick)
  {
    hide OnSlots, CameBack, SlotsTaken, Counted, TickOver;
    CountersCount(ready, TickOver(l, m, ready).verdicts);
    CountsWithinLimits(l, m, ready);
  }

  lemma {:induction false} CountsWithinLimits(l: Limits, m: Manifest, ready: seq<Candidate>)
    ensures var vs := TickOver(l, m, ready).verdicts;
            && (l.maxAgents > 0 ==> SlotsTaken(ready, vs) <= FreeSlots(l))
            && (l.perTick > 0 ==> Counted(ready, vs) <= l.perTick)
    decreases |ready|
  {
    if ready != [] {
      var n := |ready| - 1;
      CountsWithinLimits(l, m, ready[..n]);
      var t := TickOver(l, m, ready[..n]);
      assert ready == ready[..n] + [ready[n]];
      CountsOfPrefix(ready[..n], ready[n], t.verdicts, TickOver(l, m, ready).verdicts[n]);
    }
  }

  predicate Reached(l: Limits, ready: seq<Candidate>, vs: seq<Verdict>, n: nat)
    requires n < |ready| == |vs|
  {
    && (l.perTick > 0 ==> |CameBack(ready[..n], vs[..n])| < l.perTick)
    && Broke !in vs[..n]
  }

  predicate HasSlot(l: Limits, ready: seq<Candidate>, vs: seq<Verdict>, n: nat)
    requires n < |ready| == |vs|
  {
    l.maxAgents > 0 && ready[n].onDevice && !ready[n].holdsSlot ==>
      |OnSlots(ready[..n], vs[..n])| + l.running < l.maxAgents
  }

  /** What becomes of candidate `n`, by what became of the ones before. */
  predicate TriedOnlyIf(l: Limits, ready: seq<Candidate>, vs: seq<Verdict>, n: nat, disk: Manifest)
    requires n < |ready| == |vs|
  {
    var reached, slot, open := Reached(l, ready, vs, n), HasSlot(l, ready, vs, n), ready[n].gateOpen;
    && (vs[n] == NotReached <==> !reached)
    && (vs[n] == NoSlot <==> reached && !slot)
    && (vs[n] == Gated <==> reached && slot && !open)
    && (vs[n] == NotClaimed <==> reached && slot && open && !Free(disk, ready[n]))
    && (Attempted(vs[n]) <==> reached && slot && open && Free(disk, ready[n]))
  }

  /** Which candidates a tick tries: a candidate is left for the next tick exactly when the budget is spent or an
      earlier one broke the tick off; deferred exactly when it needs a slot and none is free; gated exactly when its
      gate is closed; passed over exactly when its story cannot be claimed on the manifest as it is by then; and every
      other is tried. */
  lemma {:induction false} TriedIff(l: Limits, m: Manifest, ready: seq<Candidate>, n: nat)
    requires n < |ready|
    ensures TriedOnlyIf(l, ready, TickOver(l, m, ready).verdicts, n, TickOver(l, m, ready[..n]).disk)
    decreases |ready|
  {
    hide DispatchOne, Counted, SlotsTaken, Free, OneMore;
    var last := |ready| - 1;
    var t := TickOver(l, m, ready[..last]);
    assert ready == ready[..last] + [ready[last]];
    if n < last {
      TriedIff(l, m, ready[..last], n);
      assert ready[..last][..n] == ready[..n];
      assert TickOver(l, m, ready).verdicts[..n] == t.verdicts[..n];
    } else {
      StopsAreFinal(l, m, ready[..n]);
      LastTriedIff(l, t, ready[..n], ready[n]);
    }
  }

  lemma LastTriedIff(l: Limits, t: Tick, front: seq<Candidate>, c: Candidate)
    requires |t.verdicts| == |front| && StopIsFinal(l, front, t.verdicts)
    ensures TriedOnlyIf(l, front + [c], OneMore(l, t, front, c).verdicts, |front|, t.disk)
  {
    hide DispatchOne, Counted, SlotsTaken, Free, OnSlots, CameBack;
    DispatchOneIs(l, t.disk, c);
    CountersCount(front, t.verdicts);
    assert (front + [c])[..|front|] == front;
  }

  lemma DispatchOneIs(l: Limits, m: Manifest, c: Candidate)
    ensures var v := DispatchOne(l, m, c).1; v in {NotClaimed, Ran, Broke} && (Attempted(v) <==> Free(m, c))
  {
  }

  /** A tick has stopped exactly when a candidate broke it off or the budget is spent. */
  predicate StopIsFinal(l: Limits, front: seq<Candidate>, vs: seq<Verdict>)
    requires |vs| == |front|
  {
    && (Stopped(vs) ==> Broke in vs || (l.perTick > 0 && Counted(front, vs) >= l.perTick))
    && (Broke in vs ==> Stopped(vs))
  }

  lemma {:induction false} StopsAreFinal(l: Limits, m: Manifest, ready: seq<Candidate>)
    ensures StopIsFinal(l, ready, TickOver(l, m, ready).verdicts)
    decreases |ready|
  {
    hide DispatchOne, SlotsTaken, Counted, OneMore;
    if ready != [] {
      var n := |ready| - 1;
      StopsAreFinal(l, m, ready[..n]);
      assert ready == ready[..n] + [ready[n]];
      StopStep(l, TickOver(l, m, ready[..n]), ready[..n], ready[n]);
    } else {
      assert TickOver(l, m, ready).verdicts == [];
    }
  }

  lemma StopStep(l: Limits, t: Tick, front: seq<Candidate>, c: Candidate)
    requires |t.verdicts| == |front| && StopIsFinal(l, front, t.verdicts)
    ensures StopIsFinal(l, front + [c], OneMore(l, t, front, c).verdicts)
  {
    hide DispatchOne, SlotsTaken, Counted;
    var vs := OneMore(l, t, front, c).verdicts;
    DispatchOneIs(l, t.disk, c);
    CountsOfPrefix(front, c, t.verdicts, vs[|front|]);
    assert vs == t.verdicts + [vs[|front|]];
  }

  lemma TickStep(l: Limits, m: Manifest, ready: seq<Candidate>, k: nat)
    requires k < |ready|
    ensures TickOver(l, m, ready[..k + 1]) == OneMore(l, TickOver(l, m, ready[..k]), ready[..k], ready[k])
    ensures ready[..k + 1] == ready[..k] + [ready[k]]
  {
    assert ready[..k + 1][..k] == ready[..k];
  }

  /** Once over, a tick reaches no further candidate. */
  lemma {:induction false} RestNotReached(l: Limits, m: Manifest, ready: seq<Candidate>, k: nat)
    requires k <= |ready| && Over(l, ready[..k], TickOver(l, m, ready[..k]).verdicts)
    ensures var t := TickOver(l, m, ready[..k]);
            TickOver(l, m, ready) == t.(verdicts := t.verdicts + NoneReached(|ready| - k))
    decreases |ready| - k
  {
    hide Counted, DispatchOne, TickOver;
    if k == |ready| {
      assert ready[..k] == ready;
    } else {
      var vs := TickOver(l, m, ready[..k]).verdicts;
      TickStep(l, m, ready, k);
      RestNotReached(l, m, ready, k + 1);
      assert vs + [NotReached] + NoneReached(|ready| - (k + 1)) == vs + NoneReached(|ready| - k);
    }
  }

  function NoneReached(n: nat): seq<Verdict> {
    seq(n, _ => NotReached)
  }

  lemma NothingYet(l: Limits, m: Manifest)
    ensures SlotsTaken([], []) == 0 && Counted([], []) == 0 && TickOver(l, m, []) == Tick(m, [])
  {
  }

  /** The manifest file, which the tick reads and writes as a whole. */
  class PlanFile {
    var disk: Manifest

    /** One candidate past its gate: fresh read, claim, window, settlement. `writes` is what it writes, in order; the
        claim is on disk before the window opens. */
    method DispatchStory(l: Limits, c: Candidate) returns (v: Verdict, writes: seq<Manifest>)
      modifies this
      ensures (disk, v) == DispatchOne(l, old(disk), c) && v in {NotClaimed, Ran, Broke}
      ensures v == NotClaimed <==> !Free(old(disk), c)
      ensures v == NotClaimed ==> disk == old(disk) && writes == []
      ensures v != NotClaimed ==> writes != [] && writes[0] == WithClaim(l, old(disk), c)
      ensures v == Broke ==> |writes| == 1
      ensures v == Ran ==> |writes| == 2 && writes[1] == disk
      ensures v == Broke <==> Free(old(disk), c) && (c.result.LockLost? || c.key !in c.meanwhile)
      ensures v == Broke ==> disk == c.meanwhile
      ensures v == Ran ==>
                && disk.Keys == c.meanwhile.Keys
                && (forall k | k in disk && k != c.key :: disk[k] == c.meanwhile[k])
                && Concluded(c.meanwhile[c.key], disk[c.key], !c.result.Refused? && !c.result.Raised?, l.maxAttempts)
    {
      var m := disk;
      if c.key !in m || !Dispatchable(m[c.key].status) || Live(m[c.key].lease, c.now, c.gone) {
        return NotClaimed, [];
      }
      disk := m[c.key := m[c.key].(lease := Some(Lease(c.now + l.ttl, Some(l.pid))))];
      writes := [disk];
      disk := c.meanwhile;
      if c.result.LockLost? {
        return Broke, writes;
      }
      m := disk;
      if c.key !in m {
        return Broke, writes;
      }
      var story := m[c.key].(lease := None);
      if c.result.Refused? || c.result.Raised? {
        var attempts := story.attempts + 1;
        story := story.(attempts := attempts);
        if attempts >= l.maxAttempts {
          story := story.(status := Failed);
        }
      }
      disk := m[c.key := story];
      return Ran, writes + [disk];
    }

    method DispatchReady(l: Limits, ready: seq<Candidate>) returns (verdicts: seq<Verdict>)
      modifies this
      ensures Tick(disk, verdicts) == TickOver(l, old(disk), ready)
    {
      hide DispatchOne, Counted, SlotsTaken, TickOver, NoneReached;
      var freeSlots: int := FreeSlots(l);
      var capped := l.maxAgents > 0;
      var dispatched := 0;
      verdicts := [];
      ghost var m := disk;
      NothingYet(l, m);
      for k := 0 to |ready|
        invariant Tick(disk, verdicts) == TickOver(l, m, ready[..k])
        invariant freeSlots == FreeSlots(l) - SlotsTaken(ready[..k], verdicts)
        invariant dispatched == Counted(ready[..k], verdicts)
        invariant !Stopped(verdicts)
      {
        var c := ready[k];
        ghost var front, before := ready[..k], verdicts;
        TickStep(l, m, ready, k);
        if l.perTick > 0 && dispatched >= l.perTick {
          RestNotReached(l, m, ready, k);
          verdicts := verdicts + NoneReached(|ready| - k);
          return;
        }
        var v: Verdict;
        if capped && TakesSlot(c) && freeSlots <= 0 {
          v := NoSlot;
        } else if !c.gateOpen {
          v := Gated;
        } else {
          var written;
          v, written := DispatchStory(l, c);
        }
        verdicts := verdicts + [v];
        CountsOfPrefix(front, c, before, v);
        if Attempted(v) && TakesSlot(c) {
          freeSlots := freeSlots - 1;
        }
        if Counts(c, v) {
          dispatched := dispatched + 1;
        }
        if v.Broke? {
          RestNotReached(l, m, ready, k + 1);
          verdicts := verdicts + NoneReached(|ready| - (k + 1));
          return;
        }
      }
      assert ready[..|ready|] == ready;
    }
  }

  // ---------------------------------------------------------------------------------------------
  // A tick as a run of the lock protocol
  // ---------------------------------------------------------------------------------------------

  /** Actor `a` is in its tick, holds the lock, and the manifest on disk is `m`. */
  predicate InTick(of: Processes, w: World, a: Actor, l: Limits, m: Manifest) {
    && w.PhaseOf(a).Holding? && w.lock == Some(a) && w.limit == l.maxAttempts && w.disk == m
    && of(a) == l.pid && l.pid !in w.gone
  }

  /** The tick of `a` has ended with an error, without the lock. */
  predicate Ended(w: World, a: Actor, l: Limits, m: Manifest) {
    w.PhaseOf(a).Outside? && w.lock.None? && w.limit == l.maxAttempts && w.disk == m
  }

  lemma Grow(of: Processes, w: World, steps: seq<Step>, s: Step) returns (more: seq<Step>)
    requires Possible(of, w, steps) && Enabled(of, After(of, w, steps), s)
    ensures more == steps + [s] && Possible(of, w, more) && After(of, w, more) == Next(of, After(of, w, steps), s)
  {
    more := steps + [s];
    assert more[..|more| - 1] == steps;
  }

  lemma ProcessChanges(of: Processes, w: World, steps: seq<Step>, a: Actor, l: Limits, p: Pid) returns (more: seq<Step>)
    requires Possible(of, w, steps) && InTick(of, After(of, w, steps), a, l, After(of, w, steps).disk) && p != l.pid
    ensures Possible(of, w, more) && InTick(of, After(of, w, more), a, l, After(of, w, steps).disk)
    ensures var before, after := After(of, w, steps), After(of, w, more);
            && after.now == before.now
            && after.gone == if p in before.gone then before.gone - {p} else before.gone + {p}
  {
    hide After, Possible;
    more := Grow(of, w, steps, if p in After(of, w, steps).gone then Born(p) else Die(p));
  }

  /** How far two sets are apart. */
  function Apartness(s: set<Pid>, t: set<Pid>): nat {
    |s - t| + |t - s|
  }

  lemma ComesCloser(s: set<Pid>, t: set<Pid>, p: Pid)
    requires (p in s) != (p in t)
    ensures Apartness(if p in s then s - {p} else s + {p}, t) < Apartness(s, t)
  {
    if p in s {
      assert (s - {p}) - t == (s - t) - {p} && t - (s - {p}) == t - s;
    } else {
      assert (s + {p}) - t == s - t && t - (s + {p}) == (t - s) - {p};
    }
  }

  /** While a tick holds the lock, processes other than its own may go and come. */
  lemma ProcessesChange(of: Processes, w: World, steps: seq<Step>, a: Actor, l: Limits, gone: set<Pid>)
    returns (more: seq<Step>)
    requires Possible(of, w, steps) && InTick(of, After(of, w, steps), a, l, After(of, w, steps).disk)
    requires l.pid !in gone
    ensures Possible(of, w, more) && InTick(of, After(of, w, more), a, l, After(of, w, steps).disk)
    ensures After(of, w, more).gone == gone && After(of, w, more).now == After(of, w, steps).now
    decreases Apartness(After(of, w, steps).gone, gone)
  {
    hide After, Possible, Apartness;
    var here := After(of, w, steps).gone;
    more := steps;
    if here != gone {
      var p :| p in here + gone && (p in here) != (p in gone);
      ComesCloser(here, gone, p);
      more := ProcessChanges(of, w, steps, a, l, p);
      more := ProcessesChange(of, w, more, a, l, gone);
    }
  }

  /** One candidate past its gate, whatever becomes of it: not claimed, dispatched and settled, or broken off. */
  lemma DispatchIsARun(of: Processes, w: World, steps: seq<Step>, a: Actor, l: Limits, c: Candidate)
    returns (more: seq<Step>)
    requires Possible(of, w, steps) && InTick(of, After(of, w, steps), a, l, After(of, w, steps).disk)
    requires l.ttl > 0 && l.pid !in c.gone && After(of, w, steps).now <= c.now
    ensures Possible(of, w, more) && After(of, w, more).now == c.now
    ensures var r := DispatchOne(l, After(of, w, steps).disk, c);
            if r.1 == Broke then Ended(After(of, w, more), a, l, r.0) else InTick(of, After(of, w, more), a, l, r.0)
  {
    hide After, Possible, DispatchOne, Live, Dispatchable;
    more := ProcessesChange(of, w, steps, a, l, c.gone);
    more := Grow(of, w, more, Elapse(c.now - After(of, w, more).now));
    more := ClaimIsARun(of, w, more, a, l, c);
    if After(of, w, more).PhaseOf(a).Looking? {
      more := WindowIsARun(of, w, more, a, l, c);
    }
  }

  lemma ClaimIsARun(of: Processes, w: World, steps: seq<Step>, a: Actor, l: Limits, c: Candidate)
    returns (more: seq<Step>)
    requires Possible(of, w, steps) && InTick(of, After(of, w, steps), a, l, After(of, w, steps).disk)
    requires l.ttl > 0 && After(of, w, steps).now == c.now && After(of, w, steps).gone == c.gone
    ensures Possible(of, w, more)
    ensures var before, after := After(of, w, steps), After(of, w, more);
            && after.disk == before.disk && after.now == c.now && after.lock == Some(a) && after.limit == l.maxAttempts
            && after.gone == before.gone
            && if Claimable(before.disk, c) then after.PhaseOf(a).Looking? && after.PhaseOf(a).key == c.key
               else
                 && InTick(of, after, a, l, DispatchOne(l, before.disk, c).0)
                 && DispatchOne(l, before.disk, c).1 == NotClaimed
  {
    hide After, Possible;
    more := Grow(of, w, steps, Look(a, c.key, l.ttl));
  }

  lemma WindowIsARun(of: Processes, w: World, steps: seq<Step>, a: Actor, l: Limits, c: Candidate)
    returns (more: seq<Step>)
    requires Possible(of, w, steps)
    requires var here := After(of, w, steps);
             && here.PhaseOf(a).Looking? && here.PhaseOf(a).key == c.key && here.lock == Some(a)
             && here.limit == l.maxAttempts && of(a) == l.pid && l.pid !in here.gone && Claimable(here.disk, c)
    ensures Possible(of, w, more) && After(of, w, more).now == After(of, w, steps).now
    ensures var r := DispatchOne(l, After(of, w, steps).disk, c);
            if r.1 == Broke then Ended(After(of, w, more), a, l, r.0) else InTick(of, After(of, w, more), a, l, r.0)
  {
    hide After, Possible, Claimable, Settle;
    more := Grow(of, w, steps, Persist(a));
    more := Grow(of, w, more, Release(a));
    more := Grow(of, w, more, Other(c.meanwhile));
    if c.result.LockLost? {
      more := Grow(of, w, more, Timeout(a));
    } else {
      more := Grow(of, w, more, Return(a, Ok(c.result)));
      more := Grow(of, w, more, Reread(a));
      if c.key in c.meanwhile {
        more := Grow(of, w, more, Clear(a));
      }
    }
  }

  predicate ClockRuns(now: int, ready: seq<Candidate>) {
    && (forall i | 0 <= i < |ready| :: now <= ready[i].now)
    && forall i, j | 0 <= i < j < |ready| :: ready[i].now <= ready[j].now
  }

  /** A whole tick, with the candidates it defers, refuses and breaks off at, is a run of the lock protocol: there are
      steps, with everything the others do in its windows among them, that are possible one after the other and end
      with the manifest the tick computes. So what holds of every run holds of every tick. */
  lemma {:induction false} TickIsARun(of: Processes, w: World, steps: seq<Step>, a: Actor, l: Limits,
                                      ready: seq<Candidate>)
    returns (more: seq<Step>)
    requires Possible(of, w, steps) && InTick(of, After(of, w, steps), a, l, After(of, w, steps).disk)
    requires l.ttl > 0 && ClockRuns(After(of, w, steps).now, ready)
    requires forall i | 0 <= i < |ready| :: l.pid !in ready[i].gone
    ensures Possible(of, w, more)
    ensures var t := TickOver(l, After(of, w, steps).disk, ready);
            var end := After(of, w, more);
            && (if Broke in t.verdicts then Stopped(t.verdicts) && Ended(end, a, l, t.disk)
                else InTick(of, end, a, l, t.disk))
            && end.now <= if ready == [] then After(of, w, steps).now else ready[|ready| - 1].now
    decreases |ready|
  {
    hide After, Possible, DispatchOne, Counted, SlotsTaken;
    var m := After(of, w, steps).disk;
    more := steps;
    if ready != [] {
      var n := |ready| - 1;
      var front, c := ready[..n], ready[n];
      more := TickIsARun(of, w, steps, a, l, front);
      var t := TickOver(l, m, front);
      if !Over(l, front, t.verdicts) && !(TakesSlot(c) && Full(l, front, t.verdicts)) && c.gateOpen {
        more := DispatchIsARun(of, w, more, a, l, c);
      }
    }
  }
}
