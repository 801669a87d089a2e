/** The queue at work: one object that producers, slots and the reconcile sweep share, and the history of what they
    did to it. */
module AdvanceRuntime {
  import opened AdvanceQueues

  const START := Sys(NEW_QUEUE, map[])

  /** The system after the first `k` steps of a history. */
  function At(trace: seq<Op>, k: nat): Sys
    requires k <= |trace|
  {
    Run(START, trace[..k])
  }

  lemma AtStep(trace: seq<Op>, k: nat)
    requires k < |trace|
    ensures At(trace, k + 1) == Step(At(trace, k), trace[k])
  {
    assert trace[..k + 1][..k] == trace[..k];
  }

  lemma AtIsInv(trace: seq<Op>, k: nat)
    requires k <= |trace|
    ensures Inv(At(trace, k))
  {
    RunKeepsInv(START, trace[..k]);
  }

  /** A step later in the history does not change what came before. */
  lemma AtPrefix(trace: seq<Op>, more: seq<Op>, k: nat)
    requires trace <= more && k <= |trace|
    ensures At(trace, k) == At(more, k)
  {
    assert trace[..k] == more[..k];
  }

  /** The queue with its slots; `trace` is everything that was done to it. */
  class Runtime {
    const queue: AdvanceQueue
    var held: map<nat, Plan>
    ghost var trace: seq<Op>

    function State(): Sys
      reads this, queue
    {
      Sys(queue.State(), held)
    }

    ghost predicate Valid()
      reads this, queue
    {
      State() == At(trace, |trace|)
    }

    constructor ()
      ensures Valid() && trace == [] && fresh(queue)
    {
      queue := new AdvanceQueue();
      held := map[];
      trace := [];
    }

    /** One critical section of some thread; a slot takes only when it holds no plan. */
    method Act(op: Op) returns (r: Taken)
      requires Valid()
      modifies this, queue
      ensures Valid() && trace == old(trace) + [op] && State() == Step(old(State()), op)
      ensures r == if op.Take? && op.slot !in old(held) then TakeFrom(old(State()).q) else Nothing
    {
      r := Nothing;
      match op {
        case Request(p) =>
          var _ := queue.Request(p);
        case Take(w) =>
          if w !in held {
            r := queue.Take();
            if r.Got? {
              held := held[w := r.plan];
            }
          }
        case Finish(w, now) =>
          if w in held {
            queue.Finish(held[w], now);
            held := held - {w};
          }
        case Close => queue.Close();
      }
      trace := trace + [op];
      AtStep(trace, |trace| - 1);
      AtPrefix(old(trace), trace, |old(trace)|);
    }

    method ActAll(ops: seq<Op>)
      requires Valid()
      modifies this, queue
      ensures Valid() && trace == old(trace) + ops && State() == Run(old(State()), ops)
    {
      for k := 0 to |ops|
        invariant Valid() && trace == old(trace) + ops[..k] && State() == Run(old(State()), ops[..k])
      {
        var _ := Act(ops[k]);
        assert ops[..k + 1][..k] == ops[..k];
      }
      assert ops[..|ops|] == ops;
    }
  }

  // ---------------------------------------------------------------------------------------------
  // The reconcile sweep
  // ---------------------------------------------------------------------------------------------

  predicate Fresh(lastAdvanced: map<Plan, int>, plan: Plan, now: int, bound: int) {
    plan in lastAdvanced && now - lastAdvanced[plan] <= bound
  }

  /** The visit to one plan: the length of the history when the last advance was read, and when the visit was over. */
  datatype Visit = Visit(plan: Plan, active: bool, now: int, look: nat, end: nat)

  predicate WasFresh(trace: seq<Op>, v: Visit, bound: int) {
    v.look <= |trace| && Fresh(At(trace, v.look).q.lastAdvanced, v.plan, v.now, bound)
  }

  /** What a visit leaves: an active plan was fresh, or has just been asked for, and then the queue remembers it unless
      it is closed. */
  predicate Served(trace: seq<Op>, v: Visit, bound: int) {
    && v.look <= v.end <= |trace|
    && (v.active && !WasFresh(trace, v, bound) ==>
          && ValidKey(v.plan) && v.look < v.end && trace[v.end - 1] == Request(v.plan)
          && (At(trace, v.end).q.closed || Remembered(At(trace, v.end).q, v.plan)))
  }

  /** The plans that were active and stale when they were looked at. */
  function AskedFor(trace: seq<Op>, visits: seq<Visit>, bound: int): seq<Plan> {
    if visits == [] then []
    else
      var v := visits[|visits| - 1];
      AskedFor(trace, visits[..|visits| - 1], bound) + if v.active && !WasFresh(trace, v, bound) then [v.plan] else []
  }

  lemma ServedStays(trace: seq<Op>, more: seq<Op>, v: Visit, bound: int)
    requires trace <= more && Served(trace, v, bound)
    ensures Served(more, v, bound) && WasFresh(more, v, bound) == WasFresh(trace, v, bound)
  {
    AtPrefix(trace, more, v.look);
    AtPrefix(trace, more, v.end);
  }

  lemma {:induction false} VisitsStay(trace: seq<Op>, more: seq<Op>, visits: seq<Visit>, bound: int)
    requires trace <= more && forall i | 0 <= i < |visits| :: Served(trace, visits[i], bound)
    ensures forall i | 0 <= i < |visits| :: Served(more, visits[i], bound)
    ensures AskedFor(more, visits, bound) == AskedFor(trace, visits, bound)
    decreases |visits|
  {
    hide Served, WasFresh;
    if visits != [] {
      VisitsStay(trace, more, visits[..|visits| - 1], bound);
      ServedStays(trace, more, visits[|visits| - 1], bound);
    }
  }

  /** Step `k` of the history left the plan's last advance missing or older than the bound. */
  predicate StaleAt(trace: seq<Op>, k: nat, plan: Plan, now: int, bound: int)
    requires k <= |trace|
  {
    !Fresh(At(trace, k).q.lastAdvanced, plan, now, bound)
  }

  /** One visit of the sweep. The others act before the look, and again between the look and the request. */
  method VisitPlan(rt: Runtime, plan: Plan, active: bool, now: int, bound: int, before: seq<Op>, between: seq<Op>)
    returns (ok: bool, asked: bool, ghost v: Visit)
    requires rt.Valid()
    modifies rt, rt.queue
    ensures rt.Valid() && old(rt.trace) <= rt.trace
    ensures v.plan == plan && v.active == active && v.now == now && |old(rt.trace)| <= v.look <= |rt.trace|
    ensures ok ==> Served(rt.trace, v, bound) && (asked <==> active && !WasFresh(rt.trace, v, bound))
    ensures !ok ==> !asked && active && !ValidKey(plan) && StaleAt(rt.trace, v.look, plan, now, bound)
  {
    rt.ActAll(before);
    ghost var look, seen := |rt.trace|, rt.trace;
    ok, asked := true, false;
    if active {
      var last := rt.queue.lastAdvanced;
      if !(plan in last && now - last[plan] <= bound) {
        rt.ActAll(between);
        AtPrefix(seen, rt.trace, look);
        v := Visit(plan, active, now, look, |rt.trace|);
        if !ValidKey(plan) {
          return false, false, v;
        }
        var _ := rt.Act(Request(plan));
        AtPrefix(seen, rt.trace, look);
        asked := true;
      }
    }
    v := Visit(plan, active, now, look, |rt.trace|);
    VisitServed(rt.trace, v, bound, asked);
  }

  lemma VisitServed(trace: seq<Op>, v: Visit, bound: int, asked: bool)
    requires v.look <= v.end == |trace| && (asked <==> v.active && !WasFresh(trace, v, bound))
    requires asked ==> ValidKey(v.plan) && v.look < v.end && trace[v.end - 1] == Request(v.plan)
    ensures Served(trace, v, bound)
  {
    if asked {
      AtStep(trace, v.end - 1);
      AtIsInv(trace, v.end - 1);
      StepRemembers(At(trace, v.end - 1), Request(v.plan), v.plan);
    }
  }

  lemma OneMoreVisit(trace: seq<Op>, visits: seq<Visit>, v: Visit, bound: int)
    ensures AskedFor(trace, visits + [v], bound)
            == AskedFor(trace, visits, bound) + if v.active && !WasFresh(trace, v, bound) then [v.plan] else []
  {
    assert (visits + [v])[..|visits|] == visits;
  }

  /** A sweep among producers and slots at work: `others[2 * i]` is what they do before the `i`-th plan is looked at,
      `others[2 * i + 1]` what they do between the look and the request. Every visit ends with the plan fresh or
      remembered; the sweep asks for exactly the active plans that were stale when it looked; and it fails exactly at
      a stale active plan whose name is not a valid key, leaving the later plans unvisited. */
  method Sweep(rt: Runtime, plans: seq<Plan>, inert: set<Plan>, clock: seq<int>, bound: int, others: seq<seq<Op>>)
    returns (ok: bool, queued: seq<Plan>, ghost visits: seq<Visit>)
    requires rt.Valid() && |clock| == |plans| && |others| == 2 * |plans|
    modifies rt, rt.queue
    ensures rt.Valid() && old(rt.trace) <= rt.trace
    ensures |visits| <= |plans| && (ok <==> |visits| == |plans|)
    ensures forall i | 0 <= i < |visits| ::
              && visits[i].plan == plans[i] && visits[i].active == (plans[i] !in inert) && visits[i].now == clock[i]
              && |old(rt.trace)| <= visits[i].look && Served(rt.trace, visits[i], bound)
    ensures queued == AskedFor(rt.trace, visits, bound)
    ensures !ok ==>
              var p := plans[|visits|];
              && p !in inert && !ValidKey(p)
              && exists k | |old(rt.trace)| <= k <= |rt.trace| :: StaleAt(rt.trace, k, p, clock[|visits|], bound)
  {
    hide Served, AskedFor, WasFresh, StaleAt;
    ok, queued, visits := true, [], [];
    NothingAskedFor(rt.trace, bound);
    for n := 0 to |plans|
      invariant rt.Valid() && old(rt.trace) <= rt.trace && ok && |visits| == n
      invariant forall i | 0 <= i < n ::
                  && visits[i].plan == plans[i] && visits[i].active == (plans[i] !in inert) && visits[i].now == clock[i]
                  && |old(rt.trace)| <= visits[i].look && Served(rt.trace, visits[i], bound)
      invariant queued == AskedFor(rt.trace, visits, bound)
    {
      ghost var before := rt.trace;
      var asked;
      ghost var v;
      ok, asked, v := VisitPlan(rt, plans[n], plans[n] !in inert, clock[n], bound, others[2 * n], others[2 * n + 1]);
      VisitsStay(before, rt.trace, visits, bound);
      if !ok {
        return;
      }
      OneMoreVisit(rt.trace, visits, v, bound);
      visits := visits + [v];
      if asked {
        queued := queued + [plans[n]];
      }
    }
  }

  lemma NothingAskedFor(trace: seq<Op>, bound: int)
    ensures AskedFor(trace, [], bound) == []
  {
  }

  /** The plan was handed to a slot at or after step `k`. */
  ghost predicate HandedOutSince(trace: seq<Op>, k: nat, p: Plan) {
    exists j | k <= j < |trace| :: TakenBy(At(trace, j), trace[j]) == [p]
  }

  lemma {:induction false} RememberedOrHandedOut(trace: seq<Op>, k: nat, n: nat, p: Plan)
    requires k <= n <= |trace| && Remembered(At(trace, k).q, p)
    ensures Remembered(At(trace, n).q, p) || HandedOutSince(trace, k, p)
    decreases n
  {
    hide ValidKey;
    if n > k {
      RememberedOrHandedOut(trace, k, n - 1, p);
      AtStep(trace, n - 1);
      AtIsInv(trace, n - 1);
      StepRemembers(At(trace, n - 1), trace[n - 1], p);
    }
  }

  /** After a visit, whatever the others do: an active plan was fresh when it was looked at, or is still remembered, or
      has been handed to a slot since, unless the queue had been closed. */
  lemma SweptIsLookedAfter(trace: seq<Op>, v: Visit, bound: int, n: nat)
    requires Served(trace, v, bound) && v.active && v.end <= n <= |trace|
    ensures WasFresh(trace, v, bound) || At(trace, v.end).q.closed || Remembered(At(trace, n).q, v.plan)
            || HandedOutSince(trace, v.end, v.plan)
  {
    if Remembered(At(trace, v.end).q, v.plan) {
      RememberedOrHandedOut(trace, v.end, n, v.plan);
    }
  }

  // ---------------------------------------------------------------------------------------------
  // The turns of a slot
  // ---------------------------------------------------------------------------------------------

  predicate Foreign(op: Op, w: nat) {
    (op.Take? || op.Finish?) ==> op.slot != w
  }

  /** Slot `w` takes the plan at step `first` and finishes at step `last`, and does nothing else in between. */
  predicate IsTurn(trace: seq<Op>, w: nat, first: nat, last: nat, plan: Plan, now: int) {
    && first < last < |trace| && trace[first] == Take(w) && trace[last] == Finish(w, now)
    && TakenBy(At(trace, first), trace[first]) == [plan]
    && forall m | first < m < last :: Foreign(trace[m], w)
  }

  lemma TurnStays(trace: seq<Op>, more: seq<Op>, w: nat, first: nat, last: nat, plan: Plan, now: int)
    requires trace <= more && IsTurn(trace, w, first, last, plan, now)
    ensures IsTurn(more, w, first, last, plan, now)
  {
    AtPrefix(trace, more, first);
  }

  lemma {:induction false} HeldInTurn(trace: seq<Op>, w: nat, first: nat, last: nat, plan: Plan, now: int, m: nat)
    requires IsTurn(trace, w, first, last, plan, now) && first < m <= last
    ensures w in At(trace, m).held && At(trace, m).held[w] == plan
    decreases m
  {
    hide ValidKey, RequestOn, FinishOn;
    AtStep(trace, m - 1);
    if m - 1 > first {
      HeldInTurn(trace, w, first, last, plan, now, m - 1);
    }
  }

  /** From its take to its finish a slot holds the plan it took, which no other slot holds; the finish records the time
      of the advance and frees the slot, whatever the others do meanwhile. */
  lemma TurnFinishesPlan(trace: seq<Op>, w: nat, first: nat, last: nat, plan: Plan, now: int)
    requires IsTurn(trace, w, first, last, plan, now)
    ensures forall m, v | first < m <= last && v in At(trace, m).held :: At(trace, m).held[v] == plan <==> v == w
    ensures w !in At(trace, last + 1).held
    ensures var advanced := At(trace, last + 1).q.lastAdvanced; plan in advanced && advanced[plan] == now
  {
    forall m, v | first < m <= last && v in At(trace, m).held ensures At(trace, m).held[v] == plan <==> v == w {
      HeldInTurn(trace, w, first, last, plan, now, m);
      AtIsInv(trace, m);
    }
    HeldInTurn(trace, w, first, last, plan, now, last);
    AtIsInv(trace, last);
    AtStep(trace, last);
  }

  // ---------------------------------------------------------------------------------------------
  // When a plan was advanced last
  // ---------------------------------------------------------------------------------------------

  /** Step `k` is the finish of plan `p` by the slot that held it. */
  predicate Finishes(trace: seq<Op>, k: nat, p: Plan)
    requires k < |trace|
  {
    && trace[k].Finish? && trace[k].slot in At(trace, k).held && At(trace, k).held[trace[k].slot] == p
  }

  /** Step `k` finished the plan, and no later step before `n` did. */
  predicate LastFinish(trace: seq<Op>, k: nat, n: nat, p: Plan)
    requires n <= |trace|
  {
    k < n && trace[k].Finish? && Finishes(trace, k, p) && forall j | k < j < n :: !Finishes(trace, j, p)
  }

  lemma TimeStep(s: Sys, op: Op, p: Plan)
    requires Inv(s)
    ensures var before, after := s.q.lastAdvanced, Step(s, op).q.lastAdvanced;
            if op.Finish? && op.slot in s.held && s.held[op.slot] == p then p in after && after[p] == op.now
            else (p in after <==> p in before) && (p in before ==> after[p] == before[p])
  {
    hide ValidKey;
  }

  /** Over any history, a plan has a time of advance exactly when some slot that held it finished it, and the time is
      that of the last such finish: what happens to other plans, or to this one otherwise, does not touch it. */
  lemma {:induction false} TimesAreFinishes(trace: seq<Op>, n: nat, p: Plan)
    requires n <= |trace|
    ensures var times := At(trace, n).q.lastAdvanced;
            && (p in times <==> exists k | 0 <= k < n :: Finishes(trace, k, p))
            && (p in times ==> exists k | 0 <= k < n :: LastFinish(trace, k, n, p) && times[p] == trace[k].now)
    decreases n
  {
    hide Step, Finishes, Inv;
    if n > 0 {
      TimesAreFinishes(trace, n - 1, p);
      AtStep(trace, n - 1);
      AtIsInv(trace, n - 1);
      TimeStep(At(trace, n - 1), trace[n - 1], p);
      FinishIsHeld(trace, n - 1, p);
      if Finishes(trace, n - 1, p) {
        assert LastFinish(trace, n - 1, n, p);
      } else if p in At(trace, n - 1).q.lastAdvanced {
        var k :| 0 <= k < n - 1 && LastFinish(trace, k, n - 1, p)
          && At(trace, n - 1).q.lastAdvanced[p] == trace[k].now;
        assert LastFinish(trace, k, n, p);
      }
    }
  }

  lemma FinishIsHeld(trace: seq<Op>, k: nat, p: Plan)
    requires k < |trace|
    ensures var s, op := At(trace, k), trace[k];
            Finishes(trace, k, p) <==> op.Finish? && op.slot in s.held && s.held[op.slot] == p
  {
  }

  /** The sweep leaves an active plan alone exactly when the last slot that finished it did so within the bound. */
  lemma WasFreshIff(trace: seq<Op>, v: Visit, bound: int)
    requires v.look <= |trace|
    ensures WasFresh(trace, v, bound)
            <==> exists k | 0 <= k < v.look :: LastFinish(trace, k, v.look, v.plan) && v.now - trace[k].now <= bound
  {
    hide Finishes;
    TimesAreFinishes(trace, v.look, v.plan);
  }

  /** A slot that holds nothing has finished every plan it ever took: after each of its takes comes its own finish, and
      until then it held the plan. */
  lemma {:induction false} TakenPlanIsFinished(trace: seq<Op>, w: nat, m: nat, n: nat, plan: Plan)
    requires m < n <= |trace| && trace[m] == Take(w) && TakenBy(At(trace, m), trace[m]) == [plan]
    ensures || (w in At(trace, n).held && At(trace, n).held[w] == plan)
            || exists k | m < k < n ::
                 trace[k].Finish? && trace[k].slot == w && w in At(trace, k).held && At(trace, k).held[w] == plan
    decreases n
  {
    hide ValidKey, RequestOn, FinishOn;
    AtStep(trace, n - 1);
    if n - 1 > m {
      TakenPlanIsFinished(trace, w, m, n - 1, plan);
    }
  }
}
