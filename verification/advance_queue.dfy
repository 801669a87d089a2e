/** The coalescing per-plan advance queue and the interleavings of its producers and worker slots. */
module AdvanceQueues {

  type Plan = string

  predicate KeyChar(c: char) {
    'A' <= c <= 'Z' || 'a' <= c <= 'z' || '0' <= c <= '9' || c == '.' || c == '_' || c == '-'
  }

  predicate KeyChars(s: string) {
    forall i | 0 <= i < |s| :: KeyChar(s[i])
  }

  /** The name rule for plans. The pattern's `$` also matches in front of a final line feed, so one is let through. */
  predicate ValidKey(name: Plan) {
    var core := if name != "" && name[|name| - 1] == '\n' then name[..|name| - 1] else name;
    && core != "" && KeyChars(core)
    && exists i | 0 <= i < |name| :: name[i] != '.'
  }

  /** The characters of a key by their code points: digits, letters, and the three signs. */
  lemma KeyCharIff(c: char)
    ensures KeyChar(c) <==> var u := c as int; 48 <= u <= 57 || 65 <= u <= 90 || 97 <= u <= 122 || u in {45, 46, 95}
  {
  }

  /** A name of key characters, other than dots alone. */
  predicate PlainKey(name: Plan) {
    && name != "" && KeyChars(name)
    && exists i | 0 <= i < |name| :: name[i] != '.'
  }

  /** Exactly which names pass the rule: the plain keys, and besides any run of key characters, even of dots alone,
      with a line feed at its end. */
  lemma ValidKeyIff(name: Plan)
    ensures ValidKey(name)
            <==> PlainKey(name) || (|name| > 1 && name[|name| - 1] == '\n' && KeyChars(name[..|name| - 1]))
  {
    if name != "" && name[|name| - 1] == '\n' {
      assert !KeyChar(name[|name| - 1]);
      assert name[|name| - 1] != '.';
      assert |name| > 1 <==> name[..|name| - 1] != "";
    }
  }

  datatype Queue = Queue(
    waiting: seq<Plan>, inFlight: set<Plan>, dirty: set<Plan>, lastAdvanced: map<Plan, int>, closed: bool)

  datatype Requested = Queued | Coalesced | Refused
  datatype Taken = Got(plan: Plan) | Nothing | Shut

  const NEW_QUEUE := Queue([], {}, {}, map[], false)

  /** A request: appended, coalesced with a queued plan, or remembered on a plan in flight. */
  function RequestOn(q: Queue, plan: Plan): Queue {
    if !ValidKey(plan) || q.closed || plan in q.waiting then q
    else if plan in q.inFlight then q.(dirty := q.dirty + {plan})
    else q.(waiting := q.waiting + [plan])
  }

  function TakeFrom(q: Queue): Taken {
    if q.closed then Shut else if q.waiting == [] then Nothing else Got(q.waiting[0])
  }

  function AfterTake(q: Queue): Queue {
    if q.closed || q.waiting == [] then q
    else q.(waiting := q.waiting[1..], inFlight := q.inFlight + {q.waiting[0]})
  }

  /** The end of an advance; a plan marked dirty meanwhile goes to the tail. */
  function FinishOn(q: Queue, plan: Plan, now: int): Queue {
    if plan !in q.inFlight then q
    else
      var q1 := q.(inFlight := q.inFlight - {plan}, lastAdvanced := q.lastAdvanced[plan := now]);
      if plan in q.dirty then q1.(dirty := q.dirty - {plan}, waiting := q.waiting + [plan]) else q1
  }

  predicate Distinct(s: seq<Plan>) {
    forall i, j | 0 <= i < j < |s| :: s[i] != s[j]
  }

  predicate QueueInv(q: Queue) {
    && Distinct(q.waiting)
    && (forall i | 0 <= i < |q.waiting| :: q.waiting[i] !in q.inFlight)
    && q.dirty <= q.inFlight
  }

  /** The queue object. Every method is one critical section under its condition. */
  class AdvanceQueue {
    var waiting: seq<Plan>
    var inFlight: set<Plan>
    var dirty: set<Plan>
    var lastAdvanced: map<Plan, int>
    var closed: bool

    function State(): Queue
      reads this
    {
      Queue(waiting, inFlight, dirty, lastAdvanced, closed)
    }

    constructor ()
      ensures State() == NEW_QUEUE
    {
      waiting, inFlight, dirty, lastAdvanced, closed := [], {}, {}, map[], false;
    }

    method Request(plan: Plan) returns (r: Requested)
      modifies this
      ensures State() == RequestOn(old(State()), plan)
      ensures r == Refused <==> !ValidKey(plan)
      ensures r == Queued <==> waiting == old(waiting) + [plan]
      ensures ValidKey(plan) && !closed ==> plan in waiting || (plan in inFlight && plan in dirty)
    {
      if !ValidKey(plan) {
        return Refused;
      }
      if closed || plan in waiting {
        return Coalesced;
      }
      if plan in inFlight {
        dirty := dirty + {plan};
        return Coalesced;
      }
      waiting := waiting + [plan];
      return Queued;
    }

    /** One pass of the blocking `take`: what it does each time it holds the condition. */
    method Take() returns (r: Taken)
      modifies this
      ensures r == TakeFrom(old(State())) && State() == AfterTake(old(State()))
    {
      if closed {
        return Shut;
      }
      if waiting != [] {
        var plan := waiting[0];
        waiting := waiting[1..];
        inFlight := inFlight + {plan};
        return Got(plan);
      }
      return Nothing;
    }

    method Finish(plan: Plan, now: int)
      modifies this
      ensures State() == FinishOn(old(State()), plan, now)
    {
      if plan !in inFlight {
        return;
      }
      inFlight := inFlight - {plan};
      lastAdvanced := lastAdvanced[plan := now];
      if plan in dirty {
        dirty := dirty - {plan};
        waiting := waiting + [plan];
      }
    }

    method Close()
      modifies this
      ensures State() == old(State()).(closed := true)
    {
      closed := true;
    }
  }

  // ---------------------------------------------------------------------------------------------
  // Producers and worker slots, in any interleaving
  // ---------------------------------------------------------------------------------------------

  /** One critical section of some thread. */
  datatype Op = Request(plan: Plan) | Take(slot: nat) | Finish(slot: nat, now: int) | Close

  datatype Sys = Sys(q: Queue, held: map<nat, Plan>)

  /** A slot takes only when it holds no plan, and finishes only the plan it holds. */
  function Step(s: Sys, op: Op): Sys {
    match op
    case Request(p) => s.(q := RequestOn(s.q, p))
    case Take(w) =>
      if w in s.held then s
      else
        var r := TakeFrom(s.q);
        Sys(AfterTake(s.q), if r.Got? then s.held[w := r.plan] else s.held)
    case Finish(w, now) => if w in s.held then Sys(FinishOn(s.q, s.held[w], now), s.held - {w}) else s
    case Close => s.(q := s.q.(closed := true))
  }

  function TakenBy(s: Sys, op: Op): seq<Plan> {
    if op.Take? && op.slot !in s.held && TakeFrom(s.q).Got? then [TakeFrom(s.q).plan] else []
  }

  function Run(s: Sys, ops: seq<Op>): Sys {
    if ops == [] then s else Step(Run(s, ops[..|ops| - 1]), ops[|ops| - 1])
  }

  /** The plans handed to slots, in order. */
  function Takes(s: Sys, ops: seq<Op>): seq<Plan> {
    if ops == [] then []
    else
      var before := ops[..|ops| - 1];
      Takes(s, before) + TakenBy(Run(s, before), ops[|ops| - 1])
  }

  /** The plans in flight are exactly the plans the slots hold, each held by one slot. */
  ghost predicate Inv(s: Sys) {
    && QueueInv(s.q)
    && (forall w | w in s.held :: s.held[w] in s.q.inFlight)
    && (forall p | p in s.q.inFlight :: exists w | w in s.held :: s.held[w] == p)
    && (forall v, w | v in s.held && w in s.held && v != w :: s.held[v] != s.held[w])
  }

  lemma TakeKeepsInv(s: Sys, w: nat)
    requires Inv(s) && w !in s.held && TakeFrom(s.q).Got?
    ensures Inv(Step(s, Take(w)))
  {
    var t := Step(s, Take(w));
    assert t.held[w] == s.q.waiting[0];
    forall p | p in t.q.inFlight ensures exists v | v in t.held :: t.held[v] == p {
      if p != s.q.waiting[0] {
        var v :| v in s.held && s.held[v] == p;
        assert v in t.held && t.held[v] == p;
      }
    }
  }

  lemma FinishKeepsInv(s: Sys, w: nat, now: int)
    requires Inv(s) && w in s.held
    ensures Inv(Step(s, Finish(w, now)))
  {
    var t := Step(s, Finish(w, now));
    forall p | p in t.q.inFlight ensures exists v | v in t.held :: t.held[v] == p {
      var v :| v in s.held && s.held[v] == p;
      assert v != w && v in t.held && t.held[v] == p;
    }
  }

  lemma StepKeepsInv(s: Sys, op: Op)
    requires Inv(s)
    ensures Inv(Step(s, op))
  {
    if op.Take? && TakenBy(s, op) != [] {
      TakeKeepsInv(s, op.slot);
    } else if op.Finish? && op.slot in s.held {
      FinishKeepsInv(s, op.slot, op.now);
    }
  }

  /** Over every interleaving: no duplicates, nothing both queued and in flight, and no plan in two slots. */
  lemma {:induction false} RunKeepsInv(s: Sys, ops: seq<Op>)
    requires Inv(s)
    ensures Inv(Run(s, ops))
    ensures var t := Run(s, ops);
            forall v, w | v in t.held && w in t.held && v != w :: t.held[v] != t.held[w]
    decreases |ops|
  {
    if ops != [] {
      RunKeepsInv(s, ops[..|ops| - 1]);
      StepKeepsInv(Run(s, ops[..|ops| - 1]), ops[|ops| - 1]);
    }
  }

  lemma StepServesHead(s: Sys, op: Op)
    ensures s.q.waiting <= TakenBy(s, op) + Step(s, op).q.waiting
  {
    if TakenBy(s, op) != [] {
      assert s.q.waiting == [s.q.waiting[0]] + s.q.waiting[1..];
    }
  }

  lemma PrefixThrough(a: seq<Plan>, b: seq<Plan>, c: seq<Plan>, d: seq<Plan>)
    requires a <= b + c && c <= d
    ensures a <= b + d
  {
  }

  /** Plans leave in the order they wait: what waits now is a prefix of what is handed out later followed by what
      waits then. So the plan at index `i` is the one handed out by exactly the `i + 1`-th later take. */
  lemma {:induction false} FirstComeFirstServed(s: Sys, ops: seq<Op>)
    ensures s.q.waiting <= Takes(s, ops) + Run(s, ops).q.waiting
    decreases |ops|
  {
    hide Step, TakenBy;
    if ops != [] {
      var before, op := ops[..|ops| - 1], ops[|ops| - 1];
      FirstComeFirstServed(s, before);
      var t := Run(s, before);
      StepServesHead(t, op);
      PrefixThrough(s.q.waiting, Takes(s, before), t.q.waiting, TakenBy(t, op) + Step(t, op).q.waiting);
      assert Takes(s, before) + (TakenBy(t, op) + Step(t, op).q.waiting)
          == Takes(s, ops) + Run(s, ops).q.waiting;
    }
  }

  lemma ServedAtTurn(s: Sys, ops: seq<Op>, i: nat)
    requires i < |s.q.waiting| && i < |Takes(s, ops)|
    ensures Takes(s, ops)[i] == s.q.waiting[i]
  {
    FirstComeFirstServed(s, ops);
    assert (Takes(s, ops) + Run(s, ops).q.waiting)[i] == Takes(s, ops)[i];
  }

  predicate NoRequests(ops: seq<Op>) {
    forall i | 0 <= i < |ops| :: !ops[i].Request?
  }

  /** Without new requests the work left is exactly what waits plus what is dirty: each take uses up one unit, and
      finishing moves a unit from dirty to waiting. */
  lemma {:induction false} WorkDrains(s: Sys, ops: seq<Op>)
    requires Inv(s) && NoRequests(ops)
    ensures var t := Run(s, ops);
            |Takes(s, ops)| + |t.q.waiting| + |t.q.dirty| == |s.q.waiting| + |s.q.dirty|
    decreases |ops|
  {
    if ops != [] {
      var before, op := ops[..|ops| - 1], ops[|ops| - 1];
      WorkDrains(s, before);
      RunKeepsInv(s, before);
      var t := Run(s, before);
      if op.Finish? && op.slot in t.held && t.held[op.slot] in t.q.dirty {
        assert |t.q.dirty - {t.held[op.slot]}| == |t.q.dirty| - 1;
      }
    }
  }

  /** A request for `p` was accepted at step `i` and `p` has not been handed out since. */
  predicate OwedSince(s: Sys, ops: seq<Op>, p: Plan, i: nat) {
    && i < |ops| && ops[i] == Request(p) && ValidKey(p) && !Run(s, ops[..i]).q.closed
    && forall j | i < j < |ops| :: TakenBy(Run(s, ops[..j]), ops[j]) != [p]
  }

  ghost predicate Owed(s: Sys, ops: seq<Op>, p: Plan) {
    exists i: nat :: OwedSince(s, ops, p, i)
  }

  predicate Remembered(q: Queue, p: Plan) {
    p in q.waiting || p in q.dirty
  }

  lemma OwedStep(s: Sys, before: seq<Op>, op: Op, p: Plan)
    ensures Owed(s, before + [op], p) <==>
            || (Owed(s, before, p) && TakenBy(Run(s, before), op) != [p])
            || (op == Request(p) && ValidKey(p) && !Run(s, before).q.closed)
  {
    var ops := before + [op];
    var n := |before|;
    assert ops[..n] == before;
    assert forall i | 0 <= i <= n :: ops[..i] == before[..i];
    if Owed(s, before, p) && TakenBy(Run(s, before), op) != [p] {
      var i: nat :| OwedSince(s, before, p, i);
      assert OwedSince(s, ops, p, i);
    }
    if op == Request(p) && ValidKey(p) && !Run(s, before).q.closed {
      assert OwedSince(s, ops, p, n);
    }
    if Owed(s, ops, p) {
      var i: nat :| OwedSince(s, ops, p, i);
      if i < n {
        assert TakenBy(Run(s, ops[..n]), ops[n]) != [p];
        assert forall j | i < j < n :: TakenBy(Run(s, ops[..j]), ops[j]) != [p] && before[j] == ops[j];
        assert OwedSince(s, before, p, i);
      }
    }
  }

  /** No wake-up is lost and none is invented: starting from a queue that does not know `p`, the plan waits or is
      marked dirty in flight exactly when a request for it was accepted and it has not been handed out since. */
  lemma {:induction false} NoLostWakeUp(s: Sys, ops: seq<Op>, p: Plan)
    requires Inv(s) && !Remembered(s.q, p)
    ensures var q := Run(s, ops).q;
            && (Owed(s, ops, p) <==> Remembered(q, p))
            && (Owed(s, ops, p) ==> p in q.waiting || (p in q.inFlight && p in q.dirty))
    decreases |ops|
  {
    if ops == [] {
      forall i: nat ensures !OwedSince(s, ops, p, i) {}
    } else {
      var before, op := ops[..|ops| - 1], ops[|ops| - 1];
      assert ops == before + [op];
      NoLostWakeUp(s, before, p);
      OwedStep(s, before, op, p);
      RunKeepsInv(s, before);
      RunKeepsInv(s, ops);
      StepRemembers(Run(s, before), op, p);
    }
  }

  lemma StepRemembers(s: Sys, op: Op, p: Plan)
    requires Inv(s)
    ensures Remembered(Step(s, op).q, p) <==>
            || (Remembered(s.q, p) && TakenBy(s, op) != [p])
            || (op == Request(p) && ValidKey(p) && !s.q.closed)
  {
    var t := Step(s, op);
    match op {
      case Request(r) =>
      case Close =>
      case Take(w) =>
        if TakenBy(s, op) != [] {
          assert s.q.waiting == [s.q.waiting[0]] + t.q.waiting;
        }
      case Finish(w, now) =>
    }
  }

  /** Closing is for good: whatever comes after it, the queue stays closed, no plan is handed out, and no plan is
      remembered that was not before. */
  lemma {:induction false} ClosedForGood(s: Sys, ops: seq<Op>, p: Plan)
    requires Inv(s)
    ensures var t := Run(s, [Close] + ops);
            && Inv(t) && t.q.closed && Takes(s, [Close] + ops) == []
            && (Remembered(t.q, p) ==> Remembered(s.q, p))
    decreases |ops|
  {
    hide ValidKey;
    var all := [Close] + ops;
    var before, op := all[..|all| - 1], all[|all| - 1];
    assert all == before + [op];
    if ops == [] {
      assert before == [] && op == Close;
    } else {
      assert before == [Close] + ops[..|ops| - 1];
      ClosedForGood(s, ops[..|ops| - 1], p);
    }
    StepKeepsInv(Run(s, before), op);
    StepRemembers(Run(s, before), op, p);
  }
}
