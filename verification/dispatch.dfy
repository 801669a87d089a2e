/** Dispatch under a released plan lock: ticks and other writers of one plan's manifest, interleaved step by step. */
module Dispatch {
  import opened Options

  type Actor = nat
  type Pid = nat
  type Key = string

  datatype Status = Todo | Interrupted | ChangesRequested | InProgress | Failed | Settled(name: string)

  /** A well-formed lease; anything else in its place reads as no lease at all. */
  datatype Lease = Lease(expires: int, owner: Option<Pid>)

  datatype Story = Story(status: Status, lease: Option<Lease>, attempts: nat, rest: string)

  type Manifest = map<Key, Story>

  /** Where a tick is. Between `Looking` and `Released`, and again from `Back` on, it holds the plan lock. */
  datatype Phase =
    | Outside
    | Holding
    | Looking(key: Key, lease: Lease, copy: Manifest)
    | Claimed(key: Key, lease: Lease)
    | Released(key: Key, lease: Lease)
    | Back(key: Key, lease: Lease, ok: bool)
    | Clearing(key: Key, lease: Lease, ok: bool, copy: Manifest)

  /** The plan's manifest and lock, the clock, the processes known to be gone, and where every tick is. A story whose
      failed dispatches reach `limit` is given up. */
  datatype World = World(disk: Manifest, lock: Option<Actor>, now: int, gone: set<Pid>, phases: map<Actor, Phase>,
                         limit: int) {
    function PhaseOf(a: Actor): Phase {
      if a in phases then phases[a] else Outside
    }

    function With(a: Actor, p: Phase): World {
      this.(phases := phases[a := p])
    }
  }

  predicate Dispatchable(s: Status) {
    s.Todo? || s.Interrupted? || s.ChangesRequested?
  }

  /** A lease is live until it expires, unless its owner is provably gone. */
  predicate Live(l: Option<Lease>, now: int, gone: set<Pid>) {
    l.Some? && now < l.value.expires && (l.value.owner.Some? ==> l.value.owner.value !in gone)
  }

  /** What a finished dispatch leaves in a story: no lease, and one more attempt when it failed. */
  function Settle(s: Story, ok: bool, limit: int): Story {
    if ok then s.(lease := None)
    else
      var attempts := s.attempts + 1;
      s.(lease := None, attempts := attempts, status := if attempts >= limit then Failed else s.status)
  }

  datatype Step =
    | Begin(a: Actor)
    | End(a: Actor)
    | Look(a: Actor, key: Key, ttl: int)
    | Persist(a: Actor)
    | Release(a: Actor)
    | Return(a: Actor, ok: bool)
    | Timeout(a: Actor)
    | Reread(a: Actor)
    | Clear(a: Actor)
    | Other(disk: Manifest)
    | Elapse(seconds: nat)
    | Die(pid: Pid)
    | Born(pid: Pid)

  /** The process every actor runs in. */
  type Processes = Actor -> Pid

  predicate Enabled(of: Processes, w: World, s: Step) {
    match s
    case Begin(a) => w.lock.None? && w.PhaseOf(a).Outside? && of(a) !in w.gone
    case End(a) => w.PhaseOf(a).Holding?
    case Look(a, key, ttl) => w.PhaseOf(a).Holding? && ttl > 0
    case Persist(a) => w.PhaseOf(a).Looking?
    case Release(a) => w.PhaseOf(a).Claimed?
    case Return(a, ok) => w.PhaseOf(a).Released? && w.lock.None?
    case Timeout(a) => w.PhaseOf(a).Released?
    case Reread(a) => w.PhaseOf(a).Back?
    case Clear(a) => w.PhaseOf(a).Clearing?
    case Other(_) => w.lock.None?
    case Elapse(_) | Die(_) | Born(_) => true
  }

  /** The claim reads the manifest again, in the lock hold that will write it back. */
  function AfterLook(of: Processes, w: World, a: Actor, key: Key, ttl: int): World {
    if key !in w.disk || !Dispatchable(w.disk[key].status) || Live(w.disk[key].lease, w.now, w.gone) then w
    else
      var lease := Lease(w.now + ttl, Some(of(a)));
      w.With(a, Looking(key, lease, w.disk[key := w.disk[key].(lease := Some(lease))]))
  }

  /** A story that was dropped meanwhile ends the tick with an error. */
  function AfterReread(w: World, a: Actor): World
    requires w.PhaseOf(a).Back?
  {
    var p := w.PhaseOf(a);
    if p.key !in w.disk then w.With(a, Outside).(lock := None)
    else w.With(a, Clearing(p.key, p.lease, p.ok, w.disk[p.key := Settle(w.disk[p.key], p.ok, w.limit)]))
  }

  /** When a process dies its threads are gone, and the system drops its locks. */
  function AfterDeath(of: Processes, w: World, pid: Pid): World {
    w.(gone := w.gone + {pid}, lock := if w.lock.Some? && of(w.lock.value) == pid then None else w.lock,
       phases := map a | a in w.phases && of(a) != pid :: w.phases[a])
  }

  function Next(of: Processes, w: World, s: Step): World
    requires Enabled(of, w, s)
  {
    match s
    case Begin(a) => w.With(a, Holding).(lock := Some(a))
    case End(a) => w.With(a, Outside).(lock := None)
    case Look(a, key, ttl) => AfterLook(of, w, a, key, ttl)
    case Persist(a) => var p := w.PhaseOf(a); w.With(a, Claimed(p.key, p.lease)).(disk := p.copy)
    case Release(a) => var p := w.PhaseOf(a); w.With(a, Released(p.key, p.lease)).(lock := None)
    case Return(a, ok) => var p := w.PhaseOf(a); w.With(a, Back(p.key, p.lease, ok)).(lock := Some(a))
    case Timeout(a) => w.With(a, Outside)
    case Reread(a) => AfterReread(w, a)
    case Clear(a) => var p := w.PhaseOf(a); w.With(a, Holding).(disk := p.copy)
    case Other(disk) => w.(disk := disk)
    case Elapse(d) => w.(now := w.now + d)
    case Die(pid) => AfterDeath(of, w, pid)
    case Born(pid) => w.(gone := w.gone - {pid})
  }

  // ---------------------------------------------------------------------------------------------
  // Invariants
  // ---------------------------------------------------------------------------------------------

  predicate HoldsLock(p: Phase) {
    !p.Outside? && !p.Released?
  }

  /** From the persisted claim until the lease is cleared. */
  predicate Dispatching(p: Phase) {
    p.Claimed? || p.Released? || p.Back? || p.Clearing?
  }

  /** The copy a tick is about to write is the manifest on disk with its own story changed, and nothing else. */
  predicate FreshCopy(w: World, p: Phase) {
    && (p.Looking? ==>
          && p.key in w.disk && Dispatchable(w.disk[p.key].status)
          && p.copy == w.disk[p.key := w.disk[p.key].(lease := Some(p.lease))])
    && (p.Claimed? ==> p.key in w.disk && Dispatchable(w.disk[p.key].status))
    && (p.Clearing? ==> p.key in w.disk && p.copy == w.disk[p.key := Settle(w.disk[p.key], p.ok, w.limit)])
  }

  ghost predicate LockInv(w: World) {
    && (forall a: Actor :: w.lock == Some(a) <==> HoldsLock(w.PhaseOf(a)))
    && forall a: Actor :: FreshCopy(w, w.PhaseOf(a))
  }

  lemma LockStep(of: Processes, w: World, s: Step)
    requires LockInv(w) && Enabled(of, w, s)
    ensures LockInv(Next(of, w, s))
  {
    var w1 := Next(of, w, s);
    forall a: Actor
      ensures w1.lock == Some(a) <==> HoldsLock(w1.PhaseOf(a))
      ensures FreshCopy(w1, w1.PhaseOf(a))
    {
      assert w.lock == Some(a) <==> HoldsLock(w.PhaseOf(a));
      assert FreshCopy(w, w.PhaseOf(a));
    }
  }

  /** What the end of a dispatch leaves of a story: the lease is gone; a success changes nothing else; a failure counts
      one attempt, and gives the story up when that reaches the limit and leaves its status alone before. */
  predicate Concluded(before: Story, after: Story, ok: bool, limit: int) {
    && after.lease.None? && after.rest == before.rest
    && (ok ==> after.status == before.status && after.attempts == before.attempts)
    && (!ok ==> after.attempts == before.attempts + 1)
    && (!ok && before.attempts + 1 >= limit ==> after.status == Failed)
    && (!ok && before.attempts + 1 < limit ==> after.status == before.status)
  }

  lemma SettleSettles(s: Story, ok: bool, limit: int)
    ensures Concluded(s, Settle(s, ok, limit), ok, limit)
  {
  }

  lemma WriteTouchesOneStory(of: Processes, w: World, s: Step)
    requires LockInv(w) && Enabled(of, w, s) && !s.Other?
    ensures var w1 := Next(of, w, s);
            && w1.disk.Keys == w.disk.Keys
            && (w1.disk != w.disk ==> (s.Persist? || s.Clear?) && w.lock == Some(s.a))
            && forall k | k in w.disk ::
                 || w1.disk[k] == w.disk[k]
                 || (s.Persist? && w.PhaseOf(s.a).key == k
                     && w1.disk[k] == w.disk[k].(lease := Some(w.PhaseOf(s.a).lease)))
                 || (s.Clear? && w.PhaseOf(s.a).key == k
                     && Concluded(w.disk[k], w1.disk[k], w.PhaseOf(s.a).ok, w.limit))
  {
    hide Settle, Concluded;
    if s.Persist? || s.Clear? {
      assert FreshCopy(w, w.PhaseOf(s.a));
      assert w.lock == Some(s.a) <==> HoldsLock(w.PhaseOf(s.a));
      if s.Clear? {
        SettleSettles(w.disk[w.PhaseOf(s.a).key], w.PhaseOf(s.a).ok, w.limit);
      }
    }
  }

  predicate Owns(p: Phase) {
    Dispatching(p) || p.Looking?
  }

  predicate Apart(p: Phase, q: Phase) {
    Owns(p) && Owns(q) ==> p.key != q.key
  }

  /** A running dispatch has a living process, and its lease is the one on disk while its story is there. */
  predicate LeaseHeld(of: Processes, w: World, a: Actor) {
    var p := w.PhaseOf(a);
    && (!p.Outside? ==> of(a) !in w.gone)
    && (Owns(p) ==> p.lease.owner == Some(of(a)))
    && (Dispatching(p) && p.key in w.disk ==> w.disk[p.key].lease == Some(p.lease))
  }

  ghost predicate Inv(of: Processes, w: World) {
    && LockInv(w)
    && (forall a: Actor :: LeaseHeld(of, w, a))
    && forall a: Actor, b: Actor :: a != b ==> Apart(w.PhaseOf(a), w.PhaseOf(b))
  }

  /** What is assumed of everybody else: a story in dispatch keeps its lease, and is not dropped and planned anew. */
  ghost predicate Respects(w: World, s: Step) {
    s.Other? ==>
      forall a: Actor :: Dispatching(w.PhaseOf(a)) ==>
        var k := w.PhaseOf(a).key;
        k in s.disk ==> k in w.disk && s.disk[k].lease == w.disk[k].lease
  }

  /** No lease has run out inside its own dispatch. */
  ghost predicate Timely(w: World) {
    forall a: Actor :: Dispatching(w.PhaseOf(a)) ==> w.now < w.PhaseOf(a).lease.expires
  }

  lemma LeaseStep(of: Processes, w: World, s: Step, a: Actor)
    requires Inv(of, w) && Enabled(of, w, s) && Respects(w, s)
    ensures LeaseHeld(of, Next(of, w, s), a)
  {
    hide Settle, Dispatchable, Live;
    var actor := if s.Begin? || s.End? || s.Look? || s.Persist? || s.Release? || s.Return? || s.Timeout? || s.Reread?
                    || s.Clear?
                 then s.a else 0;
    assert LeaseHeld(of, w, a) && LeaseHeld(of, w, actor);
    assert FreshCopy(w, w.PhaseOf(actor));
    assert a != actor ==> Apart(w.PhaseOf(a), w.PhaseOf(actor));
  }

  lemma ApartStep(of: Processes, w: World, s: Step, a: Actor, b: Actor)
    requires Inv(of, w) && Enabled(of, w, s) && Timely(w) && a != b
    ensures Apart(Next(of, w, s).PhaseOf(a), Next(of, w, s).PhaseOf(b))
  {
    hide Settle, Dispatchable, FreshCopy;
    assert Apart(w.PhaseOf(a), w.PhaseOf(b)) && Apart(w.PhaseOf(b), w.PhaseOf(a));
    assert LeaseHeld(of, w, a) && LeaseHeld(of, w, b);
    assert (w.lock == Some(a) <==> HoldsLock(w.PhaseOf(a))) && (w.lock == Some(b) <==> HoldsLock(w.PhaseOf(b)));
  }

  function After(of: Processes, w: World, steps: seq<Step>): World
    requires Possible(of, w, steps)
    decreases |steps|, 1
  {
    if steps == [] then w else Next(of, After(of, w, steps[..|steps| - 1]), steps[|steps| - 1])
  }

  predicate Possible(of: Processes, w: World, steps: seq<Step>)
    decreases |steps|, 0
  {
    steps != [] ==>
      && Possible(of, w, steps[..|steps| - 1])
      && Enabled(of, After(of, w, steps[..|steps| - 1]), steps[|steps| - 1])
  }

  ghost predicate Tame(of: Processes, w: World, steps: seq<Step>)
    requires Possible(of, w, steps)
    decreases |steps|
  {
    steps != [] ==>
      var before := After(of, w, steps[..|steps| - 1]);
      Tame(of, w, steps[..|steps| - 1]) && Respects(before, steps[|steps| - 1]) && Timely(before)
  }

  predicate Idle(w: World) {
    w.lock.None? && w.phases == map[]
  }

  lemma {:induction false} RunKeepsInv(of: Processes, w: World, steps: seq<Step>)
    requires Idle(w) && Possible(of, w, steps) && Tame(of, w, steps)
    ensures Inv(of, After(of, w, steps))
    decreases |steps|
  {
    hide Next, Enabled, Respects, Timely;
    if steps != [] {
      var before, s := After(of, w, steps[..|steps| - 1]), steps[|steps| - 1];
      RunKeepsInv(of, w, steps[..|steps| - 1]);
      LockStep(of, before, s);
      forall a: Actor ensures LeaseHeld(of, Next(of, before, s), a) {
        LeaseStep(of, before, s, a);
      }
      forall a: Actor, b: Actor | a != b ensures Apart(Next(of, before, s).PhaseOf(a), Next(of, before, s).PhaseOf(b)) {
        ApartStep(of, before, s, a, b);
      }
    }
  }

  /** No story is in two dispatches at once, and a story in dispatch that is still planned carries that dispatch's
      lease. */
  lemma OneDispatchPerStory(of: Processes, w: World, steps: seq<Step>, a: Actor, b: Actor)
    requires Idle(w) && Possible(of, w, steps) && Tame(of, w, steps)
    requires var end := After(of, w, steps);
             Dispatching(end.PhaseOf(a)) && Dispatching(end.PhaseOf(b)) && end.PhaseOf(a).key == end.PhaseOf(b).key
    ensures a == b
    ensures var end := After(of, w, steps);
            end.PhaseOf(a).key in end.disk ==> end.disk[end.PhaseOf(a).key].lease == Some(end.PhaseOf(a).lease)
  {
    RunKeepsInv(of, w, steps);
    var end := After(of, w, steps);
    assert LeaseHeld(of, end, a);
    assert a != b ==> Apart(end.PhaseOf(a), end.PhaseOf(b));
  }

  lemma {:induction false} RunKeepsLock(of: Processes, w: World, steps: seq<Step>)
    requires Idle(w) && Possible(of, w, steps)
    ensures LockInv(After(of, w, steps))
    decreases |steps|
  {
    hide Next, Enabled;
    if steps != [] {
      RunKeepsLock(of, w, steps[..|steps| - 1]);
      LockStep(of, After(of, w, steps[..|steps| - 1]), steps[|steps| - 1]);
    }
  }

  /** No other actor's write is lost, in any interleaving and whatever the others write: a step of a tick leaves every
      other story as it is on disk at that moment; in its own story the claim writes the lease alone, and the end of the
      dispatch takes it off and settles the attempt. */
  lemma NoLostUpdate(of: Processes, w: World, steps: seq<Step>, s: Step)
    requires Idle(w) && Possible(of, w, steps) && Enabled(of, After(of, w, steps), s) && !s.Other?
    ensures var before := After(of, w, steps);
            var disk := Next(of, before, s).disk;
            && disk.Keys == before.disk.Keys
            && (disk != before.disk ==> (s.Persist? || s.Clear?) && before.lock == Some(s.a))
            && forall k | k in before.disk ::
                 || disk[k] == before.disk[k]
                 || (s.Persist? && before.PhaseOf(s.a).key == k
                     && disk[k] == before.disk[k].(lease := Some(before.PhaseOf(s.a).lease)))
                 || (s.Clear? && before.PhaseOf(s.a).key == k
                     && Concluded(before.disk[k], disk[k], before.PhaseOf(s.a).ok, before.limit))
  {
    hide Next, Concluded;
    RunKeepsLock(of, w, steps);
    WriteTouchesOneStory(of, After(of, w, steps), s);
  }

  /** Whatever everybody else does, a dispatch begins on a story that is in a dispatchable status at that moment, on
      disk and under the lock, and its claim is on disk before the lock is released. */
  lemma DispatchedFresh(of: Processes, w: World, steps: seq<Step>, s: Step)
    requires Idle(w) && Possible(of, w, steps) && Enabled(of, After(of, w, steps), s)
    requires var end := After(of, w, steps);
             exists a: Actor :: !end.PhaseOf(a).Released? && Next(of, end, s).PhaseOf(a).Released?
    ensures var end := After(of, w, steps);
            && s.Release? && end.lock == Some(s.a) && end.PhaseOf(s.a).key in end.disk
            && Dispatchable(end.disk[end.PhaseOf(s.a).key].status)
            && Next(of, end, s).disk == end.disk
  {
    RunKeepsLock(of, w, steps);
    var end := After(of, w, steps);
    assert s.Release?;
    assert FreshCopy(end, end.PhaseOf(s.a)) && (end.lock == Some(s.a) <==> HoldsLock(end.PhaseOf(s.a)));
  }

  /** A claim succeeds exactly when the story is planned, in one of the three statuses, and no lease is in the way:
      there is none, or it has run out, or its owner is gone. It takes a lease of its own for `ttl` seconds; a claim
      that fails changes nothing. */
  lemma ClaimIff(of: Processes, w: World, a: Actor, key: Key, ttl: int)
    requires w.PhaseOf(a).Holding? && ttl > 0
    ensures var w1 := Next(of, w, Look(a, key, ttl));
            && (w1.PhaseOf(a).Looking?
                <==> && key in w.disk && w.disk[key].status in {Todo, Interrupted, ChangesRequested}
                     && (|| w.disk[key].lease.None?
                         || w.disk[key].lease.value.expires <= w.now
                         || (w.disk[key].lease.value.owner.Some? && w.disk[key].lease.value.owner.value in w.gone)))
            && (w1.PhaseOf(a).Looking? ==>
                  w1.PhaseOf(a).key == key && w1.PhaseOf(a).lease == Lease(w.now + ttl, Some(of(a))))
            && (!w1.PhaseOf(a).Looking? ==> w1 == w)
  {
  }

  /** While one tick's dispatch of a story is running, another tick claims the story too exactly when the story is
      still dispatchable and the first tick's lease has run out. */
  lemma SecondDispatchIff(of: Processes, w: World, a: Actor, b: Actor, ttl: int)
    requires Inv(of, w) && w.PhaseOf(a).Released? && w.PhaseOf(b).Outside?
    requires w.lock.None? && of(b) !in w.gone && ttl > 0
    ensures var key := w.PhaseOf(a).key;
            var looked := Next(of, Next(of, w, Begin(b)), Look(b, key, ttl));
            && (looked.PhaseOf(b).Looking?
                <==> key in w.disk && Dispatchable(w.disk[key].status) && w.now >= w.PhaseOf(a).lease.expires)
            && (!looked.PhaseOf(b).Looking? ==> looked.disk == w.disk && looked.PhaseOf(b).Holding?)
  {
    assert LeaseHeld(of, w, a);
  }

  /** And when it does, the first tick takes the second one's lease off at the end of its own dispatch, so that a third
      could follow. */
  lemma StaleDispatchClearsLease(of: Processes, w: World, a: Actor, b: Actor, ok: bool)
    requires LockInv(w) && w.PhaseOf(a).Released? && w.PhaseOf(b).Released?
    requires w.lock.None? && w.PhaseOf(a).key in w.disk
    requires w.PhaseOf(b).key == w.PhaseOf(a).key && a != b
    ensures var back := Next(of, w, Return(a, ok));
            var cleared := Next(of, Next(of, back, Reread(a)), Clear(a));
            cleared.PhaseOf(b).Released? && cleared.disk[w.PhaseOf(a).key].lease.None?
  {
    var back := Next(of, w, Return(a, ok));
    assert back.PhaseOf(a) == Back(w.PhaseOf(a).key, w.PhaseOf(a).lease, ok);
    var reread := Next(of, back, Reread(a));
    assert reread.PhaseOf(a).Clearing? && reread.PhaseOf(b).Released?;
  }

  // ---------------------------------------------------------------------------------------------
  // Attempts
  // ---------------------------------------------------------------------------------------------

  predicate FailsOf(w: World, s: Step, k: Key) {
    s.Clear? && var p := w.PhaseOf(s.a); p.Clearing? && p.key == k && !p.ok
  }

  function Failures(of: Processes, w: World, steps: seq<Step>, k: Key): nat
    requires Possible(of, w, steps)
    decreases |steps|
  {
    if steps == [] then 0
    else
      var front := steps[..|steps| - 1];
      Failures(of, w, front, k) + if FailsOf(After(of, w, front), steps[|steps| - 1], k) then 1 else 0
  }

  /** What the other writers added to the attempt count or took off it: polling counts launches that wrote nothing, and
      a completed grade clears the count. */
  function Added(of: Processes, w: World, steps: seq<Step>, k: Key): int
    requires Possible(of, w, steps)
    decreases |steps|
  {
    if steps == [] then 0
    else
      var front, s := steps[..|steps| - 1], steps[|steps| - 1];
      Added(of, w, front, k) + AddedBy(After(of, w, front), s, k)
  }

  function AddedBy(w: World, s: Step, k: Key): int {
    if s.Other? && k in w.disk && k in s.disk then s.disk[k].attempts - w.disk[k].attempts else 0
  }

  /** Other writers leave the story planned. */
  ghost predicate AlwaysPlanned(of: Processes, w: World, steps: seq<Step>, k: Key)
    requires Possible(of, w, steps)
    decreases |steps|
  {
    steps != [] ==>
      var front, s := steps[..|steps| - 1], steps[|steps| - 1];
      AlwaysPlanned(of, w, front, k) && (s.Other? && k in After(of, w, front).disk ==> k in s.disk)
  }

  /** The attempt count is the number of failed dispatches the ticks came back from, and what others added, however the
      ticks interleave: none is lost and none is counted twice. A failure fails the story exactly when its count reaches
      the limit, and leaves its status for the next tick below it. */
  lemma {:induction false} AttemptsAreFailures(of: Processes, w: World, steps: seq<Step>, k: Key)
    requires Idle(w) && Possible(of, w, steps) && AlwaysPlanned(of, w, steps, k) && k in w.disk
    ensures var end := After(of, w, steps);
            && end.limit == w.limit
            && k in end.disk
            && end.disk[k].attempts == w.disk[k].attempts + Failures(of, w, steps, k) + Added(of, w, steps, k)
            && (steps != [] ==>
                  var before := After(of, w, steps[..|steps| - 1]);
                  FailsOf(before, steps[|steps| - 1], k) && k in before.disk ==>
                    end.disk[k].status == if end.disk[k].attempts >= w.limit then Failed else before.disk[k].status)
    decreases |steps|
  {
    hide Next, Enabled, FailsOf, AddedBy;
    if steps != [] {
      var front, s := steps[..|steps| - 1], steps[|steps| - 1];
      AttemptsAreFailures(of, w, front, k);
      RunKeepsLock(of, w, front);
      AttemptsStep(of, After(of, w, front), s, k);
    }
  }

  lemma AttemptsStep(of: Processes, w: World, s: Step, k: Key)
    requires LockInv(w) && Enabled(of, w, s) && k in w.disk && (s.Other? ==> k in s.disk)
    ensures var w1 := Next(of, w, s);
            && w1.limit == w.limit && k in w1.disk
            && w1.disk[k].attempts == w.disk[k].attempts + (if FailsOf(w, s, k) then 1 else 0) + AddedBy(w, s, k)
            && (FailsOf(w, s, k) ==>
                  w1.disk[k].status == if w1.disk[k].attempts >= w.limit then Failed else w.disk[k].status)
  {
    if s.Persist? || s.Clear? {
      assert FreshCopy(w, w.PhaseOf(s.a));
    }
  }
}
