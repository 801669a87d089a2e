/** The key document cache of the token verifier: any number of callers, one fetch at a time. */
module Jwks {
  import opened Options

  const JWKS_CACHE_SECONDS := 300.0
  const JWKS_MIN_REFRESH_S := 10.0
  const JWKS_FAILURE_TTL_S := 5.0

  type Url = string
  type Caller = nat

  datatype Cached = Cached(at: real, document: string)

  datatype Failure = Failure(at: real, message: string)

  datatype Tables = Tables(cache: map<Url, Cached>, failures: map<Url, Failure>)

  /** How a fetch ends: with a document, with an identity error, or with some other exception. */
  datatype Outcome = Document(text: string) | Refused(message: string) | Broke

  datatype Answer = Served(document: string) | Rejected(message: string) | Crashed

  predicate Usable(c: Cached, force: bool, now: real) {
    now - c.at < JWKS_CACHE_SECONDS && !(force && now - c.at >= JWKS_MIN_REFRESH_S)
  }

  predicate Serves(t: Tables, url: Url, force: bool, now: real) {
    url in t.cache && Usable(t.cache[url], force, now)
  }

  predicate HoldsBack(t: Tables, url: Url, now: real) {
    url in t.failures && now - t.failures[url].at < JWKS_FAILURE_TTL_S
  }

  /** The tables after a fetch that began at `start`; an outcome that is neither success nor refusal records nothing. */
  function Recorded(t: Tables, url: Url, start: real, o: Outcome): Tables {
    match o
    case Document(text) => Tables(t.cache[url := Cached(start, text)], t.failures - {url})
    case Refused(message) => t.(failures := t.failures[url := Failure(start, message)])
    case Broke => t
  }

  class KeyCache {
    var tables: Tables

    /** One lookup. While it waits for the fetch lock the others may leave other tables. */
    method Keys(url: Url, force: bool, now: real, others: Tables, later: real, o: Outcome)
      returns (r: Answer, fetched: bool)
      modifies this
      ensures Serves(old(tables), url, force, now) ==>
                !fetched && tables == old(tables) && r == Served(old(tables).cache[url].document)
      ensures !Serves(old(tables), url, force, now) && Serves(others, url, force, later) ==>
                !fetched && tables == others && r == Served(others.cache[url].document)
      ensures fetched <==>
                && !Serves(old(tables), url, force, now)
                && !Serves(others, url, force, later) && !HoldsBack(others, url, later)
      ensures fetched ==> tables == Recorded(others, url, later, o)
      ensures fetched ==>
                (r == match o case Document(text) => Served(text) case Refused(m) => Rejected(m) case Broke => Crashed)
      ensures !fetched && r.Rejected? ==>
                tables == others && HoldsBack(others, url, later) && r.message == others.failures[url].message
      ensures r.Crashed? ==> fetched
    {
      fetched := false;
      if url in tables.cache {
        var age := now - tables.cache[url].at;
        if age < JWKS_CACHE_SECONDS && !(force && age >= JWKS_MIN_REFRESH_S) {
          return Served(tables.cache[url].document), false;
        }
      }
      tables := others;
      if url in tables.cache {
        var age := later - tables.cache[url].at;
        if age < JWKS_CACHE_SECONDS && !(force && age >= JWKS_MIN_REFRESH_S) {
          return Served(tables.cache[url].document), false;
        }
      }
      if url in tables.failures && later - tables.failures[url].at < JWKS_FAILURE_TTL_S {
        return Rejected(tables.failures[url].message), false;
      }
      fetched := true;
      match o
      case Document(text) =>
        tables := Tables(tables.cache[url := Cached(later, text)], tables.failures - {url});
        r := Served(text);
      case Refused(message) =>
        tables := tables.(failures := tables.failures[url := Failure(later, message)]);
        r := Rejected(message);
      case Broke =>
        r := Crashed;
    }
  }

  // ---------------------------------------------------------------------------------------------
  // Interleaved callers
  // ---------------------------------------------------------------------------------------------

  datatype Phase =
    | Idle
    | Started(url: Url, force: bool, now: real)
    | Waiting(url: Url, force: bool)
    | Locked(url: Url, force: bool, now: real)
    | Fetching(url: Url, start: real)

  datatype Fetch = Fetch(url: Url, start: real, outcome: Outcome)

  /** The shared tables, the fetch lock and the callers; `log` is the history of the fetches that ended. */
  datatype World = World(tables: Tables, clock: real, lock: Option<Caller>, phases: map<Caller, Phase>,
                         log: seq<Fetch>) {
    function PhaseOf(c: Caller): Phase {
      if c in phases then phases[c] else Idle
    }

    function With(c: Caller, p: Phase): World {
      this.(phases := phases[c := p])
    }
  }

  datatype Step =
    | Call(c: Caller, url: Url, force: bool)
    | Look(c: Caller)
    | Lock(c: Caller)
    | Decide(c: Caller)
    | Finish(c: Caller, o: Outcome)
    | Elapse(seconds: real)

  predicate Enabled(w: World, s: Step) {
    match s
    case Call(c, url, force) => w.PhaseOf(c).Idle?
    case Look(c) => w.PhaseOf(c).Started?
    case Lock(c) => w.PhaseOf(c).Waiting? && w.lock.None?
    case Decide(c) => w.PhaseOf(c).Locked?
    case Finish(c, o) => w.PhaseOf(c).Fetching?
    case Elapse(d) => d >= 0.0
  }

  function Next(w: World, s: Step): World
    requires Enabled(w, s)
  {
    match s
    case Call(c, url, force) => w.With(c, Started(url, force, w.clock))
    case Look(c) =>
      var p := w.PhaseOf(c);
      w.With(c, if Serves(w.tables, p.url, p.force, p.now) then Idle else Waiting(p.url, p.force))
    case Lock(c) => var p := w.PhaseOf(c); w.With(c, Locked(p.url, p.force, w.clock)).(lock := Some(c))
    case Decide(c) =>
      var p := w.PhaseOf(c);
      if Serves(w.tables, p.url, p.force, p.now) || HoldsBack(w.tables, p.url, p.now) then
        w.With(c, Idle).(lock := None)
      else w.With(c, Fetching(p.url, p.now))
    case Finish(c, o) =>
      var p := w.PhaseOf(c);
      w.With(c, Idle).(lock := None, tables := Recorded(w.tables, p.url, p.start, o),
                       log := w.log + [Fetch(p.url, p.start, o)])
    case Elapse(d) => w.(clock := w.clock + d)
  }

  function After(w: World, steps: seq<Step>): World
    requires Possible(w, steps)
    decreases |steps|, 1
  {
    if steps == [] then w else Next(After(w, steps[..|steps| - 1]), steps[|steps| - 1])
  }

  predicate Possible(w: World, steps: seq<Step>)
    decreases |steps|, 0
  {
    steps != [] ==>
      Possible(w, steps[..|steps| - 1]) && Enabled(After(w, steps[..|steps| - 1]), steps[|steps| - 1])
  }

  function Start(clock: real): World {
    World(Tables(map[], map[]), clock, None, map[], [])
  }

  /** The last fetch of a document that left a record. */
  function LastRecorded(log: seq<Fetch>, url: Url): Option<Fetch>
    decreases |log|
  {
    if log == [] then None
    else
      var f := log[|log| - 1];
      if f.url == url && !f.outcome.Broke? then Some(f) else LastRecorded(log[..|log| - 1], url)
  }

  /** The tables remember the last recorded fetch of every document. */
  predicate Remembers(t: Tables, log: seq<Fetch>, url: Url) {
    match LastRecorded(log, url)
    case None => url !in t.cache && url !in t.failures
    case Some(f) =>
      match f.outcome
      case Document(text) => url in t.cache && t.cache[url] == Cached(f.start, text) && url !in t.failures
      case Refused(message) => url in t.failures && t.failures[url] == Failure(f.start, message)
      case Broke => false
  }

  predicate HoldsLock(p: Phase) {
    p.Locked? || p.Fetching?
  }

  function GapAfter(o: Outcome): real {
    match o
    case Document(_) => JWKS_MIN_REFRESH_S
    case Refused(_) => JWKS_FAILURE_TTL_S
    case Broke => 0.0
  }

  /** A fetch of the document that begins at `start` keeps its distance from every earlier one. */
  predicate Distant(log: seq<Fetch>, url: Url, start: real) {
    forall i | 0 <= i < |log| && log[i].url == url :: start - log[i].start >= GapAfter(log[i].outcome)
  }

  predicate Spaced(log: seq<Fetch>) {
    forall j | 0 <= j < |log| :: Distant(log[..j], log[j].url, log[j].start)
  }

  predicate PhaseInv(w: World, p: Phase) {
    match p
    case Locked(url, force, now) => now <= w.clock && forall i | 0 <= i < |w.log| :: w.log[i].start <= now
    case Fetching(url, start) =>
      && start <= w.clock && Distant(w.log, url, start)
      && forall i | 0 <= i < |w.log| :: w.log[i].start <= start
    case _ => true
  }

  ghost predicate Inv(w: World) {
    && (forall c: Caller :: w.lock == Some(c) <==> HoldsLock(w.PhaseOf(c)))
    && (forall c: Caller :: PhaseInv(w, w.PhaseOf(c)))
    && (forall i | 0 <= i < |w.log| :: w.log[i].start <= w.clock)
    && (forall url: Url :: Remembers(w.tables, w.log, url))
    && Spaced(w.log)
  }

  lemma {:induction false} LastRecordedIsLast(log: seq<Fetch>, url: Url)
    ensures match LastRecorded(log, url)
            case None => forall i | 0 <= i < |log| && log[i].url == url :: log[i].outcome.Broke?
            case Some(f) =>
              && f.url == url && !f.outcome.Broke?
              && exists j | 0 <= j < |log| ::
                   log[j] == f && forall i | j < i < |log| && log[i].url == url :: log[i].outcome.Broke?
    decreases |log|
  {
    if log != [] {
      var n := |log| - 1;
      if log[n].url != url || log[n].outcome.Broke? {
        LastRecordedIsLast(log[..n], url);
        assert forall i | 0 <= i < n :: log[..n][i] == log[i];
      }
    }
  }

  /** What the two checks under the fetch lock amount to: a fetch that gets past them keeps its distance. */
  lemma PastChecksIsDistant(w: World, url: Url, force: bool, now: real)
    requires Spaced(w.log) && Remembers(w.tables, w.log, url)
    requires forall i | 0 <= i < |w.log| :: w.log[i].start <= now
    requires !Serves(w.tables, url, force, now) && !HoldsBack(w.tables, url, now)
    ensures Distant(w.log, url, now)
  {
    hide LastRecorded;
    LastRecordedIsLast(w.log, url);
    var last := LastRecorded(w.log, url);
    if last.Some? {
      var j :| 0 <= j < |w.log| && w.log[j] == last.value
        && forall i | j < i < |w.log| && w.log[i].url == url :: w.log[i].outcome.Broke?;
      assert now - w.log[j].start >= JWKS_FAILURE_TTL_S;
      forall i | 0 <= i < |w.log| && w.log[i].url == url ensures now - w.log[i].start >= GapAfter(w.log[i].outcome) {
        if i < j {
          assert Distant(w.log[..j], url, w.log[j].start);
          assert w.log[..j][i] == w.log[i];
        }
      }
    }
  }

  lemma RecordedIsRemembered(t: Tables, log: seq<Fetch>, f: Fetch, url: Url)
    requires Remembers(t, log, url)
    ensures Remembers(Recorded(t, f.url, f.start, f.outcome), log + [f], url)
  {
    assert (log + [f])[..|log|] == log;
  }

  lemma SpacedGrows(log: seq<Fetch>, f: Fetch)
    requires Spaced(log) && Distant(log, f.url, f.start)
    ensures Spaced(log + [f])
  {
    hide Distant;
    forall j | 0 <= j < |log + [f]| ensures Distant((log + [f])[..j], (log + [f])[j].url, (log + [f])[j].start) {
      assert (log + [f])[..j] == log[..j];
    }
  }

  lemma FinishKeepsInv(w: World, c: Caller, o: Outcome)
    requires Inv(w) && Enabled(w, Finish(c, o))
    ensures Inv(Next(w, Finish(c, o)))
  {
    hide Distant, Spaced, Remembers, Recorded;
    var p := w.PhaseOf(c);
    var w1 := Next(w, Finish(c, o));
    assert PhaseInv(w, p) && (w.lock == Some(c) <==> HoldsLock(p));
    SpacedGrows(w.log, Fetch(p.url, p.start, o));
    forall url: Url ensures Remembers(w1.tables, w1.log, url) {
      RecordedIsRemembered(w.tables, w.log, Fetch(p.url, p.start, o), url);
    }
    forall d: Caller
      ensures w1.lock == Some(d) <==> HoldsLock(w1.PhaseOf(d))
      ensures PhaseInv(w1, w1.PhaseOf(d))
    {
      assert w.lock == Some(d) <==> HoldsLock(w.PhaseOf(d));
    }
  }

  lemma StepKeepsInv(w: World, s: Step)
    requires Inv(w) && Enabled(w, s)
    ensures Inv(Next(w, s))
  {
    hide Distant, Spaced, Remembers, Recorded, Serves, HoldsBack;
    if s.Finish? {
      FinishKeepsInv(w, s.c, s.o);
    } else {
      var w1 := Next(w, s);
      forall d: Caller
        ensures w1.lock == Some(d) <==> HoldsLock(w1.PhaseOf(d))
        ensures PhaseInv(w1, w1.PhaseOf(d))
      {
        assert (w.lock == Some(d) <==> HoldsLock(w.PhaseOf(d))) && PhaseInv(w, w.PhaseOf(d));
        if s.Decide? && s.c == d && w1.PhaseOf(d).Fetching? {
          var p := w.PhaseOf(d);
          PastChecksIsDistant(w, p.url, p.force, p.now);
        }
      }
    }
  }

  lemma {:induction false} RunKeepsInv(clock: real, steps: seq<Step>)
    requires Possible(Start(clock), steps)
    ensures Inv(After(Start(clock), steps))
    decreases |steps|
  {
    hide Next, Enabled, Inv;
    if steps == [] {
      StartIsInv(clock);
    } else {
      RunKeepsInv(clock, steps[..|steps| - 1]);
      StepKeepsInv(After(Start(clock), steps[..|steps| - 1]), steps[|steps| - 1]);
    }
  }

  lemma StartIsInv(clock: real)
    ensures Inv(Start(clock))
  {
  }

  /** Whatever the callers do, forced or not, with fetches that fail or not: two fetches of one document begin at least
      ten seconds apart when the first succeeded, and at least five when it was refused. */
  lemma FetchesAreSpaced(clock: real, steps: seq<Step>, i: nat, j: nat)
    requires Possible(Start(clock), steps)
    requires var log := After(Start(clock), steps).log; i < j < |log| && log[i].url == log[j].url
    ensures var log := After(Start(clock), steps).log; log[j].start - log[i].start >= GapAfter(log[i].outcome)
  {
    RunKeepsInv(clock, steps);
    var log := After(Start(clock), steps).log;
    assert Distant(log[..j], log[j].url, log[j].start);
    assert log[..j][i] == log[i];
  }

  /** The fetches of the document that left a record and began in [from, to). */
  function CountIn(log: seq<Fetch>, url: Url, from: real, to: real): nat
    decreases |log|
  {
    if log == [] then 0
    else
      var f := log[|log| - 1];
      CountIn(log[..|log| - 1], url, from, to)
      + if f.url == url && !f.outcome.Broke? && from <= f.start < to then 1 else 0
  }

  lemma {:induction false} SpacedCount(log: seq<Fetch>, url: Url, from: real, to: real)
    requires Spaced(log)
    ensures var n := CountIn(log, url, from, to);
            n > 0 ==>
              exists i | 0 <= i < |log| && log[i].url == url && !log[i].outcome.Broke? && from <= log[i].start < to ::
                        log[i].start >= from + (n - 1) as real * JWKS_FAILURE_TTL_S
    decreases |log|
  {
    if log != [] {
      var m := |log| - 1;
      var front := log[..m];
      assert forall j | 0 <= j < m :: front[j] == log[j] && front[..j] == log[..j];
      SpacedCount(front, url, from, to);
      var k := CountIn(front, url, from, to);
      if log[m].url == url && !log[m].outcome.Broke? && from <= log[m].start < to {
        if k > 0 {
          var i :| 0 <= i < m && front[i].url == url && !front[i].outcome.Broke? && from <= front[i].start < to
            && front[i].start >= from + (k - 1) as real * JWKS_FAILURE_TTL_S;
          assert Distant(log[..m], log[m].url, log[m].start);
          assert log[m].start >= from + k as real * JWKS_FAILURE_TTL_S;
        }
      } else if k > 0 {
        var i :| 0 <= i < m && front[i].url == url && !front[i].outcome.Broke? && from <= front[i].start < to
          && front[i].start >= from + (k - 1) as real * JWKS_FAILURE_TTL_S;
        assert log[i] == front[i];
      }
    }
  }

  /** The fetches of the document in [from, to) that left no record. */
  function BrokenIn(log: seq<Fetch>, url: Url, from: real, to: real): nat
    decreases |log|
  {
    if log == [] then 0
    else
      var f := log[|log| - 1];
      BrokenIn(log[..|log| - 1], url, from, to)
      + if f.url == url && f.outcome.Broke? && from <= f.start < to then 1 else 0
  }

  /** All the fetches of the document in [from, to). */
  function AllIn(log: seq<Fetch>, url: Url, from: real, to: real): nat
    decreases |log|
  {
    if log == [] then 0
    else
      var f := log[|log| - 1];
      AllIn(log[..|log| - 1], url, from, to) + if f.url == url && from <= f.start < to then 1 else 0
  }

  lemma {:induction false} AllAreCounted(log: seq<Fetch>, url: Url, from: real, to: real)
    ensures AllIn(log, url, from, to) == CountIn(log, url, from, to) + BrokenIn(log, url, from, to)
    decreases |log|
  {
    if log != [] {
      AllAreCounted(log[..|log| - 1], url, from, to);
    }
  }

  /** So no stretch of W seconds sees more than W/5 + 1 fetches of one document, and one more for each that broke. */
  lemma FetchesAreFew(clock: real, steps: seq<Step>, url: Url, from: real, seconds: real)
    requires Possible(Start(clock), steps) && seconds >= 0.0
    ensures var log := After(Start(clock), steps).log;
            && AllIn(log, url, from, from + seconds) as real
               <= seconds / JWKS_FAILURE_TTL_S + 1.0 + BrokenIn(log, url, from, from + seconds) as real
            && CountIn(log, url, from, from + seconds) as real <= seconds / JWKS_FAILURE_TTL_S + 1.0
  {
    hide AllIn, BrokenIn;
    RunKeepsInv(clock, steps);
    SpacedCount(After(Start(clock), steps).log, url, from, from + seconds);
    AllAreCounted(After(Start(clock), steps).log, url, from, from + seconds);
  }

  // ---------------------------------------------------------------------------------------------
  // How close fetches can come
  // ---------------------------------------------------------------------------------------------

  lemma Extend(w: World, steps: seq<Step>, s: Step) returns (more: seq<Step>)
    requires Possible(w, steps) && Enabled(After(w, steps), s)
    ensures more == steps + [s] && Possible(w, more) && After(w, more) == Next(After(w, steps), s)
  {
    more := steps + [s];
    assert more[..|more| - 1] == steps;
  }

  predicate Ready(w: World) {
    w.lock.None? && w.PhaseOf(0).Idle?
  }

  /** One caller that the tables neither serve nor hold back fetches at once. */
  lemma FetchNow(start: World, steps: seq<Step>, url: Url, o: Outcome) returns (more: seq<Step>)
    requires Possible(start, steps) && Ready(After(start, steps))
    requires var w := After(start, steps); !Serves(w.tables, url, true, w.clock) && !HoldsBack(w.tables, url, w.clock)
    ensures Possible(start, more) && Ready(After(start, more))
    ensures var w, w1 := After(start, steps), After(start, more);
            && w1.log == w.log + [Fetch(url, w.clock, o)] && w1.clock == w.clock
            && w1.tables == Recorded(w.tables, url, w.clock, o)
  {
    hide After, Possible, Serves, HoldsBack, Recorded;
    more := Extend(start, steps, Call(0, url, true));
    more := Extend(start, more, Look(0));
    more := Extend(start, more, Lock(0));
    more := Extend(start, more, Decide(0));
    more := Extend(start, more, Finish(0, o));
  }

  /** Two fetches of the document lie `gap` seconds apart, the first of them ending in `o`. */
  ghost predicate HasGap(log: seq<Fetch>, url: Url, o: Outcome, gap: real) {
    exists i, j | 0 <= i < j < |log| ::
      log[i].url == log[j].url == url && log[i].outcome == o && log[j].start - log[i].start == gap
  }

  lemma GapIsReached(clock: real, url: Url, o: Outcome, gap: real) returns (steps: seq<Step>)
    requires gap >= GapAfter(o)
    ensures Possible(Start(clock), steps) && HasGap(After(Start(clock), steps).log, url, o, gap)
  {
    hide After, Possible;
    NoStep(clock);
    steps := FetchNow(Start(clock), [], url, o);
    steps := Extend(Start(clock), steps, Elapse(gap));
    steps := FetchNow(Start(clock), steps, url, Broke);
    var log := After(Start(clock), steps).log;
    assert log[0] == Fetch(url, clock, o) && log[1] == Fetch(url, clock + gap, Broke);
  }

  lemma NoStep(clock: real)
    ensures Possible(Start(clock), []) && After(Start(clock), []) == Start(clock)
  {
  }

  /** Exactly how close fetches of one document can come: after an outcome `o` the next can begin `gap` seconds later,
      in some run, if and only if `gap` is at least ten seconds for a success, five for a refusal, and anything at all
      for a fetch that broke: such a fetch holds nothing back. */
  lemma GapIff(clock: real, url: Url, o: Outcome, gap: real)
    ensures (exists steps :: Possible(Start(clock), steps) && HasGap(After(Start(clock), steps).log, url, o, gap))
            <==> gap >= GapAfter(o)
  {
    hide After, Possible;
    if gap >= GapAfter(o) {
      var steps := GapIsReached(clock, url, o, gap);
    } else {
      forall steps | Possible(Start(clock), steps) ensures !HasGap(After(Start(clock), steps).log, url, o, gap) {
        var log := After(Start(clock), steps).log;
        forall i, j | 0 <= i < j < |log| && log[i].url == log[j].url == url && log[i].outcome == o
          ensures log[j].start - log[i].start != gap
        {
          FetchesAreSpaced(clock, steps, i, j);
        }
      }
    }
  }

  /** The document comes from a fetch that succeeded and began at `at`. */
  ghost predicate FromFetch(log: seq<Fetch>, url: Url, c: Cached) {
    exists i | 0 <= i < |log| :: log[i] == Fetch(url, c.at, Document(c.document))
  }

  lemma {:induction false} CacheIsFetched(clock: real, steps: seq<Step>, url: Url)
    requires Possible(Start(clock), steps)
    ensures var w := After(Start(clock), steps); url in w.tables.cache ==> FromFetch(w.log, url, w.tables.cache[url])
    decreases |steps|
  {
    hide Serves, HoldsBack;
    if steps != [] {
      var front, s := steps[..|steps| - 1], steps[|steps| - 1];
      var w := After(Start(clock), front);
      CacheIsFetched(clock, front, url);
      if s.Finish? {
        var f := Fetch(w.PhaseOf(s.c).url, w.PhaseOf(s.c).start, s.o);
        assert (w.log + [f])[|w.log|] == f;
        if url in w.tables.cache && FromFetch(w.log, url, w.tables.cache[url]) {
          var i :| && 0 <= i < |w.log|
                   && w.log[i] == Fetch(url, w.tables.cache[url].at, Document(w.tables.cache[url].document));
          assert (w.log + [f])[i] == w.log[i];
        }
      }
    }
  }

  /** Entry `i` of the history is the last fetch that brought the document. */
  predicate LastSuccess(log: seq<Fetch>, url: Url, i: nat) {
    && i < |log| && log[i].url == url && log[i].outcome.Document?
    && forall j | i < j < |log| :: !(log[j].url == url && log[j].outcome.Document?)
  }

  /** The cache holds what the last successful fetch brought; a later failure does not touch it. */
  lemma {:induction false} CacheIsLastSuccess(clock: real, steps: seq<Step>, url: Url)
    requires Possible(Start(clock), steps)
    ensures var w := After(Start(clock), steps);
            && (url in w.tables.cache <==> exists i: nat :: LastSuccess(w.log, url, i))
            && forall i: nat | LastSuccess(w.log, url, i) ::
                 url in w.tables.cache && w.tables.cache[url] == Cached(w.log[i].start, w.log[i].outcome.text)
    decreases |steps|
  {
    hide Serves, HoldsBack, LastSuccess;
    if steps == [] {
      NothingFetched(url);
    } else {
      var front, s := steps[..|steps| - 1], steps[|steps| - 1];
      var w := After(Start(clock), front);
      CacheIsLastSuccess(clock, front, url);
      if s.Finish? {
        var f := Fetch(w.PhaseOf(s.c).url, w.PhaseOf(s.c).start, s.o);
        SuccessStep(w.log, f, url);
        if f.url == url && f.outcome.Document? {
          assert LastSuccess(w.log + [f], url, |w.log|);
        } else if i: nat :| LastSuccess(w.log, url, i) {
          assert LastSuccess(w.log + [f], url, i);
        }
      }
    }
  }

  lemma NothingFetched(url: Url)
    ensures forall i: nat :: !LastSuccess([], url, i)
  {
  }

  lemma SuccessStep(log: seq<Fetch>, f: Fetch, url: Url)
    ensures forall i: nat ::
              LastSuccess(log + [f], url, i)
              <==> if f.url == url && f.outcome.Document? then i == |log| else LastSuccess(log, url, i)
    ensures forall i: nat | LastSuccess(log, url, i) :: i < |log| && (log + [f])[i] == log[i]
  {
    var more := log + [f];
    assert more[|log|] == f;
    assert forall j | 0 <= j < |log| :: more[j] == log[j];
  }

  /** A lookup is answered from the cache exactly when the last successful fetch of the document began less than 300
      seconds before, or less than ten for a caller that asks for a refresh; failures since then do not matter. */
  lemma ServedIff(clock: real, steps: seq<Step>, url: Url, force: bool, now: real)
    requires Possible(Start(clock), steps)
    ensures var w := After(Start(clock), steps);
            Serves(w.tables, url, force, now)
            <==> exists i | 0 <= i < |w.log| ::
                   LastSuccess(w.log, url, i) && now - w.log[i].start < if force then 10.0 else 300.0
  {
    hide LastSuccess;
    CacheIsLastSuccess(clock, steps, url);
    SuccessIsInLog(After(Start(clock), steps).log, url);
  }

  /** A caller goes on to the fetch lock exactly when its first look is not served, and from the lock to a fetch exactly
      when a second look is not served either and no failure holds it back; otherwise it is done, and off the lock. */
  lemma GoesOnIff(w: World, c: Caller)
    ensures Enabled(w, Look(c)) ==>
              var p, w1 := w.PhaseOf(c), Next(w, Look(c));
              && w1.PhaseOf(c) == (if Serves(w.tables, p.url, p.force, p.now) then Idle else Waiting(p.url, p.force))
              && w1.tables == w.tables && w1.lock == w.lock
    ensures Enabled(w, Decide(c)) ==>
              var p, w1 := w.PhaseOf(c), Next(w, Decide(c));
              var fetches := !Serves(w.tables, p.url, p.force, p.now) && !HoldsBack(w.tables, p.url, p.now);
              && w1.PhaseOf(c) == (if fetches then Fetching(p.url, p.now) else Idle)
              && w1.tables == w.tables && w1.lock == if fetches then w.lock else None
  {
  }

  lemma SuccessIsInLog(log: seq<Fetch>, url: Url)
    ensures forall i: nat | LastSuccess(log, url, i) :: i < |log|
  {
  }

  /** A lookup is held back exactly when the last fetch of the document that left a record was refused, less than five
      seconds before. */
  lemma HeldBackIff(clock: real, steps: seq<Step>, url: Url, now: real)
    requires Possible(Start(clock), steps)
    ensures var w := After(Start(clock), steps);
            var last := LastRecorded(w.log, url);
            HoldsBack(w.tables, url, now) <==> last.Some? && last.value.outcome.Refused? && now - last.value.start < 5.0
  {
    hide After, Possible, LastRecorded;
    RunKeepsInv(clock, steps);
    var w := After(Start(clock), steps);
    LastRecordedIsLast(w.log, url);
    assert Remembers(w.tables, w.log, url);
  }

  /** A caller that is answered from the cache gets what a successful fetch brought, less than 300 seconds after that
      fetch began, and less than ten when it asked for a refresh. */
  lemma ServedIsYoung(clock: real, steps: seq<Step>, s: Step)
    requires Possible(Start(clock), steps) && Enabled(After(Start(clock), steps), s) && (s.Look? || s.Decide?)
    requires var w := After(Start(clock), steps); var p := w.PhaseOf(s.c); Serves(w.tables, p.url, p.force, p.now)
    ensures var w := After(Start(clock), steps);
            var p := w.PhaseOf(s.c);
            exists i | 0 <= i < |w.log| ::
              && w.log[i].url == p.url && w.log[i].outcome == Document(w.tables.cache[p.url].document)
              && p.now - w.log[i].start < JWKS_CACHE_SECONDS
              && (p.force ==> p.now - w.log[i].start < JWKS_MIN_REFRESH_S)
  {
    var w := After(Start(clock), steps);
    CacheIsFetched(clock, steps, w.PhaseOf(s.c).url);
  }
}
