/** Runs over the login tables: every request is a few steps under the table lock, in any interleaving. */
module LoginRuns {
  import opened LoginSessions
  import opened Options

  /** A step under the lock. `now` is the clock reading the step works with. Beginning and finishing a login read the
      clock before they have the lock, which they get at `at`; the others read it under the lock. Ending a session does
      not look at it. */
  datatype Step =
    | BeginStep(at: real, now: real, state: string, nonce: string, verifier: string, next: string)
    | TakeStep(now: real, state: string)
    | FinishStep(at: real, now: real, state: string, e: Exchange, id: string)
    | LoadStep(now: real, id: string)
    | EndStep(now: real, id: string)

  /** The tables, and the callbacks between taking their state and finishing. */
  datatype World = World(store: Store, taken: map<string, Pending>)

  const START := World(Store(map[], map[]), map[])

  predicate Stores(w: World, s: Step) {
    s.BeginStep? && |PrunePending(w.store, s.now).pending| < MAX_PENDING_LOGINS
  }

  /** The callback got a live entry out of the table. */
  predicate Takes(w: World, s: Step) {
    s.TakeStep? && s.state in w.store.pending && s.now < w.store.pending[s.state].expiresAt
  }

  predicate Opens(w: World, s: Step) {
    s.FinishStep? && s.state in w.taken && Verifies(s.e) && NonceMatches(s.e, w.taken[s.state])
  }

  function Next(w: World, s: Step): World {
    match s
    case BeginStep(_, now, state, nonce, verifier, next) =>
      w.(store := Begin(w.store, now, state, NewLogin(now, nonce, verifier, next)))
    case TakeStep(now, state) =>
      World(Take(w.store, state), if Takes(w, s) then w.taken[state := w.store.pending[state]] else w.taken)
    case FinishStep(_, now, state, e, id) =>
      World(if Opens(w, s) then Create(w.store, now, id, e.principal) else w.store, w.taken - {state})
    case LoadStep(now, id) => w.(store := Load(w.store, now, id))
    case EndStep(now, id) => w.(store := if id == "" then w.store else Drop(w.store, id))
  }

  function After(steps: seq<Step>): World
    decreases |steps|
  {
    if steps == [] then START else Next(After(steps[..|steps| - 1]), steps[|steps| - 1])
  }

  function Before(steps: seq<Step>, i: nat): World
    requires i < |steps|
  {
    After(steps[..i])
  }

  /** The random tokens never repeat and are not empty. */
  predicate FreshTokens(steps: seq<Step>) {
    && (forall i, j | 0 <= i < j < |steps| && steps[i].BeginStep? && steps[j].BeginStep? ::
          steps[i].state != steps[j].state)
    && (forall i, j | 0 <= i < j < |steps| && steps[i].FinishStep? && steps[j].FinishStep? ::
          steps[i].id != steps[j].id)
    && (forall i | 0 <= i < |steps| && steps[i].FinishStep? :: steps[i].id != "")
  }

  /** When the step had the lock. */
  function LockTime(s: Step): real {
    if s.BeginStep? || s.FinishStep? then s.at else s.now
  }

  /** The clock does not go back: steps are listed as they got the lock, and a reading taken before that is not later,
      however long the wait for the lock. */
  predicate InOrder(steps: seq<Step>) {
    && (forall i, j | 0 <= i < j < |steps| :: LockTime(steps[i]) <= LockTime(steps[j]))
    && (forall i | 0 <= i < |steps| :: steps[i].now <= LockTime(steps[i]))
  }

  // ---------------------------------------------------------------------------------------------
  // States
  // ---------------------------------------------------------------------------------------------

  function Stored(steps: seq<Step>, state: string): nat
    decreases |steps|
  {
    if steps == [] then 0
    else
      var n := |steps| - 1;
      Stored(steps[..n], state)
      + if steps[n].BeginStep? && steps[n].state == state && Stores(After(steps[..n]), steps[n]) then 1 else 0
  }

  function Taken(steps: seq<Step>, state: string): nat
    decreases |steps|
  {
    if steps == [] then 0
    else
      var n := |steps| - 1;
      Taken(steps[..n], state)
      + if steps[n].TakeStep? && steps[n].state == state && Takes(After(steps[..n]), steps[n]) then 1 else 0
  }

  function Opened(steps: seq<Step>, state: string): nat
    decreases |steps|
  {
    if steps == [] then 0
    else
      var n := |steps| - 1;
      Opened(steps[..n], state)
      + if steps[n].FinishStep? && steps[n].state == state && Opens(After(steps[..n]), steps[n]) then 1 else 0
  }

  function One(b: bool): nat {
    if b then 1 else 0
  }

  lemma {:induction false} TakenWasStored(steps: seq<Step>, state: string)
    ensures Taken(steps, state) + One(state in After(steps).store.pending) <= Stored(steps, state)
    decreases |steps|
  {
    hide Expired, NonceMatches, Verifies, Opened, Opens;
    if steps != [] {
      TakenWasStored(steps[..|steps| - 1], state);
    }
  }

  lemma {:induction false} OpenedWasTaken(steps: seq<Step>, state: string)
    ensures Opened(steps, state) + One(state in After(steps).taken) <= Taken(steps, state)
    decreases |steps|
  {
    hide Expired, NonceMatches, Verifies, Stored, Begin, Create, Load, Drop;
    if steps != [] {
      OpenedWasTaken(steps[..|steps| - 1], state);
    }
  }

  lemma {:induction false} StoredOnce(steps: seq<Step>, state: string)
    requires FreshTokens(steps)
    ensures Stored(steps, state) <= 1
    ensures Stored(steps, state) == 1 ==> exists i | 0 <= i < |steps| :: steps[i].BeginStep? && steps[i].state == state
    decreases |steps|
  {
    hide Stores;
    if steps != [] {
      var n := |steps| - 1;
      assert forall i | 0 <= i < n :: steps[..n][i] == steps[i];
      StoredOnce(steps[..n], state);
    }
  }

  /** With fresh tokens a state is consumed at most once and opens at most one session: what was taken, with what is
      still pending, is no more than what was stored, and what opened a session no more than what was taken. */
  lemma OneSessionPerState(steps: seq<Step>, state: string)
    requires FreshTokens(steps)
    ensures Taken(steps, state) <= 1 && Opened(steps, state) <= 1
  {
    TakenWasStored(steps, state);
    OpenedWasTaken(steps, state);
    StoredOnce(steps, state);
  }

  lemma {:induction false} PendingIsBounded(steps: seq<Step>)
    ensures |After(steps).store.pending| <= MAX_PENDING_LOGINS
    decreases |steps|
  {
    if steps != [] {
      var w, s := After(steps[..|steps| - 1]), steps[|steps| - 1];
      PendingIsBounded(steps[..|steps| - 1]);
      PendingStep(w, s);
    }
  }

  lemma SmallerMap<V>(small: map<string, V>, big: map<string, V>)
    requires small.Keys <= big.Keys
    ensures |small| <= |big|
    decreases |small|
  {
    if small != map[] {
      var k :| k in small;
      SmallerMap(small - {k}, big - {k});
      assert |small - {k}| == |small| - 1 by {
        assert (small - {k})[k := small[k]] == small;
      }
      assert |big - {k}| == |big| - 1 by {
        assert (big - {k})[k := big[k]] == big;
      }
    }
  }

  lemma PendingStep(w: World, s: Step)
    requires |w.store.pending| <= MAX_PENDING_LOGINS
    ensures |Next(w, s).store.pending| <= MAX_PENDING_LOGINS
  {
    match s
    case BeginStep(_, now, state, nonce, verifier, next) =>
      SmallerMap(PrunePending(w.store, now).pending, w.store.pending);
    case TakeStep(now, state) => SmallerMap(Take(w.store, state).pending, w.store.pending);
    case _ => assert Next(w, s).store.pending == w.store.pending;
  }

  /** The login that minted a pending entry. */
  predicate MintedAt(steps: seq<Step>, b: nat, state: string, p: Pending) {
    b < |steps| && steps[b].BeginStep? && steps[b].state == state
    && p == NewLogin(steps[b].now, steps[b].nonce, steps[b].verifier, steps[b].next)
  }

  predicate TakenAt(steps: seq<Step>, t: nat, state: string, p: Pending) {
    t < |steps| && steps[t].TakeStep? && steps[t].state == state && steps[t].now < p.expiresAt
  }

  ghost predicate Minted(steps: seq<Step>, state: string, p: Pending) {
    exists b: nat :: MintedAt(steps, b, state, p)
  }

  ghost predicate MintedAndTaken(steps: seq<Step>, state: string, p: Pending) {
    exists b: nat, t: nat | b < t :: MintedAt(steps, b, state, p) && TakenAt(steps, t, state, p)
  }

  lemma EntryFrom(w: World, s: Step, state: string)
    ensures var w1 := Next(w, s);
            state in w1.store.pending ==>
              || (state in w.store.pending && w1.store.pending[state] == w.store.pending[state])
              || (&& s.BeginStep? && s.state == state
                  && w1.store.pending[state] == NewLogin(s.now, s.nonce, s.verifier, s.next))
    ensures var w1 := Next(w, s);
            state in w1.taken ==>
              || (state in w.taken && w1.taken[state] == w.taken[state])
              || (Takes(w, s) && s.state == state && w1.taken[state] == w.store.pending[state])
  {
    hide Expired, NonceMatches, Verifies, NewLogin;
  }

  lemma OriginStays(front: seq<Step>, s: Step, state: string, p: Pending)
    ensures Minted(front, state, p) ==> Minted(front + [s], state, p)
    ensures MintedAndTaken(front, state, p) ==> MintedAndTaken(front + [s], state, p)
    ensures Minted(front, state, p) && s.TakeStep? && s.state == state && s.now < p.expiresAt ==>
              MintedAndTaken(front + [s], state, p)
  {
    hide NewLogin;
    var steps := front + [s];
    assert forall i | 0 <= i < |front| :: front[i] == steps[i];
    if Minted(front, state, p) {
      var b: nat :| MintedAt(front, b, state, p);
      assert MintedAt(steps, b, state, p);
      if s.TakeStep? && s.state == state && s.now < p.expiresAt {
        assert TakenAt(steps, |front|, state, p);
      }
    }
    if MintedAndTaken(front, state, p) {
      var b: nat, t: nat :| b < t && MintedAt(front, b, state, p) && TakenAt(front, t, state, p);
      assert MintedAt(steps, b, state, p) && TakenAt(steps, t, state, p);
    }
  }

  lemma {:induction false} EntriesHaveOrigin(steps: seq<Step>, state: string)
    ensures var w := After(steps);
            && (state in w.store.pending ==> Minted(steps, state, w.store.pending[state]))
            && (state in w.taken ==> MintedAndTaken(steps, state, w.taken[state]))
    decreases |steps|
  {
    hide Next, Minted, MintedAndTaken;
    if steps != [] {
      var n := |steps| - 1;
      var front, s, w1 := steps[..n], steps[n], After(steps);
      EntriesHaveOrigin(front, state);
      EntryFrom(After(front), s, state);
      assert steps == front + [s];
      if state in w1.store.pending {
        OriginStays(front, s, state, w1.store.pending[state]);
        if s.BeginStep? && s.state == state {
          MintedNow(front, s, state);
        }
      }
      if state in w1.taken {
        OriginStays(front, s, state, w1.taken[state]);
      }
    }
  }

  lemma MintedNow(front: seq<Step>, s: Step, state: string)
    requires s.BeginStep? && s.state == state
    ensures Minted(front + [s], state, NewLogin(s.now, s.nonce, s.verifier, s.next))
  {
    assert MintedAt(front + [s], |front|, state, NewLogin(s.now, s.nonce, s.verifier, s.next));
  }

  /** A session is opened only for a login that was begun, whose state was taken less than the TTL after that, and
      whose token carries the nonce minted with the state. */
  lemma SessionRestsOnLogin(steps: seq<Step>, n: nat)
    requires n < |steps| && Opens(Before(steps, n), steps[n])
    ensures exists b: nat, t: nat | b < t < n ::
              && steps[b].BeginStep? && steps[b].state == steps[n].state
              && steps[t].TakeStep? && steps[t].state == steps[n].state
              && steps[t].now < steps[b].now + STATE_TTL_S
              && steps[n].e.nonce == Some(steps[b].nonce)
  {
    var front, state := steps[..n], steps[n].state;
    EntriesHaveOrigin(front, state);
    var p := After(front).taken[state];
    var b: nat, t: nat :| b < t && MintedAt(front, b, state, p) && TakenAt(front, t, state, p);
    assert front[b] == steps[b] && front[t] == steps[t];
  }

  /** The login with this state was begun and stored at step `b`, and no callback has come for it before step `n`. */
  predicate StillOwed(steps: seq<Step>, b: nat, n: nat, state: string)
    requires n <= |steps|
  {
    && b < n && steps[b].BeginStep? && steps[b].state == state && Stores(Before(steps, b), steps[b])
    && forall m | b < m < n :: !(steps[m].TakeStep? && steps[m].state == state)
  }

  /** An owed login is in the table, or its time had run out by the last step. */
  predicate KeptOrLate(w: World, state: string, p: Pending, time: real) {
    (state in w.store.pending && w.store.pending[state] == p) || time >= p.expiresAt
  }

  function LoginAt(steps: seq<Step>, b: nat): Pending
    requires b < |steps| && steps[b].BeginStep?
  {
    NewLogin(steps[b].now, steps[b].nonce, steps[b].verifier, steps[b].next)
  }

  lemma KeptStep(w: World, s: Step, state: string, p: Pending, time: real)
    requires KeptOrLate(w, state, p, time) && time <= LockTime(s) && s.now <= LockTime(s)
    requires !(s.BeginStep? && s.state == state) && !(s.TakeStep? && s.state == state)
    ensures KeptOrLate(Next(w, s), state, p, LockTime(s))
  {
    hide Expired, Opens, Takes;
  }

  lemma {:induction false} OwedIsKept(steps: seq<Step>, b: nat, n: nat, state: string)
    requires FreshTokens(steps) && InOrder(steps) && n <= |steps| && StillOwed(steps, b, n, state)
    ensures KeptOrLate(After(steps[..n]), state, LoginAt(steps, b), LockTime(steps[n - 1]))
    decreases n
  {
    hide Next, Stores, NewLogin, KeptOrLate;
    AfterStep(steps, n - 1);
    if b == n - 1 {
      StoredNow(Before(steps, b), steps[b]);
    } else {
      OwedIsKept(steps, b, n - 1, state);
      KeptStep(Before(steps, n - 1), steps[n - 1], state, LoginAt(steps, b), LockTime(steps[n - 2]));
    }
  }

  lemma AfterStep(steps: seq<Step>, n: nat)
    requires n < |steps|
    ensures After(steps[..n + 1]) == Next(Before(steps, n), steps[n])
  {
    assert steps[..n + 1][..n] == steps[..n];
  }

  lemma StoredNow(w: World, s: Step)
    requires Stores(w, s)
    ensures KeptOrLate(Next(w, s), s.state, NewLogin(s.now, s.nonce, s.verifier, s.next), LockTime(s))
  {
  }

  lemma PendingStays(w: World, s: Step, state: string)
    ensures state in Next(w, s).store.pending ==>
              || (state in w.store.pending && Next(w, s).store.pending[state] == w.store.pending[state]
                  && !(s.TakeStep? && s.state == state))
              || (s.BeginStep? && s.state == state && Stores(w, s))
  {
    hide Expired, Opens, Takes;
  }

  lemma {:induction false} KeptIsOwed(steps: seq<Step>, n: nat, state: string)
    requires n <= |steps| && state in After(steps[..n]).store.pending
    ensures exists b | 0 <= b < n ::
              && steps[b].BeginStep? && StillOwed(steps, b, n, state)
              && After(steps[..n]).store.pending[state] == LoginAt(steps, b)
    decreases n
  {
    hide Next, Stores, NewLogin, StillOwed;
    if n > 0 {
      var s, w := steps[n - 1], Before(steps, n - 1);
      AfterStep(steps, n - 1);
      PendingStays(w, s, state);
      EntryFrom(w, s, state);
      if s.BeginStep? && s.state == state && Stores(w, s) {
        StoredIsOwed(steps, n, state);
      } else {
        KeptIsOwed(steps, n - 1, state);
        var b :| && 0 <= b < n - 1 && steps[b].BeginStep? && StillOwed(steps, b, n - 1, state)
                 && w.store.pending[state] == LoginAt(steps, b);
        assert StillOwed(steps, b, n, state) by {
          OwedOn(steps, b, n, state);
        }
      }
    }
  }

  lemma StoredIsOwed(steps: seq<Step>, n: nat, state: string)
    requires 0 < n <= |steps| && steps[n - 1].BeginStep? && steps[n - 1].state == state
    requires Stores(Before(steps, n - 1), steps[n - 1])
    ensures StillOwed(steps, n - 1, n, state)
    ensures var w := After(steps[..n]);
            state in w.store.pending && w.store.pending[state] == LoginAt(steps, n - 1)
  {
    AfterStep(steps, n - 1);
  }

  lemma OwedOn(steps: seq<Step>, b: nat, n: nat, state: string)
    requires 0 < n <= |steps| && StillOwed(steps, b, n - 1, state)
    requires !(steps[n - 1].TakeStep? && steps[n - 1].state == state)
    ensures StillOwed(steps, b, n, state)
  {
  }

  /** A callback gets its login out of the table exactly when a login with this state was begun and found room, no
      callback came for it before, and less than the TTL has passed; the attempts of others, and what they prune, do not
      matter. */
  lemma TakesIff(steps: seq<Step>, t: nat)
    requires FreshTokens(steps) && InOrder(steps) && t < |steps| && steps[t].TakeStep?
    ensures Takes(Before(steps, t), steps[t])
            <==> exists b | 0 <= b < t ::
                   StillOwed(steps, b, t, steps[t].state) && steps[t].now < steps[b].now + STATE_TTL_S
  {
    hide After, Stores, StillOwed;
    var w, state := Before(steps, t), steps[t].state;
    if Takes(w, steps[t]) {
      KeptIsOwed(steps, t, state);
    } else if b: nat :| b < t && StillOwed(steps, b, t, state) && steps[t].now < steps[b].now + STATE_TTL_S {
      OwedIsKept(steps, b, t, state);
    }
  }

  /** Whose session it is, and since when: the one whose token opened it. */
  lemma {:induction false} SessionIsWhose(steps: seq<Step>, id: string)
    ensures var sessions := After(steps).store.sessions;
            id in sessions ==>
              exists c | 0 <= c < |steps| ::
                && steps[c].FinishStep? && steps[c].id == id && Opens(Before(steps, c), steps[c])
                && sessions[id].principal == steps[c].e.principal && sessions[id].createdAt == steps[c].now
    decreases |steps|
  {
    hide Opens, Next;
    if steps != [] {
      var n := |steps| - 1;
      var w, s := After(steps[..n]), steps[n];
      SessionIsWhose(steps[..n], id);
      SessionStep(w, s, id);
      if id in w.store.sessions {
        var c :| 0 <= c < n && steps[..n][c].FinishStep? && steps[..n][c].id == id
          && Opens(Before(steps[..n], c), steps[..n][c])
          && w.store.sessions[id].principal == steps[..n][c].e.principal
          && w.store.sessions[id].createdAt == steps[..n][c].now;
        assert steps[..n][..c] == steps[..c] && steps[..n][c] == steps[c];
      }
    }
  }

  lemma SessionStep(w: World, s: Step, id: string)
    ensures var before, after := w.store.sessions, Next(w, s).store.sessions;
            id in after ==>
              || (&& s.FinishStep? && s.id == id && Opens(w, s)
                  && after[id].principal == s.e.principal && after[id].createdAt == s.now)
              || (&& id in before && after[id].principal == before[id].principal
                  && after[id].createdAt == before[id].createdAt)
  {
    hide Opens, Takes, Expired;
  }

  // ---------------------------------------------------------------------------------------------
  // Sessions
  // ---------------------------------------------------------------------------------------------

  /** The life of a session, told from the history alone: no table, no pruning. */
  datatype Life = Gone | Alive(createdAt: real, lastSeen: real)

  function LifeAfter(l: Life, w: World, s: Step, id: string): Life {
    if !Touches(w, s, id) then l
    else if s.FinishStep? then Alive(s.now, s.now)
    else if s.LoadStep? && l.Alive? && !Expired(l.createdAt, l.lastSeen, s.now) then Alive(l.createdAt, s.now)
    else Gone
  }

  predicate Touches(w: World, s: Step, id: string) {
    match s
    case FinishStep(_, _, _, _, i) => i == id && Opens(w, s)
    case LoadStep(_, i) => i == id
    case EndStep(_, i) => i == id
    case _ => false
  }

  function LifeOf(steps: seq<Step>, id: string): Life
    decreases |steps|
  {
    if steps == [] then Gone
    else
      var front := steps[..|steps| - 1];
      LifeAfter(LifeOf(front, id), After(front), steps[|steps| - 1], id)
  }

  predicate Tells(s: Store, id: string, l: Life, now: real) {
    && (id in s.sessions ==> l == Alive(s.sessions[id].createdAt, s.sessions[id].lastSeen) && l.lastSeen <= now)
    && (id !in s.sessions && l.Alive? ==> Expired(l.createdAt, l.lastSeen, now))
  }

  lemma TellsStep(w: World, s: Step, id: string, l: Life)
    requires id != "" && s.now <= LockTime(s) && Tells(w.store, id, l, LockTime(s))
    ensures Tells(Next(w, s).store, id, LifeAfter(l, w, s, id), LockTime(s))
  {
    hide Opens, Takes;
  }

  /** The pruned tables and the unpruned history agree about every session at every time. */
  lemma {:induction false} TableTellsLife(steps: seq<Step>, id: string, now: real)
    requires id != "" && InOrder(steps) && forall i | 0 <= i < |steps| :: LockTime(steps[i]) <= now
    ensures Tells(After(steps).store, id, LifeOf(steps, id), now)
    decreases |steps|
  {
    hide Next, Opens, LifeAfter;
    if steps != [] {
      var n := |steps| - 1;
      TableTellsLife(steps[..n], id, LockTime(steps[n]));
      TellsStep(After(steps[..n]), steps[n], id, LifeOf(steps[..n], id));
    }
  }

  /** A lookup succeeds exactly when the history says the session is alive and inside both deadlines. */
  lemma LookupIff(steps: seq<Step>, j: nat)
    requires InOrder(steps) && j < |steps| && steps[j].LoadStep? && steps[j].id != ""
    ensures Accepts(Before(steps, j).store, steps[j].now, steps[j].id)
            <==> var l := LifeOf(steps[..j], steps[j].id); l.Alive? && !Expired(l.createdAt, l.lastSeen, steps[j].now)
  {
    assert forall i | 0 <= i < j :: steps[..j][i] == steps[i];
    TableTellsLife(steps[..j], steps[j].id, steps[j].now);
  }

  predicate Creates(steps: seq<Step>, c: nat, id: string)
    requires c < |steps|
  {
    steps[c].FinishStep? && steps[c].id == id && Opens(Before(steps, c), steps[c])
  }

  predicate AcceptedByHistory(steps: seq<Step>, i: nat, id: string)
    requires i < |steps|
  {
    var l := LifeOf(steps[..i], id);
    steps[i].LoadStep? && steps[i].id == id && l.Alive? && !Expired(l.createdAt, l.lastSeen, steps[i].now)
  }

  /** The last thing that happened before step `end` to a live session is its creation or a lookup that succeeded. */
  ghost predicate LastTouch(steps: seq<Step>, end: nat, id: string, l: Life, c: nat, i: nat)
    requires l.Alive? && end <= |steps|
  {
    && c <= i < end && Creates(steps, c, id) && steps[c].now == l.createdAt
    && steps[i].now == l.lastSeen && (i == c || AcceptedByHistory(steps, i, id))
    && (forall m | i < m < end :: !Touches(Before(steps, m), steps[m], id))
  }

  lemma LifeStep(steps: seq<Step>, end: nat, id: string)
    requires end < |steps|
    ensures LifeOf(steps[..end + 1], id) == LifeAfter(LifeOf(steps[..end], id), Before(steps, end), steps[end], id)
  {
    assert steps[..end + 1][..end] == steps[..end];
  }

  lemma {:induction false} LifeHasStory(steps: seq<Step>, end: nat, id: string)
    requires end <= |steps|
    ensures var l := LifeOf(steps[..end], id); l.Alive? ==> exists c: nat, i: nat :: LastTouch(steps, end, id, l, c, i)
    decreases end
  {
    hide Opens, Next, LifeOf;
    if end == 0 {
      NoLife(id);
    } else {
      var n := end - 1;
      var before, l := LifeOf(steps[..n], id), LifeOf(steps[..end], id);
      LifeHasStory(steps, n, id);
      LifeStep(steps, n, id);
      if l.Alive? {
        if Touches(Before(steps, n), steps[n], id) && steps[n].FinishStep? {
          assert LastTouch(steps, end, id, l, n, n);
        } else {
          var c: nat, i: nat :| LastTouch(steps, n, id, before, c, i);
          assert LastTouch(steps, end, id, l, c, if Touches(Before(steps, n), steps[n], id) then n else i);
        }
      }
    }
  }

  lemma NoLife(id: string)
    ensures LifeOf([], id) == Gone
  {
  }

  /** Whatever happens to the tables in between, a lookup that succeeds comes less than the absolute timeout after its
      session was opened, and less than the idle timeout after the last step that touched the session, which opened it
      or was itself a lookup that succeeded. So after the first refusal, or a logout, none succeeds again. */
  lemma LookupsAreTimely(steps: seq<Step>, j: nat)
    requires InOrder(steps) && j < |steps| && steps[j].LoadStep? && steps[j].id != ""
    requires Accepts(Before(steps, j).store, steps[j].now, steps[j].id)
    ensures exists c: nat, i: nat | c <= i < j ::
              && Creates(steps, c, steps[j].id) && steps[j].now - steps[c].now < SESSION_ABSOLUTE_TIMEOUT_S
              && steps[j].now - steps[i].now < SESSION_IDLE_TIMEOUT_S
              && (i == c || (steps[i].LoadStep? && steps[i].id == steps[j].id
                             && Accepts(Before(steps, i).store, steps[i].now, steps[i].id)))
              && (forall m | i < m < j :: !Touches(Before(steps, m), steps[m], steps[j].id))
  {
    hide Opens, Next, Touches, Accepts, LifeOf;
    var id := steps[j].id;
    LookupIff(steps, j);
    LifeHasStory(steps, j, id);
    var l := LifeOf(steps[..j], id);
    var c: nat, i: nat :| LastTouch(steps, j, id, l, c, i);
    if i != c {
      LookupIff(steps, i);
    }
  }

  lemma CreatedOnce(steps: seq<Step>, c: nat, d: nat, id: string)
    requires FreshTokens(steps) && c < |steps| && d < |steps| && Creates(steps, c, id) && Creates(steps, d, id)
    ensures c == d
  {
    assert steps[c].id == steps[d].id;
  }

  /** After the first refusal, or a logout, a session is never accepted again. */
  lemma {:induction false} RefusedForGood(steps: seq<Step>, c: nat, r: nat, j: nat)
    requires InOrder(steps) && FreshTokens(steps) && c < r < j < |steps|
    requires steps[j].LoadStep? && steps[j].id != "" && Creates(steps, c, steps[j].id)
    requires (steps[r].EndStep? && steps[r].id == steps[j].id)
             || (&& steps[r].LoadStep? && steps[r].id == steps[j].id
                 && !Accepts(Before(steps, r).store, steps[r].now, steps[j].id))
    ensures !Accepts(Before(steps, j).store, steps[j].now, steps[j].id)
    decreases j
  {
    hide Opens, Next, Accepts, InOrder, Takes, Stores, After;
    if Accepts(Before(steps, j).store, steps[j].now, steps[j].id) {
      LookupsAreTimely(steps, j);
      var d: nat, i: nat :| d <= i < j && Creates(steps, d, steps[j].id)
        && (i == d || (steps[i].LoadStep? && steps[i].id == steps[j].id
                       && Accepts(Before(steps, i).store, steps[i].now, steps[i].id)))
        && (forall m | i < m < j :: !Touches(Before(steps, m), steps[m], steps[j].id));
      CreatedOnce(steps, c, d, steps[j].id);
      assert Touches(Before(steps, r), steps[r], steps[j].id);
      if r < i {
        RefusedForGood(steps, c, r, i);
      }
    }
  }
}
