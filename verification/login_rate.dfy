/** The login rate limiter: a sliding window per client, in a table of bounded size. */
module LoginRate {

  const AUTH_RATE_WINDOW_S := 60.0
  const MAX_AUTH_REQUESTS := 60
  const MAX_TRACKED_CLIENTS := 1024

  type Client = string

  /** An insertion-ordered dictionary of time stamps. */
  datatype Table = Table(order: seq<Client>, stamps: map<Client, seq<real>>)

  predicate Valid(t: Table) {
    && (forall i, j | 0 <= i < j < |t.order| :: t.order[i] != t.order[j])
    && (forall i | 0 <= i < |t.order| :: t.order[i] in t.stamps)
    && (forall c | c in t.stamps :: c in t.order)
  }

  predicate Recent(now: real, stamp: real) {
    now - stamp < AUTH_RATE_WINDOW_S
  }

  /** The stamps still inside the window that ends now. */
  function Fresh(stamps: seq<real>, now: real): seq<real>
    decreases |stamps|
  {
    if stamps == [] then []
    else
      var n := |stamps| - 1;
      Fresh(stamps[..n], now) + if Recent(now, stamps[n]) then [stamps[n]] else []
  }

  function StampsOf(t: Table, c: Client): seq<real> {
    if c in t.stamps then t.stamps[c] else []
  }

  predicate Admits(t: Table, c: Client, now: real) {
    |Fresh(StampsOf(t, c), now)| < MAX_AUTH_REQUESTS
  }

  function Put(t: Table, c: Client, stamps: seq<real>): Table {
    Table(if c in t.stamps then t.order else t.order + [c], t.stamps[c := stamps])
  }

  function Keep(order: seq<Client>, kept: set<Client>): seq<Client>
    decreases |order|
  {
    if order == [] then []
    else
      var n := |order| - 1;
      Keep(order[..n], kept) + if order[n] in kept then [order[n]] else []
  }

  /** Clients none of whose stamps is in the window any more are dropped. */
  function DropStale(t: Table, now: real): Table {
    var stamps := map c | c in t.stamps && Fresh(t.stamps[c], now) != [] :: t.stamps[c];
    Table(Keep(t.order, stamps.Keys), stamps)
  }

  /** The oldest clients go first when there are too many. */
  function Evict(t: Table): Table {
    if |t.order| <= MAX_TRACKED_CLIENTS then t
    else
      var order := t.order[|t.order| - MAX_TRACKED_CLIENTS..];
      Table(order, map c | c in t.stamps && c in order :: t.stamps[c])
  }

  function Counted(t: Table, c: Client, now: real): Table {
    var recent := Fresh(StampsOf(t, c), now);
    DropStale(Put(t, c, if Admits(t, c, now) then recent + [now] else recent), now)
  }

  function AfterCall(t: Table, c: Client, now: real): Table {
    Evict(Counted(t, c, now))
  }

  lemma {:induction false} KeepIsFilter(order: seq<Client>, kept: set<Client>)
    requires forall i, j | 0 <= i < j < |order| :: order[i] != order[j]
    ensures var r := Keep(order, kept);
            && |r| <= |order|
            && (forall i, j | 0 <= i < j < |r| :: r[i] != r[j])
            && (forall c :: c in r <==> c in order && c in kept)
    decreases |order|
  {
    if order != [] {
      var n := |order| - 1;
      KeepIsFilter(order[..n], kept);
      assert order == order[..n] + [order[n]];
      assert order[n] !in order[..n];
    }
  }

  lemma PutKeepsValid(t: Table, c: Client, stamps: seq<real>)
    requires Valid(t)
    ensures Valid(Put(t, c, stamps))
  {
    assert c !in t.stamps ==> c !in t.order;
  }

  lemma DropKeepsValid(t: Table, now: real)
    requires Valid(t)
    ensures Valid(DropStale(t, now)) && |DropStale(t, now).order| <= |t.order|
  {
    hide Fresh, Keep;
    KeepIsFilter(t.order, DropStale(t, now).stamps.Keys);
  }

  lemma EvictKeepsValid(t: Table)
    requires Valid(t)
    ensures Valid(Evict(t)) && |Evict(t).order| <= MAX_TRACKED_CLIENTS
  {
  }

  /** After every call the table is well formed and within its bound, evictions or not. */
  lemma CallKeepsValid(t: Table, c: Client, now: real)
    requires Valid(t)
    ensures Valid(Counted(t, c, now)) && Valid(AfterCall(t, c, now))
    ensures |AfterCall(t, c, now).order| <= 1024
  {
    hide Valid, Fresh, Put, DropStale, Evict;
    var recent := Fresh(StampsOf(t, c), now);
    var stamps := if Admits(t, c, now) then recent + [now] else recent;
    PutKeepsValid(t, c, stamps);
    DropKeepsValid(Put(t, c, stamps), now);
    EvictKeepsValid(Counted(t, c, now));
  }

  function Pop(t: Table): Table
    requires t.order != []
  {
    Table(t.order[1..], map k | k in t.stamps && k != t.order[0] :: t.stamps[k])
  }

  lemma PopKeepsValid(t: Table)
    requires Valid(t) && t.order != []
    ensures Valid(Pop(t))
  {
  }

  lemma EvictedExactly(t: Table, r: Table)
    requires Valid(t) && Valid(r) && |r.order| <= MAX_TRACKED_CLIENTS
    requires if |t.order| <= MAX_TRACKED_CLIENTS then r == t else r.order == t.order[|t.order| - MAX_TRACKED_CLIENTS..]
    requires forall k | k in r.stamps :: k in t.stamps && r.stamps[k] == t.stamps[k]
    ensures r == Evict(t)
  {
    hide Valid;
    SameKeys(t);
    SameKeys(r);
    if |t.order| > MAX_TRACKED_CLIENTS {
      forall k ensures k in r.stamps <==> k in Evict(t).stamps {
        assert k in r.order ==> k in t.order;
      }
      assert r.stamps == Evict(t).stamps;
    }
  }

  lemma SameKeys(t: Table)
    requires Valid(t)
    ensures forall c :: c in t.stamps <==> c in t.order
  {
  }

  class RateTable {
    var table: Table

    method EvictOldest()
      requires Valid(table)
      modifies this
      ensures table == Evict(old(table))
    {
      hide Valid;
      ghost var gone := 0;
      while |table.order| > MAX_TRACKED_CLIENTS
        invariant Valid(table) && gone <= |old(table).order| && table.order == old(table).order[gone..]
        invariant forall k | k in table.stamps :: k in old(table).stamps && table.stamps[k] == old(table).stamps[k]
        invariant gone == 0 ==> table == old(table)
        invariant gone > 0 ==> |table.order| >= MAX_TRACKED_CLIENTS
      {
        PopKeepsValid(table);
        table := Pop(table);
        gone := gone + 1;
      }
      EvictedExactly(old(table), table);
    }

    /** True when the client has already spent its allowance for this window. */
    method RateLimited(c: Client, now: real) returns (limited: bool)
      requires Valid(table)
      modifies this
      ensures limited <==> !Admits(old(table), c, now)
      ensures table == AfterCall(old(table), c, now) && Valid(table) && |table.order| <= MAX_TRACKED_CLIENTS
    {
      hide Valid, Fresh, Put, DropStale, Evict;
      CallKeepsValid(table, c, now);
      var stamps := Fresh(StampsOf(table, c), now);
      limited := |stamps| >= MAX_AUTH_REQUESTS;
      if !limited {
        stamps := stamps + [now];
      }
      table := DropStale(Put(table, c, stamps), now);
      EvictOldest();
    }
  }

  /** The caller's own entry is recent when its call is over. */
  lemma CallerIsRecent(t: Table, c: Client, now: real)
    ensures var recent := Fresh(StampsOf(t, c), now);
            Fresh(if Admits(t, c, now) then recent + [now] else recent, now) != []
  {
    var recent := Fresh(StampsOf(t, c), now);
    FreshStep(recent, now, now);
    FreshAgain(StampsOf(t, c), now, now);
  }

  /** An eviction takes the client tracked longest, and only on the call of a client that was not tracked: a caller
      never pushes itself out. */
  lemma CallEvictsOldest(t: Table, c: Client, now: real)
    requires Valid(t) && |t.order| <= MAX_TRACKED_CLIENTS
    ensures c in AfterCall(t, c, now).stamps
    ensures var counted := Counted(t, c, now);
            forall k | k in counted.stamps && k !in AfterCall(t, c, now).stamps ::
              c !in t.stamps && counted.order != [] && counted.order[0] == k
  {
    hide Fresh, Keep, Valid, Evict;
    var recent := Fresh(StampsOf(t, c), now);
    var put := Put(t, c, if Admits(t, c, now) then recent + [now] else recent);
    var counted := Counted(t, c, now);
    CallerIsRecent(t, c, now);
    PutKeepsValid(t, c, put.stamps[c]);
    DropKeepsValid(put, now);
    if |counted.order| > MAX_TRACKED_CLIENTS {
      assert put.order == t.order + [c];
      KeepLast(t.order, c, counted.stamps.Keys);
    }
    EvictOne(counted, c);
  }

  lemma EvictOne(t: Table, c: Client)
    requires Valid(t) && c in t.stamps && |t.order| <= MAX_TRACKED_CLIENTS + 1
    requires |t.order| > MAX_TRACKED_CLIENTS ==> t.order[|t.order| - 1] == c
    ensures c in Evict(t).stamps
    ensures forall k | k in t.stamps && k !in Evict(t).stamps :: |t.order| > MAX_TRACKED_CLIENTS && t.order[0] == k
  {
    hide Valid;
    SameKeys(t);
    if |t.order| > MAX_TRACKED_CLIENTS {
      var rest := t.order[1..];
      assert rest[|rest| - 1] == c && t.order == [t.order[0]] + rest;
    }
  }

  lemma KeepLast(order: seq<Client>, c: Client, kept: set<Client>)
    requires c in kept
    ensures Keep(order + [c], kept) == Keep(order, kept) + [c]
  {
    assert (order + [c])[..|order|] == order;
  }

  // ---------------------------------------------------------------------------------------------
  // Whole histories of calls
  // ---------------------------------------------------------------------------------------------

  datatype Call = Call(client: Client, now: real)

  function TableAfter(t: Table, calls: seq<Call>): Table
    decreases |calls|
  {
    if calls == [] then t
    else
      var n := |calls| - 1;
      AfterCall(TableAfter(t, calls[..n]), calls[n].client, calls[n].now)
  }

  const EMPTY := Table([], map[])

  predicate Admitted(calls: seq<Call>, i: nat)
    requires i < |calls|
  {
    Admits(TableAfter(EMPTY, calls[..i]), calls[i].client, calls[i].now)
  }

  /** How many calls of the client were admitted with a time stamp in [from, to). */
  function AdmittedIn(calls: seq<Call>, c: Client, from: real, to: real): nat
    decreases |calls|
  {
    if calls == [] then 0
    else
      var n := |calls| - 1;
      AdmittedIn(calls[..n], c, from, to)
      + if calls[n].client == c && from <= calls[n].now < to && Admits(TableAfter(EMPTY, calls[..n]), c, calls[n].now)
        then 1 else 0
  }

  /** The call pushes the client's own entry out of the table. */
  predicate Evicts(t: Table, call: Call, c: Client) {
    var counted := Counted(t, call.client, call.now);
    c in counted.stamps && c !in Evict(counted).stamps
  }

  predicate NeverEvicted(calls: seq<Call>, c: Client) {
    forall i | 0 <= i < |calls| :: !Evicts(TableAfter(EMPTY, calls[..i]), calls[i], c)
  }

  lemma FreshStep(stamps: seq<real>, x: real, now: real)
    ensures Fresh(stamps + [x], now) == Fresh(stamps, now) + if Recent(now, x) then [x] else []
  {
    assert (stamps + [x])[..|stamps|] == stamps;
  }

  lemma {:induction false} FreshAgain(stamps: seq<real>, m: real, now: real)
    requires m <= now
    ensures Fresh(Fresh(stamps, m), now) == Fresh(stamps, now)
    ensures Fresh(stamps, m) == [] ==> Fresh(stamps, now) == []
    decreases |stamps|
  {
    if stamps != [] {
      var n := |stamps| - 1;
      FreshAgain(stamps[..n], m, now);
      FreshStep(Fresh(stamps[..n], m), stamps[n], now);
      assert !Recent(m, stamps[n]) ==> Fresh(stamps, m) == Fresh(stamps[..n], m);
    }
  }

  /** What one call that does not evict the client does to the client's stamps, as seen at any later time. */
  lemma StampsStep(t: Table, call: Call, c: Client, now: real)
    requires !Evicts(t, call, c) && call.now <= now
    ensures Fresh(StampsOf(AfterCall(t, call.client, call.now), c), now)
            == Fresh(StampsOf(t, c), now)
               + if call.client == c && Admits(t, c, call.now) && Recent(now, call.now) then [call.now] else []
  {
    var m := call.now;
    var recent := Fresh(StampsOf(t, call.client), m);
    var stamps := if Admits(t, call.client, m) then recent + [m] else recent;
    var put := Put(t, call.client, stamps);
    FreshAgain(StampsOf(put, c), m, now);
    FreshAgain(StampsOf(t, c), m, now);
    assert (recent + [m])[..|recent|] == recent;
    assert Fresh(StampsOf(AfterCall(t, call.client, m), c), now) == Fresh(StampsOf(put, c), now);
  }

  lemma PrefixIsTame(calls: seq<Call>, c: Client)
    requires NeverEvicted(calls, c) && calls != []
    ensures var n := |calls| - 1; NeverEvicted(calls[..n], c) && !Evicts(TableAfter(EMPTY, calls[..n]), calls[n], c)
  {
    hide Evicts;
    var n := |calls| - 1;
    assert forall i | 0 <= i < n :: calls[i] == calls[..n][i] && calls[..i] == calls[..n][..i];
  }

  /** How many calls of the client were admitted in the window that ends now. */
  function AdmittedLately(calls: seq<Call>, c: Client, now: real): nat
    decreases |calls|
  {
    if calls == [] then 0
    else
      var n := |calls| - 1;
      AdmittedLately(calls[..n], c, now)
      + if calls[n].client == c && Recent(now, calls[n].now) && Admits(TableAfter(EMPTY, calls[..n]), c, calls[n].now)
        then 1 else 0
  }

  /** As seen at a time no call was stamped after, the table holds exactly the admitted calls still in the window. */
  lemma {:induction false} TableIsHistory(calls: seq<Call>, c: Client, now: real)
    requires NeverEvicted(calls, c)
    requires forall i | 0 <= i < |calls| :: calls[i].now <= now
    ensures |Fresh(StampsOf(TableAfter(EMPTY, calls), c), now)| == AdmittedLately(calls, c, now)
    decreases |calls|
  {
    hide Evicts, AfterCall, Admits, NeverEvicted;
    if calls != [] {
      var n := |calls| - 1;
      PrefixIsTame(calls, c);
      TableIsHistory(calls[..n], c, now);
      StampsStep(TableAfter(EMPTY, calls[..n]), calls[n], c, now);
    }
  }

  /** A call that no earlier call of the lock order is stamped after is admitted exactly when fewer than the allowed
      number of calls of its client were admitted in the 60 seconds before it. */
  lemma AdmittedIff(calls: seq<Call>, i: nat)
    requires i < |calls| && NeverEvicted(calls, calls[i].client)
    requires forall k | 0 <= k < i :: calls[k].now <= calls[i].now
    ensures Admitted(calls, i) <==> AdmittedLately(calls[..i], calls[i].client, calls[i].now) < MAX_AUTH_REQUESTS
  {
    hide Evicts;
    assert forall j | 0 <= j < i :: calls[..i][j] == calls[j] && calls[..i][..j] == calls[..j];
    TableIsHistory(calls[..i], calls[i].client, calls[i].now);
  }

  lemma {:induction false} FreshOfFresh(stamps: seq<real>, m: real, now: real)
    ensures |Fresh(Fresh(stamps, m), now)| <= |Fresh(stamps, now)|
    decreases |stamps|
  {
    if stamps != [] {
      var n := |stamps| - 1;
      FreshOfFresh(stamps[..n], m, now);
      FreshStep(Fresh(stamps[..n], m), stamps[n], now);
      assert !Recent(m, stamps[n]) ==> Fresh(stamps, m) == Fresh(stamps[..n], m);
    }
  }

  lemma StampsGrowByCall(t: Table, call: Call, c: Client, now: real)
    ensures |Fresh(StampsOf(AfterCall(t, call.client, call.now), c), now)|
            <= |Fresh(StampsOf(t, c), now)|
               + if call.client == c && Admits(t, c, call.now) && Recent(now, call.now) then 1 else 0
  {
    var m := call.now;
    var recent := Fresh(StampsOf(t, call.client), m);
    FreshOfFresh(StampsOf(t, call.client), m, now);
    FreshStep(recent, m, now);
  }

  /** Whatever the stamps and the evictions, the table never holds more than what was admitted. */
  lemma {:induction false} TableHoldsNoMore(calls: seq<Call>, c: Client, now: real)
    ensures |Fresh(StampsOf(TableAfter(EMPTY, calls), c), now)| <= AdmittedLately(calls, c, now)
    decreases |calls|
  {
    hide AfterCall, Admits;
    if calls != [] {
      var n := |calls| - 1;
      TableHoldsNoMore(calls[..n], c, now);
      StampsGrowByCall(TableAfter(EMPTY, calls[..n]), calls[n], c, now);
    }
  }

  /** So no call is refused but for a full window: in any lock order of any stamps, and with any evictions, a refused
      call has the allowed number of admitted calls in the 60 seconds before its stamp. */
  lemma RefusedOnlyWhenFull(calls: seq<Call>, i: nat)
    requires i < |calls| && !Admitted(calls, i)
    ensures AdmittedLately(calls[..i], calls[i].client, calls[i].now) >= MAX_AUTH_REQUESTS
  {
    TableHoldsNoMore(calls[..i], calls[i].client, calls[i].now);
  }

  // ---------------------------------------------------------------------------------------------
  // The sliding window
  // ---------------------------------------------------------------------------------------------

  function CountFrom(stamps: seq<real>, from: real): nat
    decreases |stamps|
  {
    if stamps == [] then 0 else CountFrom(stamps[..|stamps| - 1], from) + if from <= stamps[|stamps| - 1] then 1 else 0
  }

  lemma CountStep(stamps: seq<real>, x: real, from: real)
    ensures CountFrom(stamps + [x], from) == CountFrom(stamps, from) + if from <= x then 1 else 0
  {
    assert (stamps + [x])[..|stamps|] == stamps;
  }

  /** Until the window that begins at `from` is over, no stamp in it is dropped. */
  lemma {:induction false} WindowSurvives(stamps: seq<real>, now: real, from: real)
    requires now < from + AUTH_RATE_WINDOW_S
    ensures CountFrom(Fresh(stamps, now), from) == CountFrom(stamps, from) <= |Fresh(stamps, now)|
    decreases |stamps|
  {
    if stamps != [] {
      var n := |stamps| - 1;
      WindowSurvives(stamps[..n], now, from);
      CountStep(Fresh(stamps[..n], now), stamps[n], from);
      assert !Recent(now, stamps[n]) ==> Fresh(stamps, now) == Fresh(stamps[..n], now);
    }
  }

  /** What a call that does not evict the client leaves of its stamps. */
  function StampsLeft(t: Table, call: Call, c: Client): seq<real> {
    var recent := Fresh(StampsOf(t, c), call.now);
    if call.client != c then StampsOf(t, c)
    else if Admits(t, c, call.now) then recent + [call.now]
    else recent
  }

  lemma CallLeaves(t: Table, call: Call, c: Client)
    requires !Evicts(t, call, c)
    ensures StampsOf(AfterCall(t, call.client, call.now), c)
            == if Fresh(StampsLeft(t, call, c), call.now) == [] then [] else StampsLeft(t, call, c)
  {
    hide Fresh, Keep, Admits;
  }

  lemma CallInWindow(t: Table, call: Call, c: Client, from: real)
    requires !Evicts(t, call, c) && call.now < from + AUTH_RATE_WINDOW_S
    ensures CountFrom(StampsOf(AfterCall(t, call.client, call.now), c), from)
            == CountFrom(StampsOf(t, c), from)
               + if call.client == c && Admits(t, c, call.now) && from <= call.now then 1 else 0
  {
    hide Fresh, AfterCall, Evicts, Admits;
    CallLeaves(t, call, c);
    WindowSurvives(StampsOf(t, c), call.now, from);
    CountStep(Fresh(StampsOf(t, c), call.now), call.now, from);
    WindowSurvives(StampsLeft(t, call, c), call.now, from);
  }

  lemma {:induction false} TableHoldsWindow(calls: seq<Call>, c: Client, from: real)
    requires NeverEvicted(calls, c) && forall i | 0 <= i < |calls| :: calls[i].now < from + AUTH_RATE_WINDOW_S
    ensures CountFrom(StampsOf(TableAfter(EMPTY, calls), c), from)
            == AdmittedIn(calls, c, from, from + AUTH_RATE_WINDOW_S)
    decreases |calls|
  {
    hide Evicts, AfterCall, Admits, NeverEvicted;
    if calls != [] {
      var n := |calls| - 1;
      PrefixIsTame(calls, c);
      TableHoldsWindow(calls[..n], c, from);
      CallInWindow(TableAfter(EMPTY, calls[..n]), calls[n], c, from);
    }
  }

  lemma {:induction false} ShorterWindow(calls: seq<Call>, c: Client, from: real, to: real, later: real)
    requires to <= later
    ensures AdmittedIn(calls, c, from, to) <= AdmittedIn(calls, c, from, later)
    decreases |calls|
  {
    if calls != [] {
      ShorterWindow(calls[..|calls| - 1], c, from, to, later);
    }
  }

  /** No call that gets the lock before a call of the client in [from, to) is stamped 60 seconds after `from` or
      later. */
  predicate Orderly(calls: seq<Call>, c: Client, from: real, to: real) {
    forall i, j | 0 <= i < j < |calls| && calls[j].client == c && from <= calls[j].now < to ::
      calls[i].now < from + AUTH_RATE_WINDOW_S
  }

  /** The sliding window: while the client's entry is not evicted, a window of at most 60 seconds holds no more than the
      allowed number of admitted calls, whatever the history, as long as no call from behind the window gets the lock
      before a call of the window does. */
  lemma {:induction false} OrderlyWindow(calls: seq<Call>, c: Client, from: real, to: real)
    requires NeverEvicted(calls, c) && Orderly(calls, c, from, to) && to <= from + AUTH_RATE_WINDOW_S
    ensures AdmittedIn(calls, c, from, to) <= MAX_AUTH_REQUESTS
    decreases |calls|
  {
    hide Fresh, Evicts, AfterCall, NeverEvicted;
    if calls != [] {
      var n := |calls| - 1;
      var front := calls[..n];
      PrefixIsTame(calls, c);
      assert forall i | 0 <= i < n :: front[i] == calls[i];
      OrderlyWindow(front, c, from, to);
      if calls[n].client == c && from <= calls[n].now < to {
        TableHoldsWindow(front, c, from);
        ShorterWindow(front, c, from, to, from + AUTH_RATE_WINDOW_S);
        WindowSurvives(StampsOf(TableAfter(EMPTY, front), c), calls[n].now, from);
      }
    }
  }

  /** Stamps are read before the lock is taken. A call may get the lock up to `lag` seconds' worth of stamps late. */
  predicate Lags(calls: seq<Call>, lag: real) {
    forall i, j | 0 <= i < j < |calls| :: calls[i].now <= calls[j].now + lag
  }

  /** Where stamps reach the lock at most `lag` seconds out of order, a window that much shorter than 60 seconds keeps
      the bound; where they reach it in order, every 60 second window does. */
  lemma SlidingWindow(calls: seq<Call>, c: Client, from: real, lag: real)
    requires NeverEvicted(calls, c) && lag >= 0.0 && Lags(calls, lag)
    ensures AdmittedIn(calls, c, from, from + AUTH_RATE_WINDOW_S - lag) <= MAX_AUTH_REQUESTS
  {
    hide NeverEvicted, AdmittedIn;
    LagsAreOrderly(calls, c, from, lag);
    OrderlyWindow(calls, c, from, from + AUTH_RATE_WINDOW_S - lag);
  }

  lemma LagsAreOrderly(calls: seq<Call>, c: Client, from: real, lag: real)
    requires Lags(calls, lag)
    ensures Orderly(calls, c, from, from + AUTH_RATE_WINDOW_S - lag)
  {
  }

  function Burst(c: Client, n: nat): seq<Call> {
    if n == 0 then [] else Burst(c, n - 1) + [Call(c, 0.0)]
  }

  function Zeros(n: nat): seq<real> {
    if n == 0 then [] else Zeros(n - 1) + [0.0]
  }

  lemma {:induction false} ZerosAre(n: nat, now: real)
    ensures |Zeros(n)| == n && Fresh(Zeros(n), now) == if Recent(now, 0.0) then Zeros(n) else []
  {
    if n > 0 {
      ZerosAre(n - 1, now);
      FreshStep(Zeros(n - 1), 0.0, now);
    }
  }

  lemma LonePut(t: Table, c: Client, stamps: seq<real>)
    requires t == EMPTY || (t.order == [c] && t.stamps.Keys == {c})
    ensures Put(t, c, stamps) == Table([c], map[c := stamps])
  {
  }

  lemma LoneDrop(c: Client, stamps: seq<real>, now: real)
    requires Fresh(stamps, now) != []
    ensures DropStale(Table([c], map[c := stamps]), now) == Table([c], map[c := stamps])
  {
    hide Fresh;
    var kept := DropStale(Table([c], map[c := stamps]), now).stamps;
    assert kept == map[c := stamps];
    KeepLast([], c, kept.Keys);
    assert [] + [c] == [c];
  }

  lemma OneClient(t: Table, c: Client, now: real)
    requires t == EMPTY || (t.order == [c] && t.stamps.Keys == {c})
    ensures var recent := Fresh(StampsOf(t, c), now);
            AfterCall(t, c, now) == Table([c], map[c := if Admits(t, c, now) then recent + [now] else recent])
  {
    hide Fresh, Put, DropStale, Admits;
    CallerIsRecent(t, c, now);
    var recent := Fresh(StampsOf(t, c), now);
    var stamps := if Admits(t, c, now) then recent + [now] else recent;
    LonePut(t, c, stamps);
    LoneDrop(c, stamps, now);
  }

  lemma {:induction false} BurstAdmitted(c: Client, n: nat)
    requires n <= MAX_AUTH_REQUESTS
    ensures |Burst(c, n)| == n && AdmittedIn(Burst(c, n), c, 0.0, AUTH_RATE_WINDOW_S) == n
    ensures TableAfter(EMPTY, Burst(c, n)) == if n == 0 then EMPTY else Table([c], map[c := Zeros(n)])
  {
    if n > 0 {
      BurstAdmitted(c, n - 1);
      BurstStep(c, n);
    }
  }

  lemma BurstStep(c: Client, n: nat)
    requires 0 < n <= MAX_AUTH_REQUESTS
    requires TableAfter(EMPTY, Burst(c, n - 1)) == if n == 1 then EMPTY else Table([c], map[c := Zeros(n - 1)])
    ensures TableAfter(EMPTY, Burst(c, n)) == Table([c], map[c := Zeros(n)])
    ensures AdmittedIn(Burst(c, n), c, 0.0, AUTH_RATE_WINDOW_S)
            == AdmittedIn(Burst(c, n - 1), c, 0.0, AUTH_RATE_WINDOW_S) + 1
  {
    hide AfterCall, Fresh;
    var t := TableAfter(EMPTY, Burst(c, n - 1));
    ZerosAre(n - 1, 0.0);
    assert StampsOf(t, c) == Zeros(n - 1);
    OneClient(t, c, 0.0);
    assert AfterCall(t, c, 0.0) == Table([c], map[c := Zeros(n)]);
    assert Burst(c, n)[..|Burst(c, n)| - 1] == Burst(c, n - 1);
    hide Zeros, Burst;
  }

  lemma {:induction false} TablesAreValid(calls: seq<Call>)
    ensures Valid(TableAfter(EMPTY, calls)) && |TableAfter(EMPTY, calls).order| <= MAX_TRACKED_CLIENTS
    decreases |calls|
  {
    hide AfterCall;
    if calls != [] {
      var n := |calls| - 1;
      TablesAreValid(calls[..n]);
      CallKeepsValid(TableAfter(EMPTY, calls[..n]), calls[n].client, calls[n].now);
    }
  }

  /** A client is evicted only by the calls of others. */
  lemma OwnCallsDoNotEvict(calls: seq<Call>, c: Client)
    requires forall i | 0 <= i < |calls| :: calls[i].client == c
    ensures NeverEvicted(calls, c)
  {
    hide Counted, Evict;
    forall i | 0 <= i < |calls| ensures !Evicts(TableAfter(EMPTY, calls[..i]), calls[i], c) {
      TablesAreValid(calls[..i]);
      CallEvictsOldest(TableAfter(EMPTY, calls[..i]), c, calls[i].now);
    }
  }

  lemma {:induction false} BurstIsOwn(c: Client, n: nat)
    ensures forall i | 0 <= i < |Burst(c, n)| :: Burst(c, n)[i] == Call(c, 0.0)
  {
    if n > 0 {
      BurstIsOwn(c, n - 1);
    }
  }

  /** After a full burst a call stamped as the window closes empties the entry, and then comes a call stamped `lag`
      seconds before that one. */
  function LateStamp(c: Client, lag: real): seq<Call> {
    Burst(c, MAX_AUTH_REQUESTS) + [Call(c, AUTH_RATE_WINDOW_S)] + [Call(c, AUTH_RATE_WINDOW_S - lag)]
  }

  lemma LateStampIsTame(c: Client, lag: real)
    requires 0.0 <= lag <= AUTH_RATE_WINDOW_S
    ensures NeverEvicted(LateStamp(c, lag), c) && Lags(LateStamp(c, lag), lag)
  {
    hide NeverEvicted;
    BurstIsOwn(c, MAX_AUTH_REQUESTS);
    OwnCallsDoNotEvict(LateStamp(c, lag), c);
  }

  /** Both late calls are admitted, the second as the 61st of every window that holds it and the burst. */
  lemma LateStampOverfills(c: Client, lag: real, to: real)
    requires 0.0 <= lag <= AUTH_RATE_WINDOW_S && to > AUTH_RATE_WINDOW_S - lag
    ensures AdmittedIn(LateStamp(c, lag), c, 0.0, to) > MAX_AUTH_REQUESTS
  {
    hide AfterCall, Fresh, Put, Evict;
    var burst := Burst(c, MAX_AUTH_REQUESTS);
    var first := burst + [Call(c, AUTH_RATE_WINDOW_S)];
    var calls := LateStamp(c, lag);
    BurstInWindow(c, MAX_AUTH_REQUESTS, to);
    ZerosAre(MAX_AUTH_REQUESTS, AUTH_RATE_WINDOW_S);
    BurstAdmitted(c, MAX_AUTH_REQUESTS);
    assert first[..|burst|] == burst && calls[..|first|] == first;
    OneClient(TableAfter(EMPTY, burst), c, AUTH_RATE_WINDOW_S);
    assert [] + [AUTH_RATE_WINDOW_S] == [AUTH_RATE_WINDOW_S];
    assert StampsOf(TableAfter(EMPTY, first), c) == [AUTH_RATE_WINDOW_S];
    OneStamp(AUTH_RATE_WINDOW_S, AUTH_RATE_WINDOW_S - lag);
  }

  lemma OneStamp(stamp: real, now: real)
    ensures |Fresh([stamp], now)| <= 1
  {
    FreshStep([], stamp, now);
    assert [] + [stamp] == [stamp];
  }

  lemma {:induction false} BurstInWindow(c: Client, n: nat, to: real)
    requires n <= MAX_AUTH_REQUESTS && to > 0.0
    ensures AdmittedIn(Burst(c, n), c, 0.0, to) == n
    decreases n
  {
    hide AfterCall, Fresh;
    if n > 0 {
      BurstInWindow(c, n - 1, to);
      BurstAdmitted(c, n - 1);
      ZerosAre(n - 1, 0.0);
      assert Burst(c, n)[..|Burst(c, n)| - 1] == Burst(c, n - 1);
    }
  }

  predicate WithinAllowance(calls: seq<Call>, c: Client, from: real, length: real) {
    AdmittedIn(calls, c, from, from + length) <= 60
  }

  /** The bound holds for windows of this length, over every history whose stamps reach the lock at most `lag` seconds
      out of order. */
  ghost predicate Bounded(c: Client, lag: real, length: real) {
    forall calls, from | NeverEvicted(calls, c) && Lags(calls, lag) :: WithinAllowance(calls, c, from, length)
  }

  /** Exactly which windows keep the bound: those of at most 60 seconds less the lag. So the 60 second window the
      limiter is named for keeps it exactly when stamps reach the lock in order. */
  lemma BoundedIff(c: Client, lag: real, length: real)
    requires 0.0 <= lag <= AUTH_RATE_WINDOW_S
    ensures Bounded(c, lag, length) <==> length <= 60.0 - lag
  {
    hide NeverEvicted, Lags, AdmittedIn;
    if length <= AUTH_RATE_WINDOW_S - lag {
      forall calls, from | NeverEvicted(calls, c) && Lags(calls, lag)
        ensures WithinAllowance(calls, c, from, length)
      {
        SlidingWindow(calls, c, from, lag);
        ShorterWindow(calls, c, from, from + length, from + AUTH_RATE_WINDOW_S - lag);
      }
    } else {
      LateStampIsTame(c, lag);
      LateStampOverfills(c, lag, length);
      assert !WithinAllowance(LateStamp(c, lag), c, 0.0, length);
    }
  }
}
