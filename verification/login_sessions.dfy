/** Pending logins and sessions: two tables shared by every request, and the runs over them. */
module LoginSessions {
  import opened Options

  const STATE_TTL_S := 600.0
  const MAX_PENDING_LOGINS := 1024
  const SESSION_IDLE_TIMEOUT_S := 1800.0
  const SESSION_ABSOLUTE_TIMEOUT_S := 28800.0

  datatype Pending = Pending(nonce: string, verifier: string, expiresAt: real, next: string)

  datatype Session = Session(principal: string, createdAt: real, lastSeen: real)

  datatype Store = Store(pending: map<string, Pending>, sessions: map<string, Session>)

  function Max(a: real, b: real): real {
    if a < b then b else a
  }

  predicate Expired(createdAt: real, lastSeen: real, now: real) {
    now - createdAt >= SESSION_ABSOLUTE_TIMEOUT_S || now - lastSeen >= SESSION_IDLE_TIMEOUT_S
  }

  function PrunePending(s: Store, now: real): Store {
    s.(pending := map k | k in s.pending && now < s.pending[k].expiresAt :: s.pending[k])
  }

  function PruneSessions(s: Store, now: real): Store {
    s.(sessions := map k | k in s.sessions && !Expired(s.sessions[k].createdAt, s.sessions[k].lastSeen, now)
                     :: s.sessions[k])
  }

  function NewLogin(now: real, nonce: string, verifier: string, next: string): Pending {
    Pending(nonce, verifier, now + STATE_TTL_S, next)
  }

  /** A new attempt is stored unless the table is at its capacity. */
  function Begin(s: Store, now: real, state: string, p: Pending): Store {
    var pruned := PrunePending(s, now);
    if |pruned.pending| >= MAX_PENDING_LOGINS then pruned else pruned.(pending := pruned.pending[state := p])
  }

  function Take(s: Store, state: string): Store {
    s.(pending := map k | k in s.pending && k != state :: s.pending[k])
  }

  function Create(s: Store, now: real, id: string, principal: string): Store {
    var pruned := PruneSessions(s, now);
    pruned.(sessions := pruned.sessions[id := Session(principal, now, now)])
  }

  function Drop(s: Store, id: string): Store {
    s.(sessions := map k | k in s.sessions && k != id :: s.sessions[k])
  }

  predicate Accepts(s: Store, now: real, id: string) {
    id != "" && id in s.sessions && !Expired(s.sessions[id].createdAt, s.sessions[id].lastSeen, now)
  }

  function Load(s: Store, now: real, id: string): Store {
    if Accepts(s, now, id) then
      var session := s.sessions[id];
      s.(sessions := s.sessions[id := session.(lastSeen := Max(session.lastSeen, now))])
    else if id == "" then s
    else Drop(s, id)
  }

  // ---------------------------------------------------------------------------------------------
  // The tables and the route handlers
  // ---------------------------------------------------------------------------------------------

  /** What the provider answers to the exchange of a code, step by step. */
  datatype Exchange = Exchange(discovered: bool, secret: bool, tokens: bool, idToken: bool, verified: bool,
                               decoded: bool, nonce: Option<string>, principal: string)

  datatype Outcome =
    | RateLimited | UnknownState | NotBoundToBrowser | ExpiredState | ProviderError | MissingCode | Unavailable
    | ExchangeFailed | TokenRejected | NonceMismatch | AtCapacity
    | Started | LoggedIn(id: string, next: string)

  predicate Ascii(s: string) {
    forall i | 0 <= i < |s| :: s[i] < 128 as char
  }

  predicate Verifies(e: Exchange) {
    e.discovered && e.secret && e.tokens && e.idToken && e.verified && e.decoded
  }

  predicate NonceMatches(e: Exchange, p: Pending) {
    e.nonce.Some? && Ascii(e.nonce.value) && e.nonce.value == p.nonce
  }

  datatype Callback = Callback(limited: bool, state: string, cookie: string, error: bool, code: string)

  predicate Bound(c: Callback) {
    c.cookie != "" && Ascii(c.cookie) && Ascii(c.state) && c.cookie == c.state
  }

  /** The callback comes from the browser that began the login: its cookie is the state, in ASCII. */
  predicate FromItsBrowser(c: Callback) {
    !c.limited && c.state != "" && SameText(Some(c.cookie), c.state)
  }

  predicate SameText(a: Option<string>, b: string) {
    a == Some(b) && forall i | 0 <= i < |b| :: b[i] as int <= 127
  }

  /** The sessions inside both deadlines. */
  function LiveSessions(s: Store, now: real): set<string> {
    set k | k in s.sessions && now - s.sessions[k].createdAt < 28800.0 && now - s.sessions[k].lastSeen < 1800.0
  }

  lemma LiveIs(s: Store, now: real)
    ensures PrunePending(s, now).pending.Keys == set k | k in s.pending && now < s.pending[k].expiresAt
    ensures |PrunePending(s, now).pending| == |PrunePending(s, now).pending.Keys|
  {
  }

  lemma CreatedIs(s: Store, now: real, id: string, principal: string)
    ensures Create(s, now, id, principal).pending == s.pending
    ensures Create(s, now, id, principal).sessions[id] == Session(principal, now, now)
  {
  }

  class LoginTables {
    var store: Store

    method BeginLogin(limited: bool, discovered: bool, now: real, state: string, nonce: string, verifier: string,
                      next: string) returns (r: Outcome)
      modifies this
      ensures r == if limited then RateLimited else if !discovered then Unavailable
                   else if |PrunePending(old(store), now).pending| >= MAX_PENDING_LOGINS then AtCapacity else Started
      ensures store == if limited || !discovered then old(store)
                       else Begin(old(store), now, state, NewLogin(now, nonce, verifier, next))
      ensures !limited && discovered ==>
                var live := set k | k in old(store).pending && now < old(store).pending[k].expiresAt;
                && (r == AtCapacity <==> |live| >= 1024) && store.sessions == old(store).sessions
                && store.pending.Keys == live + (if r.Started? then {state} else {})
                && (r.Started? ==> store.pending[state] == Pending(nonce, verifier, now + 600.0, next))
                && forall k | k in live && !(r.Started? && k == state) :: store.pending[k] == old(store).pending[k]
    {
      LiveIs(store, now);
      if limited {
        return RateLimited;
      }
      if !discovered {
        return Unavailable;
      }
      store := PrunePending(store, now);
      if |store.pending| >= MAX_PENDING_LOGINS {
        return AtCapacity;
      }
      store := store.(pending := store.pending[state := Pending(nonce, verifier, now + STATE_TTL_S, next)]);
      return Started;
    }

    /** Single use: the entry leaves the table before its expiry is even looked at, and no other does. */
    method TakeState(state: string) returns (p: Option<Pending>)
      modifies this
      ensures p == if state in old(store).pending then Some(old(store).pending[state]) else None
      ensures store == Take(old(store), state)
      ensures store.pending == old(store).pending - {state} && store.sessions == old(store).sessions
    {
      p := if state in store.pending then Some(store.pending[state]) else None;
      store := Take(store, state);
    }

    method FinishLogin(c: Callback, now: real, e: Exchange, later: real, id: string) returns (r: Outcome)
      modifies this
      ensures r.LoggedIn? <==>
                && FromItsBrowser(c) && !c.error && c.code != ""
                && e.discovered && e.secret && e.tokens && e.idToken && e.verified && e.decoded
                && c.state in old(store).pending && now < old(store).pending[c.state].expiresAt
                && SameText(e.nonce, old(store).pending[c.state].nonce)
      ensures r.LoggedIn? <==>
                && !c.limited && c.state != "" && Bound(c) && !c.error && c.code != "" && Verifies(e)
                && c.state in old(store).pending && now < old(store).pending[c.state].expiresAt
                && NonceMatches(e, old(store).pending[c.state])
      ensures r.LoggedIn? ==> r == LoggedIn(id, old(store).pending[c.state].next)
      ensures r == RateLimited <==> c.limited
      ensures r == NotBoundToBrowser <==> !c.limited && c.state != "" && !FromItsBrowser(c)
      ensures r == UnknownState <==>
                !c.limited && (c.state == "" || (FromItsBrowser(c) && c.state !in old(store).pending))
      ensures FromItsBrowser(c) && c.state in old(store).pending ==>
                var p := old(store).pending[c.state];
                && (r == ExpiredState <==> now >= p.expiresAt)
                && (r == ProviderError <==> now < p.expiresAt && c.error)
                && (r == MissingCode <==> now < p.expiresAt && !c.error && c.code == "")
                && (r == Unavailable <==>
                      now < p.expiresAt && !c.error && c.code != "" && !(e.discovered && e.secret))
                && (r == ExchangeFailed <==>
                      now < p.expiresAt && !c.error && c.code != "" && e.discovered && e.secret && !e.tokens)
                && (r == TokenRejected <==>
                      && now < p.expiresAt && !c.error && c.code != "" && e.discovered && e.secret && e.tokens
                      && !(e.idToken && e.verified && e.decoded))
                && r !in {Started, AtCapacity}
      ensures store == if c.limited || c.state == "" || !Bound(c) then old(store)
                       else if r.LoggedIn? then Create(Take(old(store), c.state), later, id, e.principal)
                       else Take(old(store), c.state)
      ensures r.LoggedIn? ==>
                store.sessions[id] == Session(e.principal, later, later) && c.state !in store.pending
    {
      hide Create, Take;
      CreatedIs(Take(store, c.state), later, id, e.principal);
      if c.limited {
        return RateLimited;
      }
      if c.state == "" {
        return UnknownState;
      }
      if !Bound(c) {
        return NotBoundToBrowser;
      }
      var pending := TakeState(c.state);
      if pending.None? {
        return UnknownState;
      }
      if now >= pending.value.expiresAt {
        return ExpiredState;
      }
      if c.error {
        return ProviderError;
      }
      if c.code == "" {
        return MissingCode;
      }
      if !e.discovered || !e.secret {
        return Unavailable;
      }
      if !e.tokens {
        return ExchangeFailed;
      }
      if !e.idToken || !e.verified || !e.decoded {
        return TokenRejected;
      }
      if !NonceMatches(e, pending.value) {
        return NonceMismatch;
      }
      CreateSession(later, id, e.principal);
      return LoggedIn(id, pending.value.next);
    }

    method CreateSession(now: real, id: string, principal: string)
      modifies this
      ensures store == Create(old(store), now, id, principal)
      ensures store.pending == old(store).pending
      ensures store.sessions.Keys == {id} + LiveSessions(old(store), now)
      ensures store.sessions[id] == Session(principal, now, now)
      ensures forall k | k in store.sessions && k != id :: store.sessions[k] == old(store).sessions[k]
    {
      store := PruneSessions(store, now);
      store := store.(sessions := store.sessions[id := Session(principal, now, now)]);
    }

    method LoadSession(now: real, id: string) returns (r: Option<Session>)
      modifies this
      ensures r.Some? <==> Accepts(old(store), now, id)
      ensures store == Load(old(store), now, id)
      ensures r.Some? <==> id != "" && id in LiveSessions(old(store), now)
      ensures r.Some? ==>
                var before := old(store).sessions[id];
                && r.value.principal == before.principal && r.value.createdAt == before.createdAt
                && r.value.lastSeen == (if now > before.lastSeen then now else before.lastSeen)
                && store.sessions == old(store).sessions[id := r.value]
      ensures r.None? && id != "" ==> store.sessions == old(store).sessions - {id}
      ensures r.None? && id == "" ==> store.sessions == old(store).sessions
      ensures store.pending == old(store).pending
    {
      if id == "" {
        return None;
      }
      if id !in store.sessions {
        assert Drop(store, id).sessions == store.sessions;
        return None;
      }
      var session := store.sessions[id];
      if now - session.createdAt >= SESSION_ABSOLUTE_TIMEOUT_S {
        store := Drop(store, id);
        return None;
      }
      if now - session.lastSeen >= SESSION_IDLE_TIMEOUT_S {
        store := Drop(store, id);
        return None;
      }
      session := session.(lastSeen := Max(session.lastSeen, now));
      store := store.(sessions := store.sessions[id := session]);
      return Some(session);
    }

    method EndSession(id: string)
      modifies this
      ensures store == if id == "" then old(store) else Drop(old(store), id)
      ensures store.pending == old(store).pending
      ensures store.sessions == if id == "" then old(store).sessions else old(store).sessions - {id}
    {
      if id != "" {
        store := Drop(store, id);
      }
    }
  }
}
