/** The OIDC branch of the HTTP auth middleware: look the token's hash up in the
    session cache, else validate the token and store the claims. Requests and
    background cleanups interleave at every lock release. */
module Auth {
  import opened Options
  import Session

  type Claims = Session.Claims

  /** `validator(token, t)` is ValidateToken's verdict at time t; a missing
      session cache is `caching == false`. */
  datatype Config = Config(session: Session.Config, caching: bool, hash: string -> string,
                           validator: (string, int) -> Option<Claims>)
  {
    ghost predicate Valid() {
      session.Valid() && forall a, b :: hash(a) == hash(b) ==> a == b
    }
  }

  datatype Event =
    | Validated(request: nat, token: string, claims: Claims, at: int)
    | Stored(request: nat, token: string, claims: Claims, at: int)
    | Hit(request: nat, token: string, claims: Claims, at: int)
    | Rejected(request: nat, token: string, at: int)

  /** `via` is the index of the event that let the request through. */
  datatype Request =
    | Looking(token: string)
    | Validating(token: string)
    | Storing(token: string, via: nat)
    | Admitted(token: string, claims: Claims, via: nat)
    | Refused(token: string)

  datatype State = State(now: int, cache: Session.Cache, requests: map<nat, Request>, log: seq<Event>)

  datatype Action =
    | Tick(d: nat)
    | Arrive(r: nat, token: string)
    | Lookup(r: nat)
    | Validate(r: nat)
    | Store(r: nat, victim: Option<string>)
    | Cleanup

  predicate Enabled(cfg: Config, s: State, a: Action) {
    match a
    case Arrive(r, _) => r !in s.requests
    case Lookup(r) => r in s.requests && s.requests[r].Looking?
    case Validate(r) => r in s.requests && s.requests[r].Validating?
    case Store(r, victim) =>
      && CanStore(s, r)
      && Session.Enabled(cfg.session, s.cache, PutOp(cfg, s, r, victim))
    case _ => true
  }

  predicate CanStore(s: State, r: nat) {
    r in s.requests && s.requests[r].Storing? && s.requests[r].via < |s.log| && s.log[s.requests[r].via].Validated?
  }

  function PutOp(cfg: Config, s: State, r: nat, victim: Option<string>): Session.Op
    requires CanStore(s, r)
  {
    Session.Put(cfg.hash(s.requests[r].token), s.log[s.requests[r].via].claims, s.now, victim)
  }

  function Move(s: State, r: nat, to: Request, cache: Session.Cache, events: seq<Event>): State {
    s.(requests := s.requests[r := to], cache := cache, log := s.log + events)
  }

  function Apply(cfg: Config, s: State, a: Action): State
    requires Enabled(cfg, s, a)
  {
    match a
    case Tick(d) => s.(now := s.now + d)
    case Arrive(r, token) => Move(s, r, if token == "" then Refused(token) else Looking(token), s.cache, [])
    case Lookup(r) =>
      var token := s.requests[r].token;
      var found := Session.Step(cfg.session, s.cache, Session.Op.Get(cfg.hash(token), s.now));
      if cfg.caching && found.1.Some?
      then Move(s, r, Admitted(token, found.1.value, |s.log|), found.0, [Hit(r, token, found.1.value, s.now)])
      else Move(s, r, Validating(token), if cfg.caching then found.0 else s.cache, [])
    case Validate(r) =>
      var token := s.requests[r].token;
      var verdict := cfg.validator(token, s.now);
      if verdict.None? then Move(s, r, Refused(token), s.cache, [Rejected(r, token, s.now)])
      else Move(s, r, if cfg.caching then Storing(token, |s.log|) else Admitted(token, verdict.value, |s.log|),
                s.cache, [Validated(r, token, verdict.value, s.now)])
    case Store(r, victim) =>
      var q := s.requests[r];
      var claims := s.log[q.via].claims;
      Move(s, r, Admitted(q.token, claims, q.via), Session.Step(cfg.session, s.cache, PutOp(cfg, s, r, victim)).0,
           [Stored(r, q.token, claims, s.now)])
    case Cleanup => s.(cache := Session.Step(cfg.session, s.cache, Session.Cleanup(s.now)).0)
  }

  function Exec(cfg: Config, start: int, actions: seq<Action>): Option<State> {
    if actions == [] then Some(State(start, map[], map[], []))
    else
      var s := Exec(cfg, start, actions[..|actions| - 1]);
      var a := actions[|actions| - 1];
      if s.Some? && Enabled(cfg, s.value, a) then Some(Apply(cfg, s.value, a)) else None
  }

  // ---- Invariant -----------------------------------------------------------

  predicate IsAccess(e: Event, token: string) {
    (e.Stored? || e.Hit?) && e.token == token
  }

  /** `p` is the latest access of `token` among the first `n` events. */
  ghost predicate LatestAccess(log: seq<Event>, p: nat, n: nat, token: string)
    requires n <= |log|
  {
    && p < n && IsAccess(log[p], token)
    && forall i :: p < i < n ==> !IsAccess(log[i], token)
  }

  ghost predicate LinkOk(cfg: Config, log: seq<Event>, n: nat)
    requires n < |log|
  {
    match log[n]
    case Validated(_, token, claims, at) => cfg.validator(token, at) == Some(claims)
    case Stored(_, token, claims, at) => ValidatedBefore(log, n, token, claims, at)
    case Hit(_, token, claims, at) => at <= claims.expiresAt && HitLink(cfg, log, n, token, claims, at)
    case Rejected(_, token, at) => cfg.validator(token, at) == None
  }

  ghost predicate ValidatedBefore(log: seq<Event>, n: nat, token: string, claims: Claims, at: int)
    requires n <= |log|
  {
    exists v :: 0 <= v < n && log[v].Validated? && log[v].token == token && log[v].claims == claims && log[v].at <= at
  }

  ghost predicate HitLink(cfg: Config, log: seq<Event>, n: nat, token: string, claims: Claims, at: int)
    requires n <= |log|
  {
    exists p: nat :: LatestAccess(log, p, n, token) && log[p].claims == claims && at - log[p].at <= cfg.session.inactivityTtl
  }

  ghost predicate EntryOk(cfg: Config, log: seq<Event>, key: string, e: Session.Entry) {
    exists p: nat, token :: LatestAccess(log, p, |log|, token) && cfg.hash(token) == key
                         && log[p].claims == e.claims && log[p].at == e.lastAccess
  }

  ghost predicate RequestOk(log: seq<Event>, r: nat, q: Request) {
    match q
    case Storing(token, via) => via < |log| && log[via].Validated? && log[via].request == r && log[via].token == token
    case Admitted(token, claims, via) => via < |log| && (log[via].Validated? || log[via].Hit?) && log[via].request == r && log[via].token == token && log[via].claims == claims
    case _ => true
  }

  ghost predicate Inv(cfg: Config, s: State) {
    && (forall i :: 0 <= i < |s.log| ==> s.log[i].at <= s.now)
    && (forall i, j :: 0 <= i < j < |s.log| ==> s.log[i].at <= s.log[j].at)
    && (forall n :: 0 <= n < |s.log| ==> LinkOk(cfg, s.log, n))
    && (forall k :: k in s.cache ==> EntryOk(cfg, s.log, k, s.cache[k]))
    && (forall r :: r in s.requests ==> RequestOk(s.log, r, s.requests[r]))
  }

  lemma LinksSurvive(cfg: Config, log: seq<Event>, e: Event)
    requires forall n :: 0 <= n < |log| ==> LinkOk(cfg, log, n)
    ensures forall n :: 0 <= n < |log| ==> LinkOk(cfg, log + [e], n)
  {
    var log' := log + [e];
    forall n | 0 <= n < |log|
      ensures LinkOk(cfg, log', n)
    {
      assert LinkOk(cfg, log, n);
      match log[n]
      case Validated(_, _, _, _) =>
      case Stored(_, token, claims, at) =>
        var v :| 0 <= v < n && log[v].Validated? && log[v].token == token && log[v].claims == claims && log[v].at <= at;
        assert log'[v] == log[v];
      case Hit(_, token, claims, at) =>
        var p: nat :| LatestAccess(log, p, n, token) && log[p].claims == claims && at - log[p].at <= cfg.session.inactivityTtl;
        assert LatestAccess(log', p, n, token);
      case Rejected(_, _, _) =>
    }
  }

  /** Entries under other keys do not notice an event on `e.token`. */
  lemma EntrySurvives(cfg: Config, log: seq<Event>, e: Event, key: string, entry: Session.Entry)
    requires EntryOk(cfg, log, key, entry)
    requires e.Validated? || e.Rejected? || cfg.hash(e.token) != key
    ensures EntryOk(cfg, log + [e], key, entry)
  {
    var p: nat, token :| LatestAccess(log, p, |log|, token) && cfg.hash(token) == key
                      && log[p].claims == entry.claims && log[p].at == entry.lastAccess;
    assert LatestAccess(log + [e], p, |log + [e]|, token);
  }

  /** A step that appends `e`, moves request `r` and replaces the cache. */
  lemma MoveKeeps(cfg: Config, s: State, r: nat, to: Request, cache: Session.Cache, e: Event)
    requires Inv(cfg, s) && e.at == s.now
    requires LinkOk(cfg, s.log + [e], |s.log|) && RequestOk(s.log + [e], r, to)
    requires forall k :: k in cache ==> EntryOk(cfg, s.log + [e], k, cache[k])
    ensures Inv(cfg, Move(s, r, to, cache, [e]))
  {
    LinksSurvive(cfg, s.log, e);
    forall q | q in s.requests ensures RequestOk(s.log + [e], q, s.requests[q]) {
      assert RequestOk(s.log, q, s.requests[q]);
    }
  }

  lemma LookupKeeps(cfg: Config, s: State, r: nat)
    requires cfg.Valid() && Inv(cfg, s) && Enabled(cfg, s, Lookup(r))
    ensures Inv(cfg, Apply(cfg, s, Lookup(r)))
  {
    var s' := Apply(cfg, s, Lookup(r));
    var token := s.requests[r].token;
    var key := cfg.hash(token);
    if s'.requests[r].Admitted? {
      var e := Hit(r, token, s'.requests[r].claims, s.now);
      assert EntryOk(cfg, s.log, key, s.cache[key]);
      var p: nat, t :| LatestAccess(s.log, p, |s.log|, t) && cfg.hash(t) == key
                    && s.log[p].claims == s.cache[key].claims && s.log[p].at == s.cache[key].lastAccess;
      assert LatestAccess(s'.log, p, |s.log|, token);
      forall k | k in s'.cache ensures EntryOk(cfg, s'.log, k, s'.cache[k]) {
        if k == key {
          assert LatestAccess(s'.log, |s.log|, |s'.log|, token);
        } else {
          EntrySurvives(cfg, s.log, e, k, s.cache[k]);
        }
      }
      MoveKeeps(cfg, s, r, s'.requests[r], s'.cache, e);
    } else {
      assert s'.log == s.log;
    }
  }

  lemma ValidateKeeps(cfg: Config, s: State, r: nat)
    requires cfg.Valid() && Inv(cfg, s) && Enabled(cfg, s, Validate(r))
    ensures Inv(cfg, Apply(cfg, s, Validate(r)))
  {
    var s' := Apply(cfg, s, Validate(r));
    var token := s.requests[r].token;
    var verdict := cfg.validator(token, s.now);
    var e := if verdict.None? then Rejected(r, token, s.now) else Validated(r, token, verdict.value, s.now);
    forall k | k in s'.cache ensures EntryOk(cfg, s'.log, k, s'.cache[k]) {
      EntrySurvives(cfg, s.log, e, k, s.cache[k]);
    }
    MoveKeeps(cfg, s, r, s'.requests[r], s'.cache, e);
  }

  lemma StoreKeeps(cfg: Config, s: State, r: nat, victim: Option<string>)
    requires cfg.Valid() && Inv(cfg, s) && Enabled(cfg, s, Store(r, victim))
    ensures Inv(cfg, Apply(cfg, s, Store(r, victim)))
  {
    var s' := Apply(cfg, s, Store(r, victim));
    var q := s.requests[r];
    assert RequestOk(s.log, r, q);
    var e := Stored(r, q.token, s.log[q.via].claims, s.now);
    assert s'.log[q.via] == s.log[q.via];
    forall k | k in s'.cache ensures EntryOk(cfg, s'.log, k, s'.cache[k]) {
      if k == cfg.hash(q.token) {
        assert LatestAccess(s'.log, |s.log|, |s'.log|, q.token);
      } else {
        EntrySurvives(cfg, s.log, e, k, s.cache[k]);
      }
    }
    MoveKeeps(cfg, s, r, s'.requests[r], s'.cache, e);
  }

  lemma {:induction false} Reachable(cfg: Config, start: int, actions: seq<Action>)
    requires cfg.Valid() && Exec(cfg, start, actions).Some?
    ensures Inv(cfg, Exec(cfg, start, actions).value)
  {
    if actions != [] {
      var before := actions[..|actions| - 1];
      Reachable(cfg, start, before);
      var s := Exec(cfg, start, before).value;
      match actions[|actions| - 1]
      case Lookup(r) => LookupKeeps(cfg, s, r);
      case Validate(r) => ValidateKeeps(cfg, s, r);
      case Store(r, victim) => StoreKeeps(cfg, s, r, victim);
      case Arrive(r, token) => assert Apply(cfg, s, Arrive(r, token)).log == s.log;
      case _ =>
    }
  }

  // ---- Main results --------------------------------------------------------

  /** Between events `s` and `n` the token was never left alone longer than the
      inactivity window, and it kept the same claims. */
  ghost predicate KeptAlive(cfg: Config, log: seq<Event>, token: string, claims: Claims, s: nat, n: nat)
    requires n < |log|
  {
    forall j: nat :: s < j <= n && IsAccess(log[j], token) ==>
      log[j].claims == claims && log[j].at <= claims.expiresAt && HitLink(cfg, log, j, token, claims, log[j].at)
  }

  /** A hit traces back, access by access, to a validation in the same run. */
  lemma {:induction false} HitTracesBack(cfg: Config, log: seq<Event>, n: nat) returns (v: nat, s: nat)
    requires n < |log| && IsAccess(log[n], log[n].token)
    requires forall i :: 0 <= i < |log| ==> LinkOk(cfg, log, i)
    ensures v < s <= n && log[v].Validated? && log[s].Stored? && log[v].at <= log[s].at
    ensures log[v].token == log[s].token == log[n].token && log[v].claims == log[s].claims == log[n].claims
    ensures KeptAlive(cfg, log, log[n].token, log[n].claims, s, n)
  {
    assert LinkOk(cfg, log, n);
    var e := log[n];
    if e.Stored? {
      s := n;
      v :| 0 <= v < n && log[v].Validated? && log[v].token == e.token && log[v].claims == e.claims && log[v].at <= e.at;
    } else {
      var p: nat :| LatestAccess(log, p, n, e.token) && log[p].claims == e.claims && e.at - log[p].at <= cfg.session.inactivityTtl;
      v, s := HitTracesBack(cfg, log, p);
    }
  }

  /** An admitted request either has its own successful validation, or it hit
      the cache no later than the token's expiry, after a validation in the same
      run that yielded the very claims it carries, with the session kept alive
      by accesses no further apart than the inactivity window. */
  lemma AdmissionIsJustified(cfg: Config, start: int, actions: seq<Action>, r: nat) returns (v: nat, s: nat)
    requires cfg.Valid() && Exec(cfg, start, actions).Some?
    requires r in Exec(cfg, start, actions).value.requests && Exec(cfg, start, actions).value.requests[r].Admitted?
    ensures var st := Exec(cfg, start, actions).value;
            var q := st.requests[r];
            && q.via < |st.log| && (st.log[q.via].Validated? || st.log[q.via].Hit?)
            && st.log[q.via].request == r && st.log[q.via].token == q.token && st.log[q.via].claims == q.claims
            && v <= q.via && st.log[v].Validated? && st.log[v].token == q.token
            && cfg.validator(q.token, st.log[v].at) == Some(q.claims)
            && (v == q.via
                || (v < s < q.via && st.log[s].Stored? && st.log[s].token == q.token && st.log[q.via].Hit?
                    && st.log[v].at <= st.log[s].at <= st.log[q.via].at <= q.claims.expiresAt
                    && KeptAlive(cfg, st.log, q.token, q.claims, s, q.via)))
  {
    Reachable(cfg, start, actions);
    var st := Exec(cfg, start, actions).value;
    var q := st.requests[r];
    assert RequestOk(st.log, r, q);
    assert LinkOk(cfg, st.log, q.via);
    if st.log[q.via].Validated? {
      v, s := q.via, q.via;
    } else {
      v, s := HitTracesBack(cfg, st.log, q.via);
      assert LinkOk(cfg, st.log, v);
    }
  }

  // ---- Every request gets its due --------------------------------------------

  ghost predicate Untouched(log: seq<Event>, r: nat) {
    forall e :: e in log ==> e.request != r
  }

  /** Where a request stands, by what has happened to it. */
  ghost predicate Stands(cfg: Config, log: seq<Event>, r: nat, q: Request) {
    match q
    case Looking(token) => token != "" && Untouched(log, r)
    case Validating(token) => token != "" && Untouched(log, r)
    case Storing(token, via) =>
      && cfg.caching && via < |log| && log[via].Validated? && log[via].request == r && log[via].token == token
      && forall e :: e in log && e.request == r ==> e == log[via]
    case Admitted(token, claims, via) =>
      && via < |log| && log[via].request == r && log[via].token == token
      && (log[via].Validated? || log[via].Hit?) && log[via].claims == claims
      && (log[via].Validated? && cfg.caching ==> exists at :: Stored(r, token, claims, at) in log)
      && forall e :: e in log && e.request == r ==> !e.Rejected?
    case Refused(token) =>
      && (if token == "" then Untouched(log, r) else exists at :: Rejected(r, token, at) in log)
      && forall e :: e in log && e.request == r ==> e.Rejected?
  }

  ghost predicate AllStand(cfg: Config, s: State) {
    && (forall r :: r in s.requests ==> Stands(cfg, s.log, r, s.requests[r]))
    && (forall e :: e in s.log ==> e.request in s.requests)
  }

  lemma OthersStand(cfg: Config, log: seq<Event>, e: Event, r: nat, q: Request)
    requires Stands(cfg, log, r, q) && e.request != r
    ensures Stands(cfg, log + [e], r, q)
  {
    if q.Admitted? && log[q.via].Validated? && cfg.caching {
      var at :| Stored(r, q.token, q.claims, at) in log;
      assert Stored(r, q.token, q.claims, at) in log + [e];
    }
    if q.Refused? && q.token != "" {
      var at :| Rejected(r, q.token, at) in log;
      assert Rejected(r, q.token, at) in log + [e];
    }
  }

  lemma MoveStands(cfg: Config, s: State, r: nat, to: Request, cache: Session.Cache, e: Event)
    requires AllStand(cfg, s) && r in s.requests && e.request == r && Stands(cfg, s.log + [e], r, to)
    ensures AllStand(cfg, Move(s, r, to, cache, [e]))
  {
    forall q | q in s.requests && q != r ensures Stands(cfg, s.log + [e], q, s.requests[q]) {
      OthersStand(cfg, s.log, e, q, s.requests[q]);
    }
  }

  lemma LookupStands(cfg: Config, s: State, r: nat)
    requires AllStand(cfg, s) && Enabled(cfg, s, Lookup(r))
    ensures AllStand(cfg, Apply(cfg, s, Lookup(r)))
  {
    var s' := Apply(cfg, s, Lookup(r));
    assert Stands(cfg, s.log, r, s.requests[r]);
    if s'.requests[r].Admitted? {
      MoveStands(cfg, s, r, s'.requests[r], s'.cache, s'.log[|s.log|]);
    } else {
      assert s'.log == s.log;
    }
  }

  lemma ValidateStands(cfg: Config, s: State, r: nat)
    requires AllStand(cfg, s) && Enabled(cfg, s, Validate(r))
    ensures AllStand(cfg, Apply(cfg, s, Validate(r)))
  {
    var s' := Apply(cfg, s, Validate(r));
    assert Stands(cfg, s.log, r, s.requests[r]);
    var e := s'.log[|s.log|];
    assert e in s'.log;
    MoveStands(cfg, s, r, s'.requests[r], s'.cache, e);
  }

  lemma StoreStands(cfg: Config, s: State, r: nat, victim: Option<string>)
    requires AllStand(cfg, s) && Enabled(cfg, s, Store(r, victim))
    ensures AllStand(cfg, Apply(cfg, s, Store(r, victim)))
  {
    var s' := Apply(cfg, s, Store(r, victim));
    assert Stands(cfg, s.log, r, s.requests[r]);
    var e := s'.log[|s.log|];
    assert e in s'.log && e == Stored(r, e.token, e.claims, e.at);
    MoveStands(cfg, s, r, s'.requests[r], s'.cache, e);
  }

  lemma {:induction false} EveryoneStands(cfg: Config, start: int, actions: seq<Action>)
    requires Exec(cfg, start, actions).Some?
    ensures AllStand(cfg, Exec(cfg, start, actions).value)
  {
    if actions != [] {
      var before, a := actions[..|actions| - 1], actions[|actions| - 1];
      EveryoneStands(cfg, start, before);
      var s := Exec(cfg, start, before).value;
      match a
      case Lookup(r) => LookupStands(cfg, s, r);
      case Validate(r) => ValidateStands(cfg, s, r);
      case Store(r, victim) => StoreStands(cfg, s, r, victim);
      case Arrive(r, token) => assert Apply(cfg, s, a).log == s.log;
      case _ =>
    }
  }

  /** Main result: a request whose token validates, or hits the cache, is never
      refused, and with a cache its claims are stored before it is admitted; a
      request is refused only for an empty token or after the validator has
      refused its token. */
  lemma RefusalIsJustified(cfg: Config, start: int, actions: seq<Action>, r: nat)
    requires cfg.Valid() && Exec(cfg, start, actions).Some? && r in Exec(cfg, start, actions).value.requests
    ensures var s := Exec(cfg, start, actions).value;
            var q := s.requests[r];
            && (q.Refused? && q.token != "" ==> exists at :: Rejected(r, q.token, at) in s.log && cfg.validator(q.token, at) == None)
            && ((exists e :: e in s.log && e.request == r && !e.Rejected?) ==> q.Storing? || q.Admitted?)
            && (q.Admitted? && q.via < |s.log| && s.log[q.via].Validated? && cfg.caching ==>
                  exists at :: Stored(r, q.token, q.claims, at) in s.log)
  {
    Reachable(cfg, start, actions);
    EveryoneStands(cfg, start, actions);
    var s := Exec(cfg, start, actions).value;
    var q := s.requests[r];
    assert Stands(cfg, s.log, r, q);
    if q.Refused? && q.token != "" {
      var at :| Rejected(r, q.token, at) in s.log;
      var n :| 0 <= n < |s.log| && s.log[n] == Rejected(r, q.token, at);
      assert LinkOk(cfg, s.log, n);
    }
  }

  /** The validator's verdict depends on time only through the expiry: a token
      is good strictly before its exp (section 4.1.4 of RFC 7519). */
  ghost predicate ExpiryOnly(cfg: Config) {
    exists claims: string -> Option<Claims> :: DecidesBy(cfg, claims)
  }

  ghost predicate DecidesBy(cfg: Config, claims: string -> Option<Claims>) {
    forall token, t :: cfg.validator(token, t) ==
      if claims(token).Some? && t < claims(token).value.expiresAt then claims(token) else None
  }

  function CachedVerdict(cfg: Config, s: State, token: string): Option<Claims> {
    var found := Session.Step(cfg.session, s.cache, Session.Op.Get(cfg.hash(token), s.now)).1;
    if found.Some? then found else cfg.validator(token, s.now)
  }

  /** In every reachable state the cached and the uncached verdict agree, unless
      the clock reads exactly the expiry of a live session: there the cache
      still accepts and the validator no longer does. */
  lemma CacheAgreesExceptAtExpiry(cfg: Config, start: int, actions: seq<Action>, token: string)
    requires cfg.Valid() && ExpiryOnly(cfg) && Exec(cfg, start, actions).Some?
    ensures var s := Exec(cfg, start, actions).value;
            var found := Session.Step(cfg.session, s.cache, Session.Op.Get(cfg.hash(token), s.now)).1;
            CachedVerdict(cfg, s, token) == cfg.validator(token, s.now)
            <==> !(found.Some? && found.value.expiresAt == s.now)
  {
    Reachable(cfg, start, actions);
    var s := Exec(cfg, start, actions).value;
    var key := cfg.hash(token);
    var found := Session.Step(cfg.session, s.cache, Session.Op.Get(key, s.now)).1;
    if found.Some? {
      assert EntryOk(cfg, s.log, key, s.cache[key]);
      var p: nat, t :| LatestAccess(s.log, p, |s.log|, t) && cfg.hash(t) == key
                    && s.log[p].claims == s.cache[key].claims && s.log[p].at == s.cache[key].lastAccess;
      var v, _ := HitTracesBack(cfg, s.log, p);
      assert LinkOk(cfg, s.log, v);
      var claims :| DecidesBy(cfg, claims);
      assert cfg.validator(token, s.log[v].at) == Some(found.value);
    }
  }

  /** The exception is reached: any token admitted so shortly before its expiry
      that the window does not close is still accepted from the cache at the
      very instant of expiry, where the validator refuses it. */
  lemma CacheOutlivesValidator(cfg: Config, claimsOf: string -> Option<Claims>, start: int, token: string)
    returns (actions: seq<Action>)
    requires cfg.Valid() && cfg.caching && DecidesBy(cfg, claimsOf) && token != "" && claimsOf(token).Some?
    requires 0 < claimsOf(token).value.expiresAt - start <= cfg.session.inactivityTtl
    ensures Exec(cfg, start, actions).Some?
    ensures var s := Exec(cfg, start, actions).value;
            && s.now == claimsOf(token).value.expiresAt
            && CachedVerdict(cfg, s, token) == claimsOf(token) && cfg.validator(token, s.now) == None
  {
    var claims := claimsOf(token).value;
    var key := cfg.hash(token);
    var empty := State(start, map[], map[], []);
    var s1 := OneMore(cfg, start, [], empty, Arrive(0, token));
    var s2 := OneMore(cfg, start, [Arrive(0, token)], s1, Lookup(0));
    assert s2 == State(start, map[], map[0 := Validating(token)], []);
    actions := [Arrive(0, token), Lookup(0)];
    var s3 := OneMore(cfg, start, actions, s2, Validate(0));
    assert s3.requests[0] == Storing(token, 0) && s3.log == [Validated(0, token, claims, start)];
    actions := actions + [Validate(0)];
    var s4 := OneMore(cfg, start, actions, s3, Store(0, None));
    assert s4.cache == map[key := Session.Entry(claims, start, start)];
    actions := actions + [Store(0, None)];
    var s5 := OneMore(cfg, start, actions, s4, Tick(claims.expiresAt - start));
    actions := actions + [Tick(claims.expiresAt - start)];
  }

  lemma OneMore(cfg: Config, start: int, actions: seq<Action>, s: State, a: Action) returns (next: State)
    requires Exec(cfg, start, actions) == Some(s) && Enabled(cfg, s, a)
    ensures next == Apply(cfg, s, a) && Exec(cfg, start, actions + [a]) == Some(next)
  {
    assert (actions + [a])[..|actions|] == actions;
    next := Apply(cfg, s, a);
  }

  /** What a request gets: the cached verdict, or the validator's without a cache. */
  function Due(cfg: Config, s: State, token: string): Option<Claims> {
    if cfg.caching then CachedVerdict(cfg, s, token) else cfg.validator(token, s.now)
  }

  ghost predicate Ends(q: Request, token: string, due: Option<Claims>) {
    match due
    case Some(claims) => q.Admitted? && q.token == token && q.claims == claims
    case None => q == Refused(token)
  }

  /** From every state, a request that runs on its own ends with its due, and the
      validator is asked only when the cache has no live session. */
  lemma AloneGetsItsDue(cfg: Config, start: int, actions: seq<Action>, s: State, r: nat, token: string)
    returns (more: seq<Action>, next: State)
    requires cfg.Valid() && Exec(cfg, start, actions) == Some(s) && r !in s.requests && token != ""
    ensures actions <= more && Exec(cfg, start, more) == Some(next) && next.now == s.now
    ensures r in next.requests && Ends(next.requests[r], token, Due(cfg, s, token))
    ensures var found := Session.Step(cfg.session, s.cache, Session.Op.Get(cfg.hash(token), s.now)).1;
            cfg.caching && found.Some? ==> next.log == s.log + [Hit(r, token, found.value, s.now)]
  {
    next := OneMore(cfg, start, actions, s, Arrive(r, token));
    more := actions + [Arrive(r, token)];
    assert next.requests[r] == Looking(token) && next.log == s.log && next.cache == s.cache;
    next := OneMore(cfg, start, more, next, Lookup(r));
    more := more + [Lookup(r)];
    if next.requests[r].Validating? {
      assert next.log == s.log && next.requests[r] == Validating(token);
      more, next := ValidatedAlone(cfg, start, more, next, r, token);
    }
  }

  lemma ValidatedAlone(cfg: Config, start: int, actions: seq<Action>, s: State, r: nat, token: string)
    returns (more: seq<Action>, next: State)
    requires cfg.Valid() && Exec(cfg, start, actions) == Some(s) && r in s.requests && s.requests[r] == Validating(token)
    ensures actions <= more && Exec(cfg, start, more) == Some(next) && next.now == s.now
    ensures r in next.requests && Ends(next.requests[r], token, cfg.validator(token, s.now))
  {
    next := OneMore(cfg, start, actions, s, Validate(r));
    more := actions + [Validate(r)];
    if next.requests[r].Storing? {
      var claims := cfg.validator(token, s.now).value;
      assert next.requests[r] == Storing(token, |s.log|) && next.log[|s.log|] == Validated(r, token, claims, s.now);
      var put := Session.PossibleCall(cfg.session, next.cache, PutOp(cfg, next, r, None));
      assert PutOp(cfg, next, r, put.victim) == put;
      var stored := OneMore(cfg, start, more, next, Store(r, put.victim));
      more, next := more + [Store(r, put.victim)], stored;
    }
  }

  // ---- The cache behind the requests ------------------------------------------

  /** What a step does to the session cache. */
  function CacheOp(cfg: Config, s: State, a: Action): seq<Session.Op>
    requires Enabled(cfg, s, a)
  {
    match a
    case Lookup(r) => if cfg.caching then [Session.Op.Get(cfg.hash(s.requests[r].token), s.now)] else []
    case Store(r, victim) =>
      [Session.Put(cfg.hash(s.requests[r].token), s.log[s.requests[r].via].claims, s.now, victim)]
    case Cleanup => [Session.Cleanup(s.now)]
    case _ => []
  }

  function CacheOps(cfg: Config, start: int, actions: seq<Action>): seq<Session.Op>
    requires Exec(cfg, start, actions).Some?
  {
    if actions == [] then []
    else
      var before, a := actions[..|actions| - 1], actions[|actions| - 1];
      CacheOps(cfg, start, before) + CacheOp(cfg, Exec(cfg, start, before).value, a)
  }

  /** At most one operation, made at the time of the step. */
  lemma CacheEffect(cfg: Config, s: State, a: Action)
    requires Enabled(cfg, s, a)
    ensures var ops, next := CacheOp(cfg, s, a), Apply(cfg, s, a);
            && s.now <= next.now
            && if ops == [] then next.cache == s.cache
               else && ops == [ops[0]] && Session.Timed(ops[0]) && ops[0].at == s.now == next.now
                    && Session.Enabled(cfg.session, s.cache, ops[0])
                    && next.cache == Session.Step(cfg.session, s.cache, ops[0]).0
  {
  }

  lemma LaterOp(ops: seq<Session.Op>, op: Session.Op)
    requires Session.Ordered(ops) && Session.Timed(op) && Session.NotLater(ops, op.at)
    ensures Session.Ordered(ops + [op]) && Session.NotLater(ops + [op], op.at)
  {
  }

  lemma CacheStep(cfg: Config, s: State, a: Action, ops: seq<Session.Op>)
    requires Enabled(cfg, s, a) && Session.Exec(cfg.session, ops) == Some(s.cache)
    requires Session.Ordered(ops) && Session.NotLater(ops, s.now)
    ensures var more, next := ops + CacheOp(cfg, s, a), Apply(cfg, s, a);
            && Session.Exec(cfg.session, more) == Some(next.cache)
            && Session.Ordered(more) && Session.NotLater(more, next.now)
  {
    CacheEffect(cfg, s, a);
    var one := CacheOp(cfg, s, a);
    if one == [] {
      assert ops + [] == ops;
    } else {
      Session.OneMore(cfg.session, ops, one[0]);
      LaterOp(ops, one[0]);
    }
  }

  /** Over every interleaving of requests the cache goes through one run of cache
      operations, in clock order, so everything proved of such runs holds here. */
  lemma {:induction false} CacheIsSessionRun(cfg: Config, start: int, actions: seq<Action>)
    requires Exec(cfg, start, actions).Some?
    ensures var s, ops := Exec(cfg, start, actions).value, CacheOps(cfg, start, actions);
            Session.Exec(cfg.session, ops) == Some(s.cache) && Session.Ordered(ops) && Session.NotLater(ops, s.now)
  {
    if actions != [] {
      var before := actions[..|actions| - 1];
      CacheIsSessionRun(cfg, start, before);
      CacheStep(cfg, Exec(cfg, start, before).value, actions[|actions| - 1], CacheOps(cfg, start, before));
    }
  }

  /** In particular, while no store has found the cache full, a lookup hits exactly
      when the token's own lookups and stores have kept its session alive. */
  lemma HitsExactlyWhileAlive(cfg: Config, start: int, actions: seq<Action>, token: string)
    requires cfg.Valid() && Exec(cfg, start, actions).Some? && Session.NeverEvicts(CacheOps(cfg, start, actions))
    ensures var s := Exec(cfg, start, actions).value;
            Session.Step(cfg.session, s.cache, Session.Op.Get(cfg.hash(token), s.now)).1
              == Session.HistoryAnswer(cfg.session, CacheOps(cfg, start, actions), cfg.hash(token), s.now)
  {
    CacheIsSessionRun(cfg, start, actions);
    Session.GetAnswersHistory(cfg.session, CacheOps(cfg, start, actions), cfg.hash(token), Exec(cfg, start, actions).value.now);
  }

  // ---- The handler ---------------------------------------------------------

  /** One request, run without interruption: lookup at t0, validation at t1,
      store at t2. Without a cache every token is validated. */
  method Handle(cfg: Config, cache: Session.SessionCache?, token: string, t0: int, t1: int, t2: int)
    returns (claims: Option<Claims>, ghost victim: Option<string>)
    requires cfg.Valid() && (cfg.caching <==> cache != null) && (cache != null ==> cfg.session == cache.config)
    modifies if cache == null then {} else {cache}
    ensures token == "" ==> claims.None? && (cache != null ==> cache.entries == old(cache.entries))
    ensures token != "" && cache == null ==> claims == cfg.validator(token, t1)
    ensures token != "" && cache != null ==>
              var key := cfg.hash(token);
              var found := Session.Step(cfg.session, old(cache.entries), Session.Op.Get(key, t0));
              if found.1.Some? then claims == found.1 && cache.entries == found.0
              else
                && claims == cfg.validator(token, t1)
                && cache.entries == (if claims.None? then found.0
                                     else Session.Step(cfg.session, found.0, Session.Put(key, claims.value, t2, victim)).0)
  {
    claims, victim := None, None;
    if token == "" {
      return;
    }
    var cacheKey := cfg.hash(token);
    if cache != null {
      claims := cache.Get(cacheKey, t0);
    }
    if claims.None? {
      claims := cfg.validator(token, t1);
      if claims.None? {
        return;
      }
      if cache != null {
        victim := cache.Put(cacheKey, claims.value, t2);
      }
    }
  }
}
