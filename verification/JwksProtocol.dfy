/** Every interleaving of key lookups over one jwksCache. A lookup is the part
    of ValidateToken that needs the cache: GetKeys and, when the kid is absent,
    RefreshKeys. Each takes the read or write lock, checks, fetches and writes
    the three fields in separate steps; time passes between any two of them. */
module JwksProtocol {
  import opened Options
  import opened Jwks

  /** `serves(url, t)` is the key set a fetch answered at instant t carries. */
  datatype Config = Config(ttl: int, minRefresh: int, serves: (string, int) -> KeyMap) {
    predicate Valid() { 0 < minRefresh <= ttl }
  }

  datatype Phase = Getting | Refreshing

  datatype Pc =
    | Begin
    | InReadLock
    | WantLock
    | InLock
    | Fetching(asked: int)
    | Fetched(asked: int, keys: KeyMap, served: int)
    | WroteKeys(asked: int, keys: KeyMap, served: int)
    | WroteUrl(asked: int, keys: KeyMap, served: int)
    | Holding(handout: nat)
    | Found(handout: nat)
    | Missing(handout: nat)
    | Failed

  datatype Thread = Thread(url: string, kid: string, start: int, phase: Phase, pc: Pc)

  /** A successful fetch: when its caller's recheck missed, for which age limit,
      when the endpoint answered, and when the cache was stamped. */
  datatype Fetch = Fetch(url: string, owner: nat, limit: int, asked: int, served: int, stamped: int, keys: KeyMap)

  /** A fetch, successful or not; `before` counts the successful ones before it. */
  datatype Attempt = Attempt(owner: nat, url: string, limit: int, asked: int, ok: bool, before: nat)

  /** A map given to a caller: by which fetch it was obtained, and when. */
  datatype Handout = Handout(tid: nat, url: string, limit: int, at: int, keys: KeyMap, fetch: nat)

  datatype State = State(now: int, fields: Fields, readers: set<nat>, writer: Option<nat>,
                         threads: map<nat, Thread>, log: seq<Fetch>, attempts: seq<Attempt>, handouts: seq<Handout>)

  function Init(now: int): State {
    State(now, Fields(map[], "", 0), {}, None, map[], [], [], [])
  }

  function Limit(cfg: Config, phase: Phase): int {
    match phase case Getting => cfg.ttl case Refreshing => cfg.minRefresh
  }

  datatype Action =
    | Tick(d: nat)
    | Arrive(tid: nat, url: string, kid: string)
    | AcquireRead(tid: nat)
    | Check(tid: nat)
    | AcquireWrite(tid: nat)
    | Recheck(tid: nat)
    | Answer(tid: nat)
    | AnswerFails(tid: nat)
    | WriteKeys(tid: nat)
    | WriteUrl(tid: nat)
    | WriteStamp(tid: nat)
    | Look(tid: nat)

  predicate Enabled(cfg: Config, s: State, a: Action) {
    match a
    case Tick(_) => true
    case Arrive(t, _, _) => t !in s.threads
    case AcquireRead(t) => t in s.threads && s.threads[t].pc.Begin? && s.writer.None?
    case Check(t) => t in s.threads && s.threads[t].pc.InReadLock?
    case AcquireWrite(t) => t in s.threads && s.threads[t].pc.WantLock? && s.writer.None? && s.readers == {}
    case Recheck(t) => t in s.threads && s.threads[t].pc.InLock?
    case Answer(t) => t in s.threads && s.threads[t].pc.Fetching? && |cfg.serves(s.threads[t].url, s.now)| > 0
    case AnswerFails(t) => t in s.threads && s.threads[t].pc.Fetching?
    case WriteKeys(t) => t in s.threads && s.threads[t].pc.Fetched?
    case WriteUrl(t) => t in s.threads && s.threads[t].pc.WroteKeys?
    case WriteStamp(t) => t in s.threads && s.threads[t].pc.WroteUrl?
    case Look(t) => t in s.threads && s.threads[t].pc.Holding? && s.threads[t].pc.handout < |s.handouts|
  }

  function At(s: State, t: nat, pc: Pc): State
    requires t in s.threads
  {
    s.(threads := s.threads[t := s.threads[t].(pc := pc)])
  }

  /** Hand the cached map to `t`; it stems from the last fetch. */
  function HandOut(cfg: Config, s: State, t: nat): State
    requires t in s.threads
  {
    var th := s.threads[t];
    var h := Handout(t, th.url, Limit(cfg, th.phase), s.now, s.fields.keys, if |s.log| > 0 then |s.log| - 1 else 0);
    At(s, t, Holding(|s.handouts|)).(handouts := s.handouts + [h])
  }

  /** The attempt of `t` is over. */
  function Logged(cfg: Config, s: State, t: nat, asked: int, ok: bool): seq<Attempt>
    requires t in s.threads
  {
    s.attempts + [Attempt(t, s.threads[t].url, Limit(cfg, s.threads[t].phase), asked, ok, |s.log|)]
  }

  function Apply(cfg: Config, s: State, a: Action): State
    requires Enabled(cfg, s, a)
  {
    match a
    case Tick(d) => s.(now := s.now + d)
    case Arrive(t, url, kid) => s.(threads := s.threads[t := Thread(url, kid, s.now, Getting, Begin)])
    case AcquireRead(t) => At(s, t, InReadLock).(readers := s.readers + {t})
    case Check(t) =>
      var released := s.(readers := s.readers - {t});
      if Usable(s.fields, s.threads[t].url, s.now, cfg.ttl)
      then HandOut(cfg, released, t)
      else At(released, t, WantLock)
    case AcquireWrite(t) => At(s, t, InLock).(writer := Some(t))
    case Recheck(t) =>
      if Usable(s.fields, s.threads[t].url, s.now, Limit(cfg, s.threads[t].phase))
      then HandOut(cfg, s.(writer := None), t)
      else At(s, t, Fetching(s.now))
    case Answer(t) =>
      At(s, t, Fetched(s.threads[t].pc.asked, cfg.serves(s.threads[t].url, s.now), s.now))
    case AnswerFails(t) =>
      At(s, t, Failed).(writer := None, attempts := Logged(cfg, s, t, s.threads[t].pc.asked, false))
    case WriteKeys(t) =>
      var pc := s.threads[t].pc;
      At(s, t, Pc.WroteKeys(pc.asked, pc.keys, pc.served)).(fields := s.fields.(keys := pc.keys))
    case WriteUrl(t) =>
      var pc := s.threads[t].pc;
      At(s, t, Pc.WroteUrl(pc.asked, pc.keys, pc.served)).(fields := s.fields.(url := s.threads[t].url))
    case WriteStamp(t) =>
      var th := s.threads[t];
      var f := Fetch(th.url, t, Limit(cfg, th.phase), th.pc.asked, th.pc.served, s.now, th.pc.keys);
      HandOut(cfg, s.(fields := s.fields.(fetched := s.now), writer := None, log := s.log + [f],
                      attempts := Logged(cfg, s, t, th.pc.asked, true)), t)
    case Look(t) =>
      var th := s.threads[t];
      if th.kid in s.handouts[th.pc.handout].keys then At(s, t, Found(th.pc.handout))
      else if th.phase == Getting then
        s.(threads := s.threads[t := th.(phase := Refreshing, pc := WantLock)])
      else At(s, t, Missing(th.pc.handout))
  }

  /** The state after an interleaving, None when some action was not possible. */
  function Exec(cfg: Config, start: int, actions: seq<Action>): Option<State> {
    if actions == [] then Some(Init(start))
    else
      var s := Exec(cfg, start, actions[..|actions| - 1]);
      var a := actions[|actions| - 1];
      if s.Some? && Enabled(cfg, s.value, a) then Some(Apply(cfg, s.value, a)) else None
  }

  // ---- What every reachable state satisfies -------------------------------

  predicate HoldsLock(pc: Pc) {
    pc.InLock? || pc.Fetching? || pc.Fetched? || pc.WroteKeys? || pc.WroteUrl?
  }

  predicate MidWrite(pc: Pc) {
    pc.WroteKeys? || pc.WroteUrl?
  }

  ghost predicate LockOk(s: State) {
    && (forall t :: t in s.threads ==> (HoldsLock(s.threads[t].pc) <==> s.writer == Some(t)))
    && (forall t :: t in s.threads ==> (s.threads[t].pc.InReadLock? <==> t in s.readers))
    && s.readers <= s.threads.Keys
    && (s.writer.Some? ==> s.writer.value in s.threads && s.readers == {})
  }

  /** What the first n successful fetches leave in the cache. */
  function FieldsAfter(log: seq<Fetch>, n: nat): Fields
    requires n <= |log|
  {
    if n == 0 then Fields(map[], "", 0) else Fields(log[n - 1].keys, log[n - 1].url, log[n - 1].stamped)
  }

  /** Outside a write the three fields are those of the last successful fetch. */
  ghost predicate FieldsOk(s: State) {
    (s.writer.Some? ==> s.writer.value in s.threads && !MidWrite(s.threads[s.writer.value].pc)) ==>
      s.fields == FieldsAfter(s.log, |s.log|)
  }

  ghost predicate FetchOk(cfg: Config, f: Fetch, now: int) {
    && |f.keys| > 0 && f.keys == cfg.serves(f.url, f.served) && f.asked <= f.served <= f.stamped <= now
    && cfg.minRefresh <= f.limit
  }

  ghost predicate SpacedPair(a: Fetch, b: Fetch) {
    a.stamped <= b.asked && (a.url == b.url ==> a.stamped + b.limit <= b.asked)
  }

  ghost predicate LogOk(cfg: Config, log: seq<Fetch>, now: int) {
    && (forall i :: 0 <= i < |log| ==> FetchOk(cfg, log[i], now))
    && (forall i :: 0 <= i < |log| - 1 ==> SpacedPair(log[i], log[i + 1]))
  }

  /** The handed-out map is non-empty, comes whole from one fetch of the
      requested URL, and either the caller made that fetch itself, just then,
      or the fetch was younger than the caller's age limit. No later fetch was
      stamped before. */
  ghost predicate HandoutOk(log: seq<Fetch>, h: Handout, now: int) {
    && h.fetch < |log|
    && var f := log[h.fetch];
    && h.keys == f.keys && |h.keys| > 0 && h.url == f.url && f.stamped <= h.at <= now
    && ((f.owner == h.tid && f.stamped == h.at) || h.at - f.stamped < h.limit)
    && forall j :: h.fetch < j < |log| ==> h.at <= log[j].stamped
  }

  ghost predicate HandoutsOk(log: seq<Fetch>, handouts: seq<Handout>, now: int) {
    forall i :: 0 <= i < |handouts| ==> HandoutOk(log, handouts[i], now)
  }

  /** The recheck at `asked` found nothing younger than `limit` for the URL. */
  ghost predicate Stale(log: seq<Fetch>, url: string, asked: int, limit: int) {
    log == [] ||
    var f := log[|log| - 1];
    f.stamped <= asked && (f.url == url ==> f.stamped + limit <= asked)
  }

  /** What a lookup knows of the handout it is holding. */
  ghost predicate HandoutOf(cfg: Config, s: State, t: nat, h: nat)
    requires t in s.threads
  {
    var th := s.threads[t];
    h < |s.handouts| &&
    var o := s.handouts[h];
    && o.tid == t && o.url == th.url && o.limit == Limit(cfg, th.phase) && th.start <= o.at
    && o.fetch < |s.log|
    && (s.log[o.fetch].served >= th.start || o.at - s.log[o.fetch].stamped < o.limit)
  }

  ghost predicate ThreadOk(cfg: Config, s: State, t: nat)
    requires t in s.threads
  {
    var th := s.threads[t];
    && th.start <= s.now
    && match th.pc
       case Begin => th.phase == Getting
       case InReadLock => th.phase == Getting
       case Fetching(asked) => th.start <= asked <= s.now && Stale(s.log, th.url, asked, Limit(cfg, th.phase))
       case Fetched(asked, keys, served) => Underway(cfg, s, th, asked, keys, served)
       case WroteKeys(asked, keys, served) =>
         Underway(cfg, s, th, asked, keys, served) && s.fields.keys == keys
       case WroteUrl(asked, keys, served) =>
         Underway(cfg, s, th, asked, keys, served) && s.fields.keys == keys && s.fields.url == th.url
       case Holding(h) => HandoutOf(cfg, s, t, h)
       case Found(h) => HandoutOf(cfg, s, t, h) && th.kid in s.handouts[h].keys
       case Missing(h) => HandoutOf(cfg, s, t, h) && th.phase == Refreshing && th.kid !in s.handouts[h].keys
       case _ => true
  }

  ghost predicate Underway(cfg: Config, s: State, th: Thread, asked: int, keys: KeyMap, served: int) {
    && th.start <= asked <= served <= s.now
    && keys == cfg.serves(th.url, served) && |keys| > 0
    && Stale(s.log, th.url, asked, Limit(cfg, th.phase))
  }

  ghost predicate ThreadsOk(cfg: Config, s: State) {
    forall t :: t in s.threads ==> ThreadOk(cfg, s, t)
  }

  ghost predicate Inv(cfg: Config, s: State) {
    && LockOk(s) && FieldsOk(s) && LogOk(cfg, s.log, s.now)
    && HandoutsOk(s.log, s.handouts, s.now) && ThreadsOk(cfg, s)
  }

  /** A step of thread `t` leaves every other thread's knowledge true: history
      only grows, and the fields and the log change only under the write lock. */
  lemma OthersKeep(cfg: Config, s: State, s': State, t: nat)
    requires ThreadsOk(cfg, s) && s.now <= s'.now
    requires s.log <= s'.log && s.handouts <= s'.handouts
    requires s'.threads.Keys <= s.threads.Keys + {t}
    requires forall u :: u in s'.threads && u != t ==> s'.threads[u] == s.threads[u]
    requires (s'.log == s.log && s'.fields == s.fields)
          || forall u :: u in s.threads && u != t ==> !HoldsLock(s.threads[u].pc)
    ensures forall u :: u in s'.threads && u != t ==> ThreadOk(cfg, s', u)
  {
    forall u | u in s'.threads && u != t
      ensures ThreadOk(cfg, s', u)
    {
      assert ThreadOk(cfg, s, u);
    }
  }

  lemma HandOutKeeps(cfg: Config, s: State, t: nat)
    requires t in s.threads && s.log != [] && s.threads[t].start <= s.now
    requires LogOk(cfg, s.log, s.now) && HandoutsOk(s.log, s.handouts, s.now)
    requires var f := s.log[|s.log| - 1];
             && s.fields == Fields(f.keys, f.url, f.stamped) && f.url == s.threads[t].url
             && ((f.owner == t && f.stamped == s.now && s.threads[t].start <= f.served)
                 || s.now - f.stamped < Limit(cfg, s.threads[t].phase))
    ensures var s' := HandOut(cfg, s, t);
            HandoutsOk(s'.log, s'.handouts, s'.now) && ThreadOk(cfg, s', t)
  {
    var s' := HandOut(cfg, s, t);
    assert FetchOk(cfg, s.log[|s.log| - 1], s.now);
    forall i | 0 <= i < |s'.handouts|
      ensures HandoutOk(s'.log, s'.handouts[i], s'.now)
    {
      if i < |s.handouts| { assert HandoutOk(s.log, s.handouts[i], s.now); }
    }
  }

  /** A step of `t` that takes, keeps or drops only t's own locks. */
  lemma LockFrame(s: State, s': State, t: nat)
    requires LockOk(s) && t in s'.threads
    requires s'.threads.Keys == s.threads.Keys + {t}
    requires forall u :: u in s'.threads && u != t ==> s'.threads[u] == s.threads[u]
    requires HoldsLock(s'.threads[t].pc) <==> s'.writer == Some(t)
    requires s'.threads[t].pc.InReadLock? <==> t in s'.readers
    requires s'.readers == s.readers || s'.readers == s.readers - {t}
          || (s.writer == None && s'.readers == s.readers + {t})
    requires s'.writer == s.writer || (s.writer == Some(t) && s'.writer == None)
          || (s.writer == None && s.readers == {} && s'.writer == Some(t) && s'.readers == {})
    ensures LockOk(s')
  {
  }

  lemma ReadLockKept(cfg: Config, s: State, a: Action)
    requires LockOk(s) && Enabled(cfg, s, a)
    requires a.Arrive? || a.AcquireRead? || a.Check? || a.Look?
    ensures LockOk(Apply(cfg, s, a))
  {
    LockFrame(s, Apply(cfg, s, a), a.tid);
  }

  lemma WriteLockKept(cfg: Config, s: State, a: Action)
    requires LockOk(s) && Enabled(cfg, s, a)
    requires a.AcquireWrite? || a.Recheck? || a.AnswerFails? || a.WriteStamp?
    ensures LockOk(Apply(cfg, s, a))
  {
    LockFrame(s, Apply(cfg, s, a), a.tid);
  }

  /** Mutual exclusion: one writer or any number of readers. */
  lemma LockKept(cfg: Config, s: State, a: Action)
    requires LockOk(s) && Enabled(cfg, s, a)
    ensures LockOk(Apply(cfg, s, a))
  {
    if a.Arrive? || a.AcquireRead? || a.Check? || a.Look? {
      ReadLockKept(cfg, s, a);
    } else if a.AcquireWrite? || a.Recheck? || a.AnswerFails? || a.WriteStamp? {
      WriteLockKept(cfg, s, a);
    } else if !a.Tick? {
      LockFrame(s, Apply(cfg, s, a), a.tid);
    }
  }

  lemma TimeKeeps(cfg: Config, s: State, d: nat)
    requires Inv(cfg, s)
    ensures Inv(cfg, Apply(cfg, s, Tick(d)))
  {
    var s' := Apply(cfg, s, Tick(d));
    forall u | u in s'.threads ensures ThreadOk(cfg, s', u) { assert ThreadOk(cfg, s, u); }
  }

  lemma CheckKeeps(cfg: Config, s: State, t: nat)
    requires cfg.Valid() && Inv(cfg, s) && Enabled(cfg, s, Check(t))
    ensures Inv(cfg, Apply(cfg, s, Check(t)))
  {
    var s' := Apply(cfg, s, Check(t));
    LockKept(cfg, s, Check(t));
    assert ThreadOk(cfg, s, t);
    OthersKeep(cfg, s, s', t);
    if Usable(s.fields, s.threads[t].url, s.now, cfg.ttl) {
      HandOutKeeps(cfg, s.(readers := s.readers - {t}), t);
    }
  }

  lemma RecheckKeeps(cfg: Config, s: State, t: nat)
    requires cfg.Valid() && Inv(cfg, s) && Enabled(cfg, s, Recheck(t))
    ensures Inv(cfg, Apply(cfg, s, Recheck(t)))
  {
    var s' := Apply(cfg, s, Recheck(t));
    LockKept(cfg, s, Recheck(t));
    assert ThreadOk(cfg, s, t);
    OthersKeep(cfg, s, s', t);
    var th := s.threads[t];
    if Usable(s.fields, th.url, s.now, Limit(cfg, th.phase)) {
      HandOutKeeps(cfg, s.(writer := None), t);
    } else if s.log != [] {
      assert FetchOk(cfg, s.log[|s.log| - 1], s.now);
    }
  }

  lemma LookKeeps(cfg: Config, s: State, t: nat)
    requires cfg.Valid() && Inv(cfg, s) && Enabled(cfg, s, Look(t))
    ensures Inv(cfg, Apply(cfg, s, Look(t)))
  {
    var s' := Apply(cfg, s, Look(t));
    LockKept(cfg, s, Look(t));
    assert ThreadOk(cfg, s, t);
    OthersKeep(cfg, s, s', t);
  }

  lemma QuietKeeps(cfg: Config, s: State, a: Action)
    requires cfg.Valid() && Inv(cfg, s) && Enabled(cfg, s, a)
    requires a.Arrive? || a.AcquireRead? || a.AcquireWrite? || a.AnswerFails?
    ensures Inv(cfg, Apply(cfg, s, a))
  {
    LockKept(cfg, s, a);
    OthersKeep(cfg, s, Apply(cfg, s, a), a.tid);
    if !a.Arrive? { assert ThreadOk(cfg, s, a.tid); }
  }

  lemma AnswerKeeps(cfg: Config, s: State, t: nat)
    requires cfg.Valid() && Inv(cfg, s) && Enabled(cfg, s, Answer(t))
    ensures Inv(cfg, Apply(cfg, s, Answer(t)))
  {
    LockKept(cfg, s, Answer(t));
    assert ThreadOk(cfg, s, t);
    OthersKeep(cfg, s, Apply(cfg, s, Answer(t)), t);
  }

  lemma WriteKeysKeeps(cfg: Config, s: State, t: nat)
    requires cfg.Valid() && Inv(cfg, s) && Enabled(cfg, s, Action.WriteKeys(t))
    ensures Inv(cfg, Apply(cfg, s, Action.WriteKeys(t)))
  {
    LockKept(cfg, s, Action.WriteKeys(t));
    assert ThreadOk(cfg, s, t);
    OthersKeep(cfg, s, Apply(cfg, s, Action.WriteKeys(t)), t);
  }

  lemma WriteUrlKeeps(cfg: Config, s: State, t: nat)
    requires cfg.Valid() && Inv(cfg, s) && Enabled(cfg, s, Action.WriteUrl(t))
    ensures Inv(cfg, Apply(cfg, s, Action.WriteUrl(t)))
  {
    LockKept(cfg, s, Action.WriteUrl(t));
    assert ThreadOk(cfg, s, t);
    OthersKeep(cfg, s, Apply(cfg, s, Action.WriteUrl(t)), t);
  }

  lemma LogGrows(cfg: Config, log: seq<Fetch>, f: Fetch)
    requires LogOk(cfg, log, f.stamped) && FetchOk(cfg, f, f.stamped)
    requires Stale(log, f.url, f.asked, f.limit)
    ensures LogOk(cfg, log + [f], f.stamped)
  {
  }

  lemma StampKeeps(cfg: Config, s: State, t: nat)
    requires cfg.Valid() && Inv(cfg, s) && Enabled(cfg, s, WriteStamp(t))
    ensures Inv(cfg, Apply(cfg, s, WriteStamp(t)))
  {
    var s' := Apply(cfg, s, WriteStamp(t));
    var th := s.threads[t];
    LockKept(cfg, s, WriteStamp(t));
    assert ThreadOk(cfg, s, t);
    OthersKeep(cfg, s, s', t);
    var mid := s.(fields := s'.fields, writer := None, log := s'.log, attempts := s'.attempts);
    LogGrows(cfg, s.log, s'.log[|s.log|]);
    forall i | 0 <= i < |mid.handouts|
      ensures HandoutOk(mid.log, mid.handouts[i], s.now)
    {
      assert HandoutOk(s.log, s.handouts[i], s.now);
    }
    HandOutKeeps(cfg, mid, t);
  }

  lemma Preserved(cfg: Config, s: State, a: Action)
    requires cfg.Valid() && Inv(cfg, s) && Enabled(cfg, s, a)
    ensures Inv(cfg, Apply(cfg, s, a))
  {
    match a
    case Tick(d) => TimeKeeps(cfg, s, d);
    case Check(t) => CheckKeeps(cfg, s, t);
    case Recheck(t) => RecheckKeeps(cfg, s, t);
    case Look(t) => LookKeeps(cfg, s, t);
    case WriteStamp(t) => StampKeeps(cfg, s, t);
    case Answer(t) => AnswerKeeps(cfg, s, t);
    case WriteKeys(t) => WriteKeysKeeps(cfg, s, t);
    case WriteUrl(t) => WriteUrlKeeps(cfg, s, t);
    case _ => QuietKeeps(cfg, s, a);
  }

  lemma {:induction false} Reachable(cfg: Config, start: int, actions: seq<Action>)
    requires cfg.Valid() && Exec(cfg, start, actions).Some?
    ensures Inv(cfg, Exec(cfg, start, actions).value)
  {
    if actions != [] {
      var before := actions[..|actions| - 1];
      Reachable(cfg, start, before);
      Preserved(cfg, Exec(cfg, start, before).value, actions[|actions| - 1]);
    }
  }

  // ---- Main results --------------------------------------------------------

  /** Whatever the interleaving, every map handed out is non-empty, is the whole
      answer of one fetch of the requested URL, and is younger than the
      caller's age limit unless that caller has just fetched it. */
  lemma HandoutsAreWholeAndFresh(cfg: Config, start: int, actions: seq<Action>)
    requires cfg.Valid() && Exec(cfg, start, actions).Some?
    ensures var s := Exec(cfg, start, actions).value;
            forall i :: 0 <= i < |s.handouts| ==>
              && HandoutOk(s.log, s.handouts[i], s.now)
              && s.handouts[i].keys == cfg.serves(s.handouts[i].url, s.log[s.handouts[i].fetch].served)
  {
    Reachable(cfg, start, actions);
    var s := Exec(cfg, start, actions).value;
    forall i | 0 <= i < |s.handouts|
      ensures HandoutOk(s.log, s.handouts[i], s.now)
      ensures s.handouts[i].keys == cfg.serves(s.handouts[i].url, s.log[s.handouts[i].fetch].served)
    {
      assert HandoutOk(s.log, s.handouts[i], s.now);
      assert FetchOk(cfg, s.log[s.handouts[i].fetch], s.now);
    }
  }

  /** Every answer was stamped within `latency` of being served. */
  ghost predicate Prompt(log: seq<Fetch>, latency: int) {
    forall i :: 0 <= i < |log| ==> log[i].stamped - log[i].served <= latency
  }

  /** The map behind a lookup was served after `start - limit - latency`. */
  lemma HandoutIsRecent(cfg: Config, s: State, t: nat, h: nat, latency: nat)
    requires cfg.Valid() && Prompt(s.log, latency) && LogOk(cfg, s.log, s.now) && HandoutsOk(s.log, s.handouts, s.now)
    requires t in s.threads && HandoutOf(cfg, s, t, h)
    ensures var f := s.log[s.handouts[h].fetch];
            && s.handouts[h].keys == cfg.serves(s.threads[t].url, f.served)
            && f.served > s.threads[t].start - Limit(cfg, s.threads[t].phase) - latency
  {
    assert HandoutOk(s.log, s.handouts[h], s.now);
    assert FetchOk(cfg, s.log[s.handouts[h].fetch], s.now);
  }

  /** Key rotation: a kid served from `published` on is never reported missing
      by a lookup that starts minRefresh (plus the fetch latency) later, however
      old the cached map is and even inside the longer ttl. */
  lemma PublishedKeyIsFound(cfg: Config, start: int, actions: seq<Action>, t: nat, published: int, latency: nat)
    requires cfg.Valid() && Exec(cfg, start, actions).Some?
    requires var s := Exec(cfg, start, actions).value;
             && Prompt(s.log, latency) && t in s.threads
             && s.threads[t].start >= published + cfg.minRefresh + latency
             && forall at :: at >= published ==> s.threads[t].kid in cfg.serves(s.threads[t].url, at)
    ensures !Exec(cfg, start, actions).value.threads[t].pc.Missing?
  {
    Reachable(cfg, start, actions);
    var s := Exec(cfg, start, actions).value;
    assert ThreadOk(cfg, s, t);
    if s.threads[t].pc.Missing? {
      HandoutIsRecent(cfg, s, t, s.threads[t].pc.handout, latency);
    }
  }

  /** The dual for withdrawal: a kid no longer served from `withdrawn` on is
      never accepted by a lookup that starts ttl (plus the latency) later. */
  lemma WithdrawnKeyIsRefused(cfg: Config, start: int, actions: seq<Action>, t: nat, withdrawn: int, latency: nat)
    requires cfg.Valid() && Exec(cfg, start, actions).Some?
    requires var s := Exec(cfg, start, actions).value;
             && Prompt(s.log, latency) && t in s.threads
             && s.threads[t].start >= withdrawn + cfg.ttl + latency
             && forall at :: at >= withdrawn ==> s.threads[t].kid !in cfg.serves(s.threads[t].url, at)
    ensures !Exec(cfg, start, actions).value.threads[t].pc.Found?
  {
    Reachable(cfg, start, actions);
    var s := Exec(cfg, start, actions).value;
    assert ThreadOk(cfg, s, t);
    if s.threads[t].pc.Found? {
      HandoutIsRecent(cfg, s, t, s.threads[t].pc.handout, latency);
    }
  }

  predicate Unfinished(pc: Pc) {
    !pc.Found? && !pc.Missing? && !pc.Failed?
  }

  predicate OfThread(a: Action, t: nat) {
    !a.Tick? && !a.Arrive? && a.tid == t
  }

  /** The locks never block everyone: while a lookup is unfinished, some lookup
      can take a step. */
  lemma NoDeadlock(cfg: Config, start: int, actions: seq<Action>, t: nat) returns (u: nat, a: Action)
    requires cfg.Valid() && Exec(cfg, start, actions).Some?
    requires var s := Exec(cfg, start, actions).value; t in s.threads && Unfinished(s.threads[t].pc)
    ensures OfThread(a, u) && Enabled(cfg, Exec(cfg, start, actions).value, a)
  {
    Reachable(cfg, start, actions);
    var s := Exec(cfg, start, actions).value;
    if s.writer.Some? {
      u := s.writer.value;
    } else if s.readers != {} {
      u :| u in s.readers;
    } else {
      u := t;
    }
    assert ThreadOk(cfg, s, u);
    a := match s.threads[u].pc
      case Begin => AcquireRead(u)
      case InReadLock => Check(u)
      case WantLock => AcquireWrite(u)
      case InLock => Recheck(u)
      case Fetching(_) => AnswerFails(u)
      case Fetched(_, _, _) => WriteKeys(u)
      case WroteKeys(_, _, _) => Action.WriteUrl(u)
      case WroteUrl(_, _, _) => WriteStamp(u)
      case _ => Look(u);
  }

  /** How many steps of its own a lookup may still take. */
  function StepsLeft(th: Thread): nat {
    var refresh := if th.phase == Getting then 7 else 0;
    match th.pc
    case Begin => 16
    case InReadLock => 15
    case WantLock => 7 + refresh
    case InLock => 6 + refresh
    case Fetching(_) => 5 + refresh
    case Fetched(_, _, _) => 4 + refresh
    case WroteKeys(_, _, _) => 3 + refresh
    case WroteUrl(_, _, _) => 2 + refresh
    case Holding(_) => 1 + refresh
    case _ => 0
  }

  /** Each step of a lookup uses one up, and steps of others none. */
  lemma StepUsesUp(cfg: Config, s: State, a: Action, t: nat)
    requires Enabled(cfg, s, a) && t in s.threads
    ensures var s' := Apply(cfg, s, a);
            && t in s'.threads
            && (if OfThread(a, t) then StepsLeft(s'.threads[t]) < StepsLeft(s.threads[t]) else s'.threads[t] == s.threads[t])
  {
  }

  function StepsOf(actions: seq<Action>, t: nat): nat {
    if actions == [] then 0
    else StepsOf(actions[..|actions| - 1], t) + (if OfThread(actions[|actions| - 1], t) then 1 else 0)
  }

  /** Over every interleaving, every lookup takes at most 16 steps of its own. */
  lemma {:induction false} LookupsAreShort(cfg: Config, start: int, actions: seq<Action>, t: nat)
    requires Exec(cfg, start, actions).Some?
    ensures var s := Exec(cfg, start, actions).value;
            StepsOf(actions, t) + (if t in s.threads then StepsLeft(s.threads[t]) else 0) <= 16
    ensures t !in Exec(cfg, start, actions).value.threads ==> StepsOf(actions, t) == 0
  {
    if actions != [] {
      var before, a := actions[..|actions| - 1], actions[|actions| - 1];
      LookupsAreShort(cfg, start, before, t);
      var s := Exec(cfg, start, before).value;
      if t in s.threads {
        StepUsesUp(cfg, s, a, t);
      } else {
        NewLookup(cfg, s, a, t);
      }
    }
  }

  lemma NewLookup(cfg: Config, s: State, a: Action, t: nat)
    requires Enabled(cfg, s, a) && t !in s.threads
    ensures !OfThread(a, t)
    ensures var s' := Apply(cfg, s, a);
            t in s'.threads ==> a.Arrive? && a.tid == t && StepsLeft(s'.threads[t]) == 16
  {
  }

  function LookupSteps(actions: seq<Action>): nat {
    if actions == [] then 0
    else
      var a := actions[|actions| - 1];
      LookupSteps(actions[..|actions| - 1]) + (if a.Tick? || a.Arrive? then 0 else 1)
  }

  function Arrivals(actions: seq<Action>): nat {
    if actions == [] then 0
    else Arrivals(actions[..|actions| - 1]) + (if actions[|actions| - 1].Arrive? then 1 else 0)
  }

  /** The steps left to the lookups with numbers below n. */
  function AllLeft(threads: map<nat, Thread>, n: nat): nat {
    if n == 0 then 0
    else AllLeft(threads, n - 1) + (if n - 1 in threads then StepsLeft(threads[n - 1]) else 0)
  }

  lemma {:induction false} OneChanges(old': map<nat, Thread>, new': map<nat, Thread>, t: nat, n: nat)
    requires forall u :: u != t ==> (u in old' <==> u in new') && (u in old' ==> old'[u] == new'[u])
    ensures AllLeft(new', n) - AllLeft(old', n) ==
            if t >= n then 0
            else (if t in new' then StepsLeft(new'[t]) else 0) - (if t in old' then StepsLeft(old'[t]) else 0)
  {
    if n > 0 {
      OneChanges(old', new', t, n - 1);
    }
  }

  lemma StepsAddUp(cfg: Config, s: State, a: Action, n: nat)
    requires Enabled(cfg, s, a) && !a.Tick? && a.tid < n
    ensures var s' := Apply(cfg, s, a);
            if a.Arrive? then AllLeft(s'.threads, n) == AllLeft(s.threads, n) + 16
            else AllLeft(s'.threads, n) < AllLeft(s.threads, n)
  {
    var s' := Apply(cfg, s, a);
    forall u | u != a.tid
      ensures (u in s.threads <==> u in s'.threads) && (u in s.threads ==> s.threads[u] == s'.threads[u])
    {
      if u in s.threads { StepUsesUp(cfg, s, a, u); } else { NewLookup(cfg, s, a, u); }
    }
    OneChanges(s.threads, s'.threads, a.tid, n);
    if a.Arrive? { NewLookup(cfg, s, a, a.tid); } else { StepUsesUp(cfg, s, a, a.tid); }
  }

  ghost predicate Numbered(actions: seq<Action>, n: nat) {
    forall i :: 0 <= i < |actions| && !actions[i].Tick? ==> actions[i].tid < n
  }

  lemma {:induction false} SomeNumber(actions: seq<Action>) returns (n: nat)
    ensures Numbered(actions, n)
  {
    n := 0;
    if actions != [] {
      var before, a := actions[..|actions| - 1], actions[|actions| - 1];
      n := SomeNumber(before);
      if !a.Tick? && a.tid >= n { n := a.tid + 1; }
      assert forall i :: 0 <= i < |before| ==> actions[i] == before[i];
    }
  }

  lemma {:induction false} StepsAreUsedUp(cfg: Config, start: int, actions: seq<Action>, n: nat)
    requires Exec(cfg, start, actions).Some? && Numbered(actions, n)
    ensures LookupSteps(actions) + AllLeft(Exec(cfg, start, actions).value.threads, n) <= 16 * Arrivals(actions)
  {
    if actions == [] {
      NoneLeft(n);
    } else {
      var before, a := actions[..|actions| - 1], actions[|actions| - 1];
      assert forall i :: 0 <= i < |before| ==> actions[i] == before[i];
      StepsAreUsedUp(cfg, start, before, n);
      if !a.Tick? { StepsAddUp(cfg, Exec(cfg, start, before).value, a, n); }
    }
  }

  lemma {:induction false} NoneLeft(n: nat)
    ensures AllLeft(map[], n) == 0
  {
    if n > 0 { NoneLeft(n - 1); }
  }

  /** Termination: m lookups take at most 16 m steps between them, whatever the
      interleaving; and until all have ended one of them can take a step. */
  lemma LookupsEnd(cfg: Config, start: int, actions: seq<Action>)
    requires cfg.Valid() && Exec(cfg, start, actions).Some?
    ensures LookupSteps(actions) <= 16 * Arrivals(actions)
    ensures var s := Exec(cfg, start, actions).value;
            (exists t :: t in s.threads && Unfinished(s.threads[t].pc)) ==>
              exists a: Action :: !a.Tick? && !a.Arrive? && Enabled(cfg, s, a)
  {
    var n := SomeNumber(actions);
    StepsAreUsedUp(cfg, start, actions, n);
    var s := Exec(cfg, start, actions).value;
    if t :| t in s.threads && Unfinished(s.threads[t].pc) {
      var u, a := NoDeadlock(cfg, start, actions, t);
    }
  }

  // ---- Interleavings are sequences of refreshes -----------------------------

  /** An attempt that failed had found nothing usable, and changed nothing. */
  ghost predicate AttemptOk(log: seq<Fetch>, a: Attempt) {
    a.before <= |log| && !Usable(FieldsAfter(log, a.before), a.url, a.asked, a.limit)
  }

  /** Only the end of a fetch adds to the records. */
  lemma RecordsGrow(cfg: Config, s: State, a: Action)
    requires Enabled(cfg, s, a)
    ensures var s' := Apply(cfg, s, a);
            if a.AnswerFails? then s'.log == s.log && s'.attempts == Logged(cfg, s, a.tid, s.threads[a.tid].pc.asked, false)
            else if a.WriteStamp? then
              && |s'.log| == |s.log| + 1 && s'.log[..|s.log|] == s.log && s'.log[|s.log|].url == s.threads[a.tid].url
              && s'.log[|s.log|].asked == s.threads[a.tid].pc.asked
              && s'.attempts == Logged(cfg, s, a.tid, s.threads[a.tid].pc.asked, true)
            else s'.log == s.log && s'.attempts == s.attempts
  {
  }

  lemma {:induction false} AttemptsAreMisses(cfg: Config, start: int, actions: seq<Action>)
    requires cfg.Valid() && Exec(cfg, start, actions).Some?
    ensures var s := Exec(cfg, start, actions).value; forall i :: 0 <= i < |s.attempts| ==> AttemptOk(s.log, s.attempts[i])
  {
    if actions != [] {
      var before, a := actions[..|actions| - 1], actions[|actions| - 1];
      AttemptsAreMisses(cfg, start, before);
      Reachable(cfg, start, before);
      var s, s' := Exec(cfg, start, before).value, Exec(cfg, start, actions).value;
      RecordsGrow(cfg, s, a);
      if a.AnswerFails? || a.WriteStamp? { assert ThreadOk(cfg, s, a.tid); }
      forall i | 0 <= i < |s'.attempts| ensures AttemptOk(s'.log, s'.attempts[i]) {
        if i < |s.attempts| { assert AttemptOk(s.log, s.attempts[i]); }
      }
    }
  }

  /** The n-th successful fetch is one call on what the one before it left. */
  ghost predicate FetchIsRefresh(cfg: Config, log: seq<Fetch>, n: nat)
    requires n < |log|
  {
    var f := log[n];
    && RefreshOutcome(FieldsAfter(log, n), f.url, f.limit, f.asked, Some(cfg.serves(f.url, f.served)), f.stamped)
         == (Some(f.keys), FieldsAfter(log, n + 1))
    && (n > 0 ==> log[n - 1].stamped <= f.asked)
  }

  /** A failed one is a call that changes nothing. */
  ghost predicate FailureIsRefresh(log: seq<Fetch>, a: Attempt) {
    && a.before <= |log|
    && forall stamp :: RefreshOutcome(FieldsAfter(log, a.before), a.url, a.limit, a.asked, None, stamp)
                         == (None, FieldsAfter(log, a.before))
  }

  /** The call returns the map whatever the endpoint would answer. */
  ghost predicate Finds(c: Fields, h: Handout) {
    forall answer: Option<KeyMap>, stamp: int ::
      RefreshOutcome(c, h.url, h.limit, h.at, answer, stamp) == (Some(h.keys), c)
  }

  /** A lookup served without fetching is a call, before any later fetch, that
      finds its map and needs no answer. */
  ghost predicate HandoutIsRefresh(log: seq<Fetch>, h: Handout) {
    && h.fetch < |log| && log[h.fetch].stamped <= h.at
    && (forall j :: h.fetch < j < |log| ==> h.at <= log[j].stamped)
    && ((log[h.fetch].owner == h.tid && log[h.fetch].stamped == h.at && log[h.fetch].keys == h.keys)
        || Finds(FieldsAfter(log, h.fetch + 1), h))
  }

  /** Main result: over every interleaving the cache goes through the contents
      that calls of JwksCache.Refresh, one after the other, leave behind, and
      callers get what those calls return. */
  lemma RunIsSequenceOfRefreshes(cfg: Config, start: int, actions: seq<Action>)
    requires cfg.Valid() && Exec(cfg, start, actions).Some?
    ensures var s := Exec(cfg, start, actions).value;
            && (s.writer.None? ==> s.fields == FieldsAfter(s.log, |s.log|))
            && (forall n :: 0 <= n < |s.log| ==> FetchIsRefresh(cfg, s.log, n))
            && (forall i :: 0 <= i < |s.attempts| && !s.attempts[i].ok ==> FailureIsRefresh(s.log, s.attempts[i]))
            && (forall i :: 0 <= i < |s.handouts| ==> HandoutIsRefresh(s.log, s.handouts[i]))
  {
    Reachable(cfg, start, actions);
    AttemptsAreMisses(cfg, start, actions);
    var s := Exec(cfg, start, actions).value;
    forall n | 0 <= n < |s.log| ensures FetchIsRefresh(cfg, s.log, n) {
      assert FetchOk(cfg, s.log[n], s.now);
      if n > 0 {
        assert FetchOk(cfg, s.log[n - 1], s.now);
        assert SpacedPair(s.log[n - 1], s.log[n - 1 + 1]);
      }
    }
    forall i | 0 <= i < |s.attempts| && !s.attempts[i].ok ensures FailureIsRefresh(s.log, s.attempts[i]) {
      assert AttemptOk(s.log, s.attempts[i]);
    }
    forall i | 0 <= i < |s.handouts| ensures HandoutIsRefresh(s.log, s.handouts[i]) {
      assert HandoutOk(s.log, s.handouts[i], s.now);
      assert FetchOk(cfg, s.log[s.handouts[i].fetch], s.now);
    }
  }

  // ---- Fetch rate ----------------------------------------------------------

  /** Every lookup of the run asks for `url`. */
  ghost predicate OneUrl(actions: seq<Action>, url: string) {
    forall i :: 0 <= i < |actions| && actions[i].Arrive? ==> actions[i].url == url
  }

  ghost predicate AllAsk(s: State, url: string) {
    && (forall t :: t in s.threads ==> s.threads[t].url == url)
    && forall i :: 0 <= i < |s.log| ==> s.log[i].url == url
  }

  lemma OneUrlKept(cfg: Config, s: State, a: Action, url: string)
    requires Enabled(cfg, s, a) && AllAsk(s, url) && (a.Arrive? ==> a.url == url)
    ensures AllAsk(Apply(cfg, s, a), url)
  {
    RecordsGrow(cfg, s, a);
    var s' := Apply(cfg, s, a);
    forall i | 0 <= i < |s'.log| ensures s'.log[i].url == url {
      if i < |s.log| { assert s'.log[i] == s'.log[..|s.log|][i]; }
    }
  }

  lemma {:induction false} OneUrlEverywhere(cfg: Config, start: int, actions: seq<Action>, url: string)
    requires OneUrl(actions, url) && Exec(cfg, start, actions).Some?
    ensures AllAsk(Exec(cfg, start, actions).value, url)
  {
    if actions != [] {
      OneUrlEverywhere(cfg, start, actions[..|actions| - 1], url);
      OneUrlKept(cfg, Exec(cfg, start, actions[..|actions| - 1]).value, actions[|actions| - 1], url);
    }
  }

  function Within(times: seq<int>, lo: int, hi: int): nat {
    if times == [] then 0
    else Within(times[..|times| - 1], lo, hi) + (if lo <= times[|times| - 1] <= hi then 1 else 0)
  }

  lemma {:induction false} EarlierTimes(times: seq<int>, lo: int, hi: int, last: int)
    requires last <= hi && forall i :: 0 <= i < |times| ==> times[i] <= last
    ensures Within(times, lo, hi) == Within(times, lo, last)
    ensures last < lo ==> Within(times, lo, hi) == 0
  {
    if times != [] {
      EarlierTimes(times[..|times| - 1], lo, hi, last);
    }
  }

  ghost predicate Spaced(times: seq<int>, gap: int) {
    forall i, j :: 0 <= i < j < |times| ==> times[i] + gap <= times[j]
  }

  /** A window has room for n times that are `gap` apart. */
  ghost predicate Few(n: int, gap: int, window: int)
    decreases n
  {
    n <= 1 || (gap <= window && Few(n - 1, gap, window - gap))
  }

  lemma {:induction false} FewMeans(n: int, gap: int, window: nat)
    requires gap > 0
    ensures Few(n, gap, window) <==> (n - 1) * gap <= window
    decreases n
  {
    if n > 1 {
      assert (n - 1) * gap == (n - 2) * gap + gap;
      if gap <= window {
        FewMeans(n - 1, gap, window - gap);
      } else {
        assert (n - 2) * gap >= 0;
      }
    }
  }

  lemma {:induction false} FewWider(n: int, gap: int, window: int, wider: int)
    requires Few(n, gap, window) && window <= wider
    ensures Few(n, gap, wider)
    decreases n
  {
    if n > 1 { FewWider(n - 1, gap, window - gap, wider - gap); }
  }

  lemma {:induction false} SpacedTimesAreFew(times: seq<int>, gap: int, lo: int, window: nat)
    requires gap > 0 && Spaced(times, gap)
    ensures Few(Within(times, lo, lo + window), gap, window)
  {
    if times != [] {
      var before, last := times[..|times| - 1], times[|times| - 1];
      if !(lo <= last <= lo + window) {
        SpacedTimesAreFew(before, gap, lo, window);
      } else {
        EarlierTimes(before, lo, lo + window, last - gap);
        if lo <= last - gap {
          SpacedTimesAreFew(before, gap, lo, last - gap - lo);
          FewWider(Within(before, lo, last - gap), gap, last - gap - lo, window - gap);
        }
      }
    }
  }

  function StampTimes(log: seq<Fetch>): (r: seq<int>)
    ensures |r| == |log|
  {
    seq(|log|, i requires 0 <= i < |log| => log[i].stamped)
  }

  function AskTimes(log: seq<Fetch>): (r: seq<int>)
    ensures |r| == |log|
  {
    seq(|log|, i requires 0 <= i < |log| => log[i].asked)
  }

  lemma FetchesAreSpaced(cfg: Config, log: seq<Fetch>, now: int, url: string)
    requires cfg.Valid() && LogOk(cfg, log, now) && forall i :: 0 <= i < |log| ==> log[i].url == url
    ensures Spaced(StampTimes(log), cfg.minRefresh) && Spaced(AskTimes(log), cfg.minRefresh)
  {
    forall i, j | 0 <= i < j < |log|
      ensures StampTimes(log)[i] + cfg.minRefresh <= StampTimes(log)[j] && AskTimes(log)[i] + cfg.minRefresh <= AskTimes(log)[j]
    {
      SpacingIsTransitive(cfg, log, now, url, i, j);
    }
  }

  /** Rate limit: when all lookups ask for one URL, successful fetches are asked
      for and stamped at least minRefresh apart, so a window of length T holds at
      most 1 + T / minRefresh of them, whatever kids the lookups carry. */
  lemma FetchesAreRateLimited(cfg: Config, start: int, actions: seq<Action>, url: string, lo: int, window: nat)
    requires cfg.Valid() && OneUrl(actions, url) && Exec(cfg, start, actions).Some?
    ensures var log := Exec(cfg, start, actions).value.log;
            && Spaced(StampTimes(log), cfg.minRefresh) && Spaced(AskTimes(log), cfg.minRefresh)
            && Few(Within(StampTimes(log), lo, lo + window), cfg.minRefresh, window)
            && Few(Within(AskTimes(log), lo, lo + window), cfg.minRefresh, window)
  {
    Reachable(cfg, start, actions);
    OneUrlEverywhere(cfg, start, actions, url);
    var s := Exec(cfg, start, actions).value;
    FetchesAreSpaced(cfg, s.log, s.now, url);
    SpacedTimesAreFew(StampTimes(s.log), cfg.minRefresh, lo, window);
    SpacedTimesAreFew(AskTimes(s.log), cfg.minRefresh, lo, window);
  }

  lemma {:induction false} SpacingIsTransitive(cfg: Config, log: seq<Fetch>, now: int, url: string, i: nat, j: nat)
    requires cfg.Valid() && LogOk(cfg, log, now) && i < j < |log|
    requires forall k :: 0 <= k < |log| ==> log[k].url == url
    ensures log[i].stamped + cfg.minRefresh <= log[j].asked
    ensures log[i].stamped + cfg.minRefresh <= log[j].stamped && log[i].asked + cfg.minRefresh <= log[j].asked
    decreases j
  {
    assert SpacedPair(log[j - 1], log[j - 1 + 1]);
    assert FetchOk(cfg, log[i], now) && FetchOk(cfg, log[j - 1], now) && FetchOk(cfg, log[j], now);
    if i < j - 1 {
      SpacingIsTransitive(cfg, log, now, url, i, j - 1);
    }
  }

  // ---- Failed fetches are not limited --------------------------------------

  /** When the attempts were made; of those with the given outcome only. */
  function AttemptTimes(attempts: seq<Attempt>, ok: bool): seq<int> {
    if attempts == [] then []
    else AttemptTimes(attempts[..|attempts| - 1], ok)
         + (if attempts[|attempts| - 1].ok == ok then [attempts[|attempts| - 1].asked] else [])
  }

  function AllTimes(attempts: seq<Attempt>): seq<int> {
    if attempts == [] then [] else AllTimes(attempts[..|attempts| - 1]) + [attempts[|attempts| - 1].asked]
  }

  /** The attempts that succeeded are the fetches of the log. */
  lemma {:induction false} SuccessesAreLogged(cfg: Config, start: int, actions: seq<Action>)
    requires Exec(cfg, start, actions).Some?
    ensures var s := Exec(cfg, start, actions).value; AttemptTimes(s.attempts, true) == AskTimes(s.log)
  {
    if actions != [] {
      var before, a := actions[..|actions| - 1], actions[|actions| - 1];
      SuccessesAreLogged(cfg, start, before);
      var s, s' := Exec(cfg, start, before).value, Exec(cfg, start, actions).value;
      RecordsGrow(cfg, s, a);
      if a.AnswerFails? || a.WriteStamp? {
        assert s'.attempts[..|s'.attempts| - 1] == s.attempts;
        assert AskTimes(s'.log) == AskTimes(s.log) + if a.WriteStamp? then [s'.log[|s.log|].asked] else [];
      }
    }
  }

  lemma {:induction false} OutcomesAddUp(attempts: seq<Attempt>, lo: int, hi: int)
    ensures Within(AllTimes(attempts), lo, hi) ==
            Within(AttemptTimes(attempts, true), lo, hi) + Within(AttemptTimes(attempts, false), lo, hi)
  {
    if attempts != [] {
      var before, a := attempts[..|attempts| - 1], attempts[|attempts| - 1];
      OutcomesAddUp(before, lo, hi);
      WithinSnoc(AllTimes(before), a.asked, lo, hi);
      WithinSnoc(AttemptTimes(before, a.ok), a.asked, lo, hi);
      assert AttemptTimes(before, !a.ok) + [] == AttemptTimes(before, !a.ok);
    }
  }

  lemma WithinSnoc(times: seq<int>, last: int, lo: int, hi: int)
    ensures Within(times + [last], lo, hi) == Within(times, lo, hi) + if lo <= last <= hi then 1 else 0
  {
    assert (times + [last])[..|times|] == times;
  }

  lemma {:induction false} WithinConcat(a: seq<int>, b: seq<int>, lo: int, hi: int)
    ensures Within(a + b, lo, hi) == Within(a, lo, hi) + Within(b, lo, hi)
    decreases |b|
  {
    if b == [] {
      assert a + b == a;
    } else {
      var init, last := b[..|b| - 1], b[|b| - 1];
      WithinConcat(a, init, lo, hi);
      WithinSnoc(a + init, last, lo, hi);
      Assoc(a, init, [last]);
      assert init + [last] == b;
    }
  }

  lemma Assoc(a: seq<int>, b: seq<int>, c: seq<int>)
    ensures (a + b) + c == a + (b + c)
  {
  }

  /** When the fetch under way was started, if there is one. */
  function InFlight(s: State): seq<int> {
    if s.writer.None? || s.writer.value !in s.threads then []
    else
      var pc := s.threads[s.writer.value].pc;
      if pc.Fetching? || pc.Fetched? || pc.WroteKeys? || pc.WroteUrl? then [pc.asked] else []
  }

  /** When fetches were started, those under way included. */
  function Started(s: State): seq<int> {
    AllTimes(s.attempts) + InFlight(s)
  }

  lemma InFlightIsSpaced(cfg: Config, s: State, url: string)
    requires cfg.Valid() && Inv(cfg, s) && AllAsk(s, url)
    ensures Spaced(AskTimes(s.log) + InFlight(s), cfg.minRefresh)
  {
    FetchesAreSpaced(cfg, s.log, s.now, url);
    if InFlight(s) != [] && s.log != [] {
      assert ThreadOk(cfg, s, s.writer.value);
      var last := |s.log| - 1;
      assert FetchOk(cfg, s.log[last], s.now) && s.log[last].url == url;
      assert AskTimes(s.log)[last] + cfg.minRefresh <= InFlight(s)[0];
      SpacedSnoc(AskTimes(s.log), InFlight(s)[0], cfg.minRefresh);
    }
  }

  lemma SpacedSnoc(times: seq<int>, last: int, gap: int)
    requires gap > 0 && Spaced(times, gap) && times != [] && times[|times| - 1] + gap <= last
    ensures Spaced(times + [last], gap)
  {
  }

  lemma StartsAreSpaced(cfg: Config, start: int, actions: seq<Action>, s: State, url: string)
    requires cfg.Valid() && OneUrl(actions, url) && Exec(cfg, start, actions) == Some(s)
    ensures Spaced(AskTimes(s.log) + InFlight(s), cfg.minRefresh)
  {
    Reachable(cfg, start, actions);
    OneUrlEverywhere(cfg, start, actions, url);
    InFlightIsSpaced(cfg, s, url);
  }

  /** Of the attempts started in a window, those that have not failed. */
  lemma FailuresOnTop(s: State, lo: int, hi: int)
    requires AttemptTimes(s.attempts, true) == AskTimes(s.log)
    ensures Within(Started(s), lo, hi) - Within(AttemptTimes(s.attempts, false), lo, hi)
         == Within(AskTimes(s.log) + InFlight(s), lo, hi)
  {
    OutcomesAddUp(s.attempts, lo, hi);
    WithinConcat(AllTimes(s.attempts), InFlight(s), lo, hi);
    WithinConcat(AskTimes(s.log), InFlight(s), lo, hi);
  }

  /** A window of length T holds at most 1 + T / minRefresh attempts to fetch the
      one URL, those under way included, and those that fail on top. */
  lemma AttemptsAreLimitedButForFailures(cfg: Config, start: int, actions: seq<Action>, s: State, url: string,
                                         lo: int, window: nat)
    requires cfg.Valid() && OneUrl(actions, url) && Exec(cfg, start, actions) == Some(s)
    ensures Few(Within(Started(s), lo, lo + window) - Within(AttemptTimes(s.attempts, false), lo, lo + window),
                cfg.minRefresh, window)
  {
    SuccessesAreLogged(cfg, start, actions);
    StartsAreSpaced(cfg, start, actions, s, url);
    SpacedTimesAreFew(AskTimes(s.log) + InFlight(s), cfg.minRefresh, lo, window);
    FailuresOnTop(s, lo, lo + window);
  }

  lemma OneMore(cfg: Config, start: int, actions: seq<Action>, s: State, a: Action, url: string)
    returns (more: seq<Action>, next: State)
    requires Exec(cfg, start, actions) == Some(s) && Enabled(cfg, s, a)
    requires OneUrl(actions, url) && (a.Arrive? ==> a.url == url)
    ensures next == Apply(cfg, s, a) && Exec(cfg, start, more) == Some(next) && OneUrl(more, url)
  {
    more, next := actions + [a], Apply(cfg, s, a);
    assert more[..|actions|] == actions;
  }

  /** Between lookups, with a cached map too old for a forced refetch only. */
  ghost predicate Rested(cfg: Config, s: State, url: string) {
    && s.writer.None? && s.readers == {}
    && Usable(s.fields, url, s.now, cfg.ttl) && !Usable(s.fields, url, s.now, cfg.minRefresh)
  }

  /** A lookup for a made-up kid gets the cached map and wants a refetch. */
  lemma MadeUpKid(cfg: Config, start: int, actions: seq<Action>, s: State, t: nat, url: string, kid: string)
    returns (more: seq<Action>, next: State)
    requires Exec(cfg, start, actions) == Some(s) && OneUrl(actions, url)
    requires Rested(cfg, s, url) && t !in s.threads && kid !in s.fields.keys
    ensures Exec(cfg, start, more) == Some(next) && OneUrl(more, url)
    ensures next == s.(threads := s.threads[t := Thread(url, kid, s.now, Refreshing, WantLock)], handouts := next.handouts)
  {
    more, next := OneMore(cfg, start, actions, s, Arrive(t, url, kid), url);
    more, next := OneMore(cfg, start, more, next, AcquireRead(t), url);
    more, next := OneMore(cfg, start, more, next, Check(t), url);
    assert next == s.(threads := s.threads[t := Thread(url, kid, s.now, Getting, Holding(|s.handouts|))], handouts := next.handouts)
      && |next.handouts| == |s.handouts| + 1 && next.handouts[|s.handouts|].keys == s.fields.keys;
    more, next := OneMore(cfg, start, more, next, Look(t), url);
  }

  /** The refetch it forces fails at once. */
  lemma ForcedFailure(cfg: Config, start: int, actions: seq<Action>, s: State, t: nat, url: string, kid: string)
    returns (more: seq<Action>, next: State)
    requires Exec(cfg, start, actions) == Some(s) && OneUrl(actions, url)
    requires Rested(cfg, s, url) && t !in s.threads && kid !in s.fields.keys
    ensures Exec(cfg, start, more) == Some(next) && OneUrl(more, url)
    ensures next == s.(threads := s.threads[t := Thread(url, kid, s.now, Refreshing, Failed)], handouts := next.handouts,
                       attempts := s.attempts + [Attempt(t, url, cfg.minRefresh, s.now, false, |s.log|)])
  {
    more, next := MadeUpKid(cfg, start, actions, s, t, url, kid);
    var wants := next;
    more, next := OneMore(cfg, start, more, next, AcquireWrite(t), url);
    more, next := OneMore(cfg, start, more, next, Recheck(t), url);
    assert next == wants.(threads := s.threads[t := Thread(url, kid, s.now, Refreshing, Fetching(s.now))], writer := Some(t));
    more, next := OneMore(cfg, start, more, next, AnswerFails(t), url);
  }

  lemma FirstCheck(cfg: Config, start: int, url: string, kid: string) returns (actions: seq<Action>, s: State)
    ensures Exec(cfg, start, actions) == Some(s) && OneUrl(actions, url)
    ensures s == Init(start).(threads := map[0 := Thread(url, kid, start, Getting, WantLock)])
  {
    actions, s := OneMore(cfg, start, [], Init(start), Arrive(0, url, kid), url);
    actions, s := OneMore(cfg, start, actions, s, AcquireRead(0), url);
    actions, s := OneMore(cfg, start, actions, s, Check(0), url);
  }

  /** The very first lookup finds nothing and asks the endpoint. */
  lemma FirstMiss(cfg: Config, start: int, url: string, kid: string) returns (actions: seq<Action>, s: State)
    ensures Exec(cfg, start, actions) == Some(s) && OneUrl(actions, url)
    ensures s == Init(start).(threads := map[0 := Thread(url, kid, start, Getting, Fetching(start))], writer := Some(0))
  {
    actions, s := FirstCheck(cfg, start, url, kid);
    actions, s := OneMore(cfg, start, actions, s, AcquireWrite(0), url);
    actions, s := OneMore(cfg, start, actions, s, Recheck(0), url);
  }

  lemma FirstAnswer(cfg: Config, start: int, url: string, kid: string) returns (actions: seq<Action>, s: State)
    requires |cfg.serves(url, start)| > 0
    ensures Exec(cfg, start, actions) == Some(s) && OneUrl(actions, url)
    ensures var keys := cfg.serves(url, start);
            s == Init(start).(threads := map[0 := Thread(url, kid, start, Getting, Pc.WroteKeys(start, keys, start))],
                              writer := Some(0), fields := Fields(keys, "", 0))
  {
    actions, s := FirstMiss(cfg, start, url, kid);
    actions, s := OneMore(cfg, start, actions, s, Answer(0), url);
    actions, s := OneMore(cfg, start, actions, s, Action.WriteKeys(0), url);
  }

  /** It is answered, and minRefresh passes. */
  lemma FirstFetch(cfg: Config, start: int, url: string, kid: string) returns (actions: seq<Action>, s: State)
    requires cfg.Valid() && cfg.minRefresh < cfg.ttl && |cfg.serves(url, start)| > 0
    ensures Exec(cfg, start, actions) == Some(s) && OneUrl(actions, url)
    ensures Rested(cfg, s, url) && s.threads.Keys == {0} && s.now == start + cfg.minRefresh
    ensures s.fields.keys == cfg.serves(url, start) && |s.log| == |s.attempts| == 1
  {
    actions, s := FirstAnswer(cfg, start, url, kid);
    actions, s := OneMore(cfg, start, actions, s, Action.WriteUrl(0), url);
    actions, s := OneMore(cfg, start, actions, s, WriteStamp(0), url);
    assert s.fields == Fields(cfg.serves(url, start), url, start) && s.writer.None? && s.readers == {};
    actions, s := OneMore(cfg, start, actions, s, Tick(cfg.minRefresh), url);
  }

  /** And nothing limits those: any number of lookups with made-up kids can force
      a refetch each at one instant, as long as the refetches fail. */
  lemma {:induction false} FailuresAreUnlimited(cfg: Config, start: int, url: string, kid: string, n: nat)
    returns (actions: seq<Action>, s: State)
    requires cfg.Valid() && cfg.minRefresh < cfg.ttl && |cfg.serves(url, start)| > 0 && kid !in cfg.serves(url, start)
    ensures Exec(cfg, start, actions) == Some(s) && OneUrl(actions, url)
    ensures Rested(cfg, s, url) && s.now == start + cfg.minRefresh && forall t :: t in s.threads ==> t <= n
    ensures s.fields.keys == cfg.serves(url, start) && |s.log| == 1 && |s.attempts| == n + 1
    ensures forall i :: 0 < i <= n ==> s.attempts[i] == Attempt(i, url, cfg.minRefresh, s.now, false, 1)
  {
    if n == 0 {
      actions, s := FirstFetch(cfg, start, url, kid);
    } else {
      var before, was := FailuresAreUnlimited(cfg, start, url, kid, n - 1);
      actions, s := ForcedFailure(cfg, start, before, was, n, url, kid);
    }
  }
}
