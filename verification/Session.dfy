/** The in-memory session cache: sliding inactivity window, token expiry,
    background cleanup and eviction of the least recently used entry. Every
    operation runs under one mutex, so a run is a sequence of operations. */
module Session {
  import opened Options

  datatype Claims = Claims(subject: string, expiresAt: int)

  datatype Entry = Entry(claims: Claims, lastAccess: int, createdAt: int)

  type Cache = map<string, Entry>

  datatype Config = Config(inactivityTtl: int, maxEntries: int) {
    predicate Valid() { inactivityTtl > 0 && maxEntries > 0 }
  }

  predicate Dead(cfg: Config, e: Entry, now: int) {
    now > e.claims.expiresAt || now - e.lastAccess > cfg.inactivityTtl
  }

  /** `victim` has a smallest last-access time in `c`. */
  predicate Oldest(c: Cache, victim: string) {
    victim in c && forall k :: k in c ==> c[victim].lastAccess <= c[k].lastAccess
  }

  datatype Op =
    | Get(key: string, at: int)
    | Put(key: string, claims: Claims, at: int, victim: Option<string>)
    | Delete(key: string)
    | Cleanup(at: int)

  /** Put evicts exactly when the map is full on entry, even when the key it
      stores is already there; ties in age are broken by map order. */
  predicate Enabled(cfg: Config, c: Cache, op: Op) {
    op.Put? ==> if |c| >= cfg.maxEntries then op.victim.Some? && Oldest(c, op.victim.value) else op.victim.None?
  }

  function Survivors(cfg: Config, c: Cache, now: int): Cache {
    map k | k in c && !Dead(cfg, c[k], now) :: c[k]
  }

  function Step(cfg: Config, c: Cache, op: Op): (r: (Cache, Option<Claims>)) {
    match op
    case Get(k, now) =>
      if k !in c then (c, None)
      else if Dead(cfg, c[k], now) then (c - {k}, None)
      else (c[k := c[k].(lastAccess := now)], Some(c[k].claims))
    case Put(k, claims, now, victim) =>
      var kept := if |c| >= cfg.maxEntries && victim.Some? then c - {victim.value} else c;
      (kept[k := Entry(claims, now, now)], None)
    case Delete(k) => (c - {k}, None)
    case Cleanup(now) => (Survivors(cfg, c, now), None)
  }

  // ---- The cache object ----------------------------------------------------

  class SessionCache {
    var entries: Cache
    const config: Config

    /** Non-positive settings fall back to five minutes and 10000 entries. */
    constructor (inactivityTtl: int, maxEntries: int)
      ensures entries == map[] && config.Valid()
      ensures config.inactivityTtl == if inactivityTtl > 0 then inactivityTtl else 300
      ensures config.maxEntries == if maxEntries > 0 then maxEntries else 10000
    {
      entries := map[];
      config := Config(if inactivityTtl <= 0 then 300 else inactivityTtl,
                       if maxEntries <= 0 then 10000 else maxEntries);
    }

    method Get(key: string, now: int) returns (r: Option<Claims>)
      modifies this
      ensures (entries, r) == Step(config, old(entries), Op.Get(key, now))
      ensures var was := old(entries);
              if key in was && now <= was[key].claims.expiresAt && now - was[key].lastAccess <= config.inactivityTtl
              then r == Some(was[key].claims) && entries == was[key := Entry(was[key].claims, now, was[key].createdAt)]
              else r == None && entries == was - {key}
    {
      assert key !in entries ==> entries - {key} == entries;
      if key !in entries {
        return None;
      }
      var entry := entries[key];
      if now > entry.claims.expiresAt {
        entries := entries - {key};
        return None;
      }
      if now - entry.lastAccess > config.inactivityTtl {
        entries := entries - {key};
        return None;
      }
      entries := entries[key := entry.(lastAccess := now)];
      return Some(entry.claims);
    }

    /** Whatever order the map is walked in, an entry with the smallest
        last-access time goes. The empty string doubles as "none chosen yet",
        so the promise needs it not to be a key; keys are hex digests. */
    method EvictOldest() returns (ghost victim: Option<string>)
      modifies this
      ensures victim.None? ==> entries == old(entries)
      ensures victim.Some? ==> victim.value in old(entries) && entries == old(entries) - {victim.value}
      ensures "" !in old(entries) && old(entries) != map[] ==> victim.Some? && Oldest(old(entries), victim.value)
    {
      var oldestKey, oldestTime := "", 0;
      var todo := entries.Keys;
      while todo != {}
        invariant todo <= entries.Keys && entries == old(entries)
        invariant oldestKey != "" ==> oldestKey in entries && oldestTime == entries[oldestKey].lastAccess
        invariant "" !in entries ==>
          if oldestKey == "" then todo == entries.Keys
          else forall k :: k in entries && k !in todo ==> oldestTime <= entries[k].lastAccess
      {
        var key :| key in todo;
        todo := todo - {key};
        if oldestKey == "" || entries[key].lastAccess < oldestTime {
          oldestKey := key;
          oldestTime := entries[key].lastAccess;
        }
      }
      if oldestKey != "" {
        victim := Some(oldestKey);
        entries := entries - {oldestKey};
      } else {
        victim := None;
        assert "" !in entries ==> entries.Keys == {};
      }
    }

    method Put(key: string, claims: Claims, now: int) returns (ghost victim: Option<string>)
      requires config.Valid()
      modifies this
      ensures entries == Step(config, old(entries), Op.Put(key, claims, now, victim)).0
      ensures "" !in old(entries) ==> Enabled(config, old(entries), Op.Put(key, claims, now, victim))
      ensures victim.Some? ==> |old(entries)| >= config.maxEntries && victim.value in old(entries)
      ensures entries == (old(entries) - (if victim.Some? then {victim.value} else {}))[key := Entry(claims, now, now)]
    {
      victim := None;
      if |entries| >= config.maxEntries {
        victim := EvictOldest();
      }
      entries := entries[key := Entry(claims, now, now)];
    }

    method Delete(key: string)
      modifies this
      ensures entries == Step(config, old(entries), Op.Delete(key)).0 == old(entries) - {key}
    {
      entries := entries - {key};
    }

    method Cleanup(now: int)
      modifies this
      ensures entries == Step(config, old(entries), Op.Cleanup(now)).0
      ensures entries.Keys <= old(entries).Keys
      ensures forall k :: k in old(entries) ==>
        var e := old(entries)[k];
        if now <= e.claims.expiresAt && now - e.lastAccess <= config.inactivityTtl then k in entries && entries[k] == e
        else k !in entries
    {
      var todo := entries.Keys;
      while todo != {}
        invariant todo <= entries.Keys <= old(entries).Keys
        invariant forall k :: k in entries ==> entries[k] == old(entries)[k]
        invariant forall k :: k in old(entries) && k !in todo ==> (k in entries <==> !Dead(config, old(entries)[k], now))
      {
        var key :| key in todo;
        todo := todo - {key};
        var entry := entries[key];
        if now > entry.claims.expiresAt || now - entry.lastAccess > config.inactivityTtl {
          entries := entries - {key};
        }
      }
    }
  }

  // ---- Runs ----------------------------------------------------------------

  /** The cache after a run from empty, None when an eviction was not possible. */
  function Exec(cfg: Config, ops: seq<Op>): Option<Cache> {
    if ops == [] then Some(map[])
    else
      var c := Exec(cfg, ops[..|ops| - 1]);
      var op := ops[|ops| - 1];
      if c.Some? && Enabled(cfg, c.value, op) then Some(Step(cfg, c.value, op).0) else None
  }

  /** Operation i of the run stored `key` or returned it from the cache. */
  predicate Uses(cfg: Config, ops: seq<Op>, i: nat, key: string)
    requires i < |ops|
  {
    match ops[i]
    case Put(k, _, _, _) => k == key
    case Get(k, _) => k == key && Exec(cfg, ops[..i]).Some? && Step(cfg, Exec(cfg, ops[..i]).value, ops[i]).1.Some?
    case _ => false
  }

  predicate LastUse(cfg: Config, ops: seq<Op>, key: string, i: nat) {
    && i < |ops| && Uses(cfg, ops, i, key)
    && forall j :: i < j < |ops| ==> !Uses(cfg, ops, j, key)
  }

  /** The size bound holds after every operation of every run. */
  lemma {:induction false} CapacityHolds(cfg: Config, ops: seq<Op>)
    requires cfg.Valid() && Exec(cfg, ops).Some?
    ensures |Exec(cfg, ops).value| <= cfg.maxEntries
  {
    if ops != [] {
      var before, op := ops[..|ops| - 1], ops[|ops| - 1];
      CapacityHolds(cfg, before);
      var c := Exec(cfg, before).value;
      match op
      case Get(k, _) =>
        if k in c { assert c[k := Entry(c[k].claims, 0, 0)].Keys == c.Keys; RemovalShrinks(c, {k}); }
      case Put(k, _, _, victim) =>
        if victim.Some? { RemovalShrinks(c, {victim.value}); assert |c - {victim.value}| < |c|; }
      case Delete(k) => RemovalShrinks(c, {k});
      case Cleanup(now) =>
        assert Survivors(cfg, c, now).Keys <= c.Keys;
        SubsetIsSmaller(Survivors(cfg, c, now).Keys, c.Keys);
    }
  }

  lemma RemovalShrinks(c: Cache, keys: set<string>)
    ensures |c - keys| <= |c|
    ensures keys * c.Keys != {} ==> |c - keys| < |c|
  {
    assert (c - keys).Keys == c.Keys - keys;
    SubsetIsSmaller(c.Keys - keys, c.Keys);
    if keys * c.Keys != {} {
      var k :| k in keys * c.Keys;
      SubsetIsSmaller(c.Keys - keys, c.Keys - {k});
    }
  }

  lemma {:induction false} SubsetIsSmaller<T>(a: set<T>, b: set<T>)
    requires a <= b
    ensures |a| <= |b|
  {
    if a != {} {
      var x :| x in a;
      SubsetIsSmaller(a - {x}, b - {x});
    }
  }

  /** An entry's timestamp is the time of the last use of its key in the run. */
  lemma {:induction false} TimestampIsLastUse(cfg: Config, ops: seq<Op>, key: string) returns (i: nat)
    requires Exec(cfg, ops).Some? && key in Exec(cfg, ops).value
    ensures LastUse(cfg, ops, key, i) && ops[i].at == Exec(cfg, ops).value[key].lastAccess
  {
    var n := |ops| - 1;
    var before, op := ops[..n], ops[n];
    if Uses(cfg, ops, n, key) {
      i := n;
    } else {
      i := TimestampIsLastUse(cfg, before, key);
      forall j | 0 <= j < n ensures Uses(cfg, ops, j, key) == Uses(cfg, before, j, key) {
        assert ops[..j] == before[..j];
      }
    }
  }

  /** Strictly later operations carry strictly later times. */
  ghost predicate StrictClock(ops: seq<Op>) {
    forall i, j :: 0 <= i < j < |ops| && (ops[i].Get? || ops[i].Put?) && (ops[j].Get? || ops[j].Put?) ==> ops[i].at < ops[j].at
  }

  /** The entry a Put evicts was last used no later than any other entry; with
      distinct clock readings it is the one whose last use comes first. */
  lemma EvictionIsLeastRecentlyUsed(cfg: Config, ops: seq<Op>, put: Op, other: string) returns (v: nat, o: nat)
    requires cfg.Valid() && put.Put? && put.victim.Some?
    requires Exec(cfg, ops + [put]).Some? && other in Exec(cfg, ops).value
    ensures LastUse(cfg, ops, put.victim.value, v) && LastUse(cfg, ops, other, o)
    ensures ops[v].at <= ops[o].at
    ensures StrictClock(ops) ==> v <= o
    ensures put.victim.value != put.key ==> put.victim.value !in Exec(cfg, ops + [put]).value
    ensures other != put.victim.value ==> other in Exec(cfg, ops + [put]).value
  {
    assert (ops + [put])[..|ops|] == ops;
    v := TimestampIsLastUse(cfg, ops, put.victim.value);
    o := TimestampIsLastUse(cfg, ops, other);
  }

  // ---- What a Get answers --------------------------------------------------

  /** One key's session as its own calls shape it: no map, no other key, no
      cleanup, no size bound. */
  datatype Session = Session(claims: Claims, last: int)

  predicate Alive(cfg: Config, h: Option<Session>, now: int) {
    h.Some? && now <= h.value.claims.expiresAt && now - h.value.last <= cfg.inactivityTtl
  }

  function Advance(cfg: Config, h: Option<Session>, op: Op, key: string): Option<Session> {
    match op
    case Put(k, claims, now, _) => if k == key then Some(Session(claims, now)) else h
    case Delete(k) => if k == key then None else h
    case Get(k, now) => if k != key then h else if Alive(cfg, h, now) then Some(h.value.(last := now)) else None
    case Cleanup(_) => h
  }

  function History(cfg: Config, ops: seq<Op>, key: string): Option<Session> {
    if ops == [] then None
    else Advance(cfg, History(cfg, ops[..|ops| - 1], key), ops[|ops| - 1], key)
  }

  function HistoryAnswer(cfg: Config, ops: seq<Op>, key: string, now: int): Option<Claims> {
    var h := History(cfg, ops, key);
    if Alive(cfg, h, now) then Some(h.value.claims) else None
  }

  lemma {:induction false} EntryIsHistory(cfg: Config, ops: seq<Op>, key: string)
    requires Exec(cfg, ops).Some? && key in Exec(cfg, ops).value
    ensures var e := Exec(cfg, ops).value[key];
            History(cfg, ops, key) == Some(Session(e.claims, e.lastAccess))
  {
    var before, op := ops[..|ops| - 1], ops[|ops| - 1];
    if !(op.Put? && op.key == key) {
      EntryIsHistory(cfg, before, key);
    }
  }

  lemma {:induction false} KeysComeFromRun(cfg: Config, ops: seq<Op>)
    requires Exec(cfg, ops).Some?
    ensures Exec(cfg, ops).value.Keys <= KeysOf(ops)
  {
    if ops != [] {
      var before, op := ops[..|ops| - 1], ops[|ops| - 1];
      KeysComeFromRun(cfg, before);
      KeysOfPrefix(ops);
      if op.Put? { assert op.key in KeysOf(ops); }
    }
  }

  lemma KeysOfPrefix(ops: seq<Op>)
    requires ops != []
    ensures KeysOf(ops[..|ops| - 1]) <= KeysOf(ops)
  {
    var before := ops[..|ops| - 1];
    forall k | k in KeysOf(before) ensures k in KeysOf(ops) {
      var i :| 0 <= i < |before| && !before[i].Cleanup? && before[i].key == k;
      assert ops[i] == before[i];
    }
  }

  predicate Timed(op: Op) {
    !op.Delete?
  }

  /** No operation of the run is later than `now`. */
  ghost predicate NotLater(ops: seq<Op>, now: int) {
    forall i :: 0 <= i < |ops| && Timed(ops[i]) ==> ops[i].at <= now
  }

  /** The clock does not go back. */
  ghost predicate Ordered(ops: seq<Op>) {
    forall i, j :: 0 <= i < j < |ops| && Timed(ops[i]) && Timed(ops[j]) ==> ops[i].at <= ops[j].at
  }

  /** No Put of the run finds the map full. */
  ghost predicate NeverEvicts(ops: seq<Op>) {
    forall i :: 0 <= i < |ops| && ops[i].Put? ==> ops[i].victim.None?
  }

  /** In particular when fewer than maxEntries keys are in use. */
  lemma {:induction false} FewKeysNeverEvict(cfg: Config, ops: seq<Op>)
    requires Exec(cfg, ops).Some? && |KeysOf(ops)| < cfg.maxEntries
    ensures NeverEvicts(ops)
  {
    if ops != [] {
      var before := ops[..|ops| - 1];
      KeysOfPrefix(ops);
      SubsetIsSmaller(KeysOf(before), KeysOf(ops));
      FewKeysNeverEvict(cfg, before);
      KeysComeFromRun(cfg, before);
      SubsetIsSmaller(Exec(cfg, before).value.Keys, KeysOf(before));
      assert forall i :: 0 <= i < |before| ==> ops[i] == before[i];
    }
  }

  /** One operation that evicts nothing: a session it removes, or that was gone,
      is over. */
  lemma GoneStep(cfg: Config, c: Cache, h: Option<Session>, op: Op, key: string, now: int)
    requires (op.Put? ==> op.victim.None?) && key !in Step(cfg, c, op).0 && (Timed(op) ==> op.at <= now)
    requires key in c ==> h == Some(Session(c[key].claims, c[key].lastAccess))
    requires key !in c ==> !Alive(cfg, h, now) && (Timed(op) ==> !Alive(cfg, h, op.at))
    ensures !Alive(cfg, Advance(cfg, h, op, key), now)
  {
  }

  /** Without evictions, a session the cache no longer holds is over. */
  lemma {:induction false} GoneIsOver(cfg: Config, ops: seq<Op>, key: string, now: int)
    requires Exec(cfg, ops).Some? && key !in Exec(cfg, ops).value
    requires Ordered(ops) && NotLater(ops, now) && NeverEvicts(ops)
    ensures !Alive(cfg, History(cfg, ops, key), now)
  {
    if ops != [] {
      var before, op := ops[..|ops| - 1], ops[|ops| - 1];
      OrderedPrefix(ops);
      if key !in Exec(cfg, before).value {
        GoneIsOver(cfg, before, key, now);
        if Timed(op) { GoneIsOver(cfg, before, key, op.at); }
      } else {
        EntryIsHistory(cfg, before, key);
      }
      GoneStep(cfg, Exec(cfg, before).value, History(cfg, before, key), op, key, now);
    }
  }

  lemma OrderedPrefix(ops: seq<Op>)
    requires ops != [] && Ordered(ops)
    ensures Ordered(ops[..|ops| - 1]) && (NeverEvicts(ops) ==> NeverEvicts(ops[..|ops| - 1]))
    ensures Timed(ops[|ops| - 1]) ==> NotLater(ops[..|ops| - 1], ops[|ops| - 1].at)
    ensures forall now :: NotLater(ops, now) ==> NotLater(ops[..|ops| - 1], now)
  {
  }

  /** Main result: a Get never answers more than the key's own history grants,
      and while no Put has found the map full it answers exactly that. */
  lemma GetAnswersHistory(cfg: Config, ops: seq<Op>, key: string, now: int)
    requires cfg.Valid() && Exec(cfg, ops).Some?
    ensures var answer := Step(cfg, Exec(cfg, ops).value, Op.Get(key, now)).1;
            && (answer.Some? ==> answer == HistoryAnswer(cfg, ops, key, now))
            && (Ordered(ops) && NotLater(ops, now) && NeverEvicts(ops) ==>
                  answer == HistoryAnswer(cfg, ops, key, now))
  {
    if key in Exec(cfg, ops).value {
      EntryIsHistory(cfg, ops, key);
    } else if Ordered(ops) && NotLater(ops, now) && NeverEvicts(ops) {
      GoneIsOver(cfg, ops, key, now);
    }
  }

  // ---- When background cleanup is unobservable -----------------------------

  /** What the Gets of a run answer, in order. */
  function Answers(cfg: Config, ops: seq<Op>): seq<Option<Claims>>
    requires Exec(cfg, ops).Some?
  {
    if ops == [] then []
    else
      var before, op := ops[..|ops| - 1], ops[|ops| - 1];
      Answers(cfg, before) + (if op.Get? then [Step(cfg, Exec(cfg, before).value, op).1] else [])
  }

  function WithoutCleanups(ops: seq<Op>): seq<Op> {
    if ops == [] then []
    else WithoutCleanups(ops[..|ops| - 1]) + (if ops[|ops| - 1].Cleanup? then [] else [ops[|ops| - 1]])
  }

  function KeysOf(ops: seq<Op>): set<string> {
    set i | 0 <= i < |ops| && !ops[i].Cleanup? :: ops[i].key
  }

  /** The same call; which entry a Put evicts depends on the cache. */
  predicate SameCall(a: Op, b: Op) {
    if a.Put? && b.Put? then a.(victim := None) == b.(victim := None) else a == b
  }

  ghost predicate SameCalls(a: seq<Op>, b: seq<Op>) {
    |a| == |b| && forall i :: 0 <= i < |a| ==> SameCall(a[i], b[i])
  }

  /** Two runs that make the same calls, the first with cleanups in between. */
  ghost predicate Twins(cfg: Config, cleaned: seq<Op>, plain: seq<Op>) {
    && Ordered(cleaned) && Exec(cfg, cleaned).Some? && Exec(cfg, plain).Some?
    && SameCalls(WithoutCleanups(cleaned), plain)
  }

  /** `cleaned` is `plain` without some entries that are already dead. */
  ghost predicate Cleaner(cfg: Config, cleaned: Cache, plain: Cache, now: int) {
    && cleaned.Keys <= plain.Keys
    && (forall k :: k in cleaned ==> cleaned[k] == plain[k])
    && (forall k :: k in plain && k !in cleaned ==> Dead(cfg, plain[k], now))
  }

  lemma CleanupKeepsCleaner(cfg: Config, cleaned: Cache, plain: Cache, at: int, now: int)
    requires Cleaner(cfg, cleaned, plain, at) && at <= now
    ensures Cleaner(cfg, Survivors(cfg, cleaned, at), plain, now)
  {
  }

  lemma StepKeepsCleaner(cfg: Config, cleaned: Cache, plain: Cache, at: int, op: Op, same: Op, now: int)
    requires cfg.Valid() && Cleaner(cfg, cleaned, plain, at) && at <= now && !op.Cleanup? && SameCall(op, same)
    requires (Timed(op) ==> op.at == at) && Enabled(cfg, cleaned, op) && Enabled(cfg, plain, same)
    requires same.Put? && same.victim.Some? ==> cfg.maxEntries == 1 && |plain| <= 1
    ensures var a, b := Step(cfg, cleaned, op), Step(cfg, plain, same);
            a.1 == b.1 && Cleaner(cfg, a.0, b.0, now)
  {
    SubsetIsSmaller(cleaned.Keys, plain.Keys);
    if same.Put? && same.victim.Some? {
      OneEntry(plain, same.victim.value);
      if op.victim.Some? { OneEntry(cleaned, op.victim.value); }
      assert plain - {same.victim.value} == map[];
      assert Step(cfg, cleaned, op).0 == map[op.key := Entry(op.claims, op.at, op.at)];
    }
  }

  lemma OneEntry(c: Cache, k: string)
    requires |c| <= 1 && k in c
    ensures c.Keys == {k}
  {
    assert |c.Keys - {k}| == 0;
  }

  /** Twin caches differ by dead entries only, and twin runs answer alike, as
      long as the plain one evicts nothing or the cache holds one entry. */
  lemma {:induction false} TwinsAnswerAlike(cfg: Config, cleaned: seq<Op>, plain: seq<Op>, now: int)
    requires cfg.Valid() && Twins(cfg, cleaned, plain) && NotLater(cleaned, now)
    requires NeverEvicts(plain) || cfg.maxEntries == 1
    ensures Cleaner(cfg, Exec(cfg, cleaned).value, Exec(cfg, plain).value, now)
    ensures Answers(cfg, cleaned) == Answers(cfg, plain)
    decreases |cleaned|
  {
    if cleaned != [] {
      var before, op := cleaned[..|cleaned| - 1], cleaned[|cleaned| - 1];
      var at := if Timed(op) then op.at else now;
      OrderedPrefix(cleaned);
      if op.Cleanup? {
        assert WithoutCleanups(cleaned) == WithoutCleanups(before);
        TwinsAnswerAlike(cfg, before, plain, at);
        CleanupKeepsCleaner(cfg, Exec(cfg, before).value, Exec(cfg, plain).value, at, now);
      } else {
        TwinsShrink(cfg, cleaned, plain);
        var rest, same := plain[..|plain| - 1], plain[|plain| - 1];
        TwinsAnswerAlike(cfg, before, rest, at);
        CapacityHolds(cfg, rest);
        StepKeepsCleaner(cfg, Exec(cfg, before).value, Exec(cfg, rest).value, at, op, same, now);
      }
    }
  }

  lemma TwinsShrink(cfg: Config, cleaned: seq<Op>, plain: seq<Op>)
    requires Twins(cfg, cleaned, plain) && cleaned != [] && !cleaned[|cleaned| - 1].Cleanup?
    ensures plain != [] && SameCall(cleaned[|cleaned| - 1], plain[|plain| - 1])
    ensures Twins(cfg, cleaned[..|cleaned| - 1], plain[..|plain| - 1])
    ensures NeverEvicts(plain) ==> NeverEvicts(plain[..|plain| - 1])
  {
    var before, rest := cleaned[..|cleaned| - 1], plain[..|plain| - 1];
    OrderedPrefix(cleaned);
    var all := WithoutCleanups(cleaned);
    assert all[..|all| - 1] == WithoutCleanups(before);
    assert forall i :: 0 <= i < |rest| ==> rest[i] == plain[i] && WithoutCleanups(before)[i] == all[i];
    assert SameCall(all[|all| - 1], plain[|plain| - 1]);
  }

  lemma {:induction false} LatestTime(ops: seq<Op>) returns (end: int)
    ensures NotLater(ops, end)
  {
    end := 0;
    if ops != [] {
      var before, op := ops[..|ops| - 1], ops[|ops| - 1];
      end := LatestTime(before);
      if Timed(op) && op.at > end { end := op.at; }
      assert forall i :: 0 <= i < |before| ==> ops[i] == before[i];
    }
  }

  lemma RoomIsKept(cfg: Config, before: seq<Op>, put: Op)
    requires cfg.Valid() && Ordered(before) && NeverEvicts(before) && Exec(cfg, before).Some?
    requires Exec(cfg, WithoutCleanups(before)).Some? && put.Put? && put.victim.None?
    requires Enabled(cfg, Exec(cfg, WithoutCleanups(before)).value, put)
    ensures Enabled(cfg, Exec(cfg, before).value, put)
  {
    CleanupsEvictNothing(before);
    var now := LatestTime(before);
    TwinsAnswerAlike(cfg, before, WithoutCleanups(before), now);
    SubsetIsSmaller(Exec(cfg, before).value.Keys, Exec(cfg, WithoutCleanups(before)).value.Keys);
  }

  lemma {:induction false} CleanedRunExists(cfg: Config, ops: seq<Op>)
    requires cfg.Valid() && Ordered(ops) && NeverEvicts(ops) && Exec(cfg, WithoutCleanups(ops)).Some?
    ensures Exec(cfg, ops).Some?
  {
    if ops != [] {
      var before, op, plain := ops[..|ops| - 1], ops[|ops| - 1], WithoutCleanups(ops);
      OrderedPrefix(ops);
      assert WithoutCleanups(before) == if op.Cleanup? then plain else plain[..|plain| - 1];
      CleanedRunExists(cfg, before);
      if op.Put? { RoomIsKept(cfg, before, op); }
    }
  }

  /** When no Put of a run finds the map full, cleanups inserted anywhere leave
      it possible as it is and change no answer of any Get. */
  lemma CleanupIsUnobservable(cfg: Config, ops: seq<Op>)
    requires cfg.Valid() && Ordered(ops) && NeverEvicts(ops) && Exec(cfg, WithoutCleanups(ops)).Some?
    ensures Exec(cfg, ops).Some? && Answers(cfg, ops) == Answers(cfg, WithoutCleanups(ops))
  {
    CleanedRunExists(cfg, ops);
    CleanupsEvictNothing(ops);
    var now := LatestTime(ops);
    TwinsAnswerAlike(cfg, ops, WithoutCleanups(ops), now);
  }

  lemma {:induction false} CleanupsEvictNothing(ops: seq<Op>)
    requires NeverEvicts(ops)
    ensures NeverEvicts(WithoutCleanups(ops))
  {
    if ops != [] {
      var before := ops[..|ops| - 1];
      assert forall i :: 0 <= i < |before| ==> ops[i] == before[i];
      CleanupsEvictNothing(before);
    }
  }

  /** Every run over the keys could do without its cleanups, and would answer
      alike however it broke ties among equally old entries. */
  ghost predicate Unobservable(cfg: Config, keys: set<string>) {
    forall cleaned :: Ordered(cleaned) && Exec(cfg, cleaned).Some? && KeysOf(cleaned) <= keys ==>
      && (exists plain :: Twins(cfg, cleaned, plain))
      && (forall plain :: Twins(cfg, cleaned, plain) ==> Answers(cfg, plain) == Answers(cfg, cleaned))
  }

  /** Some run over the keys owes its answers to its cleanups: it could do
      without them, but would not answer so however it broke ties. */
  ghost predicate Observable(cfg: Config, keys: set<string>) {
    exists cleaned :: Ordered(cleaned) && Exec(cfg, cleaned).Some? && KeysOf(cleaned) <= keys
      && (exists plain :: Twins(cfg, cleaned, plain))
      && (forall plain :: Twins(cfg, cleaned, plain) ==> Answers(cfg, plain) != Answers(cfg, cleaned))
  }

  /** Main result. Cleanups are unobservable over a set of keys exactly when the
      keys cannot fill the cache, or the cache has room for one entry only; and
      otherwise some run shows them. */
  lemma UnobservableExactly(cfg: Config, keys: set<string>)
    requires cfg.Valid()
    ensures Unobservable(cfg, keys) <==> |keys| < cfg.maxEntries || cfg.maxEntries == 1
    ensures Observable(cfg, keys) <==> !Unobservable(cfg, keys)
  {
    if |keys| < cfg.maxEntries || cfg.maxEntries == 1 {
      forall cleaned | Ordered(cleaned) && Exec(cfg, cleaned).Some? && KeysOf(cleaned) <= keys
        ensures exists plain :: Twins(cfg, cleaned, plain)
        ensures forall plain :: Twins(cfg, cleaned, plain) ==> Answers(cfg, plain) == Answers(cfg, cleaned)
      {
        var _ := PlainTwin(cfg, cleaned);
        forall plain | Twins(cfg, cleaned, plain) ensures Answers(cfg, plain) == Answers(cfg, cleaned) {
          FewKeysAnswerAlike(cfg, keys, cleaned, plain);
        }
      }
    } else {
      var ks := Enumerate(keys, cfg.maxEntries);
      var cleaned, plain := ObservedRun(cfg, ks);
    }
  }

  lemma FewKeysAnswerAlike(cfg: Config, keys: set<string>, cleaned: seq<Op>, plain: seq<Op>)
    requires cfg.Valid() && Twins(cfg, cleaned, plain) && KeysOf(cleaned) <= keys
    requires |keys| < cfg.maxEntries || cfg.maxEntries == 1
    ensures Answers(cfg, plain) == Answers(cfg, cleaned)
  {
    if |keys| < cfg.maxEntries {
      TwinKeys(cfg, cleaned, plain);
      SubsetIsSmaller(KeysOf(plain), keys);
      FewKeysNeverEvict(cfg, plain);
    }
    var now := LatestTime(cleaned);
    TwinsAnswerAlike(cfg, cleaned, plain, now);
  }

  lemma {:induction false} SomeOldest(c: Cache) returns (victim: string)
    requires c != map[]
    ensures Oldest(c, victim)
    decreases |c|
  {
    var k :| k in c;
    var rest := c - {k};
    assert forall j :: j in c <==> j == k || j in rest;
    victim := k;
    if rest != map[] {
      assert k in {k} * c.Keys;
      RemovalShrinks(c, {k});
      var other := SomeOldest(rest);
      if c[other].lastAccess < c[k].lastAccess { victim := other; }
      assert forall j :: j in rest ==> rest[j] == c[j] && rest[other].lastAccess <= rest[j].lastAccess;
    }
  }

  /** Whatever the cache holds, a call can be made. */
  lemma PossibleCall(cfg: Config, c: Cache, op: Op) returns (same: Op)
    requires cfg.Valid()
    ensures Enabled(cfg, c, same) && SameCall(op, same) && (same.Cleanup? ==> op.Cleanup?)
  {
    same := op;
    if op.Put? {
      same := op.(victim := None);
      if |c| >= cfg.maxEntries {
        var victim := SomeOldest(c);
        same := op.(victim := Some(victim));
      }
    }
  }

  /** Any calls can be made without cleanups in between. */
  lemma {:induction false} PlainTwin(cfg: Config, cleaned: seq<Op>) returns (plain: seq<Op>)
    requires cfg.Valid() && Ordered(cleaned) && Exec(cfg, cleaned).Some?
    ensures Twins(cfg, cleaned, plain)
  {
    plain := [];
    if cleaned != [] {
      var before, op := cleaned[..|cleaned| - 1], cleaned[|cleaned| - 1];
      OrderedPrefix(cleaned);
      plain := PlainTwin(cfg, before);
      if !op.Cleanup? {
        var same := PossibleCall(cfg, Exec(cfg, plain).value, op);
        OneMore(cfg, plain, same);
        plain := plain + [same];
      }
    }
  }

  lemma {:induction false} TwinKeys(cfg: Config, cleaned: seq<Op>, plain: seq<Op>)
    requires SameCalls(WithoutCleanups(cleaned), plain)
    ensures KeysOf(plain) <= KeysOf(cleaned)
  {
    StrippedKeys(cleaned);
    forall k | k in KeysOf(plain) ensures k in KeysOf(WithoutCleanups(cleaned)) {
      var i :| 0 <= i < |plain| && !plain[i].Cleanup? && plain[i].key == k;
      assert SameCall(WithoutCleanups(cleaned)[i], plain[i]);
    }
  }

  lemma {:induction false} StrippedKeys(ops: seq<Op>)
    ensures KeysOf(WithoutCleanups(ops)) <= KeysOf(ops)
  {
    if ops != [] {
      StrippedKeys(ops[..|ops| - 1]);
      KeysOfPrefix(ops);
    }
  }

  lemma {:induction false} Enumerate(keys: set<string>, n: nat) returns (ks: seq<string>)
    requires n <= |keys|
    ensures |ks| == n && Distinct(ks) && forall i :: 0 <= i < n ==> ks[i] in keys
  {
    ks := [];
    if n > 0 {
      var k :| k in keys;
      ks := Enumerate(keys - {k}, n - 1);
      ks := ks + [k];
    }
  }

  ghost predicate Distinct(ks: seq<string>) {
    forall i, j :: 0 <= i < j < |ks| ==> ks[i] != ks[j]
  }

  /** The second session ends before time 1, the others do not. */
  function FillerClaims(i: nat): Claims {
    Claims("", if i == 1 then 0 else 1)
  }

  /** The first is the oldest. */
  function FillTime(i: nat): int {
    if i == 0 then 0 else 1
  }

  function FillPut(ks: seq<string>, i: nat): Op
    requires i < |ks|
  {
    Put(ks[i], FillerClaims(i), FillTime(i), None)
  }

  function Fill(ks: seq<string>): (ops: seq<Op>)
    ensures |ops| == |ks|
  {
    if ks == [] then [] else Fill(ks[..|ks| - 1]) + [FillPut(ks, |ks| - 1)]
  }

  function FillEntry(i: nat): Entry {
    Entry(FillerClaims(i), FillTime(i), FillTime(i))
  }

  ghost predicate Filled(c: Cache, ks: seq<string>) {
    && |c| == |ks| && (forall k :: k in c <==> k in ks)
    && forall i :: 0 <= i < |ks| ==> c[ks[i]] == FillEntry(i)
  }

  lemma DistinctSnoc(ks: seq<string>)
    requires ks != [] && Distinct(ks)
    ensures var init, last := ks[..|ks| - 1], ks[|ks| - 1];
            ks == init + [last] && last !in init && Distinct(init)
  {
  }

  lemma {:induction false} FillFills(cfg: Config, ks: seq<string>)
    requires |ks| <= cfg.maxEntries && Distinct(ks)
    ensures Exec(cfg, Fill(ks)).Some? && Filled(Exec(cfg, Fill(ks)).value, ks)
    ensures Answers(cfg, Fill(ks)) == []
  {
    if ks != [] {
      var init, last := ks[..|ks| - 1], ks[|ks| - 1];
      DistinctSnoc(ks);
      FillFills(cfg, init);
      FillStep(cfg, Fill(init), init, last, FillPut(ks, |init|));
    }
  }

  lemma FillStep(cfg: Config, ops: seq<Op>, init: seq<string>, last: string, put: Op)
    requires Exec(cfg, ops).Some? && Filled(Exec(cfg, ops).value, init) && Answers(cfg, ops) == []
    requires |init| < cfg.maxEntries && last !in init
    requires put == Put(last, FillerClaims(|init|), FillTime(|init|), None)
    ensures Exec(cfg, ops + [put]).Some? && Filled(Exec(cfg, ops + [put]).value, init + [last])
    ensures Answers(cfg, ops + [put]) == []
  {
    OneMore(cfg, ops, put);
    FilledNext(Exec(cfg, ops).value, init, last);
  }

  lemma FilledNext(c: Cache, init: seq<string>, last: string)
    requires Filled(c, init) && last !in init
    ensures Filled(c[last := FillEntry(|init|)], init + [last])
  {
    var next, ks := c[last := FillEntry(|init|)], init + [last];
    assert next.Keys == c.Keys + {last};
    forall i | 0 <= i < |ks| ensures next[ks[i]] == FillEntry(i) {
      if i < |init| { assert ks[i] == init[i] && init[i] in init; }
    }
  }

  lemma {:induction false} FillIsPlain(ks: seq<string>)
    ensures WithoutCleanups(Fill(ks)) == Fill(ks) && KeysOf(Fill(ks)) <= (set k | k in ks)
    ensures forall i :: 0 <= i < |ks| ==> Fill(ks)[i].Put? && Fill(ks)[i].at == FillTime(i)
  {
    if ks != [] {
      var init, ops := ks[..|ks| - 1], Fill(ks);
      FillIsPlain(init);
      assert ops[..|ops| - 1] == Fill(init);
      KeysOfSnoc(Fill(init), ops[|ops| - 1]);
    }
  }

  /** The last call of two runs that make the same calls, and the ones before. */
  lemma SameLastCall(calls: seq<Op>, last: Op, plain: seq<Op>)
    requires SameCalls(calls + [last], plain)
    ensures plain != [] && SameCalls(calls, plain[..|plain| - 1]) && SameCall(last, plain[|plain| - 1])
    ensures plain == plain[..|plain| - 1] + [plain[|plain| - 1]]
  {
    var all := calls + [last];
    assert forall i :: 0 <= i < |calls| ==> all[i] == calls[i] && plain[..|plain| - 1][i] == plain[i];
    assert SameCall(all[|calls|], plain[|calls|]);
  }

  /** No choice is left while the cache fills. */
  lemma {:induction false} FillIsForced(cfg: Config, ks: seq<string>, plain: seq<Op>)
    requires |ks| <= cfg.maxEntries && Distinct(ks) && Exec(cfg, plain).Some? && SameCalls(Fill(ks), plain)
    ensures plain == Fill(ks)
  {
    if ks != [] {
      var init := ks[..|ks| - 1];
      SameLastCall(Fill(init), FillPut(ks, |ks| - 1), plain);
      FillIsForced(cfg, init, plain[..|plain| - 1]);
      FillFills(cfg, init);
      PutIsForced(cfg, Exec(cfg, Fill(init)).value, FillPut(ks, |ks| - 1), plain[|plain| - 1]);
    }
  }

  lemma PutIsForced(cfg: Config, c: Cache, put: Op, same: Op)
    requires put.Put? && put.victim.None? && SameCall(put, same) && Enabled(cfg, c, same) && |c| < cfg.maxEntries
    ensures same == put
  {
  }

  lemma KeysOfSnoc(ops: seq<Op>, op: Op)
    ensures KeysOf(ops + [op]) <= KeysOf(ops) + if op.Cleanup? then {} else {op.key}
  {
    forall k | k in KeysOf(ops + [op]) && (op.Cleanup? || k != op.key) ensures k in KeysOf(ops) {
      var i :| 0 <= i < |ops + [op]| && !(ops + [op])[i].Cleanup? && (ops + [op])[i].key == k;
      assert ops[i].key == k;
    }
  }

  /** Put the second key again in a full cache and Get the first: the cleanup
      has made room, otherwise the first is evicted. */
  function Again(ks: seq<string>, victim: Option<string>): (ops: seq<Op>)
    requires |ks| >= 2
    ensures |ops| == 2
  {
    [Put(ks[1], FillerClaims(0), 1, victim), Op.Get(ks[0], 1)]
  }

  lemma AgainAnswers(cfg: Config, ops: seq<Op>, ks: seq<string>, victim: Option<string>)
    requires |ks| >= 2 && ks[0] != ks[1] && Exec(cfg, ops).Some? && Answers(cfg, ops) == []
    requires Enabled(cfg, Exec(cfg, ops).value, Again(ks, victim)[0])
    ensures var run := ops + Again(ks, victim);
            var get := Step(cfg, Step(cfg, Exec(cfg, ops).value, Again(ks, victim)[0]).0, Op.Get(ks[0], 1)).1;
            && Exec(cfg, run).Some? && Answers(cfg, run) == [get]
            && WithoutCleanups(run) == WithoutCleanups(ops) + Again(ks, victim)
  {
    var put, get := Again(ks, victim)[0], Again(ks, victim)[1];
    OneMore(cfg, ops, put);
    OneMore(cfg, ops + [put], get);
    assert ops + [put] + [get] == ops + Again(ks, victim);
    assert WithoutCleanups(ops) + [put] + [get] == WithoutCleanups(ops) + Again(ks, victim);
  }

  function PlainRun(ks: seq<string>): seq<Op>
    requires |ks| >= 2
  {
    Fill(ks) + Again(ks, Some(ks[0]))
  }

  lemma PlainRunAnswers(cfg: Config, ks: seq<string>)
    requires cfg.Valid() && |ks| == cfg.maxEntries >= 2 && Distinct(ks)
    ensures Exec(cfg, PlainRun(ks)).Some? && Answers(cfg, PlainRun(ks)) == [None]
  {
    FillFills(cfg, ks);
    assert Oldest(Exec(cfg, Fill(ks)).value, ks[0]);
    AgainAnswers(cfg, Fill(ks), ks, Some(ks[0]));
  }

  /** The first key is the only one a full cache can evict. */
  lemma FirstIsEvicted(c: Cache, ks: seq<string>, victim: string)
    requires |ks| >= 2 && Filled(c, ks) && Oldest(c, victim)
    ensures victim == ks[0]
  {
    assert ks[0] in c.Keys && victim in c.Keys;
    var i :| 0 <= i < |ks| && ks[i] == victim;
    assert c[victim] == FillEntry(i) && c[ks[0]] == FillEntry(0);
  }

  lemma PlainRunIsForced(cfg: Config, ks: seq<string>, plain: seq<Op>)
    requires cfg.Valid() && |ks| == cfg.maxEntries >= 2 && Distinct(ks)
    requires Exec(cfg, plain).Some? && SameCalls(Fill(ks) + Again(ks, None), plain)
    ensures plain == PlainRun(ks)
  {
    var again := Again(ks, None);
    assert Fill(ks) + again == Fill(ks) + [again[0]] + [again[1]];
    SameLastCall(Fill(ks) + [again[0]], again[1], plain);
    var most := plain[..|plain| - 1];
    SameLastCall(Fill(ks), again[0], most);
    var fill, put := most[..|most| - 1], most[|most| - 1];
    FillIsForced(cfg, ks, fill);
    FillFills(cfg, ks);
    FirstIsEvicted(Exec(cfg, fill).value, ks, put.victim.value);
    assert PlainRun(ks) == fill + [put] + [again[1]];
  }

  function CleanedRun(ks: seq<string>): seq<Op>
    requires |ks| >= 2
  {
    Fill(ks) + [Op.Cleanup(1)] + Again(ks, None)
  }

  lemma CleanupMakesRoom(cfg: Config, c: Cache, ks: seq<string>)
    requires cfg.Valid() && |ks| == cfg.maxEntries >= 2 && Distinct(ks) && Filled(c, ks)
    ensures var cleaned := Survivors(cfg, c, 1);
            && |cleaned| < cfg.maxEntries
            && Step(cfg, Step(cfg, cleaned, Again(ks, None)[0]).0, Op.Get(ks[0], 1)).1 == Some(FillerClaims(0))
  {
    assert Survivors(cfg, c, 1) == c - {ks[1]};
    assert ks[1] in {ks[1]} * c.Keys;
    RemovalShrinks(c, {ks[1]});
  }

  lemma CleanedFill(cfg: Config, ks: seq<string>)
    requires cfg.Valid() && |ks| == cfg.maxEntries >= 2 && Distinct(ks)
    ensures var run := Fill(ks) + [Op.Cleanup(1)];
            && Exec(cfg, Fill(ks)).Some? && Exec(cfg, run) == Some(Survivors(cfg, Exec(cfg, Fill(ks)).value, 1))
            && Answers(cfg, run) == [] && WithoutCleanups(run) == Fill(ks)
  {
    FillFills(cfg, ks);
    FillIsPlain(ks);
    OneMore(cfg, Fill(ks), Op.Cleanup(1));
  }

  lemma CleanedRunAnswers(cfg: Config, ks: seq<string>)
    requires cfg.Valid() && |ks| == cfg.maxEntries >= 2 && Distinct(ks)
    ensures Exec(cfg, CleanedRun(ks)).Some? && Answers(cfg, CleanedRun(ks)) == [Some(FillerClaims(0))]
    ensures WithoutCleanups(CleanedRun(ks)) == Fill(ks) + Again(ks, None)
  {
    FillFills(cfg, ks);
    CleanedFill(cfg, ks);
    CleanupMakesRoom(cfg, Exec(cfg, Fill(ks)).value, ks);
    AgainAnswers(cfg, Fill(ks) + [Op.Cleanup(1)], ks, None);
  }

  lemma CleanedRunKeys(ks: seq<string>)
    requires |ks| >= 2
    ensures KeysOf(CleanedRun(ks)) <= (set k | k in ks)
  {
    var ops, again := Fill(ks) + [Op.Cleanup(1)], Again(ks, None);
    FillIsPlain(ks);
    KeysOfSnoc(Fill(ks), Op.Cleanup(1));
    KeysOfSnoc(ops, again[0]);
    KeysOfSnoc(ops + [again[0]], again[1]);
    assert CleanedRun(ks) == ops + [again[0]] + [again[1]];
  }

  lemma CleanedRunIsOrdered(ks: seq<string>)
    requires |ks| >= 2
    ensures Ordered(CleanedRun(ks))
  {
    var run := CleanedRun(ks);
    FillIsPlain(ks);
    forall i | 0 <= i < |run| ensures Timed(run[i]) && run[i].at == FillTime(i) {
      if i < |ks| { assert run[i] == Fill(ks)[i]; }
    }
  }

  /** With the cleanup the first session is found; without it, it never is. */
  lemma ObservedRun(cfg: Config, ks: seq<string>) returns (cleaned: seq<Op>, plain: seq<Op>)
    requires cfg.Valid() && |ks| == cfg.maxEntries >= 2 && Distinct(ks)
    ensures Twins(cfg, cleaned, plain) && KeysOf(cleaned) <= (set k | k in ks)
    ensures forall other :: Twins(cfg, cleaned, other) ==> Answers(cfg, other) != Answers(cfg, cleaned)
  {
    cleaned, plain := CleanedRun(ks), PlainRun(ks);
    PlainRunAnswers(cfg, ks);
    CleanedRunAnswers(cfg, ks);
    CleanedRunIsOrdered(ks);
    CleanedRunKeys(ks);
    forall other | Twins(cfg, cleaned, other) ensures other == plain {
      PlainRunIsForced(cfg, ks, other);
    }
    assert SameCalls(Fill(ks) + Again(ks, None), plain);
  }

  lemma OneMore(cfg: Config, ops: seq<Op>, op: Op)
    requires Exec(cfg, ops).Some? && Enabled(cfg, Exec(cfg, ops).value, op)
    ensures Exec(cfg, ops + [op]) == Some(Step(cfg, Exec(cfg, ops).value, op).0)
    ensures Answers(cfg, ops + [op]) ==
            Answers(cfg, ops) + if op.Get? then [Step(cfg, Exec(cfg, ops).value, op).1] else []
    ensures WithoutCleanups(ops + [op]) == WithoutCleanups(ops) + if op.Cleanup? then [] else [op]
  {
    assert (ops + [op])[..|ops|] == ops;
  }
}
