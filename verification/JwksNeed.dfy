/** When a lookup fetches: only if the cache cannot serve it, and again only if
    the map it was handed first lacks its kid. */
module JwksNeed {
  import opened Options
  import opened Jwks
  import opened JwksProtocol

  /** The map that lookup t was handed first. */
  ghost predicate First(handouts: seq<Handout>, t: nat, f: nat) {
    f < |handouts| && handouts[f].tid == t && forall i :: 0 <= i < f ==> handouts[i].tid != t
  }

  ghost predicate NoneYet(handouts: seq<Handout>, t: nat) {
    forall i :: 0 <= i < |handouts| ==> handouts[i].tid != t
  }

  /** The first map was young enough for GetKeys, and lacks the kid. */
  ghost predicate FirstLacks(cfg: Config, handouts: seq<Handout>, t: nat, kid: string) {
    exists f: nat :: First(handouts, t, f) && handouts[f].limit == cfg.ttl && kid !in handouts[f].keys
  }

  /** The course a lookup has taken so far. */
  ghost predicate CourseOk(cfg: Config, s: State, t: nat)
    requires t in s.threads
  {
    var th := s.threads[t];
    match th.phase
    case Refreshing => FirstLacks(cfg, s.handouts, t, th.kid)
    case Getting =>
      if th.pc.Holding? || th.pc.Found?
      then HoldsFirst(cfg, s.handouts, t, th.pc.handout) && (th.pc.Found? ==> th.kid in s.handouts[th.pc.handout].keys)
      else NoneYet(s.handouts, t) && !th.pc.Missing?
  }

  ghost predicate HoldsFirst(cfg: Config, handouts: seq<Handout>, t: nat, h: nat) {
    First(handouts, t, h) && handouts[h].limit == cfg.ttl && forall i :: h < i < |handouts| ==> handouts[i].tid != t
  }

  ghost predicate Courses(cfg: Config, s: State) {
    && (forall t :: t in s.threads ==> CourseOk(cfg, s, t))
    && (forall i :: 0 <= i < |s.handouts| ==> s.handouts[i].tid in s.threads)
  }

  lemma FirstStays(handouts: seq<Handout>, h: Handout, t: nat, kid: string, cfg: Config)
    ensures FirstLacks(cfg, handouts, t, kid) ==> FirstLacks(cfg, handouts + [h], t, kid)
    ensures h.tid != t && NoneYet(handouts, t) ==> NoneYet(handouts + [h], t)
  {
    if f: nat :| First(handouts, t, f) && handouts[f].limit == cfg.ttl && kid !in handouts[f].keys {
      assert First(handouts + [h], t, f);
    }
  }

  /** A step of `t` that hands out at most one map, to `t`, leaves the others on
      their course. */
  lemma OthersStay(cfg: Config, s: State, s': State, t: nat)
    requires Courses(cfg, s) && t in s'.threads && s'.threads.Keys == s.threads.Keys + {t}
    requires forall u :: u in s.threads && u != t ==> s'.threads[u] == s.threads[u]
    requires s'.handouts == s.handouts || exists h: Handout :: h.tid == t && s'.handouts == s.handouts + [h]
    requires CourseOk(cfg, s', t)
    ensures Courses(cfg, s')
  {
    forall u | u in s'.threads && u != t ensures CourseOk(cfg, s', u) {
      assert CourseOk(cfg, s, u);
      if h: Handout :| h.tid == t && s'.handouts == s.handouts + [h] {
        FirstStays(s.handouts, h, u, s.threads[u].kid, cfg);
      }
    }
  }

  lemma HandOutStays(cfg: Config, s: State, t: nat)
    requires Courses(cfg, s) && t in s.threads && !s.threads[t].pc.Holding? && !s.threads[t].pc.Found?
    ensures Courses(cfg, HandOut(cfg, s, t))
  {
    var s' := HandOut(cfg, s, t);
    assert CourseOk(cfg, s, t);
    var h := s'.handouts[|s.handouts|];
    assert s'.handouts == s.handouts + [h] && h.tid == t;
    FirstStays(s.handouts, h, t, s.threads[t].kid, cfg);
    OthersStay(cfg, s, s', t);
  }

  lemma LookStays(cfg: Config, s: State, t: nat)
    requires Courses(cfg, s) && Enabled(cfg, s, Look(t))
    ensures Courses(cfg, Apply(cfg, s, Look(t)))
  {
    assert CourseOk(cfg, s, t);
    OthersStay(cfg, s, Apply(cfg, s, Look(t)), t);
  }

  lemma FetchEndStays(cfg: Config, s: State, a: Action)
    requires Courses(cfg, s) && Enabled(cfg, s, a) && (a.Check? || a.Recheck? || a.WriteStamp?)
    ensures Courses(cfg, Apply(cfg, s, a))
  {
    var s', t := Apply(cfg, s, a), a.tid;
    assert CourseOk(cfg, s, t);
    if s'.handouts == s.handouts {
      OthersStay(cfg, s, s', t);
    } else {
      var mid := s.(fields := s'.fields, readers := s'.readers, writer := s'.writer, log := s'.log, attempts := s'.attempts);
      assert Courses(cfg, mid) by {
        forall u | u in mid.threads ensures CourseOk(cfg, mid, u) { assert CourseOk(cfg, s, u); }
      }
      HandOutStays(cfg, mid, t);
      assert s' == HandOut(cfg, mid, t);
    }
  }

  lemma QuietStays(cfg: Config, s: State, a: Action)
    requires Courses(cfg, s) && Enabled(cfg, s, a) && !a.Tick? && !a.Look? && !a.Check? && !a.Recheck? && !a.WriteStamp?
    ensures Courses(cfg, Apply(cfg, s, a))
  {
    if a.tid in s.threads { assert CourseOk(cfg, s, a.tid); }
    OthersStay(cfg, s, Apply(cfg, s, a), a.tid);
  }

  lemma {:induction false} AllOnCourse(cfg: Config, start: int, actions: seq<Action>)
    requires Exec(cfg, start, actions).Some?
    ensures Courses(cfg, Exec(cfg, start, actions).value)
  {
    if actions != [] {
      var before, a := actions[..|actions| - 1], actions[|actions| - 1];
      AllOnCourse(cfg, start, before);
      var s := Exec(cfg, start, before).value;
      if a.Tick? {
        forall u | u in s.threads ensures CourseOk(cfg, Apply(cfg, s, a), u) { assert CourseOk(cfg, s, u); }
      } else if a.Look? {
        LookStays(cfg, s, a.tid);
      } else if a.Check? || a.Recheck? || a.WriteStamp? {
        FetchEndStays(cfg, s, a);
      } else {
        QuietStays(cfg, s, a);
      }
    }
  }

  // ---- Main results ----------------------------------------------------------

  /** A lookup forces a refetch only after it was handed a map, no older than the
      ttl allows, that lacks its kid. One whose first map carries its kid fetches
      no more, cannot fail any more, and ends with that key. */
  lemma FirstMapDecides(cfg: Config, start: int, actions: seq<Action>, s: State, t: nat)
    requires Exec(cfg, start, actions) == Some(s) && t in s.threads
    ensures var th := s.threads[t];
            && (th.phase == Refreshing ==> FirstLacks(cfg, s.handouts, t, th.kid))
            && (forall f: nat :: First(s.handouts, t, f) && th.kid in s.handouts[f].keys ==>
                  th.phase == Getting && (th.pc == Holding(f) || th.pc == Found(f)))
            && (th.pc.Missing? ==> FirstLacks(cfg, s.handouts, t, th.kid))
  {
    AllOnCourse(cfg, start, actions);
    assert CourseOk(cfg, s, t);
    var th := s.threads[t];
    forall f: nat, g: nat | First(s.handouts, t, f) && First(s.handouts, t, g) ensures f == g {
    }
  }

  /** Every fetch of the run, successful or not, was needed: the cache held
      another URL, or nothing, or keys as old as the ttl; or they were as old as
      minRefresh and the lookup's first map lacked its kid. */
  ghost predicate Needed(cfg: Config, s: State, a: Attempt) {
    && a.before <= |s.log| && a.owner in s.threads
    && var c := FieldsAfter(s.log, a.before);
    var age := a.asked - c.fetched;
    || c.url != a.url || c.keys == map[] || age >= cfg.ttl
    || (age >= cfg.minRefresh && FirstLacks(cfg, s.handouts, a.owner, s.threads[a.owner].kid))
  }

  /** Which limit an attempt used, and why. */
  ghost predicate LimitOk(cfg: Config, s: State, a: Attempt) {
    && a.owner in s.threads
    && (a.limit == cfg.ttl
        || (a.limit == cfg.minRefresh && FirstLacks(cfg, s.handouts, a.owner, s.threads[a.owner].kid)))
  }

  lemma KidsStay(cfg: Config, s: State, a: Action, t: nat)
    requires Enabled(cfg, s, a) && t in s.threads
    ensures var s' := Apply(cfg, s, a);
            t in s'.threads && s'.threads[t].kid == s.threads[t].kid && s.handouts <= s'.handouts
  {
  }

  lemma LimitStays(cfg: Config, s: State, a: Action, attempt: Attempt)
    requires Enabled(cfg, s, a) && LimitOk(cfg, s, attempt)
    ensures LimitOk(cfg, Apply(cfg, s, a), attempt)
  {
    var s' := Apply(cfg, s, a);
    var t := attempt.owner;
    KidsStay(cfg, s, a, t);
    var kid := s.threads[t].kid;
    if f: nat :| First(s.handouts, t, f) && s.handouts[f].limit == cfg.ttl && kid !in s.handouts[f].keys {
      assert First(s'.handouts, t, f);
    }
  }

  lemma {:induction false} LimitsAreOk(cfg: Config, start: int, actions: seq<Action>)
    requires Exec(cfg, start, actions).Some?
    ensures var s := Exec(cfg, start, actions).value;
            forall i :: 0 <= i < |s.attempts| ==> LimitOk(cfg, s, s.attempts[i])
  {
    if actions != [] {
      var before, a := actions[..|actions| - 1], actions[|actions| - 1];
      LimitsAreOk(cfg, start, before);
      AllOnCourse(cfg, start, before);
      var s, s' := Exec(cfg, start, before).value, Exec(cfg, start, actions).value;
      RecordsGrow(cfg, s, a);
      forall i | 0 <= i < |s'.attempts| ensures LimitOk(cfg, s', s'.attempts[i]) {
        if i < |s.attempts| {
          LimitStays(cfg, s, a, s.attempts[i]);
        } else {
          NewLimit(cfg, s, a);
        }
      }
    }
  }

  lemma NewLimit(cfg: Config, s: State, a: Action)
    requires Courses(cfg, s) && Enabled(cfg, s, a) && (a.AnswerFails? || a.WriteStamp?)
    ensures var s' := Apply(cfg, s, a); s'.attempts != [] && LimitOk(cfg, s', s'.attempts[|s'.attempts| - 1])
  {
    RecordsGrow(cfg, s, a);
    assert CourseOk(cfg, s, a.tid);
    var attempt := Logged(cfg, s, a.tid, s.threads[a.tid].pc.asked, a.WriteStamp?)[|s.attempts|];
    LimitStays(cfg, s, a, attempt);
  }

  lemma FetchesAreNeeded(cfg: Config, start: int, actions: seq<Action>, s: State)
    requires cfg.Valid() && Exec(cfg, start, actions) == Some(s)
    ensures forall i :: 0 <= i < |s.attempts| ==> Needed(cfg, s, s.attempts[i])
  {
    LimitsAreOk(cfg, start, actions);
    AttemptsAreMisses(cfg, start, actions);
    forall i | 0 <= i < |s.attempts| ensures Needed(cfg, s, s.attempts[i]) {
      assert AttemptOk(s.log, s.attempts[i]) && LimitOk(cfg, s, s.attempts[i]);
    }
  }

  lemma Next(cfg: Config, start: int, actions: seq<Action>, s: State, a: Action, next: State) returns (more: seq<Action>)
    requires Exec(cfg, start, actions) == Some(s) && Enabled(cfg, s, a) && next == Apply(cfg, s, a)
    ensures more == actions + [a] && Exec(cfg, start, more) == Some(next)
  {
    more := actions + [a];
    assert more[..|actions|] == actions;
  }

  /** From every state without a writer, a lookup for a kid in usable keys finds it
      without waiting for the endpoint. */
  lemma CachedKidIsFound(cfg: Config, start: int, actions: seq<Action>, s: State, t: nat, url: string, kid: string)
    returns (more: seq<Action>, next: State)
    requires Exec(cfg, start, actions) == Some(s) && t !in s.threads && s.writer.None?
    requires s.fields.url == url && s.now - s.fields.fetched < cfg.ttl && kid in s.fields.keys
    ensures more == actions + [Arrive(t, url, kid), AcquireRead(t), Check(t), Look(t)]
    ensures Exec(cfg, start, more) == Some(next) && next.attempts == s.attempts
    ensures t in next.threads && next.threads[t].pc.Found?
  {
    assert |s.fields.keys| > 0;
    next := Apply(cfg, s, Arrive(t, url, kid));
    more := Next(cfg, start, actions, s, Arrive(t, url, kid), next);
    var reading := Apply(cfg, next, AcquireRead(t));
    more := Next(cfg, start, more, next, AcquireRead(t), reading);
    next := Apply(cfg, reading, Check(t));
    more := Next(cfg, start, more, reading, Check(t), next);
    assert next.threads[t] == Thread(url, kid, s.now, Getting, Holding(|s.handouts|));
    var found := Apply(cfg, next, Look(t));
    more := Next(cfg, start, more, next, Look(t), found);
    next := found;
  }
}
