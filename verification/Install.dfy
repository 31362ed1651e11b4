/** ensure_binary: download to a temporary file, verify, move into place; any
    number of runs for one version at once, each of which may fail or be killed
    at any step. */
module Install {
  import opened Options

  type Bytes = seq<nat>

  const MAX_BINARY_BYTES: nat := 256 * 1024 * 1024

  /** `expected` is the embedded digest, empty when there is none. */
  datatype Config = Config(digest: Bytes -> string, expected: string)

  predicate Good(cfg: Config, b: Bytes) {
    cfg.digest(b) == cfg.expected
  }

  // ---- The two loops -------------------------------------------------------

  function Concat(chunks: seq<Bytes>): Bytes {
    if chunks == [] then [] else Concat(chunks[..|chunks| - 1]) + chunks[|chunks| - 1]
  }

  /** The size test of _download, made before the chunk is written. */
  predicate Fits(written: nat, chunk: Bytes) {
    written + |chunk| <= MAX_BINARY_BYTES
  }

  lemma {:induction false} ConcatGrows(chunks: seq<Bytes>, n: nat)
    requires n <= |chunks|
    ensures |Concat(chunks[..n])| <= |Concat(chunks)|
  {
    if n < |chunks| {
      ConcatGrows(chunks[..|chunks| - 1], n);
      assert chunks[..|chunks| - 1][..n] == chunks[..n];
    } else {
      assert chunks[..n] == chunks;
    }
  }

  /** _download: succeeds exactly when all chunks together fit; whatever happens,
      the file never grows past the cap. */
  method Download(chunks: seq<Bytes>) returns (ok: bool, file: Bytes)
    ensures ok <==> |Concat(chunks)| <= MAX_BINARY_BYTES
    ensures |file| <= MAX_BINARY_BYTES
    ensures ok ==> file == Concat(chunks)
    ensures !ok ==> exists n :: 0 <= n < |chunks| && file == Concat(chunks[..n])
  {
    var written := 0;
    file := [];
    assert chunks[..0] == [];
    for n := 0 to |chunks|
      invariant file == Concat(chunks[..n]) && written == |file| <= MAX_BINARY_BYTES
    {
      assert chunks[..n + 1][..n] == chunks[..n];
      ConcatGrows(chunks, n + 1);
      written := written + |chunks[n]|;
      if written > MAX_BINARY_BYTES {
        return false, file;
      }
      file := file + chunks[n];
    }
    assert chunks[..|chunks|] == chunks;
    return true, file;
  }

  /** _verify_checksum: the running digest sees the file in pieces, in order. */
  method VerifyChecksum(cfg: Config, file: Bytes) returns (ok: bool)
    ensures ok <==> Good(cfg, file)
  {
    var fed: Bytes := [];
    var position := 0;
    while position < |file|
      invariant 0 <= position <= |file| && fed == file[..position]
    {
      var next := if position + 8192 <= |file| then position + 8192 else |file|;
      fed := fed + file[position..next];
      position := next;
    }
    assert file[..|file|] == file;
    return cfg.digest(fed) == cfg.expected;
  }

  // ---- One run ---------------------------------------------------------------

  /** A failure may also meet one in its clean-up; an interrupt skips it. */
  datatype Ending = NoChecksum | Path | Failure(cleanUpFailed: bool) | Interrupted

  /** Where an exception or an interrupt strikes: before anything, while the
      installed file is read, when the temporary file is made and right after, at
      each step of the try block, and when the file is removed. With `bypass` what
      struck in the try block is no Exception, and the clean-up is skipped. */
  datatype Faults = Faults(early: bool, read: bool, create: bool, created: bool, close: bool, download: bool,
                           verify: bool, chmod: bool, replace: bool, announce: bool, bypass: bool, unlink: bool)

  /** The try block gets as far as moving the file into place. */
  predicate Moves(cfg: Config, chunks: seq<Bytes>, f: Faults) {
    && !f.close && !f.download && |Concat(chunks)| <= MAX_BINARY_BYTES
    && !f.verify && cfg.digest(Concat(chunks)) == cfg.expected
    && !f.chmod && !f.replace
  }

  /** The install directory. */
  class Directory {
    var target: Option<Bytes>
    var executable: bool
    var temps: map<string, Bytes>

    constructor (target: Option<Bytes>, executable: bool)
      ensures this.target == target && this.executable == executable && temps == map[]
    {
      this.target, this.executable, temps := target, executable, map[];
    }

    /** The body of the try block, on the new file `name`. Here and below
        `chunks` is what arrives, all of it unless the download fails. */
    method DownloadAndInstall(cfg: Config, name: string, chunks: seq<Bytes>, f: Faults) returns (ok: bool)
      requires name in temps && temps[name] == []
      modifies this
      ensures ok <==> Moves(cfg, chunks, f) && !f.announce
      ensures temps - {name} == old(temps) - {name}
      ensures if Moves(cfg, chunks, f)
              then target == Some(Concat(chunks)) && executable && name !in temps
              else target == old(target) && executable == old(executable) && name in temps && |temps[name]| <= MAX_BINARY_BYTES
    {
      if f.close {
        return false;
      }
      var fits, file := Download(chunks);
      temps := temps[name := file];
      if !fits || f.download || f.verify {
        return false;
      }
      var good := VerifyChecksum(cfg, temps[name]);
      if !good || f.chmod || f.replace {
        return false;
      }
      target, executable, temps := Some(temps[name]), true, temps - {name};
      ok := !f.announce;
    }

    /** ensure_binary, undisturbed. A path is returned exactly when the target has
        the expected digest, or nothing strikes and the download fits and has it.
        A temporary file, capped in size, is left only if its removal failed or
        the run was interrupted; the target changes only to matching bytes, and
        not at all when it already has them. */
    method EnsureBinary(cfg: Config, name: string, chunks: seq<Bytes>, f: Faults) returns (r: Ending)
      requires name !in temps
      modifies this
      ensures r == NoChecksum <==> cfg.expected == ""
      ensures var present := old(target.Some? && executable);
              r == Path <==>
                && cfg.expected != "" && !f.early && !(present && f.read)
                && ((present && Good(cfg, old(target).value)) || (!f.create && !f.created && Moves(cfg, chunks, f) && !f.announce))
      ensures temps - {name} == old(temps)
      ensures name in temps ==> (r == Failure(true) || r == Interrupted) && |temps[name]| <= MAX_BINARY_BYTES
      ensures r == Path ==> target.Some? && Good(cfg, target.value)
      ensures target == old(target) || (target == Some(Concat(chunks)) && executable && Moves(cfg, chunks, f))
      ensures old(target.Some? && executable && Good(cfg, target.value)) ==> target == old(target)
    {
      if cfg.expected == "" {
        return NoChecksum;
      }
      if f.early {
        return Interrupted;
      }
      if target.Some? && executable {
        if f.read {
          return Failure(false);
        }
        var good := VerifyChecksum(cfg, target.value);
        if good {
          return Path;
        }
      }
      if f.create {
        return Failure(false);
      }
      temps := temps[name := []];
      if f.created {
        return Interrupted;
      }
      var ok := DownloadAndInstall(cfg, name, chunks, f);
      if ok {
        assert temps == temps - {name};
        return Path;
      }
      if f.bypass {
        return Interrupted;
      }
      if name in temps {
        if f.unlink {
          return Failure(true);
        }
        temps := temps - {name};
      }
      return Failure(false);
    }
  }

  // ---- Concurrent runs -----------------------------------------------------

  datatype Pc =
    | Start
    | Reading
    | Comparing(snapshot: Bytes)
    | NeedTemp
    | Closing(temp: string)
    | Opening(temp: string)
    | Downloading(temp: string, written: nat)
    | Verifying(temp: string)
    | Chmodding(temp: string)
    | Replacing(temp: string)
    | Announcing(temp: string)
    | CleaningUp(temp: string)
    | ReturnedNone
    | Returned
    | RaisedEarly
    | Raised(temp: string, cleaned: bool)
    | Killed

  /** `used` holds every name mkstemp has given out; it never repeats one. */
  datatype State = State(target: Option<Bytes>, executable: bool, temps: map<string, Bytes>, used: set<string>,
                         runs: map<nat, Pc>)

  datatype Action =
    | Begin(r: nat)
    | Look(r: nat)
    | Open(r: nat)
    | Compare(r: nat)
    | MakeTemp(r: nat, name: string)
    | CloseFd(r: nat)
    | OpenDest(r: nat)
    | Chunk(r: nat, chunk: Bytes)
    | Eof(r: nat)
    | Verify(r: nat)
    | Chmod(r: nat)
    | Replace(r: nat)
    | Announce(r: nat)
    | Fail(r: nat, part: Bytes)
    | CleanUp(r: nat)
    | CleanUpFails(r: nat)
    | Kill(r: nat)

  predicate HasTemp(pc: Pc) {
    pc.Closing? || pc.Opening? || pc.Downloading? || pc.Verifying? || pc.Chmodding? || pc.Replacing?
    || pc.Announcing? || pc.CleaningUp? || pc.Raised?
  }

  predicate Ended(pc: Pc) {
    pc.ReturnedNone? || pc.Returned? || pc.RaisedEarly? || pc.Raised? || pc.Killed?
  }

  /** A failing step may have written part of a chunk, within the cap. */
  predicate Enabled(cfg: Config, s: State, a: Action) {
    match a
    case Begin(r) => r !in s.runs
    case _ => a.r in s.runs && CanStep(cfg, s, s.runs[a.r], a)
  }

  predicate CanStep(cfg: Config, s: State, pc: Pc, a: Action) {
    match a
    case Begin(_) => false
    case Look(_) => pc.Start?
    case Open(_) => pc.Reading? && s.target.Some?
    case Compare(_) => pc.Comparing?
    case MakeTemp(_, name) => pc.NeedTemp? && name !in s.used && name !in s.temps
    case CloseFd(_) => pc.Closing?
    case OpenDest(_) => pc.Opening? && pc.temp in s.temps
    case Chunk(_, chunk) => pc.Downloading? && pc.temp in s.temps && chunk != []
    case Eof(_) => pc.Downloading?
    case Verify(_) => pc.Verifying? && pc.temp in s.temps
    case Chmod(_) => pc.Chmodding?
    case Replace(_) => pc.Replacing? && pc.temp in s.temps
    case Announce(_) => pc.Announcing?
    case Fail(_, part) =>
      && !Ended(pc) && !pc.CleaningUp?
      && (if pc.Downloading? then pc.temp in s.temps && Fits(pc.written, part) else part == [])
    case CleanUp(_) => pc.CleaningUp?
    case CleanUpFails(_) => pc.CleaningUp?
    case Kill(_) => !Ended(pc)
  }

  function To(s: State, r: nat, pc: Pc): State {
    s.(runs := s.runs[r := pc])
  }

  function Apply(cfg: Config, s: State, a: Action): State
    requires Enabled(cfg, s, a)
  {
    if a.Begin? then To(s, a.r, Start) else Run(cfg, s, s.runs[a.r], a)
  }

  function Run(cfg: Config, s: State, pc: Pc, a: Action): State
    requires CanStep(cfg, s, pc, a)
  {
    match a
    case Look(r) =>
      To(s, r, if cfg.expected == "" then ReturnedNone else if s.target.Some? && s.executable then Reading else NeedTemp)
    case Open(r) => To(s, r, Comparing(s.target.value))
    case Compare(r) => To(s, r, if Good(cfg, pc.snapshot) then Returned else NeedTemp)
    case MakeTemp(r, name) => To(s, r, Closing(name)).(temps := s.temps[name := []], used := s.used + {name})
    case CloseFd(r) => To(s, r, Opening(pc.temp))
    case OpenDest(r) => To(s, r, Downloading(pc.temp, 0)).(temps := s.temps[pc.temp := []])
    case Chunk(r, chunk) =>
      if !Fits(pc.written, chunk) then To(s, r, CleaningUp(pc.temp))
      else To(s, r, Downloading(pc.temp, pc.written + |chunk|)).(temps := s.temps[pc.temp := s.temps[pc.temp] + chunk])
    case Eof(r) => To(s, r, Verifying(pc.temp))
    case Verify(r) => To(s, r, if Good(cfg, s.temps[pc.temp]) then Chmodding(pc.temp) else CleaningUp(pc.temp))
    case Chmod(r) => To(s, r, Replacing(pc.temp))
    case Replace(r) =>
      To(s, r, Announcing(pc.temp)).(target := Some(s.temps[pc.temp]), executable := true, temps := s.temps - {pc.temp})
    case Announce(r) => To(s, r, Returned)
    case Fail(r, part) =>
      if pc.Downloading? then To(s, r, CleaningUp(pc.temp)).(temps := s.temps[pc.temp := s.temps[pc.temp] + part])
      else To(s, r, if HasTemp(pc) then CleaningUp(pc.temp) else RaisedEarly)
    case CleanUp(r) => To(s, r, Raised(pc.temp, true)).(temps := s.temps - {pc.temp})
    case CleanUpFails(r) => To(s, r, Raised(pc.temp, false))
    case Kill(r) => To(s, r, Killed)
  }

  function Exec(cfg: Config, init: State, actions: seq<Action>): Option<State> {
    if actions == [] then Some(init)
    else
      var s := Exec(cfg, init, actions[..|actions| - 1]);
      var a := actions[|actions| - 1];
      if s.Some? && Enabled(cfg, s.value, a) then Some(Apply(cfg, s.value, a)) else None
  }

  predicate Initial(s: State) {
    s.runs == map[] && s.used == {}
  }

  // ---- Invariant -----------------------------------------------------------

  ghost predicate Names(s: State) {
    && (forall r :: r in s.runs && HasTemp(s.runs[r]) ==> s.runs[r].temp in s.used)
    && (forall q, r :: q in s.runs && r in s.runs && q != r && HasTemp(s.runs[q]) && HasTemp(s.runs[r]) ==>
          s.runs[q].temp != s.runs[r].temp)
  }

  /** What a run knows of its own temporary file and of the target. */
  ghost predicate RunOk(cfg: Config, s: State, pc: Pc) {
    match pc
    case Comparing(snapshot) => Good(cfg, snapshot) ==> Installed(cfg, s)
    case Closing(t) => t in s.temps
    case Opening(t) => t in s.temps
    case Downloading(t, written) => t in s.temps && |s.temps[t]| == written <= MAX_BINARY_BYTES
    case Verifying(t) => t in s.temps
    case Chmodding(t) => t in s.temps && Good(cfg, s.temps[t])
    case Replacing(t) => t in s.temps && Good(cfg, s.temps[t])
    case Announcing(t) => t !in s.temps && Installed(cfg, s)
    case Returned => Installed(cfg, s)
    case Raised(t, cleaned) => cleaned ==> t !in s.temps
    case _ => true
  }

  /** The target holds bytes with the expected digest. */
  predicate Installed(cfg: Config, s: State) {
    s.target.Some? && Good(cfg, s.target.value)
  }

  /** No file a run has written exceeds the cap, its run alive or not. */
  ghost predicate Capped(s: State) {
    forall n :: n in s.temps && n in s.used ==> |s.temps[n]| <= MAX_BINARY_BYTES
  }

  ghost predicate Inv(cfg: Config, init: State, s: State) {
    && Names(s) && Capped(s)
    && (s.target == init.target || Installed(cfg, s))
    && (forall r :: r in s.runs ==> RunOk(cfg, s, s.runs[r]))
    && (forall n :: n in init.temps ==> n !in s.used && n in s.temps && s.temps[n] == init.temps[n])
  }

  /** A run that is over, or whose file is not touched, keeps what it knows. */
  lemma OthersKeep(cfg: Config, s: State, s': State, r: nat)
    requires Names(s) && r in s'.runs && s'.runs.Keys == s.runs.Keys + {r}
    requires forall q :: q in s.runs ==> RunOk(cfg, s, s.runs[q])
    requires forall q :: q in s.runs && q != r ==> s'.runs[q] == s.runs[q]
    requires Installed(cfg, s) ==> Installed(cfg, s')
    requires s.used <= s'.used
    requires exists t :: OnlyTouches(s, s', r, t)
    ensures forall q :: q in s.runs && q != r ==> RunOk(cfg, s', s'.runs[q])
  {
    var t :| OnlyTouches(s, s', r, t);
    forall q | q in s.runs && q != r
      ensures RunOk(cfg, s', s'.runs[q])
    {
      assert RunOk(cfg, s, s.runs[q]);
    }
  }

  /** Between the states only the file `t` changed, which is r's or new. */
  ghost predicate OnlyTouches(s: State, s': State, r: nat, t: string) {
    && (forall n :: n != t ==> (n in s'.temps <==> n in s.temps) && (n in s.temps ==> s'.temps[n] == s.temps[n]))
    && (s'.temps == s.temps || t !in s.used || (r in s.runs && HasTemp(s.runs[r]) && s.runs[r].temp == t))
    && (t in s'.temps ==> t in s.temps || t !in s.used)
  }

  /** A step of `r` to a pc the invariant allows, touching at most its own file. */
  lemma StepKeeps(cfg: Config, init: State, s: State, s': State, r: nat, t: string)
    requires Inv(cfg, init, s) && r in s'.runs && s'.runs.Keys == s.runs.Keys + {r}
    requires forall q :: q in s.runs && q != r ==> s'.runs[q] == s.runs[q]
    requires s'.target == s.target || Installed(cfg, s')
    requires s.used <= s'.used <= s.used + {t} && OnlyTouches(s, s', r, t)
    requires t !in init.temps || (s'.used == s.used && s'.temps == s.temps)
    requires HasTemp(s'.runs[r]) ==>
      if r in s.runs && HasTemp(s.runs[r]) then s'.runs[r].temp == s.runs[r].temp
      else s'.runs[r].temp == t && t !in s.used && t in s'.used
    requires RunOk(cfg, s', s'.runs[r]) && Capped(s')
    ensures Inv(cfg, init, s')
  {
    OthersKeep(cfg, s, s', r);
    assert Names(s');
  }

  predicate TouchesFiles(s: State, a: Action) {
    a.MakeTemp? || a.OpenDest? || a.Chunk? || a.Replace? || a.CleanUp?
    || (a.Fail? && a.r in s.runs && s.runs[a.r].Downloading?)
  }

  /** A step that leaves every file alone knows afterwards what it should. */
  lemma QuietStepKnows(cfg: Config, init: State, s: State, a: Action)
    requires Inv(cfg, init, s) && Enabled(cfg, s, a) && !TouchesFiles(s, a)
    ensures var s' := Apply(cfg, s, a);
            && a.r in s'.runs && s'.runs == s.runs[a.r := s'.runs[a.r]] && RunOk(cfg, s', s'.runs[a.r])
            && s'.temps == s.temps && s'.used == s.used && s'.target == s.target
            && (HasTemp(s'.runs[a.r]) ==>
                  a.r in s.runs && HasTemp(s.runs[a.r]) && s'.runs[a.r].temp == s.runs[a.r].temp)
  {
    assert a.r in s.runs ==> RunOk(cfg, s, s.runs[a.r]);
  }

  lemma QuietStepKeeps(cfg: Config, init: State, s: State, a: Action)
    requires Inv(cfg, init, s) && Enabled(cfg, s, a) && !TouchesFiles(s, a)
    ensures Inv(cfg, init, Apply(cfg, s, a))
  {
    var s' := Apply(cfg, s, a);
    QuietStepKnows(cfg, init, s, a);
    StepKeeps(cfg, init, s, s', a.r, if a.r in s.runs && HasTemp(s.runs[a.r]) then s.runs[a.r].temp else "");
  }

  lemma NewFileKeeps(cfg: Config, init: State, s: State, a: Action)
    requires Inv(cfg, init, s) && Enabled(cfg, s, a) && a.MakeTemp?
    ensures Inv(cfg, init, Apply(cfg, s, a))
  {
    StepKeeps(cfg, init, s, Apply(cfg, s, a), a.r, a.name);
  }

  lemma WriteKeeps(cfg: Config, init: State, s: State, a: Action)
    requires Inv(cfg, init, s) && Enabled(cfg, s, a)
    requires a.OpenDest? || a.Chunk? || (a.Fail? && s.runs[a.r].Downloading?)
    ensures Inv(cfg, init, Apply(cfg, s, a))
  {
    assert RunOk(cfg, s, s.runs[a.r]);
    StepKeeps(cfg, init, s, Apply(cfg, s, a), a.r, s.runs[a.r].temp);
  }

  lemma ReplaceKeeps(cfg: Config, init: State, s: State, a: Action)
    requires Inv(cfg, init, s) && Enabled(cfg, s, a) && a.Replace?
    ensures Inv(cfg, init, Apply(cfg, s, a))
  {
    assert RunOk(cfg, s, s.runs[a.r]);
    StepKeeps(cfg, init, s, Apply(cfg, s, a), a.r, s.runs[a.r].temp);
  }

  lemma CleanUpKeeps(cfg: Config, init: State, s: State, a: Action)
    requires Inv(cfg, init, s) && Enabled(cfg, s, a) && a.CleanUp?
    ensures Inv(cfg, init, Apply(cfg, s, a))
  {
    StepKeeps(cfg, init, s, Apply(cfg, s, a), a.r, s.runs[a.r].temp);
  }

  lemma FileStepKeeps(cfg: Config, init: State, s: State, a: Action)
    requires Inv(cfg, init, s) && Enabled(cfg, s, a) && TouchesFiles(s, a)
    ensures Inv(cfg, init, Apply(cfg, s, a))
  {
    if a.MakeTemp? {
      NewFileKeeps(cfg, init, s, a);
    } else if a.Replace? {
      ReplaceKeeps(cfg, init, s, a);
    } else if a.CleanUp? {
      CleanUpKeeps(cfg, init, s, a);
    } else {
      WriteKeeps(cfg, init, s, a);
    }
  }

  lemma {:induction false} Reachable(cfg: Config, init: State, actions: seq<Action>)
    requires Initial(init) && Exec(cfg, init, actions).Some?
    ensures Inv(cfg, init, Exec(cfg, init, actions).value)
  {
    if actions != [] {
      var before, a := actions[..|actions| - 1], actions[|actions| - 1];
      Reachable(cfg, init, before);
      var s := Exec(cfg, init, before).value;
      if TouchesFiles(s, a) {
        FileStepKeeps(cfg, init, s, a);
      } else {
        QuietStepKeeps(cfg, init, s, a);
      }
    }
  }

  // ---- Main results --------------------------------------------------------

  ghost predicate Safe(cfg: Config, init: State, s: State) {
    && (s.target == init.target || Installed(cfg, s))
    && (forall r :: r in s.runs && s.runs[r].Returned? ==> Installed(cfg, s))
    && Capped(s)
    && (forall r :: r in s.runs && s.runs[r].Raised? && s.runs[r].cleaned ==> s.runs[r].temp !in s.temps)
    && (forall n :: n in init.temps ==> n in s.temps && s.temps[n] == init.temps[n])
  }

  lemma InvIsSafe(cfg: Config, init: State, s: State)
    requires Inv(cfg, init, s)
    ensures Safe(cfg, init, s)
  {
    forall r | r in s.runs && s.runs[r].Returned? ensures Installed(cfg, s) {
      assert RunOk(cfg, s, s.runs[r]);
    }
    forall r | r in s.runs && s.runs[r].Raised? && s.runs[r].cleaned ensures s.runs[r].temp !in s.temps {
      assert RunOk(cfg, s, s.runs[r]);
    }
  }

  /** In every reachable state, whatever has failed or been killed: the target
      holds its initial bytes or bytes with the expected digest, and the latter
      once any run has returned it; no temporary file exceeds the cap; a run that
      raised after creating one left it behind only if removing it failed; and
      files that were there before are as they were. */
  lemma InstallIsSafe(cfg: Config, init: State, actions: seq<Action>)
    requires Initial(init) && Exec(cfg, init, actions).Some?
    ensures Safe(cfg, init, Exec(cfg, init, actions).value)
  {
    Reachable(cfg, init, actions);
    InvIsSafe(cfg, init, Exec(cfg, init, actions).value);
  }

  /** Once good, the target stays good, through every further step of every run. */
  lemma {:induction false} GoodStaysGood(cfg: Config, init: State, actions: seq<Action>, n: nat)
    requires Initial(init) && Exec(cfg, init, actions).Some? && n <= |actions|
    requires Exec(cfg, init, actions[..n]).Some? && Installed(cfg, Exec(cfg, init, actions[..n]).value)
    ensures Installed(cfg, Exec(cfg, init, actions).value)
    decreases |actions|
  {
    assert actions[..|actions|] == actions;
    if n < |actions| {
      var before := actions[..|actions| - 1];
      assert before[..n] == actions[..n];
      GoodStaysGood(cfg, init, before, n);
      Reachable(cfg, init, before);
      var s, a := Exec(cfg, init, before).value, actions[|actions| - 1];
      if a.Replace? { assert RunOk(cfg, s, s.runs[a.r]); }
    }
  }

  /** A run that has not ended can be killed at every step, and can fail at every
      step outside its clean-up, which can fail too. */
  lemma AnyStepMayFail(cfg: Config, s: State, r: nat)
    requires r in s.runs && !Ended(s.runs[r])
    ensures Enabled(cfg, s, Kill(r)) && Apply(cfg, s, Kill(r)) == s.(runs := s.runs[r := Killed])
    ensures s.runs[r].CleaningUp? ==> Enabled(cfg, s, CleanUpFails(r))
    ensures !s.runs[r].CleaningUp? && !s.runs[r].Downloading? ==> Enabled(cfg, s, Fail(r, []))
    ensures forall part :: s.runs[r].Downloading? && s.runs[r].temp in s.temps && s.runs[r].written + |part| <= MAX_BINARY_BYTES ==>
      Enabled(cfg, s, Fail(r, part))
  {
  }

  /** A failure followed by the clean-up ends without the file, at every step at
      which the run has one. */
  lemma FailureIsCleanedUp(cfg: Config, s: State, r: nat, part: Bytes)
    requires Enabled(cfg, s, Fail(r, part)) && HasTemp(s.runs[r])
    ensures var failed := Apply(cfg, s, Fail(r, part));
            Enabled(cfg, failed, CleanUp(r)) &&
            var over := Apply(cfg, failed, CleanUp(r));
            over.runs[r] == Raised(s.runs[r].temp, true) && s.runs[r].temp !in over.temps && over.target == s.target
  {
    assert Apply(cfg, s, Fail(r, part)).runs[r] == CleaningUp(s.runs[r].temp);
  }

  // ---- Undisturbed, a run returns --------------------------------------------

  ghost predicate Leads(cfg: Config, s: State, actions: seq<Action>, next: State)
    decreases |actions|
  {
    if actions == [] then s == next
    else Enabled(cfg, s, actions[0]) && Leads(cfg, Apply(cfg, s, actions[0]), actions[1..], next)
  }

  ghost predicate Reaches(cfg: Config, s: State, next: State) {
    exists actions :: Leads(cfg, s, actions, next)
  }

  lemma {:induction false} LeadsOn(cfg: Config, s: State, actions: seq<Action>, now: State, a: Action)
    requires Leads(cfg, s, actions, now) && Enabled(cfg, now, a)
    ensures Leads(cfg, s, actions + [a], Apply(cfg, now, a))
    decreases |actions|
  {
    if actions == [] {
      assert [] + [a] == [a] && [a][1..] == [];
    } else {
      assert (actions + [a])[1..] == actions[1..] + [a];
      LeadsOn(cfg, Apply(cfg, s, actions[0]), actions[1..], now, a);
    }
  }

  lemma StartsThere(cfg: Config, s: State)
    ensures Reaches(cfg, s, s)
  {
    assert Leads(cfg, s, [], s);
  }

  lemma More(cfg: Config, s: State, now: State, a: Action, next: State)
    requires Reaches(cfg, s, now) && Enabled(cfg, now, a) && next == Apply(cfg, now, a)
    ensures Reaches(cfg, s, next)
  {
    var actions :| Leads(cfg, s, actions, now);
    LeadsOn(cfg, s, actions, now, a);
  }

  /** Run r is at `pc`, otherwise the state is `s`. */
  function Here(s: State, r: nat, pc: Pc): State {
    s.(runs := s.runs[r := pc])
  }

  /** And it has written `got` to its new file. */
  function Writing(s: State, r: nat, name: string, got: Bytes, pc: Pc): State {
    State(s.target, s.executable, s.temps[name := got], s.used + {name}, s.runs[r := pc])
  }

  lemma Overwrites<K, V>(m: map<K, V>, k: K, v: V, w: V)
    ensures m[k := v][k := w] == m[k := w]
  {
  }

  lemma Looks(cfg: Config, s: State, r: nat)
    requires r !in s.runs && cfg.expected != ""
    ensures Reaches(cfg, s, Here(s, r, if s.target.Some? && s.executable then Reading else NeedTemp))
  {
    StartsThere(cfg, s);
    More(cfg, s, s, Begin(r), Here(s, r, Start));
    var pc := if s.target.Some? && s.executable then Reading else NeedTemp;
    Overwrites(s.runs, r, Start, pc);
    More(cfg, s, Here(s, r, Start), Look(r), Here(s, r, pc));
  }

  lemma Compares(cfg: Config, s: State, r: nat)
    requires s.target.Some? && Reaches(cfg, s, Here(s, r, Reading))
    ensures Reaches(cfg, s, Here(s, r, if Good(cfg, s.target.value) then Returned else NeedTemp))
  {
    var comparing := Comparing(s.target.value);
    var pc := if Good(cfg, s.target.value) then Returned else NeedTemp;
    Overwrites(s.runs, r, Reading, comparing);
    More(cfg, s, Here(s, r, Reading), Open(r), Here(s, r, comparing));
    Overwrites(s.runs, r, comparing, pc);
    More(cfg, s, Here(s, r, comparing), Compare(r), Here(s, r, pc));
  }

  /** A run that finds a matching executable target returns it, and touches
      nothing. */
  lemma GoodTargetIsReturned(cfg: Config, s: State, r: nat)
    requires r !in s.runs && cfg.expected != "" && Installed(cfg, s) && s.executable
    ensures Reaches(cfg, s, s.(runs := s.runs[r := Returned]))
  {
    Looks(cfg, s, r);
    Compares(cfg, s, r);
  }

  lemma MakesFile(cfg: Config, s: State, r: nat, name: string)
    requires Reaches(cfg, s, Here(s, r, NeedTemp)) && name !in s.used && name !in s.temps
    ensures Reaches(cfg, s, Writing(s, r, name, [], Closing(name)))
  {
    Overwrites(s.runs, r, NeedTemp, Closing(name));
    More(cfg, s, Here(s, r, NeedTemp), MakeTemp(r, name), Writing(s, r, name, [], Closing(name)));
  }

  lemma OpensFile(cfg: Config, s: State, r: nat, name: string)
    requires Reaches(cfg, s, Writing(s, r, name, [], Closing(name)))
    ensures Reaches(cfg, s, Writing(s, r, name, [], Downloading(name, 0)))
  {
    Overwrites(s.runs, r, Closing(name), Opening(name));
    More(cfg, s, Writing(s, r, name, [], Closing(name)), CloseFd(r), Writing(s, r, name, [], Opening(name)));
    Overwrites(s.runs, r, Opening(name), Downloading(name, 0));
    Overwrites(s.temps, name, [], []);
    More(cfg, s, Writing(s, r, name, [], Opening(name)), OpenDest(r), Writing(s, r, name, [], Downloading(name, 0)));
  }

  lemma ChunkArrives(cfg: Config, s: State, r: nat, name: string, got: Bytes, chunk: Bytes)
    requires Reaches(cfg, s, Writing(s, r, name, got, Downloading(name, |got|)))
    requires |got + chunk| <= MAX_BINARY_BYTES && chunk != []
    ensures Reaches(cfg, s, Writing(s, r, name, got + chunk, Downloading(name, |got + chunk|)))
  {
    Overwrites(s.runs, r, Downloading(name, |got|), Downloading(name, |got + chunk|));
    Overwrites(s.temps, name, got, got + chunk);
    More(cfg, s, Writing(s, r, name, got, Downloading(name, |got|)), Chunk(r, chunk),
         Writing(s, r, name, got + chunk, Downloading(name, |got + chunk|)));
  }

  lemma {:induction false} ChunksArrive(cfg: Config, s: State, r: nat, name: string, chunks: seq<Bytes>, n: nat)
    requires Reaches(cfg, s, Writing(s, r, name, [], Downloading(name, 0))) && n <= |chunks|
    requires |Concat(chunks)| <= MAX_BINARY_BYTES && forall c :: c in chunks ==> c != []
    ensures var got := Concat(chunks[..n]); Reaches(cfg, s, Writing(s, r, name, got, Downloading(name, |got|)))
  {
    if n > 0 {
      ChunksArrive(cfg, s, r, name, chunks, n - 1);
      assert chunks[..n][..n - 1] == chunks[..n - 1];
      ConcatGrows(chunks, n);
      assert chunks[n - 1] in chunks;
      ChunkArrives(cfg, s, r, name, Concat(chunks[..n - 1]), chunks[n - 1]);
    }
  }

  lemma Verifies(cfg: Config, s: State, r: nat, name: string, got: Bytes)
    requires Reaches(cfg, s, Writing(s, r, name, got, Downloading(name, |got|))) && Good(cfg, got)
    ensures Reaches(cfg, s, Writing(s, r, name, got, Chmodding(name)))
  {
    Overwrites(s.runs, r, Downloading(name, |got|), Verifying(name));
    More(cfg, s, Writing(s, r, name, got, Downloading(name, |got|)), Eof(r), Writing(s, r, name, got, Verifying(name)));
    Overwrites(s.runs, r, Verifying(name), Chmodding(name));
    More(cfg, s, Writing(s, r, name, got, Verifying(name)), Verify(r), Writing(s, r, name, got, Chmodding(name)));
  }

  /** The file has been moved into place. */
  function Moved(s: State, r: nat, name: string, got: Bytes, pc: Pc): State {
    State(Some(got), true, s.temps, s.used + {name}, s.runs[r := pc])
  }

  lemma Installs(cfg: Config, s: State, r: nat, name: string, got: Bytes)
    requires Reaches(cfg, s, Writing(s, r, name, got, Chmodding(name))) && name !in s.temps
    ensures Reaches(cfg, s, Moved(s, r, name, got, Returned))
  {
    Overwrites(s.runs, r, Chmodding(name), Replacing(name));
    More(cfg, s, Writing(s, r, name, got, Chmodding(name)), Chmod(r), Writing(s, r, name, got, Replacing(name)));
    Overwrites(s.runs, r, Replacing(name), Announcing(name));
    assert s.temps[name := got] - {name} == s.temps;
    More(cfg, s, Writing(s, r, name, got, Replacing(name)), Replace(r), Moved(s, r, name, got, Announcing(name)));
    Overwrites(s.runs, r, Announcing(name), Returned);
    More(cfg, s, Moved(s, r, name, got, Announcing(name)), Announce(r), Moved(s, r, name, got, Returned));
  }

  /** One that finds no such target, and whose download fits and matches, installs
      it and returns. */
  lemma GoodDownloadIsReturned(cfg: Config, s: State, r: nat, name: string, chunks: seq<Bytes>)
    requires r !in s.runs && cfg.expected != "" && !(Installed(cfg, s) && s.executable)
    requires name !in s.used && name !in s.temps
    requires |Concat(chunks)| <= MAX_BINARY_BYTES && Good(cfg, Concat(chunks)) && forall c :: c in chunks ==> c != []
    ensures Reaches(cfg, s, State(Some(Concat(chunks)), true, s.temps, s.used + {name}, s.runs[r := Returned]))
  {
    Looks(cfg, s, r);
    if s.target.Some? && s.executable {
      Compares(cfg, s, r);
    }
    MakesFile(cfg, s, r, name);
    OpensFile(cfg, s, r, name);
    assert chunks[..|chunks|] == chunks;
    ChunksArrive(cfg, s, r, name, chunks, |chunks|);
    Verifies(cfg, s, r, name, Concat(chunks));
    Installs(cfg, s, r, name, Concat(chunks));
  }
}
