/** HelmClient.call_tool: bulkhead, reconnect loop, circuit breaker, tenacity
    retries and timeout around one MCP request; and the proxy's retry middleware.
    Whatever the network and the other coroutines on the same client do is left
    open (`*`); what the breaker answers in each round is given. */
module Dispatch {
  import opened Arithmetic
  import opened Options

  const READ_ONLY_TOOLS: set<string> := {
    "helm_dependency_list", "helm_env", "helm_get_all", "helm_get_hooks", "helm_get_manifest",
    "helm_get_metadata", "helm_get_notes", "helm_get_values", "helm_history", "helm_lint",
    "helm_list", "helm_plugin_list", "helm_plugin_verify", "helm_repo_list", "helm_search_hub",
    "helm_search_repo", "helm_show_all", "helm_show_chart", "helm_show_crds", "helm_show_readme",
    "helm_show_values", "helm_status", "helm_template", "helm_verify", "helm_version"
  }

  predicate IsRetrySafe(tool: string) {
    tool in READ_ONLY_TOOLS
  }

  /** How one request that was sent ends. TimedOut and Disconnected are the
      exceptions Python classes as OSError. */
  datatype Outcome = Answered | ToolError | TimedOut | Disconnected | OtherError

  predicate IsOsError(o: Outcome) {
    o == TimedOut || o == Disconnected
  }

  /** How a call ends for its caller. NotConnected is the HelmConnectionError of
      _raw_call, Lost the one for a state-changing tool, Exhausted the last one. */
  datatype Ending = Ended(o: Outcome) | NotConnected | Lost | CircuitOpen | Exhausted

  /** A round of the reconnect loop that leads to another. */
  datatype Round = ReconnectFailed | Dropped

  function Drops(rounds: seq<Round>): nat {
    if rounds == [] then 0 else Drops(rounds[..|rounds| - 1]) + (if rounds[|rounds| - 1] == Dropped then 1 else 0)
  }

  /** The loop gives up exactly when its rounds are used up, and then every round
      either failed to reconnect or sent its requests and lost the connection. */
  predicate RoundsAddUp(cfg: Config, tool: string, rounds: seq<Round>, sent: seq<Outcome>, r: Ending) {
    && (if r == Exhausted then |rounds| == Max(0, cfg.maxReconnects + 1) else |rounds| <= cfg.maxReconnects)
    && SendBudget(Drops(rounds), AttemptsPerCall(cfg, tool)) <= |sent|
    && (r == CircuitOpen ==> cfg.breaker)
  }

  /** What has happened before round `attempts`; `was` tells whether the client
      was connected at the start. */
  ghost predicate Progress(cfg: Config, tool: string, tripped: nat -> bool, was: bool, attempts: nat,
                           sent: seq<Outcome>, slept: int, rounds: seq<Round>) {
    && (tool !in READ_ONLY_TOOLS ==> sent == [])
    && |rounds| == attempts
    && SendBudget(Drops(rounds), AttemptsPerCall(cfg, tool)) <= |sent| <= SendBudget(attempts, AttemptsPerCall(cfg, tool))
    && AllOsErrors(sent) && LostLast(sent) && Drops(rounds) <= Disconnects(sent)
    && (forall i: nat :: i < |rounds| && rounds[i] == Dropped ==> !(cfg.breaker && tripped(i)))
    && slept == SleepBudget(attempts) - Spared(was, attempts)
  }

  /** A client that is connected at the start need not sleep before round 0. */
  function Spared(was: bool, begun: nat): int {
    if was && begun > 0 then 1 else 0
  }

  /** What one round may do, from a client that was connected or not. */
  ghost predicate RoundOk(cfg: Config, tool: string, attempt: nat, tripped: bool, was: bool,
                          r: Ending, more: seq<Outcome>, pause: int, next: Option<Round>) {
    && |more| <= AttemptsPerCall(cfg, tool)
    && pause == (if was then 0 else Min(Pow2(attempt), 30))
    && (cfg.breaker && tripped ==> more == [])
    && match next
       case Some(ReconnectFailed) => more == [] && !was
       case Some(Dropped) =>
         && more != [] && more[|more| - 1] == Disconnected && tool in READ_ONLY_TOOLS
         && |more| == AttemptsPerCall(cfg, tool) && AllOsErrors(more)
       case None =>
         && r != Exhausted && Tells(tool, more, r) && EndsAsLast(tool, more, r)
         && (r == CircuitOpen <==> cfg.breaker && tripped)
  }

  /** What a whole call may do. */
  ghost predicate CallOk(cfg: Config, tool: string, tripped: nat -> bool, was: bool,
                         r: Ending, sent: seq<Outcome>, slept: int, rounds: seq<Round>) {
    && (tool !in READ_ONLY_TOOLS ==> |sent| <= 1)
    && Tells(tool, sent, r) && RoundsAddUp(cfg, tool, rounds, sent, r)
    && EndsAsLast(tool, sent, r) && Drops(rounds) <= Disconnects(sent)
    && (r == Exhausted || r == CircuitOpen ==> LostLast(sent))
    && HeedsBreaker(cfg, tripped, rounds, r)
    && slept == SleepBudget(Begun(rounds, r)) - Spared(was, Begun(rounds, r))
  }

  datatype Config = Config(maxReconnects: int, tenacity: bool, maxAttempts: int, breaker: bool)

  /** stop_after_attempt(k) makes at least one attempt. */
  function AttemptsPerCall(cfg: Config, tool: string): int {
    if cfg.tenacity && IsRetrySafe(tool) then Max(1, cfg.maxAttempts) else 1
  }

  predicate AllOsErrors(sent: seq<Outcome>) {
    forall i :: 0 <= i < |sent| ==> IsOsError(sent[i])
  }

  /** Every request but the last ended in an OSError. */
  predicate RetriedOnly(sent: seq<Outcome>) {
    forall i :: 0 <= i < |sent| - 1 ==> IsOsError(sent[i])
  }

  /** What the reconnects of one call may sleep: attempt numbers 0 to n - 1. */
  function SleepBudget(n: int): int {
    if n <= 0 then 0 else SleepBudget(n - 1) + Min(Pow2(n - 1), 30)
  }

  /** What n rounds of the reconnect loop may send. */
  function SendBudget(n: int, perRound: int): int {
    if n <= 0 then 0 else SendBudget(n - 1, perRound) + perRound
  }

  function Disconnects(sent: seq<Outcome>): nat {
    if sent == [] then 0
    else Disconnects(sent[..|sent| - 1]) + (if sent[|sent| - 1] == Disconnected then 1 else 0)
  }

  /** Only losing the connection leads to another round. */
  predicate LostLast(sent: seq<Outcome>) {
    sent == [] || sent[|sent| - 1] == Disconnected
  }

  /** How the call ends, read off the last request alone. */
  predicate EndsAsLast(tool: string, sent: seq<Outcome>, r: Ending) {
    sent != [] ==>
      match sent[|sent| - 1]
      case Answered => r == Ended(Answered)
      case ToolError => r == Ended(ToolError)
      case OtherError => r == Ended(OtherError)
      case TimedOut => r == Ended(TimedOut) || r == NotConnected
      case Disconnected => if tool in READ_ONLY_TOOLS then r == Exhausted || r == CircuitOpen || r == NotConnected else r == Lost
  }

  /** An open breaker ends the call unsent, and nothing else does so. */
  ghost predicate HeedsBreaker(cfg: Config, tripped: nat -> bool, rounds: seq<Round>, r: Ending) {
    && (forall i: nat :: i < |rounds| && rounds[i] == Dropped ==> !(cfg.breaker && tripped(i)))
    && (r != Exhausted ==> (r == CircuitOpen <==> cfg.breaker && tripped(|rounds|)))
  }

  /** Rounds begun: every one before the end led to another. */
  function Begun(rounds: seq<Round>, r: Ending): nat {
    if r == Exhausted then |rounds| else |rounds| + 1
  }

  /** What the caller learns about the requests that were sent. */
  predicate Tells(tool: string, sent: seq<Outcome>, r: Ending) {
    match r
    case Ended(o) => sent != [] && o == sent[|sent| - 1] && o != Disconnected && RetriedOnly(sent)
    case Lost => !IsRetrySafe(tool) && sent == [Disconnected]
    case _ => (!IsRetrySafe(tool) ==> sent == []) && AllOsErrors(sent)
  }

  class HelmClient {
    var connected: bool
    var hasClient: bool
    const config: Config

    constructor (config: Config)
      ensures this.config == config && !connected && !hasClient
    {
      this.config := config;
      connected, hasClient := false, false;
    }

    /** Other coroutines run: they may reconnect, disconnect or close. */
    method Yield()
      modifies this
    {
      connected := *;
      hasClient := *;
    }

    method Close()
      modifies this
      ensures old(hasClient) ==> !connected && !hasClient
    {
      if hasClient {
        Yield();
        connected, hasClient := false, false;
      }
    }

    /** connect: create the client, enter it; on failure the client object stays
        in place, not connected. */
    method Connect() returns (ok: bool)
      modifies this
      ensures ok ==> connected
      ensures !ok ==> !connected
    {
      hasClient := *;
      Yield();
      ok := *;
      connected := ok;
    }

    method Reconnect(attempt: nat) returns (ok: bool, slept: int)
      modifies this
      ensures slept == Min(Pow2(attempt), 30)
      ensures ok <==> connected
    {
      slept := Min(Pow2(attempt), 30);
      Yield();
      Close();
      ok := Connect();
    }

    /** One request, at most; none when another coroutine has dropped the client. */
    method RawCall() returns (r: Ending, sent: seq<Outcome>)
      modifies this
      ensures if old(hasClient) then |sent| == 1 && r == Ended(sent[0]) else sent == [] && r == NotConnected
    {
      if !hasClient {
        return NotConnected, [];
      }
      var o: Outcome := *;
      Yield();
      return Ended(o), [o];
    }

    /** The tenacity loop; state-changing tools go around it. */
    method ExecuteToolCall(tool: string) returns (r: Ending, sent: seq<Outcome>)
      modifies this
      ensures forall i :: 0 <= i < |sent| - 1 ==> sent[i] == TimedOut || sent[i] == Disconnected
      ensures r == Ended(TimedOut) || r == Ended(Disconnected) ==>
        |sent| == if config.tenacity && tool in READ_ONLY_TOOLS then Max(1, config.maxAttempts) else 1
      ensures |sent| <= AttemptsPerCall(config, tool)
      ensures if r == NotConnected then AllOsErrors(sent)
              else sent != [] && r == Ended(sent[|sent| - 1]) && RetriedOnly(sent)
      ensures !IsRetrySafe(tool) && r == NotConnected ==> sent == []
      ensures r.Ended? && IsOsError(r.o) ==> |sent| == AttemptsPerCall(config, tool)
    {
      if config.tenacity && IsRetrySafe(tool) {
        sent := [];
        var attempt := 1;
        while true
          invariant 1 <= attempt <= Max(1, config.maxAttempts) && |sent| == attempt - 1
          invariant AllOsErrors(sent)
          decreases Max(1, config.maxAttempts) - attempt
        {
          var one;
          r, one := RawCall();
          sent := sent + one;
          if !(r.Ended? && IsOsError(r.o)) || attempt >= config.maxAttempts {
            return;
          }
          Yield();
          attempt := attempt + 1;
        }
      }
      r, sent := RawCall();
    }

    /** One round of the reconnect loop: reconnect if needed, ask the breaker,
        which answers `tripped`, and call. `next` tells that the loop goes on, and
        why. */
    method RunRound(tool: string, attempt: nat, tripped: bool) returns (r: Ending, more: seq<Outcome>, pause: int, next: Option<Round>)
      modifies this
      ensures RoundOk(config, tool, attempt, tripped, old(connected && hasClient), r, more, pause, next)
      ensures next.Some? ==> !connected
    {
      r, more, pause := Exhausted, [], 0;
      if !connected || !hasClient {
        var ok;
        ok, pause := Reconnect(attempt);
        if !ok {
          return r, more, pause, Some(ReconnectFailed);
        }
      }
      if config.breaker && tripped {
        return CircuitOpen, more, pause, None;
      }
      r, more := ExecuteToolCall(tool);
      if r != Ended(Disconnected) {
        return r, more, pause, None;
      }
      connected := false;
      if !IsRetrySafe(tool) {
        return Lost, more, pause, None;
      }
      return r, more, pause, Some(Dropped);
    }

    /** The reconnect loop; `tripped(i)` is what the breaker answers in round i. */
    method CallToolInner(tool: string, tripped: nat -> bool)
      returns (r: Ending, sent: seq<Outcome>, slept: int, rounds: seq<Round>)
      modifies this
      ensures |sent| <= SendBudget(config.maxReconnects + 1, AttemptsPerCall(config, tool))
      ensures CallOk(config, tool, tripped, old(connected && hasClient), r, sent, slept, rounds)
    {
      ghost var was := connected && hasClient;
      var attempts := 0;
      sent, slept, rounds := [], 0, [];
      NothingYet(config, tool, tripped, was);
      while attempts <= config.maxReconnects
        invariant 0 <= attempts <= Max(0, config.maxReconnects + 1)
        invariant Progress(config, tool, tripped, was, attempts, sent, slept, rounds)
        invariant if attempts == 0 then was == (connected && hasClient) else !connected
        decreases config.maxReconnects + 1 - attempts
      {
        var more, pause, next;
        ghost var now := connected && hasClient;
        r, more, pause, next := RunRound(tool, attempts, tripped(attempts));
        Account(config, tool, tripped, was, now, attempts, sent, slept, rounds, r, more, pause, next);
        sent, slept := sent + more, slept + pause;
        if next == None {
          return;
        }
        attempts, rounds := attempts + 1, rounds + [next.value];
      }
      r := Exhausted;
      GivesUp(config, tool, tripped, was, attempts, sent, slept, rounds);
    }

    /** call_tool: wait for a slot, then call. A state-changing tool is sent at
        most once, and its caller can tell whether it was: of the connection
        errors only Lost comes after a request. A read-only tool is sent at most
        (max_reconnects + 1) times the tenacity attempts. */
    method CallTool(tool: string, tripped: nat -> bool) returns (r: Ending, sent: seq<Outcome>, slept: int, rounds: seq<Round>)
      modifies this
      ensures tool !in READ_ONLY_TOOLS ==> |sent| <= 1
      ensures tool !in READ_ONLY_TOOLS ==>
        match r case Ended(o) => sent == [o] case Lost => sent == [Disconnected] case _ => sent == []
      ensures |sent| <= Max(0, config.maxReconnects + 1) * if config.tenacity then Max(1, config.maxAttempts) else 1
      ensures 0 <= slept <= SleepBudget(config.maxReconnects + 1)
      ensures Tells(tool, sent, r) && RoundsAddUp(config, tool, rounds, sent, r)
      ensures EndsAsLast(tool, sent, r) && Drops(rounds) <= Disconnects(sent)
      ensures r == Exhausted || r == CircuitOpen ==> LostLast(sent)
      ensures HeedsBreaker(config, tripped, rounds, r)
      ensures exists was :: slept == SleepBudget(Begun(rounds, r)) - Spared(was, Begun(rounds, r))
    {
      Yield();
      r, sent, slept, rounds := CallToolInner(tool, tripped);
      SleptFits(true, Begun(rounds, r), Max(0, config.maxReconnects + 1));
      SendBudgetIsProduct(Max(0, config.maxReconnects + 1), AttemptsPerCall(config, tool));
    }
  }

  // ---- Proxy ---------------------------------------------------------------

  /** ReadOnlyRetryMiddleware.on_request over the library's loop, which makes up
      to max_retries further attempts after an OSError: a call of a state-changing
      tool is forwarded exactly once, whatever happens to it. */
  method OnRequest(isToolCall: bool, name: string, maxRetries: nat) returns (r: Outcome, forwarded: seq<Outcome>)
    ensures isToolCall && name !in READ_ONLY_TOOLS ==> |forwarded| == 1
    ensures 1 <= |forwarded| <= maxRetries + 1 && r == forwarded[|forwarded| - 1]
    ensures forall i :: 0 <= i < |forwarded| - 1 ==> forwarded[i] == TimedOut || forwarded[i] == Disconnected
    ensures (r == TimedOut || r == Disconnected) && (!isToolCall || name in READ_ONLY_TOOLS) ==> |forwarded| == maxRetries + 1
  {
    r := *;
    forwarded := [r];
    if isToolCall && !IsRetrySafe(name) {
      return;
    }
    var attempt := 0;
    while IsOsError(r) && attempt < maxRetries
      invariant 0 <= attempt <= maxRetries && |forwarded| == attempt + 1
      invariant RetriedOnly(forwarded) && r == forwarded[attempt]
      decreases maxRetries - attempt
    {
      r := *;
      forwarded := forwarded + [r];
      attempt := attempt + 1;
    }
  }

  lemma NothingYet(cfg: Config, tool: string, tripped: nat -> bool, was: bool)
    ensures Progress(cfg, tool, tripped, was, 0, [], 0, [])
  {
  }

  /** The rounds are used up. */
  lemma GivesUp(cfg: Config, tool: string, tripped: nat -> bool, was: bool, attempts: nat, sent: seq<Outcome>, slept: int,
                rounds: seq<Round>)
    requires Progress(cfg, tool, tripped, was, attempts, sent, slept, rounds) && attempts == Max(0, cfg.maxReconnects + 1)
    ensures |sent| <= SendBudget(cfg.maxReconnects + 1, AttemptsPerCall(cfg, tool))
    ensures CallOk(cfg, tool, tripped, was, Exhausted, sent, slept, rounds)
  {
  }

  /** A round that leads to another keeps the account. */
  lemma ProgressGrows(cfg: Config, tool: string, tripped: nat -> bool, was: bool, now: bool, attempts: nat, sent: seq<Outcome>,
                      slept: int, rounds: seq<Round>, r: Ending, more: seq<Outcome>, pause: int, next: Option<Round>)
    requires Progress(cfg, tool, tripped, was, attempts, sent, slept, rounds) && next.Some?
    requires if attempts == 0 then now == was else !now
    requires RoundOk(cfg, tool, attempts, tripped(attempts), now, r, more, pause, next)
    ensures Progress(cfg, tool, tripped, was, attempts + 1, sent + more, slept + pause, rounds + [next.value])
  {
    DropsGrow(rounds);
    DisconnectsGrow(sent, more);
    var per := AttemptsPerCall(cfg, tool);
    assert SendBudget(Drops(rounds) + 1, per) == SendBudget(Drops(rounds), per) + per;
    match next
    case Some(ReconnectFailed) => assert sent + more == sent;
    case Some(Dropped) => assert AllOsErrors(sent + more);
  }

  /** A round that ends the call settles it. */
  lemma CallEnds(cfg: Config, tool: string, tripped: nat -> bool, was: bool, now: bool, attempts: nat, sent: seq<Outcome>,
                 slept: int, rounds: seq<Round>, r: Ending, more: seq<Outcome>, pause: int)
    requires Progress(cfg, tool, tripped, was, attempts, sent, slept, rounds) && attempts <= cfg.maxReconnects
    requires if attempts == 0 then now == was else !now
    requires RoundOk(cfg, tool, attempts, tripped(attempts), now, r, more, pause, None)
    ensures CallOk(cfg, tool, tripped, was, r, sent + more, slept + pause, rounds)
  {
    DisconnectsGrow(sent, more);
    EndTells(tool, sent, more, r);
    EndIsLast(tool, sent, more, r);
    EndSleeps(was, now, attempts, slept, pause);
    assert tool !in READ_ONLY_TOOLS ==> sent + more == more;
    assert RoundsAddUp(cfg, tool, rounds, sent + more, r);
    assert HeedsBreaker(cfg, tripped, rounds, r);
  }

  lemma EndSleeps(was: bool, now: bool, attempts: nat, slept: int, pause: int)
    requires if attempts == 0 then now == was else !now
    requires slept == SleepBudget(attempts) - Spared(was, attempts)
    requires pause == if now then 0 else Min(Pow2(attempts), 30)
    ensures slept + pause == SleepBudget(attempts + 1) - Spared(was, attempts + 1)
  {
    assert Pow2(0) == 1;
  }

  lemma EndTells(tool: string, sent: seq<Outcome>, more: seq<Outcome>, r: Ending)
    requires AllOsErrors(sent) && (tool !in READ_ONLY_TOOLS ==> sent == []) && Tells(tool, more, r)
    ensures Tells(tool, sent + more, r)
  {
    if r.Ended? {
      assert (sent + more)[|sent + more| - 1] == more[|more| - 1];
    } else if r == Lost {
      assert sent + more == more;
    }
  }

  lemma EndIsLast(tool: string, sent: seq<Outcome>, more: seq<Outcome>, r: Ending)
    requires LostLast(sent) && (tool !in READ_ONLY_TOOLS ==> sent == []) && Tells(tool, more, r) && EndsAsLast(tool, more, r)
    requires r != Exhausted && (r == CircuitOpen ==> more == [])
    ensures EndsAsLast(tool, sent + more, r) && (r == CircuitOpen ==> LostLast(sent + more))
  {
    if more == [] {
      assert sent + more == sent;
    } else {
      assert (sent + more)[|sent + more| - 1] == more[|more| - 1];
    }
  }

  /** The loop's account of one round; the budgets of all rounds cover it. */
  lemma Account(cfg: Config, tool: string, tripped: nat -> bool, was: bool, now: bool, attempts: nat, sent: seq<Outcome>,
                slept: int, rounds: seq<Round>, r: Ending, more: seq<Outcome>, pause: int, next: Option<Round>)
    requires Progress(cfg, tool, tripped, was, attempts, sent, slept, rounds) && attempts <= cfg.maxReconnects
    requires if attempts == 0 then now == was else !now
    requires RoundOk(cfg, tool, attempts, tripped(attempts), now, r, more, pause, next)
    ensures |sent + more| <= SendBudget(cfg.maxReconnects + 1, AttemptsPerCall(cfg, tool))
    ensures if next.Some?
            then Progress(cfg, tool, tripped, was, attempts + 1, sent + more, slept + pause, rounds + [next.value])
            else CallOk(cfg, tool, tripped, was, r, sent + more, slept + pause, rounds)
  {
    SendsGrow(attempts, cfg.maxReconnects + 1, AttemptsPerCall(cfg, tool));
    match next
    case Some(_) => ProgressGrows(cfg, tool, tripped, was, now, attempts, sent, slept, rounds, r, more, pause, next);
    case None => CallEnds(cfg, tool, tripped, was, now, attempts, sent, slept, rounds, r, more, pause);
  }

  // ---- Arithmetic ----------------------------------------------------------

  lemma DropsGrow(rounds: seq<Round>)
    ensures Drops(rounds + [Dropped]) == Drops(rounds) + 1 && Drops(rounds + [ReconnectFailed]) == Drops(rounds)
  {
    assert (rounds + [Dropped])[..|rounds|] == rounds && (rounds + [ReconnectFailed])[..|rounds|] == rounds;
  }

  lemma {:induction false} DisconnectsGrow(sent: seq<Outcome>, more: seq<Outcome>)
    ensures Disconnects(sent + more) >= Disconnects(sent)
    ensures more != [] && more[|more| - 1] == Disconnected ==> Disconnects(sent + more) > Disconnects(sent)
    decreases |more|
  {
    if more == [] {
      assert sent + more == sent;
    } else {
      DisconnectsGrow(sent, more[..|more| - 1]);
      assert (sent + more)[..|sent + more| - 1] == sent + more[..|more| - 1];
    }
  }

  lemma {:induction false} SleepGrows(a: nat, n: int)
    requires a <= n
    ensures 0 <= SleepBudget(a) <= SleepBudget(n)
    ensures a < n ==> SleepBudget(a + 1) == SleepBudget(a) + Min(Pow2(a), 30) <= SleepBudget(n)
    decreases n
  {
    if a < n {
      SleepGrows(a, n - 1);
    } else if a > 0 {
      SleepGrows(a - 1, n - 1);
    }
  }

  lemma SleptFits(was: bool, begun: nat, most: nat)
    requires begun <= most
    ensures Spared(was, begun) <= SleepBudget(begun) <= SleepBudget(most)
  {
    SleepGrows(begun, most);
    if begun > 0 { SleepGrows(1, begun); }
  }

  lemma {:induction false} SendsGrow(a: nat, n: int, per: nat)
    requires a <= n
    ensures SendBudget(a, per) <= SendBudget(n, per)
    ensures a < n ==> SendBudget(a + 1, per) == SendBudget(a, per) + per <= SendBudget(n, per)
    decreases n
  {
    if a < n {
      SendsGrow(a, n - 1, per);
    }
  }

  lemma {:induction false} SendBudgetIsProduct(n: nat, per: nat)
    ensures SendBudget(n, per) == n * per
  {
    if n > 0 {
      SendBudgetIsProduct(n - 1, per);
      assert n * per == (n - 1) * per + per;
    }
  }

  lemma {:induction false} PowerPastCap(a: nat)
    requires a >= 5
    ensures Pow2(a) >= 32
  {
    if a > 5 {
      PowerPastCap(a - 1);
    } else {
      assert Pow2(5) == 32;
    }
  }

  /** The reconnects of one call sleep at most 31 + 30 (n - 4) seconds in all,
      for n = max_reconnects of at least 4. */
  lemma {:induction false} SleepBudgetClosedForm(n: nat)
    requires n >= 4
    ensures SleepBudget(n + 1) == 31 + 30 * (n - 4)
  {
    if n == 4 {
      assert SleepBudget(5) == 31;
    } else {
      SleepBudgetClosedForm(n - 1);
      PowerPastCap(n);
    }
  }
}
