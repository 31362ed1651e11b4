/** Retry with exponential backoff: the delay arithmetic in 64-bit integers, and
    the attempt loop. */
module Retry {
  import opened Arithmetic
  import opened Options

  const TWO62: int := 0x4000_0000_0000_0000

  /** Two's-complement wrap-around of int64. */
  function Wrap(x: int): (r: int)
    ensures -2 * TWO62 <= r < 2 * TWO62
    ensures -2 * TWO62 <= x < 2 * TWO62 ==> r == x
  {
    (x + 2 * TWO62) % (4 * TWO62) - 2 * TWO62
  }

  predicate Int64(x: int) {
    -2 * TWO62 <= x < 2 * TWO62
  }

  /** Integer division by two as Go does it, towards zero. */
  function Half(x: int): int {
    if x < 0 then -(-x / 2) else x / 2
  }

  /** The part of `random` the generator hands out: at most half the delay. */
  function Jitter(delay: int, random: nat): (j: int)
    requires Half(delay) + 1 > 0
    ensures 0 <= j <= Half(delay) && (random <= Half(delay) ==> j == random)
  {
    random % (Half(delay) + 1)
  }

  /** The loop of backoffDelay: `left` more doublings, with early exit. */
  function Doublings(delay: int, max: int, left: nat): int
    decreases left
  {
    if left == 0 then delay
    else if Wrap(delay * 2) > max then max
    else Doublings(Wrap(delay * 2), max, left - 1)
  }

  /** Asking the random generator for an empty range panics. */
  datatype Panic = EmptyRange

  /** `random` is the generator's raw output, reduced to the range it is asked for. */
  function Backoff(base: int, max: int, attempt: nat, random: nat): Result<int, Panic> {
    var delay := Doublings(base, max, attempt);
    if Half(delay) + 1 <= 0 then Err(EmptyRange)
    else Ok(Min(Wrap(delay + Jitter(delay, random)), max))
  }

  /** backoffDelay, on all 64-bit delays. Where nothing overflows, the early
      exit loses nothing, and jitter adds at most half the delay below the cap. */
  method BackoffDelay(attempt: nat, baseDelay: int, maxDelay: int, random: nat) returns (r: Result<int, Panic>)
    requires Int64(baseDelay) && Int64(maxDelay)
    ensures r == Backoff(baseDelay, maxDelay, attempt, random)
    ensures Fits(baseDelay, maxDelay, attempt) ==> Promised(baseDelay, maxDelay, attempt, random, r)
  {
    var delay := baseDelay;
    var i := 0;
    while i < attempt
      invariant 0 <= i <= attempt && Doublings(delay, maxDelay, attempt - i) == Doublings(baseDelay, maxDelay, attempt)
    {
      delay := Wrap(delay * 2);
      i := i + 1;
      if delay > maxDelay {
        delay := maxDelay;
        break;
      }
    }
    assert delay == Doublings(baseDelay, maxDelay, attempt);
    if Fits(baseDelay, maxDelay, attempt) {
      FitsIsPromised(baseDelay, maxDelay, attempt, random);
    }
    var range := Half(delay) + 1;
    if range <= 0 {
      return Err(EmptyRange);
    }
    var jitter := random % range;
    delay := Wrap(delay + jitter);
    if delay > maxDelay {
      delay := maxDelay;
    }
    return Ok(delay);
  }

  // ---- Exactly when the arithmetic overflows -------------------------------

  /** The delay the documentation promises, before jitter. */
  function Ideal(base: int, max: int, attempt: nat): int {
    Min(base * Pow2(attempt), max)
  }

  /** What the documentation promises: min(max, base * 2^attempt + jitter). */
  predicate Promised(base: int, max: int, attempt: nat, random: nat, r: Result<int, Panic>) {
    var ideal := Ideal(base, max, attempt);
    && r.Ok? && 0 <= ideal <= r.value <= max
    && (base * Pow2(attempt) <= max ==> r.value == Min(ideal + Jitter(ideal, random), max))
  }

  /** Some doubling that the loop makes leaves the 64-bit range. */
  predicate Overflows(delay: int, max: int, left: nat)
    decreases left
  {
    left > 0 && (!Int64(delay * 2) || (delay * 2 <= max && Overflows(delay * 2, max, left - 1)))
  }

  /** Neither a doubling nor, whatever the draw, the addition of jitter overflows. */
  predicate Fits(base: int, max: int, attempt: nat) {
    && 0 <= base && 0 <= max && !Overflows(base, max, attempt)
    && Doublings(base, max, attempt) + Doublings(base, max, attempt) / 2 < 2 * TWO62
  }

  /** After i doublings the loop goes on, and the next one leaves the range. */
  predicate TooFarAt(base: int, max: int, i: nat) {
    && !(-TWO62 <= base * Pow2(i) < TWO62)
    && (i > 0 ==> base * 2 <= max && base * Pow2(i) <= max)
  }

  lemma Doubled(base: int, i: nat)
    ensures base * Pow2(i + 1) == (base * 2) * Pow2(i)
  {
  }

  /** Doubling moves away from zero. */
  lemma {:induction false} GrowsAway(base: int, i: nat)
    ensures if base >= 0 then base <= base * Pow2(i) else base * Pow2(i) <= base
  {
    if i == 0 {
      assert base * Pow2(0) == base;
    } else {
      GrowsAway(base, i - 1);
      Doubled(base, i - 1);
      DoubledOnTheLeft(base, i - 1);
    }
  }

  lemma DoubledOnTheLeft(base: int, i: nat)
    ensures (base * 2) * Pow2(i) == 2 * (base * Pow2(i))
  {
  }

  lemma TooFarLater(base: int, max: int, i: nat)
    requires Int64(base * 2) && base * 2 <= max
    ensures TooFarAt(base, max, i + 1) <==> TooFarAt(base * 2, max, i)
  {
    var p := base * Pow2(i + 1);
    Doubled(base, i);
    if i > 0 {
      Doubled(base * 2, i - 1);
      GrowsAway(base * 2 * 2, i - 1);
      LaterBound(base, max, p);
    }
  }

  lemma LaterBound(base: int, max: int, p: int)
    requires base * 2 <= max && if base >= 0 then base * 4 <= p else p <= base * 4
    ensures p <= max ==> base * 4 <= max
  {
  }

  /** On all 64-bit delays, some doubling overflows exactly when there is a
      number of doublings, fewer than `attempt`, that leads to it. */
  lemma {:induction false} OverflowsExactly(base: int, max: int, attempt: nat)
    requires Int64(base) && Int64(max)
    ensures Overflows(base, max, attempt) <==> exists i: nat :: i < attempt && TooFarAt(base, max, i)
    decreases attempt
  {
    if attempt > 0 {
      assert base * Pow2(0) == base;
      if !Int64(base * 2) {
        assert TooFarAt(base, max, 0);
      } else if base * 2 <= max {
        OverflowsExactly(base * 2, max, attempt - 1);
        if Overflows(base * 2, max, attempt - 1) {
          var i: nat :| i < attempt - 1 && TooFarAt(base * 2, max, i);
          TooFarLater(base, max, i);
          assert TooFarAt(base, max, i + 1);
        }
        forall i: nat | i < attempt && TooFarAt(base, max, i) ensures Overflows(base * 2, max, attempt - 1) {
          assert i > 0;
          TooFarLater(base, max, i - 1);
        }
      }
    }
  }

  /** Without an overflow the loop computes the capped power. */
  lemma {:induction false} LoopIsIdeal(base: int, max: int, attempt: nat)
    requires 0 <= base && 0 <= max && Int64(base) && Int64(max) && !Overflows(base, max, attempt)
    ensures Doublings(base, max, attempt) == if attempt == 0 then base else Ideal(base, max, attempt)
    decreases attempt
  {
    if attempt > 0 {
      Doubled(base, attempt - 1);
      if base * 2 <= max {
        LoopIsIdeal(base * 2, max, attempt - 1);
      } else {
        GrowsAway(base * 2, attempt - 1);
      }
    }
  }

  lemma FitsIsPromised(base: int, max: int, attempt: nat, random: nat)
    requires Int64(base) && Int64(max) && Fits(base, max, attempt)
    ensures Promised(base, max, attempt, random, Backoff(base, max, attempt, random))
  {
    LoopIsIdeal(base, max, attempt);
    assert base * Pow2(0) == base;
  }

  lemma TooFarFromZero(base: int, max: int, i: nat)
    requires 0 <= base
    ensures TooFarAt(base, max, i) <==> if i == 0 then TWO62 <= base else TWO62 <= base * Pow2(i) <= max
  {
    if i == 0 {
      assert base * Pow2(0) == base;
    } else {
      Doubled(base, i - 1);
      GrowsAway(base * 2, i - 1);
    }
  }

  /** The same for delays that are not negative, spelt out. */
  lemma FitsExactly(base: int, max: int, attempt: nat)
    requires 0 <= base && 0 <= max && Int64(base) && Int64(max)
    ensures var first := if attempt == 0 then base else Ideal(base, max, attempt);
            Fits(base, max, attempt) <==>
              && (attempt == 0 || (base < TWO62 && !exists i: nat :: 0 < i < attempt && TWO62 <= base * Pow2(i) <= max))
              && first + first / 2 < 2 * TWO62
  {
    OverflowsExactly(base, max, attempt);
    if attempt > 0 && TWO62 <= base {
      TooFarFromZero(base, max, 0);
    } else if i: nat :| 0 < i < attempt && TWO62 <= base * Pow2(i) <= max {
      TooFarFromZero(base, max, i);
    } else {
      forall i: nat | i < attempt ensures !TooFarAt(base, max, i) { TooFarFromZero(base, max, i); }
      LoopIsIdeal(base, max, attempt);
    }
  }

  /** Jitter can overflow exactly when one and a half times the delay does. */
  lemma JitterOverflowsExactly(delay: int)
    requires 0 <= delay && Int64(delay)
    ensures (exists random: nat :: !Int64(delay + Jitter(delay, random))) <==> delay + delay / 2 >= 2 * TWO62
  {
    if delay + delay / 2 >= 2 * TWO62 {
      var random: nat := delay / 2;
      assert !Int64(delay + Jitter(delay, random));
    }
  }

  lemma {:induction false} WrapsNegative(base: int, max: int, i: nat)
    requires 0 <= base && -1 <= max && Int64(base) && Int64(max) && TooFarAt(base, max, i)
    ensures Doublings(base, max, i + 1) <= -2
    decreases i
  {
    if i == 0 {
      assert base * Pow2(0) == base;
      assert Wrap(base * 2) == base * 2 - 4 * TWO62;
    } else {
      Doubled(base, i - 1);
      GrowsAway(base * 2, i - 1);
      TooFarLater(base, max, i - 1);
      WrapsNegative(base * 2, max, i - 1);
    }
  }

  /** With delays that are not negative a panic comes from an overflow. */
  lemma PanicMeansOverflow(base: int, max: int, attempt: nat, random: nat)
    requires 0 <= base && -1 <= max && Int64(base) && Int64(max) && Backoff(base, max, attempt, random).Err?
    ensures Overflows(base, max, attempt)
  {
    if !Overflows(base, max, attempt) && max >= 0 {
      LoopIsIdeal(base, max, attempt);
      GrowsAway(base, attempt);
    }
  }

  /** A delay that is too negative panics at once, or at the first doubling. */
  lemma NegativePanics(base: int, max: int, random: nat)
    requires Int64(base) && Int64(max) && (base < 0 || max <= -2)
    ensures Backoff(base, max, 0, random).Err? || Backoff(base, max, 1, random).Err?
  {
    assert Doublings(base, max, 0) == base;
    var doubled := Wrap(base * 2);
    assert Doublings(base, max, 1) == if doubled > max then max else doubled;
  }

  /** For all 64-bit delays: the delay of some attempt panics if and only if the
      base is negative, the maximum is below -1, or some doubling can overflow. */
  lemma SomeAttemptPanics(base: int, max: int, random: nat)
    requires Int64(base) && Int64(max)
    ensures (exists attempt: nat :: Backoff(base, max, attempt, random).Err?) <==>
            base < 0 || max < -1 || exists i: nat :: TooFarAt(base, max, i)
  {
    if base < 0 || max < -1 {
      NegativePanics(base, max, random);
    } else {
      if i: nat :| TooFarAt(base, max, i) {
        WrapsNegative(base, max, i);
        assert Backoff(base, max, i + 1, random).Err?;
      }
      if attempt: nat :| Backoff(base, max, attempt, random).Err? {
        PanicMeansOverflow(base, max, attempt, random);
        OverflowsExactly(base, max, attempt);
      }
    }
  }

  /** Every attempt gets what is promised, whatever the draw. */
  ghost predicate AlwaysPromised(base: int, max: int) {
    forall attempt: nat, random: nat :: Promised(base, max, attempt, random, Backoff(base, max, attempt, random))
  }

  lemma OverflowBreaksPromise(base: int, max: int, attempt: nat)
    requires 0 <= base && 0 <= max && Int64(base) && Int64(max) && Overflows(base, max, attempt)
    ensures !AlwaysPromised(base, max)
  {
    OverflowsExactly(base, max, attempt);
    var i: nat :| i < attempt && TooFarAt(base, max, i);
    WrapsNegative(base, max, i);
    assert !Promised(base, max, i + 1, 0, Backoff(base, max, i + 1, 0));
  }

  lemma WrappedJitter(delay: int, max: int) returns (draw: nat)
    requires 0 <= delay && Int64(delay) && delay + delay / 2 >= 2 * TWO62
    ensures Min(Wrap(delay + Jitter(delay, draw)), max) < 0
  {
    draw := delay / 2;
    assert Wrap(delay + draw) == delay + draw - 4 * TWO62;
  }

  lemma JitterBreaksPromise(base: int, max: int, attempt: nat)
    requires 0 <= base && 0 <= max && Int64(base) && Int64(max)
    requires !Overflows(base, max, attempt) && !Fits(base, max, attempt)
    ensures !AlwaysPromised(base, max)
  {
    LoopIsIdeal(base, max, attempt);
    GrowsAway(base, attempt);
    var draw := WrappedJitter(Doublings(base, max, attempt), max);
    assert !Promised(base, max, attempt, draw, Backoff(base, max, attempt, draw));
  }

  /** Over all attempts the promise is kept exactly when nothing overflows. */
  lemma PromisedExactly(base: int, max: int)
    requires 0 <= base && 0 <= max && Int64(base) && Int64(max)
    ensures AlwaysPromised(base, max) <==> forall attempt: nat :: Fits(base, max, attempt)
  {
    if attempt: nat :| !Fits(base, max, attempt) {
      if Overflows(base, max, attempt) {
        OverflowBreaksPromise(base, max, attempt);
      } else {
        JitterBreaksPromise(base, max, attempt);
      }
    } else {
      forall attempt: nat, random: nat
        ensures Promised(base, max, attempt, random, Backoff(base, max, attempt, random))
      {
        FitsIsPromised(base, max, attempt, random);
      }
    }
  }

  /** At a single attempt a delay that has wrapped may meet it by chance. */
  lemma PromisedByChance()
    ensures Overflows(TWO62, 0, 2) && Promised(TWO62, 0, 2, 0, Backoff(TWO62, 0, 2, 0))
  {
    assert Wrap(TWO62 * 2) == -2 * TWO62 && Wrap(-2 * TWO62 * 2) == 0;
    assert Doublings(0, 0, 0) == 0 && Doublings(-2 * TWO62, 0, 1) == 0 && Doublings(TWO62, 0, 2) == 0;
    assert Pow2(2) == 4 by { assert Pow2(1) == 2; }
  }

  /** Delays below 2^62 always fit. */
  lemma SmallDelaysFit(base: int, max: int, attempt: nat)
    requires 0 <= base < TWO62 && 0 <= max < TWO62
    ensures Fits(base, max, attempt)
  {
    FitsExactly(base, max, attempt);
  }

  /** A base that is too large, a maximum that is too large, and jitter that is. */
  lemma OverflowWitnesses(random: nat)
    ensures Backoff(TWO62, 0, 1, random) == Err(EmptyRange)
    ensures Backoff(TWO62 / 2, TWO62, 2, random) == Err(EmptyRange)
    ensures var d := TWO62 + TWO62 / 2; Backoff(d, d, 0, d / 2) == Ok(d + d / 2 - 4 * TWO62) && d + d / 2 < 4 * TWO62
  {
    assert Pow2(1) == 2 && TWO62 / 2 * 2 == TWO62;
    assert TooFarAt(TWO62, 0, 0) by { assert Pow2(0) == 1; }
    WrapsNegative(TWO62, 0, 0);
    WrapsNegative(TWO62 / 2, TWO62, 1);
    var d := TWO62 + TWO62 / 2;
    assert Jitter(d, d / 2) == d / 2 && Wrap(d + d / 2) == d + d / 2 - 4 * TWO62;
  }

  // ---- The attempt loop ----------------------------------------------------

  datatype Config<!E> = Config(maxAttempts: int, baseDelay: int, maxDelay: int, shouldRetry: Option<E -> bool>)

  /** What the world does: the outcome of each attempt, whether the context is
      found done after it, whether it is cancelled during the wait that follows,
      and the random draw for that wait. */
  datatype World<!T, !E> = World(outcome: nat -> Result<T, E>, done: nat -> bool, cancelled: nat -> bool, random: nat -> nat)

  function Attempts<E>(cfg: Config<E>): nat {
    if cfg.maxAttempts <= 0 then 1 else cfg.maxAttempts
  }

  /** Attempt i fails in a way that asks for a wait before another attempt. */
  predicate Waits<T, E>(cfg: Config<E>, w: World<T, E>, i: nat) {
    && w.outcome(i).Err? && !w.done(i)
    && (cfg.shouldRetry.Some? ==> cfg.shouldRetry.value(w.outcome(i).error))
    && i + 1 < Attempts(cfg)
  }

  function Delay<T, E>(cfg: Config<E>, w: World<T, E>, i: nat): Result<int, Panic> {
    Backoff(cfg.baseDelay, cfg.maxDelay, i, w.random(i))
  }

  /** Attempt i leads to another attempt. */
  predicate GoesOn<T, E>(cfg: Config<E>, w: World<T, E>, i: nat) {
    Waits(cfg, w, i) && Delay(cfg, w, i).Ok? && !w.cancelled(i)
  }

  function Sum(xs: seq<int>): int {
    if xs == [] then 0 else Sum(xs[..|xs| - 1]) + xs[|xs| - 1]
  }

  lemma {:induction false} SumIsAtMost(xs: seq<int>, max: int)
    requires forall i :: 0 <= i < |xs| ==> xs[i] <= max
    ensures Sum(xs) <= |xs| * max
  {
    if xs != [] {
      SumIsAtMost(xs[..|xs| - 1], max);
      assert |xs| * max == (|xs| - 1) * max + max;
    }
  }

  /** No delay that Do may ask for overflows. */
  ghost predicate NoneOverflows<E>(cfg: Config<E>) {
    forall i: nat :: i + 1 < Attempts(cfg) ==> Fits(cfg.baseDelay, cfg.maxDelay, i)
  }

  ghost predicate Bounded<E>(cfg: Config<E>, waits: seq<int>) {
    && (forall i: nat :: i < |waits| ==> Ideal(cfg.baseDelay, cfg.maxDelay, i) <= waits[i] <= cfg.maxDelay)
    && Sum(waits) <= |waits| * cfg.maxDelay
  }

  datatype Ending<T, E> = Returned(result: Result<T, E>) | Panicked(panic: Panic)

  /** Do: the calls made are exactly those up to the first that does not lead to
      another; its outcome, the first success or the last error, is the result,
      unless a backoff delay panics. `waits` are the completed waits. Where no
      delay overflows there is no panic and each wait is at most MaxDelay. */
  method Do<T, E>(cfg: Config<E>, w: World<T, E>) returns (r: Ending<T, E>, calls: nat, waits: seq<int>)
    requires Int64(cfg.baseDelay) && Int64(cfg.maxDelay)
    ensures 1 <= calls <= Attempts(cfg)
    ensures (forall i: nat :: i < calls - 1 ==> GoesOn(cfg, w, i)) && !GoesOn(cfg, w, calls - 1)
    ensures r == if Waits(cfg, w, calls - 1) && Delay(cfg, w, calls - 1).Err? then Panicked(EmptyRange)
                 else Returned(w.outcome(calls - 1))
    ensures |waits| == calls - 1
    ensures forall i: nat :: i < |waits| ==> Delay(cfg, w, i) == Ok(waits[i])
    ensures NoneOverflows(cfg) ==> r.Returned? && Bounded(cfg, waits)
  {
    var maxAttempts := if cfg.maxAttempts <= 0 then 1 else cfg.maxAttempts;
    waits := [];
    var attempt := 0;
    while true
      invariant 0 <= attempt < maxAttempts && |waits| == attempt
      invariant forall i: nat :: i < attempt ==> GoesOn(cfg, w, i)
      invariant forall i: nat :: i < attempt ==> Delay(cfg, w, i) == Ok(waits[i])
      decreases maxAttempts - attempt
    {
      var outcome := w.outcome(attempt);
      r, calls := Returned(outcome), attempt + 1;
      if outcome.Ok? || w.done(attempt) || (cfg.shouldRetry.Some? && !cfg.shouldRetry.value(outcome.error))
         || attempt == maxAttempts - 1 {
        break;
      }
      var delay := BackoffDelay(attempt, cfg.baseDelay, cfg.maxDelay, w.random(attempt));
      if delay.Err? {
        r := Panicked(delay.error);
        break;
      }
      if w.cancelled(attempt) {
        break;
      }
      waits := waits + [delay.value];
      attempt := attempt + 1;
    }
    if NoneOverflows(cfg) {
      WaitsAreBounded(cfg, w, calls, waits);
    }
  }

  lemma WaitsAreBounded<T, E>(cfg: Config<E>, w: World<T, E>, calls: nat, waits: seq<int>)
    requires Int64(cfg.baseDelay) && Int64(cfg.maxDelay) && 1 <= calls <= Attempts(cfg) && |waits| == calls - 1
    requires NoneOverflows(cfg)
    requires forall i: nat :: i < |waits| ==> Delay(cfg, w, i) == Ok(waits[i])
    ensures calls < Attempts(cfg) ==> Delay(cfg, w, calls - 1).Ok?
    ensures Bounded(cfg, waits)
  {
    forall i: nat | i + 1 < Attempts(cfg)
      ensures Promised(cfg.baseDelay, cfg.maxDelay, i, w.random(i), Delay(cfg, w, i))
    {
      FitsIsPromised(cfg.baseDelay, cfg.maxDelay, i, w.random(i));
    }
    forall i: nat | i < |waits|
      ensures Ideal(cfg.baseDelay, cfg.maxDelay, i) <= waits[i] <= cfg.maxDelay
    {
      assert Promised(cfg.baseDelay, cfg.maxDelay, i, w.random(i), Delay(cfg, w, i));
    }
    SumIsAtMost(waits, cfg.maxDelay);
  }
}
