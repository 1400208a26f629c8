/** Retrying an operation with exponential backoff and jitter. */
module Retry {
  import opened Prelude

  const LIMIT: int := 0x8000_0000_0000_0000   // durations are 64-bit, from -LIMIT to LIMIT - 1 nanoseconds

  datatype Config = Config(attempts: int, delay: int, maxDelay: int, backoffFactor: real, jitter: real, onError: bool)

  datatype Error =
    | Failed(last: string)
    | CancelledBeforeStart
    | CancelledAfter(attempts: nat, last: string)

  // ---- The wait before the next attempt ----

  function Pow(b: real, n: nat): real {
    if n == 0 then 1.0 else b * Pow(b, n - 1)
  }

  /** Rounds toward zero. */
  function Truncate(x: real): int {
    if x >= 0.0 then x.Floor else -(-x).Floor
  }

  /** The conversion of a float to a duration; out of range, the platform decides: overflow is its value. */
  function ToDuration(x: real, overflow: int): int {
    if -LIMIT <= Truncate(x) < LIMIT then Truncate(x) else overflow
  }

  function Wrap(i: int): int {
    (i + LIMIT) % (2 * LIMIT) - LIMIT
  }

  /** The configuration with its fields forced into their ranges. */
  function Clamped(cfg: Config): Config {
    Config(
      if cfg.attempts <= 0 then 1 else cfg.attempts,
      if cfg.delay < 0 then 0 else cfg.delay,
      if cfg.maxDelay < 0 then 0 else cfg.maxDelay,
      if cfg.backoffFactor < 1.0 then 1.0 else cfg.backoffFactor,
      if cfg.jitter < 0.0 then 0.0 else if cfg.jitter > 1.0 then 1.0 else cfg.jitter,
      cfg.onError)
  }

  predicate IsClamped(cfg: Config) {
    cfg.attempts >= 1 && 0 <= cfg.delay < LIMIT && 0 <= cfg.maxDelay < LIMIT && cfg.backoffFactor >= 1.0
      && 0.0 <= cfg.jitter <= 1.0
  }

  /** The delay grown by the backoff factor, before it is made a duration. */
  function Grown(cfg: Config, attempt: nat): real
    requires attempt >= 1
  {
    cfg.delay as real * Pow(cfg.backoffFactor, attempt - 1)
  }

  /** The growth has reached the end of the range of durations. */
  predicate Saturated(cfg: Config, attempt: nat)
    requires attempt >= 1
  {
    Grown(cfg, attempt) >= LIMIT as real
  }

  lemma Conversion(x: real, overflow: int)
    requires x >= 0.0
    ensures ToDuration(if x > LIMIT as real then LIMIT as real else x, overflow) ==
      if x >= LIMIT as real then overflow else Truncate(x)
  {
  }

  /** The delay grown by backoff, as a duration; overflow is what the platform makes of too large a float. */
  method BackoffDelay(cfg: Config, attempt: nat, overflow: int) returns (wait: int)
    requires IsClamped(cfg) && attempt >= 1
    ensures wait == BaseWait(cfg, attempt, overflow)
  {
    var currentBaseDelay := cfg.delay as real;
    if cfg.backoffFactor > 1.0 {
      currentBaseDelay := currentBaseDelay * Pow(cfg.backoffFactor, attempt - 1);
    } else {
      PowOne(attempt - 1);
    }
    GrownGrows(cfg, attempt, attempt);
    assert currentBaseDelay == Grown(cfg, attempt);
    Conversion(currentBaseDelay, overflow);
    if currentBaseDelay > LIMIT as real {
      currentBaseDelay := LIMIT as real;
    }
    wait := ToDuration(currentBaseDelay, overflow);
  }

  /** random is the generator's value in [0, 1). */
  method NextWait(cfg: Config, attempt: nat, random: real, overflow: int) returns (wait: int)
    requires IsClamped(cfg) && attempt >= 1
    ensures wait == Wait(cfg, attempt, random, overflow)
  {
    wait := BackoffDelay(cfg, attempt, overflow);
    if cfg.jitter > 0.0 {
      wait := Wrap(wait + JitterAmount(cfg, wait, random, overflow));
      if wait < 0 { wait := 0; }
    }
    if cfg.maxDelay > 0 && wait > cfg.maxDelay {
      wait := cfg.maxDelay;
    }
  }

  function BaseWait(cfg: Config, attempt: nat, overflow: int): int
    requires attempt >= 1
  {
    if Saturated(cfg, attempt) then overflow else Truncate(Grown(cfg, attempt))
  }

  /** A random part of the wait, at most the jitter fraction of it up or down. */
  function JitterAmount(cfg: Config, wait: int, random: real, overflow: int): int {
    ToDuration(JitterPart(cfg, wait, random), overflow)
  }

  function JitterPart(cfg: Config, wait: int, random: real): real {
    wait as real * (cfg.jitter * (random * 2.0 - 1.0))
  }

  function Capped(cfg: Config, wait: int): int {
    if cfg.maxDelay > 0 && wait > cfg.maxDelay then cfg.maxDelay else wait
  }

  function Wait(cfg: Config, attempt: nat, random: real, overflow: int): int
    requires attempt >= 1
  {
    var w := BaseWait(cfg, attempt, overflow);
    if cfg.jitter > 0.0 then
      var j := Wrap(w + JitterAmount(cfg, w, random, overflow));
      Capped(cfg, if j < 0 then 0 else j)
    else Capped(cfg, w)
  }

  lemma {:induction false} PowOne(n: nat)
    ensures Pow(1.0, n) == 1.0
  {
    if n > 0 { PowOne(n - 1); }
  }

  lemma {:induction false} PowGrows(b: real, n: nat, m: nat)
    requires b >= 1.0 && n <= m
    ensures 1.0 <= Pow(b, n) <= Pow(b, m)
    decreases m
  {
    if m > 0 {
      if n < m {
        PowGrows(b, n, m - 1);
        Scale(b, Pow(b, m - 1));
      } else {
        PowGrows(b, n - 1, m - 1);
        Scale(b, Pow(b, m - 1));
      }
    }
  }

  lemma Scale(b: real, x: real)
    requires b >= 1.0 && x >= 1.0
    ensures b * x >= x
  {
  }

  lemma TruncateMonotone(x: real, y: real)
    requires 0.0 <= x <= y
    ensures 0 <= Truncate(x) <= Truncate(y)
  {
  }

  lemma GrownGrows(cfg: Config, a: nat, b: nat)
    requires IsClamped(cfg) && 1 <= a <= b
    ensures 0.0 <= Grown(cfg, a) <= Grown(cfg, b)
  {
    PowGrows(cfg.backoffFactor, a - 1, b - 1);
    var d, x, y := cfg.delay as real, Pow(cfg.backoffFactor, a - 1), Pow(cfg.backoffFactor, b - 1);
    assert d * y - d * x == d * (y - x);
  }

  /**
   Without jitter a wait lies between zero and the maximum delay (if one is set) exactly if the growth
   is not saturated or the platform's overflow value is not negative; with jitter it always does.
   */
  lemma WaitInRange(cfg: Config, attempt: nat, random: real, overflow: int)
    requires IsClamped(cfg) && attempt >= 1
    ensures 0 <= Wait(cfg, attempt, random, overflow) <==> cfg.jitter > 0.0 || !Saturated(cfg, attempt) || overflow >= 0
    ensures cfg.maxDelay > 0 ==> Wait(cfg, attempt, random, overflow) <= cfg.maxDelay
  {
    GrownGrows(cfg, attempt, attempt);
    TruncateMonotone(Grown(cfg, attempt), Grown(cfg, attempt));
  }

  /** Without jitter waits never get shorter, as long as the growth is not saturated. */
  lemma WaitsGrow(cfg: Config, a: nat, b: nat, random: real, random': real, overflow: int)
    requires IsClamped(cfg) && cfg.jitter == 0.0 && 1 <= a <= b && !Saturated(cfg, b)
    ensures Wait(cfg, a, random, overflow) <= Wait(cfg, b, random', overflow)
  {
    GrownGrows(cfg, a, b);
    TruncateMonotone(Grown(cfg, a), Grown(cfg, b));
  }

  /**
   Once saturated, where overflow turns negative, every later attempt follows at once in spite of the
   maximum delay.
   */
  lemma SaturationDefeatsMaxDelay(cfg: Config, a: nat, b: nat, random: real)
    requires IsClamped(cfg) && cfg.jitter == 0.0 && 1 <= a <= b && Saturated(cfg, a)
    ensures Wait(cfg, b, random, -LIMIT) == -LIMIT < 0
  {
    GrownGrows(cfg, a, b);
  }

  /** Such configurations exist: one second, doubled, saturates at the 35th attempt whatever the maximum delay. */
  lemma SaturationHappens(maxDelay: int, random: real)
    requires 0 <= maxDelay < LIMIT
    ensures Wait(Config(40, 1_000_000_000, maxDelay, 2.0, 0.0, true), 35, random, -LIMIT) < 0
  {
    var cfg := Config(40, 1_000_000_000, maxDelay, 2.0, 0.0, true);
    PowerOfTwo(34);
    TwoToThe34();
    assert Grown(cfg, 35) == 1_000_000_000.0 * Pow(2.0, 34);
    assert Saturated(cfg, 35);
  }

  function TwoTo(n: nat): int {
    if n == 0 then 1 else 2 * TwoTo(n - 1)
  }

  lemma TwoToThe34()
    ensures TwoTo(34) == 0x4_0000_0000
  {
    assert TwoTo(2) == 4;
    TwoToAdd(2, 2);
    TwoToAdd(4, 4);
    TwoToAdd(8, 8);
    TwoToAdd(16, 16);
    TwoToAdd(32, 2);
  }

  lemma {:induction false} TwoToAdd(n: nat, m: nat)
    ensures TwoTo(n + m) == TwoTo(n) * TwoTo(m)
  {
    if n > 0 {
      TwoToAdd(n - 1, m);
      assert TwoTo(n) * TwoTo(m) == 2 * (TwoTo(n - 1) * TwoTo(m));
    }
  }

  lemma {:induction false} PowerOfTwo(n: nat)
    ensures Pow(2.0, n) == TwoTo(n) as real
  {
    if n > 0 { PowerOfTwo(n - 1); }
  }

  // ---- What a wait is, step by step ----

  /** The delays before rounding: the configured one, and each time as many times more as the factor says. */
  ghost predicate AreDelays(cfg: Config, g: seq<real>) {
    && g != [] && g[0] == cfg.delay as real
    && forall k :: 0 < k < |g| ==> g[k] == g[k - 1] * cfg.backoffFactor
  }

  lemma {:induction false} DelaysGrow(cfg: Config, g: seq<real>, n: nat)
    requires AreDelays(cfg, g) && n < |g|
    ensures g[n] == Grown(cfg, n + 1)
  {
    if n > 0 {
      DelaysGrow(cfg, g, n - 1);
      var d, b, x := cfg.delay as real, cfg.backoffFactor, Pow(cfg.backoffFactor, n - 1);
      assert d * (b * x) == (d * x) * b;
    }
  }

  /** base is the whole number of nanoseconds in x. */
  predicate IsWhole(base: int, x: real) {
    base as real <= x < base as real + 1.0
  }

  /** Without jitter the wait after the n-th attempt is the n-th delay, in whole nanoseconds, up to the maximum. */
  lemma WaitIsDelay(cfg: Config, g: seq<real>, n: nat, base: int, random: real, overflow: int)
    requires IsClamped(cfg) && cfg.jitter == 0.0 && AreDelays(cfg, g) && 1 <= n <= |g|
    requires g[n - 1] < LIMIT as real && IsWhole(base, g[n - 1])
    ensures cfg.maxDelay == 0 || base <= cfg.maxDelay ==> Wait(cfg, n, random, overflow) == base
    ensures cfg.maxDelay > 0 && base > cfg.maxDelay ==> Wait(cfg, n, random, overflow) == cfg.maxDelay
  {
    DelaysGrow(cfg, g, n - 1);
    GrownGrows(cfg, n, n);
  }

  lemma TruncateTowardsZero(x: real)
    ensures x >= 0.0 ==> 0.0 <= Truncate(x) as real <= x < Truncate(x) as real + 1.0
    ensures x <= 0.0 ==> Truncate(x) as real - 1.0 < x <= Truncate(x) as real <= 0.0
  {
  }

  /**
   With jitter it is that delay plus a part of it, in whole nanoseconds towards the delay, and again at most
   the maximum. The part is at most the jitter fraction up or down, as the generator chooses.
   */
  lemma WaitIsJittered(cfg: Config, g: seq<real>, n: nat, base: int, random: real, overflow: int, most: real,
                       part: real)
    returns (j: int)
    requires IsClamped(cfg) && cfg.jitter > 0.0 && AreDelays(cfg, g) && 1 <= n <= |g| && 0.0 <= random < 1.0
    requires g[n - 1] < LIMIT as real && IsWhole(base, g[n - 1])
    requires most == base as real * cfg.jitter && part == most * (2.0 * random - 1.0)
    requires base as real + most < LIMIT as real
    ensures -most <= part <= most && base as real - most <= j as real <= base as real + most
    ensures if part >= 0.0 then IsWhole(j - base, part) else IsWhole(base - j, -part)
    ensures Wait(cfg, n, random, overflow) == if cfg.maxDelay > 0 && j > cfg.maxDelay then cfg.maxDelay else j
  {
    DelayIsBase(cfg, g, n, base, overflow);
    AmountIsPart(cfg, base, random, overflow, most, part);
    j := JitteredWait(cfg, n, base, random, overflow, most, part);
  }

  lemma JitteredWait(cfg: Config, n: nat, base: int, random: real, overflow: int, most: real, part: real)
    returns (j: int)
    requires n >= 1 && cfg.jitter > 0.0 && 0 <= base < LIMIT && BaseWait(cfg, n, overflow) == base
    requires 0.0 <= most <= base as real && -most <= part <= most && base as real + most < LIMIT as real
    requires JitterAmount(cfg, base, random, overflow) == ToDuration(part, overflow)
    ensures base as real - most <= j as real <= base as real + most
    ensures if part >= 0.0 then IsWhole(j - base, part) else IsWhole(base - j, -part)
    ensures Wait(cfg, n, random, overflow) == if cfg.maxDelay > 0 && j > cfg.maxDelay then cfg.maxDelay else j
  {
    RoundedPart(base, most, part, overflow);
    j := base + ToDuration(part, overflow);
    WithAmount(cfg, n, random, overflow, base, ToDuration(part, overflow));
  }

  lemma DelayIsBase(cfg: Config, g: seq<real>, n: nat, base: int, overflow: int)
    requires IsClamped(cfg) && AreDelays(cfg, g) && 1 <= n <= |g| && g[n - 1] < LIMIT as real && IsWhole(base, g[n - 1])
    ensures BaseWait(cfg, n, overflow) == base && 0 <= base < LIMIT
  {
    DelaysGrow(cfg, g, n - 1);
    GrownGrows(cfg, n, n);
  }

  lemma AmountIsPart(cfg: Config, base: int, random: real, overflow: int, most: real, part: real)
    requires 0 <= base && 0.0 < cfg.jitter <= 1.0 && 0.0 <= random < 1.0
    requires most == base as real * cfg.jitter && part == most * (2.0 * random - 1.0)
    ensures JitterAmount(cfg, base, random, overflow) == ToDuration(part, overflow)
    ensures 0.0 <= most <= base as real && -most <= part <= most
  {
    assert JitterPart(cfg, base, random) == part by { SamePart(base as real, cfg.jitter, random); }
    Between(base as real, cfg.jitter, most);
    Within(most, 2.0 * random - 1.0, part);
  }

  lemma WithAmount(cfg: Config, n: nat, random: real, overflow: int, base: int, amount: int)
    requires n >= 1 && cfg.jitter > 0.0 && BaseWait(cfg, n, overflow) == base
    requires JitterAmount(cfg, base, random, overflow) == amount && 0 <= base + amount < LIMIT
    ensures var j := base + amount;
      Wait(cfg, n, random, overflow) == if cfg.maxDelay > 0 && j > cfg.maxDelay then cfg.maxDelay else j
  {
    assert Wrap(base + amount) == base + amount;
  }

  lemma SamePart(b: real, jitter: real, random: real)
    ensures b * (jitter * (random * 2.0 - 1.0)) == b * jitter * (2.0 * random - 1.0)
  {
  }

  lemma RoundedPart(base: int, most: real, part: real, overflow: int)
    requires 0 <= base < LIMIT && 0.0 <= most <= base as real && -most <= part <= most
    requires base as real + most < LIMIT as real
    ensures var amount := ToDuration(part, overflow);
      && (if part >= 0.0 then IsWhole(amount, part) else IsWhole(-amount, -part))
      && base as real - most <= (base + amount) as real <= base as real + most
      && 0 <= base + amount < LIMIT
  {
    TruncateTowardsZero(part);
  }

  lemma Between(b: real, jitter: real, most: real)
    requires b >= 0.0 && 0.0 <= jitter <= 1.0 && most == b * jitter
    ensures 0.0 <= most <= b
  {
    assert b - most == b * (1.0 - jitter);
  }

  lemma Within(most: real, swing: real, part: real)
    requires most >= 0.0 && -1.0 <= swing <= 1.0 && part == most * swing
    ensures -most <= part <= most
  {
    assert most - part == most * (1.0 - swing);
    assert most + part == most * (1.0 + swing);
  }

  /** Settings out of their ranges are taken to the nearest end; others are kept. */
  lemma SettingsMean(cfg: Config)
    ensures var c := Clamped(cfg);
      && c.attempts >= 1 && (cfg.attempts >= 1 ==> c.attempts == cfg.attempts) && (cfg.attempts < 1 ==> c.attempts == 1)
      && c.delay >= 0 && (cfg.delay >= 0 ==> c.delay == cfg.delay) && (cfg.delay < 0 ==> c.delay == 0)
      && c.maxDelay >= 0 && (cfg.maxDelay >= 0 ==> c.maxDelay == cfg.maxDelay) && (cfg.maxDelay < 0 ==> c.maxDelay == 0)
      && (cfg.backoffFactor >= 1.0 ==> c.backoffFactor == cfg.backoffFactor)
      && (cfg.backoffFactor < 1.0 ==> c.backoffFactor == 1.0)
      && (0.0 <= cfg.jitter <= 1.0 ==> c.jitter == cfg.jitter)
      && (cfg.jitter < 0.0 ==> c.jitter == 0.0) && (cfg.jitter > 1.0 ==> c.jitter == 1.0) && c.onError == cfg.onError
  {
  }

  // ---- The attempts ----

  /** The number of attempts allowed. */
  function MaxAttempts(cfg: Config): nat {
    if !cfg.onError || cfg.attempts <= 1 then 1 else cfg.attempts
  }

  /**
   Calls the operation until it succeeds or the attempts are used up. The k-th call has the outcome
   outcome(k), None being success; before and during tell whether the context has ended before the
   k-th attempt and during the wait after it. Without cancellation the operation is called exactly up
   to the first success or the limit, and success is reported exactly if there is one.
   */
  method Do(cfg0: Config, outcome: nat -> Option<string>, before: nat -> bool, during: nat -> bool,
            random: nat -> real, overflow: int)
    returns (err: Option<Error>, calls: nat, waits: seq<int>)
    requires -LIMIT <= cfg0.delay < LIMIT && -LIMIT <= cfg0.maxDelay < LIMIT
    ensures calls <= MaxAttempts(cfg0)
    ensures forall k: nat :: 1 <= k < calls ==> outcome(k).Some? && !during(k) && !before(k)
    ensures calls >= 1 ==> !before(calls)
    ensures match err
      case None => calls >= 1 && outcome(calls) == None
      case Some(Failed(e)) => calls == MaxAttempts(cfg0) && outcome(calls) == Some(e)
      case Some(CancelledBeforeStart) => calls == 0 && before(1)
      case Some(CancelledAfter(n, e)) =>
        n == calls >= 1 && outcome(calls) == Some(e) && (during(calls) || before(calls + 1))
    ensures (forall k :: !before(k) && !during(k)) ==>
      && (err == None <==> exists k: nat :: 1 <= k <= MaxAttempts(cfg0) && outcome(k) == None)
      && (err != None ==>
           calls == MaxAttempts(cfg0) && outcome(calls).Some? && err == Some(Failed(outcome(calls).value)))
    ensures !cfg0.onError || cfg0.attempts <= 1 ==> calls <= 1
    ensures cfg0.onError && cfg0.attempts >= 1 && (forall k :: !before(k) && !during(k) && outcome(k).Some?) ==>
      calls == cfg0.attempts
    ensures |waits| == if calls == 0 || (err.Some? && err.value.CancelledAfter?) then calls else calls - 1
    ensures forall i: nat :: i < |waits| ==> waits[i] == Wait(Clamped(cfg0), i + 1, random(i + 1), overflow)
  {
    var cfg := Clamped(cfg0);
    calls, waits := 0, [];
    var lastErr := "";
    var attempt: nat := 1;
    while attempt <= cfg.attempts
      invariant 1 <= attempt <= cfg.attempts + 1 && calls == attempt - 1 == |waits|
      invariant calls >= 1 ==> cfg.onError && calls < cfg.attempts
      invariant forall k: nat :: 1 <= k <= calls ==> outcome(k).Some? && !during(k) && !before(k)
      invariant calls >= 1 ==> outcome(calls) == Some(lastErr)
      invariant forall i: nat :: i < |waits| ==> waits[i] == Wait(cfg, i + 1, random(i + 1), overflow)
    {
      if before(attempt) {
        err := if calls == 0 then Some(CancelledBeforeStart) else Some(CancelledAfter(calls, lastErr));
        return;
      }
      var result := outcome(attempt);
      calls := attempt;
      if result.None? {
        return None, calls, waits;
      }
      lastErr := result.value;
      if attempt == cfg.attempts || !cfg.onError {
        break;
      }
      var wait := NextWait(cfg, attempt, random(attempt), overflow);
      waits := waits + [wait];
      if during(attempt) {
        return Some(CancelledAfter(attempt, lastErr)), calls, waits;
      }
      attempt := attempt + 1;
    }
    err := Some(Failed(lastErr));
  }
}
