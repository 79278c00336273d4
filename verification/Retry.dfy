/** Retrying on overload: how often, and how long the waits in between are. */
module Retries {
  import opened Wrappers

  const TWO62: int := 0x4000_0000_0000_0000
  const TWO63: int := 0x8000_0000_0000_0000
  const TWO64: int := 0x1_0000_0000_0000_0000

  /** Durations are 64-bit nanosecond counts. */
  type Duration = d: int | -TWO63 <= d < TWO63

  datatype Options = Options(maxAttempts: int, initialDelay: Duration, maxDelay: Duration, jitterRatio: real)

  /** What one call of the operation returns. */
  datatype Outcome = Success(value: string) | Failure(error: string, retryable: bool)

  /**
    What happens to one call: the context's error before each attempt, the operation's outcomes, the error of
    each wait, and the random numbers. All count from one.
   */
  datatype Course = Course(
    canceled: nat -> Option<string>, op: nat -> Outcome, interrupted: nat -> Option<string>, random: nat -> real)

  const TOO_FEW := "codex: max attempts must be at least one"
  const NEGATIVE_DELAY := "codex: retry delays must not be negative"
  const NEGATIVE_RATIO := "codex: jitter ratio must not be negative"
  const EXHAUSTED := "codex: retry loop exhausted"

  function Invalid(o: Options): Option<string> {
    if o.maxAttempts < 1 then Some(TOO_FEW)
    else if o.initialDelay < 0 || o.maxDelay < 0 then Some(NEGATIVE_DELAY)
    else if o.jitterRatio < 0.0 then Some(NEGATIVE_RATIO)
    else None
  }

  function Min(a: int, b: int): (m: int)
    ensures m == a || m == b
  {
    if a <= b then a else b
  }

  /** Doubling as the machine does it: the result wraps around. */
  function Twice(d: Duration): (r: Duration)
    ensures -TWO62 <= d < TWO62 ==> r == 2 * d
    ensures TWO62 <= d ==> r < 0
  {
    var x := 2 * d;
    if x >= TWO63 then x - TWO64 else if x < -TWO63 then x + TWO64 else x
  }

  /** The variable `delay` at the k-th attempt. */
  function Delay(o: Options, k: nat): Duration
    requires k >= 1
  {
    if k == 1 then o.initialDelay else Min(o.maxDelay, Twice(Delay(o, k - 1)))
  }

  /** The k-th wait before jitter. */
  function Capped(o: Options, k: nat): Duration
    requires k >= 1
  {
    Min(Delay(o, k), o.maxDelay)
  }

  /** Conversion of a real to a whole number drops the fraction. */
  function Truncate(x: real): int {
    if x >= 0.0 then x.Floor else -((-x).Floor)
  }

  /** The most a wait is moved: the delay, before it is capped, times the ratio. */
  function Jitter(delay: Duration, ratio: real): real {
    delay as real * ratio
  }

  /** Between minus and plus the jitter. */
  function Swing(random: real, jitter: real): real {
    (random * 2.0 - 1.0) * jitter
  }

  function Jittered(capped: Duration, delay: Duration, ratio: real, random: real): int {
    Truncate(capped as real + Swing(random, Jitter(delay, ratio)))
  }

  /** The k-th wait, for a random number between 0 and 1. */
  function WaitFor(o: Options, k: nat, random: real): int
    requires k >= 1
  {
    Jittered(Capped(o, k), Delay(o, k), o.jitterRatio, random)
  }

  /** The waits after the first `n` attempts; one that is not positive is skipped. */
  function Waits(o: Options, n: nat, c: Course): seq<int> {
    if n == 0 then []
    else
      var w := WaitFor(o, n, c.random(n));
      if w > 0 then Waits(o, n - 1, c) + [w] else Waits(o, n - 1, c)
  }

  /** The first n attempts failed with overload. */
  ghost predicate Overloaded(c: Course, n: nat) {
    forall k :: 1 <= k <= n ==> c.op(k).Failure? && c.op(k).retryable
  }

  /** The context was not cancelled before the first n attempts, nor during the waits before them. */
  ghost predicate Undisturbed(o: Options, c: Course, n: nat) {
    && (forall k :: 1 <= k <= n ==> c.canceled(k).None?)
    && (forall k :: 1 <= k < n ==> c.interrupted(k).None? || WaitFor(o, k, c.random(k)) <= 0)
  }

  /**
    The three ways to end: with the operation's own result, cancelled before an attempt, or interrupted in a wait;
    whichever comes first.
   */
  ghost predicate Ended(o: Options, c: Course, attempts: nat, r: Result<string, string>) {
    || (attempts >= 1 && Overloaded(c, attempts - 1) && Undisturbed(o, c, attempts)
          && Answered(o, c.op(attempts), attempts, r))
    || (attempts < o.maxAttempts && Overloaded(c, attempts) && Undisturbed(o, c, attempts)
          && (attempts >= 1 ==> Waited(o, c, attempts)) && StoppedBy(c.canceled(attempts + 1), r))
    || (1 <= attempts < o.maxAttempts && Overloaded(c, attempts) && Undisturbed(o, c, attempts)
          && WaitFor(o, attempts, c.random(attempts)) > 0 && StoppedBy(c.interrupted(attempts), r))
  }

  /** The wait behind the k-th attempt came to its end, or there was none. */
  ghost predicate Waited(o: Options, c: Course, k: nat)
    requires k >= 1
  {
    c.interrupted(k).None? || WaitFor(o, k, c.random(k)) <= 0
  }

  lemma UndisturbedGrows(o: Options, c: Course, n: nat)
    requires Undisturbed(o, c, n) && c.canceled(n + 1).None?
    requires n >= 1 ==> Waited(o, c, n)
    ensures Undisturbed(o, c, n + 1)
  {
  }

  /** The last call's result is returned; an error only if it was the last attempt or is not overload. */
  predicate Answered(o: Options, last: Outcome, attempts: nat, r: Result<string, string>) {
    match last
    case Success(value) => r == Ok(value)
    case Failure(error, retryable) => r == Err(error) && (attempts == o.maxAttempts || !retryable)
  }

  predicate StoppedBy(error: Option<string>, r: Result<string, string>) {
    error.Some? && r == Err(error.value)
  }

  lemma OneMoreOverload(c: Course, n: nat)
    requires n >= 1
    ensures Overloaded(c, 0)
    ensures Overloaded(c, n - 1) && c.op(n).Failure? && c.op(n).retryable ==> Overloaded(c, n)
  {
  }

  lemma EndsWithAnswer(o: Options, c: Course, n: nat)
    requires n >= 1 && Overloaded(c, n - 1) && Undisturbed(o, c, n)
    ensures c.op(n).Success? ==> Ended(o, c, n, Ok(c.op(n).value))
    ensures c.op(n).Failure? && (n == o.maxAttempts || !c.op(n).retryable) ==>
      Ended(o, c, n, Err(c.op(n).error))
  {
    hide Overloaded, Undisturbed, WaitFor;
  }

  lemma EndsCanceled(o: Options, c: Course, n: nat)
    requires n < o.maxAttempts && Overloaded(c, n) && Undisturbed(o, c, n)
    requires (n >= 1 ==> Waited(o, c, n)) && c.canceled(n + 1).Some?
    ensures Ended(o, c, n, Err(c.canceled(n + 1).value))
  {
    hide Overloaded, Undisturbed, WaitFor;
  }

  lemma EndsInterrupted(o: Options, c: Course, n: nat)
    requires 1 <= n < o.maxAttempts && Overloaded(c, n) && Undisturbed(o, c, n)
    ensures WaitFor(o, n, c.random(n)) <= 0 || c.interrupted(n).None? ==> Waited(o, c, n)
    ensures WaitFor(o, n, c.random(n)) > 0 && c.interrupted(n).Some? ==>
      Ended(o, c, n, Err(c.interrupted(n).value))
  {
    hide Overloaded, Undisturbed, WaitFor;
  }

  /** Options that are not refused. */
  predicate Usable(o: Options) {
    o.maxAttempts >= 1 && o.initialDelay >= 0 && o.maxDelay >= 0 && o.jitterRatio >= 0.0
  }

  /** Why options are refused, in the order of the checks. */
  ghost predicate Refusal(o: Options, r: Result<string, string>) {
    if o.maxAttempts < 1 then r == Err("codex: max attempts must be at least one")
    else if o.initialDelay < 0 || o.maxDelay < 0 then r == Err("codex: retry delays must not be negative")
    else o.jitterRatio < 0.0 && r == Err("codex: jitter ratio must not be negative")
  }

  lemma InvalidMeans(o: Options)
    ensures Invalid(o).None? <==> Usable(o)
    ensures Invalid(o).Some? ==> Refusal(o, Err(Invalid(o).value))
  {
  }

  lemma NotYetDisturbed(o: Options, c: Course)
    ensures Undisturbed(o, c, 0)
  {
  }

  lemma NextRound(o: Options, n: nat, c: Course)
    requires n >= 1
    ensures var w := Jittered(Min(Delay(o, n), o.maxDelay), Delay(o, n), o.jitterRatio, c.random(n));
      w == WaitFor(o, n, c.random(n)) && Waits(o, n, c) == if w > 0 then Waits(o, n - 1, c) + [w] else Waits(o, n - 1, c)
    ensures Delay(o, n + 1) == Min(o.maxDelay, Twice(Delay(o, n)))
  {
    hide Jittered;
  }

  /** retryOnOverload; `attempts` counts the calls of the operation, `waits` lists the waits of `rounds` rounds. */
  method RetryOnOverload(o: Options, c: Course)
    returns (r: Result<string, string>, attempts: nat, waits: seq<int>, ghost rounds: nat)
    ensures if Usable(o) then attempts <= o.maxAttempts && Ended(o, c, attempts, r) else attempts == 0 && Refusal(o, r)
    ensures waits == Waits(o, rounds, c) && rounds <= attempts <= rounds + 1
  {
    InvalidMeans(o);
    hide Ended, Usable, Refusal;
    attempts, waits, rounds := 0, [], 0;
    if Invalid(o).Some? {
      r := Err(Invalid(o).value);
    } else {
      r, attempts, waits, rounds := RunAttempts(o, c);
    }
  }

  /** The loop over the attempts. */
  method RunAttempts(o: Options, c: Course)
    returns (r: Result<string, string>, attempts: nat, waits: seq<int>, ghost rounds: nat)
    requires o.maxAttempts >= 1
    ensures attempts <= o.maxAttempts && Ended(o, c, attempts, r)
    ensures waits == Waits(o, rounds, c) && rounds <= attempts <= rounds + 1
  {
    assert Waits(o, 0, c) == [] && Delay(o, 1) == o.initialDelay;
    hide *;
    attempts, waits, rounds := 0, [], 0;
    OneMoreOverload(c, 1);
    NotYetDisturbed(o, c);
    r := Err(EXHAUSTED);
    var delay := o.initialDelay;
    var attempt := 1;
    while attempt <= o.maxAttempts
      invariant 1 <= attempt <= o.maxAttempts && attempts == rounds == attempt - 1
      invariant delay == Delay(o, attempt)
      invariant waits == Waits(o, rounds, c) && Overloaded(c, attempts)
      invariant Undisturbed(o, c, attempts)
      invariant attempts >= 1 ==> Waited(o, c, attempts)
      decreases o.maxAttempts - attempt
    {
      if c.canceled(attempt).Some? {
        EndsCanceled(o, c, attempts);
        r := Err(c.canceled(attempt).value);
        return;
      }
      UndisturbedGrows(o, c, attempts);
      attempts := attempts + 1;
      var outcome := c.op(attempt);
      EndsWithAnswer(o, c, attempts);
      if outcome.Success? {
        r := Ok(outcome.value);
        return;
      }
      if attempt == o.maxAttempts || !outcome.retryable {
        r := Err(outcome.error);
        return;
      }
      var waitFor := Jittered(Min(delay, o.maxDelay), delay, o.jitterRatio, c.random(attempt));
      NextRound(o, attempt, c);
      OneMoreOverload(c, attempt);
      EndsInterrupted(o, c, attempt);
      rounds := attempt;
      if waitFor > 0 {
        waits := waits + [waitFor];
        if c.interrupted(attempt).Some? {
          r := Err(c.interrupted(attempt).value);
          return;
        }
      }
      delay := Min(o.maxDelay, Twice(delay));
      attempt := attempt + 1;
    }
  }

  // ---- the backoff law ----

  function Power2(k: nat): (p: nat)
    ensures p >= 1
  {
    if k == 0 then 1 else 2 * Power2(k - 1)
  }

  /** What the k-th wait before jitter should be. */
  function Ideal(o: Options, k: nat): int
    requires k >= 1
  {
    Min(o.maxDelay, o.initialDelay * Power2(k - 1))
  }

  lemma NonNegativeProduct(a: int, b: int)
    requires 0 <= a && 0 <= b
    ensures 0 <= a * b
  {
  }

  lemma IdealStep(o: Options, k: nat)
    requires k >= 2
    ensures o.initialDelay * Power2(k - 1) == 2 * (o.initialDelay * Power2(k - 2))
  {
  }

  lemma {:induction false} BackoffLaw(o: Options, k: nat)
    requires k >= 1 && Invalid(o).None?
    requires o.initialDelay == 0 || (o.initialDelay < TWO62 && o.maxDelay < TWO62)
    ensures Capped(o, k) == Ideal(o, k)
    ensures 0 <= Delay(o, k) < TWO62 && (k > 1 ==> Delay(o, k) == Capped(o, k))
  {
    if k > 1 {
      BackoffLaw(o, k - 1);
      IdealStep(o, k);
      NonNegativeProduct(o.initialDelay, Power2(k - 2));
      assert k == 2 ==> Delay(o, 1) == o.initialDelay == o.initialDelay * Power2(0);
      hide Power2;
      var x := o.initialDelay * Power2(k - 2);
      assert Ideal(o, k) == Min(o.maxDelay, 2 * x);
    }
  }

  /** A delay that doubles past the machine's range makes the next wait negative. */
  lemma {:induction false} DelayOverflows(o: Options, k: nat) returns (n: nat)
    requires k >= 1 && Invalid(o).None? && o.maxDelay >= TWO62
    requires Delay(o, k) > 0
    ensures n >= 1 && Capped(o, n) < 0
    decreases TWO62 - Delay(o, k)
  {
    if Delay(o, k) >= TWO62 {
      n := k + 1;
      assert Twice(Delay(o, k)) < 0;
    } else {
      assert Delay(o, k + 1) > Delay(o, k);
      n := DelayOverflows(o, k + 1);
    }
  }

  /**
    The k-th wait before jitter is min(maxDelay, initialDelay * 2^(k-1)) for every k exactly when neither
    delay can be doubled past the range of a duration, or the delay is zero anyway.
   */
  lemma BackoffLawIff(o: Options)
    requires Invalid(o).None?
    ensures (forall k: nat :: k >= 1 ==> Capped(o, k) == Ideal(o, k))
       <==> (o.initialDelay == 0 || (o.initialDelay < TWO62 && o.maxDelay < TWO62))
  {
    if o.initialDelay == 0 || (o.initialDelay < TWO62 && o.maxDelay < TWO62) {
      forall k: nat | k >= 1
        ensures Capped(o, k) == Ideal(o, k)
      {
        BackoffLaw(o, k);
      }
    } else {
      var n := FirstNegative(o);
      NonNegativeProduct(o.initialDelay, Power2(n - 1));
      assert Capped(o, n) != Ideal(o, n);
    }
  }

  lemma FirstNegative(o: Options) returns (n: nat)
    requires Invalid(o).None? && o.initialDelay > 0
    requires o.initialDelay >= TWO62 || o.maxDelay >= TWO62
    ensures n >= 1 && Capped(o, n) < 0
  {
    assert Delay(o, 1) == o.initialDelay;
    if o.initialDelay >= TWO62 {
      n := 2;
    } else {
      n := DelayOverflows(o, 1);
    }
  }

  /** With jitter the wait stays within the current delay times the ratio of the value before, up to the dropped fraction. */
  lemma JitterIsBounded(o: Options, k: nat, random: real)
    requires k >= 1 && Invalid(o).None? && 0.0 <= random <= 1.0
    requires Delay(o, k) >= 0
    ensures var w, capped, jitter := WaitFor(o, k, random) as real, Capped(o, k) as real, Jitter(Delay(o, k), o.jitterRatio);
      capped - jitter - 1.0 < w <= capped + jitter
  {
    hide Delay, Jitter, Swing, Truncate;
    var jitter := Jitter(Delay(o, k), o.jitterRatio);
    JitterIsNotNegative(Delay(o, k), o.jitterRatio);
    SwingIsBounded(random, jitter);
    TruncateIsNear(Capped(o, k), jitter, Capped(o, k) as real + Swing(random, jitter));
  }

  /** The wait exactly: the capped delay and the swing, without the fraction; in the middle there is no swing. */
  lemma JitterIsExact(o: Options, k: nat, random: real)
    requires k >= 1
    ensures var x, w := Capped(o, k) as real + Swing(random, Jitter(Delay(o, k), o.jitterRatio)), WaitFor(o, k, random);
      if x >= 0.0 then w as real <= x < w as real + 1.0 else w as real - 1.0 < x <= w as real
    ensures WaitFor(o, k, 0.5) == Capped(o, k)
  {
    hide Capped, Delay, Swing, Truncate, Jitter;
    TruncateMeans(Capped(o, k) as real + Swing(random, Jitter(Delay(o, k), o.jitterRatio)));
    SwingMeans(Jitter(Delay(o, k), o.jitterRatio));
    TruncateMeans(Capped(o, k) as real);
  }

  /** The swing goes from minus the jitter over nothing to the jitter, which is the delay before the cap times the ratio. */
  lemma SwingMeans(jitter: real)
    ensures Swing(0.0, jitter) == -jitter && Swing(0.5, jitter) == 0.0 && Swing(1.0, jitter) == jitter
    ensures Swing(0.25, jitter) == -(jitter / 2.0) && Swing(0.75, jitter) == jitter / 2.0
    ensures forall delay: Duration :: Jitter(delay, 0.0) == 0.0 && Jitter(delay, 1.0) == delay as real && Jitter(delay, 0.2) == delay as real / 5.0
  {
  }

  lemma TruncateMeans(x: real)
    ensures var w := Truncate(x); if x >= 0.0 then w as real <= x < w as real + 1.0 else w as real - 1.0 < x <= w as real
  {
  }

  lemma JitterIsNotNegative(delay: Duration, ratio: real)
    requires delay >= 0 && ratio >= 0.0
    ensures Jitter(delay, ratio) >= 0.0
  {
  }

  lemma SwingIsBounded(random: real, jitter: real)
    requires 0.0 <= random <= 1.0 && jitter >= 0.0
    ensures -jitter <= Swing(random, jitter) <= jitter
  {
    ProductOfNonNegative(1.0 - random, jitter);
    ProductOfNonNegative(random, jitter);
    assert Swing(random, jitter) == 2.0 * (random * jitter) - jitter;
    assert Swing(random, jitter) == jitter - 2.0 * ((1.0 - random) * jitter);
  }

  lemma ProductOfNonNegative(a: real, b: real)
    requires a >= 0.0 && b >= 0.0
    ensures a * b >= 0.0
  {
  }

  lemma TruncateIsNear(c: int, j: real, x: real)
    requires c >= 0 && j >= 0.0 && c as real - j <= x <= c as real + j
    ensures c as real - j - 1.0 < Truncate(x) as real <= c as real + j
  {
  }
}
