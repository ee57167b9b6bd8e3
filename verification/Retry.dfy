/** The retry loop: repeated attempts with growing, jittered delays in between. */
module Retry {
  import opened Machine
  import opened RealArith

  datatype Backoff = Exponential | Linear | Constant

  /** Exceptions of the called function, the error that reports exhaustion, and the one
      that a blocking sleep raises when it is asked for a negative time. */
  datatype Exn = Raised(kind: nat) | RetryError(attempts: int, last: Option<Exn>) | SleepError

  /** One call of the function. */
  datatype Outcome<V> = Returned(value: V) | Threw(exn: Exn)

  /** How `execute` ends. */
  type Ending<V> = Outcome<V>

  /** `retryOn` stands for the isinstance test, `retryOnResult` for the optional
      predicate on results. */
  datatype Config<!V> = Config(
    maxAttempts: int,
    initialDelay: real,
    maxDelay: real,
    strategy: Backoff,
    multiplier: real,
    jitter: bool,
    jitterFactor: real,
    retryOn: Exn -> bool,
    retryOnResult: Option<V -> bool>)

  function Power(x: real, n: nat): real {
    if n == 0 then 1.0 else x * Power(x, n - 1)
  }

  function Backed<V>(c: Config<V>, attempt: nat): real {
    match c.strategy
    case Exponential => c.initialDelay * Power(c.multiplier, attempt)
    case Linear => c.initialDelay + c.multiplier * attempt as real
    case Constant => c.initialDelay
  }

  /** `draw` in [-1, 1] is the random draw, scaled to the jitter range. */
  function Delayed<V>(c: Config<V>, attempt: nat, draw: real): real {
    var delay := Min(Backed(c, attempt), c.maxDelay);
    if c.jitter then Max(0.0, delay + Gain(Gain(c.jitterFactor, delay), draw)) else delay
  }

  predicate RetriesResult<V>(c: Config<V>, v: V) {
    c.retryOnResult.Some? && c.retryOnResult.value(v)
  }

  /** The loop goes on after this outcome if attempts are left. */
  predicate Retryable<V>(c: Config<V>, o: Outcome<V>) {
    match o
    case Returned(v) => RetriesResult(c, v)
    case Threw(e) => c.retryOn(e)
  }

  /** What is raised when the last attempt asks for another one. An exhaustion by result
      is raised inside the try block and may be caught there once more. */
  function Exhausted<V>(c: Config<V>, last: Outcome<V>): Exn {
    match last
    case Threw(e) => RetryError(c.maxAttempts, Some(e))
    case Returned(_) =>
      var inner := RetryError(c.maxAttempts, None);
      if c.retryOn(inner) then RetryError(c.maxAttempts, Some(inner)) else inner
  }

  /** The delay after this attempt is negative; jitter never lets that happen. */
  predicate Negative<V>(c: Config<V>, attempt: nat) {
    !c.jitter && Min(Backed(c, attempt), c.maxDelay) < 0.0
  }

  lemma NegativeDelay<V>(c: Config<V>, attempt: nat, draw: real)
    ensures Delayed(c, attempt, draw) < 0.0 <==> Negative(c, attempt)
  {
  }

  /** The outcome asks for another attempt, and the sleep before it is possible. Only the
      blocking sleep refuses a negative time; the asynchronous one returns at once. */
  predicate GoesOn<V>(c: Config<V>, blocking: bool, calls: nat -> Outcome<V>, i: nat) {
    Retryable(c, calls(i)) && !(blocking && Negative(c, i))
  }

  /** The first of the attempts 0..n after which the loop does not go on; at the latest n. */
  ghost function FirstStop<V>(c: Config<V>, blocking: bool, calls: nat -> Outcome<V>, n: nat): (k: nat)
    ensures k <= n
    ensures forall i :: 0 <= i < k ==> GoesOn(c, blocking, calls, i)
    ensures k < n ==> !GoesOn(c, blocking, calls, k)
  {
    if n == 0 then 0
    else
      var k := FirstStop(c, blocking, calls, n - 1);
      if k == n - 1 && GoesOn(c, blocking, calls, k) then n else k
  }

  /** The specification: the first outcome that asks for no retry, if there is one within
      the attempts; the error of an impossible sleep, if one comes first; otherwise the
      error that reports exhaustion, after exactly that many calls. */
  ghost function Expected<V>(c: Config<V>, blocking: bool, calls: nat -> Outcome<V>): (Ending<V>, nat) {
    if c.maxAttempts <= 0 then (Threw(RetryError(c.maxAttempts, None)), 0)
    else
      var k := FirstStop(c, blocking, calls, c.maxAttempts - 1);
      if !Retryable(c, calls(k)) then (calls(k), k + 1)
      else if k < c.maxAttempts - 1 then (Threw(SleepError), k + 1)
      else (Threw(Exhausted(c, calls(k))), c.maxAttempts)
  }

  /** If some attempt is acceptable, the first such attempt decides. */
  lemma FirstAcceptedDecides<V>(c: Config<V>, blocking: bool, calls: nat -> Outcome<V>, k: nat)
    requires k < c.maxAttempts && !Retryable(c, calls(k))
    requires forall i :: 0 <= i < k ==> GoesOn(c, blocking, calls, i)
    ensures Expected(c, blocking, calls) == (calls(k), k + 1)
  {
    assert !GoesOn(c, blocking, calls, k);
  }

  /** If none is, the error names the number of attempts, which were all made. */
  lemma ExhaustionIsReported<V>(c: Config<V>, blocking: bool, calls: nat -> Outcome<V>)
    requires c.maxAttempts >= 1 && Retryable(c, calls(c.maxAttempts - 1))
    requires forall i :: 0 <= i < c.maxAttempts - 1 ==> GoesOn(c, blocking, calls, i)
    ensures Expected(c, blocking, calls) == (Threw(Exhausted(c, calls(c.maxAttempts - 1))), c.maxAttempts)
    ensures Exhausted(c, calls(c.maxAttempts - 1)).RetryError?
    ensures Exhausted(c, calls(c.maxAttempts - 1)).attempts == c.maxAttempts
  {
  }

  /** A negative delay before the last attempt ends the loop with the error of the sleep. */
  lemma ImpossibleSleepRaises<V>(c: Config<V>, calls: nat -> Outcome<V>, k: nat)
    requires k < c.maxAttempts - 1 && Retryable(c, calls(k)) && Negative(c, k)
    requires forall i :: 0 <= i < k ==> GoesOn(c, true, calls, i)
    ensures Expected(c, true, calls) == (Threw(SleepError), k + 1)
  {
    assert !GoesOn(c, true, calls, k);
  }

  lemma SameStop<V>(c: Config<V>, calls: nat -> Outcome<V>)
    requires forall i: nat :: i < c.maxAttempts - 1 ==> Retryable(c, calls(i)) ==> !Negative(c, i)
    ensures Expected(c, true, calls) == Expected(c, false, calls)
  {
    if c.maxAttempts >= 1 {
      var n: nat := c.maxAttempts - 1;
      var k := FirstStop(c, false, calls, n);
      assert GoesOn(c, true, calls, k) ==> GoesOn(c, false, calls, k);
      assert forall i: nat :: i < n && GoesOn(c, false, calls, i) ==> GoesOn(c, true, calls, i);
      assert FirstStop(c, true, calls, n) == k;
    }
  }

  /** The blocking loop is the asynchronous one, whatever the function does, exactly if no
      delay between two attempts is negative, or nothing is ever retried. */
  lemma BlockingAgreesIff<V>(c: Config<V>)
    ensures (forall calls :: Expected(c, true, calls) == Expected(c, false, calls))
            <==> || (forall o :: !Retryable(c, o))
                 || (forall i: nat :: i < c.maxAttempts - 1 ==> !Negative(c, i))
  {
    if i: nat, o :| i < c.maxAttempts - 1 && Negative(c, i) && Retryable(c, o) {
      var calls := (_: nat) => o;
      assert !GoesOn(c, true, calls, i);
      assert Expected(c, true, calls).1 <= i + 1;
      assert Expected(c, false, calls).1 == c.maxAttempts;
    } else {
      forall calls: nat -> Outcome<V> ensures Expected(c, true, calls) == Expected(c, false, calls) {
        forall i: nat | i < c.maxAttempts - 1 && Retryable(c, calls(i)) ensures !Negative(c, i) {
        }
        SameStop(c, calls);
      }
    }
  }

  /** Durations that make sense are never negative. */
  lemma SaneSleeps<V>(c: Config<V>, attempt: nat)
    requires Sane(c) || c.jitter
    ensures !Negative(c, attempt)
  {
    if Sane(c) { BackedNonNegative(c, attempt); }
  }

  /** The configurations for which every delay is a duration. */
  predicate Sane<V>(c: Config<V>) {
    c.initialDelay >= 0.0 && c.maxDelay >= 0.0 && c.multiplier >= 0.0 && c.jitterFactor >= 0.0
  }

  function LongestNap<V>(c: Config<V>): real {
    c.maxDelay + Gain(c.jitterFactor, c.maxDelay)
  }

  lemma {:induction false} PowerNonNegative(x: real, n: nat)
    requires x >= 0.0
    ensures Power(x, n) >= 0.0
  {
    if n > 0 {
      PowerNonNegative(x, n - 1);
      ProductMonotone(0.0, x, Power(x, n - 1));
    }
  }

  lemma BackedNonNegative<V>(c: Config<V>, attempt: nat)
    requires Sane(c)
    ensures Backed(c, attempt) >= 0.0
  {
    PowerNonNegative(c.multiplier, attempt);
    ProductMonotone(0.0, c.initialDelay, Power(c.multiplier, attempt));
    ProductMonotone(0.0, c.multiplier, attempt as real);
  }

  /** A non-negative delay of at most maxDelay, stretched by the jitter. */
  lemma DelayBounded<V>(c: Config<V>, attempt: nat, draw: real)
    requires Sane(c) && -1.0 <= draw <= 1.0
    ensures 0.0 <= Delayed(c, attempt, draw) <= LongestNap(c)
  {
    BackedNonNegative(c, attempt);
    hide Gain;
    Stretched(Min(Backed(c, attempt), c.maxDelay), c.maxDelay, c.jitterFactor, draw);
    hide Backed;
  }

  lemma Stretched(delay: real, most: real, f: real, draw: real)
    requires 0.0 <= delay <= most && f >= 0.0 && draw <= 1.0
    ensures delay + Gain(Gain(f, delay), draw) <= most + Gain(f, most)
    ensures delay <= most + Gain(f, most)
  {
    hide Gain;
    GainUnit(f);
    GainOrdered(f, 0.0, delay);
    GainOrdered(f, delay, most);
    GainUnit(Gain(f, delay));
    GainOrdered(Gain(f, delay), draw, 1.0);
  }

  lemma Regrouped(x: real, y: real, z: real)
    ensures x * (y * z) == (x * z) * y
  {
  }

  lemma Scaled(x: real, y: real)
    requires x >= 0.0 && y >= 1.0
    ensures x * y >= x
  {
  }

  /** What each strategy means from one attempt to the next, before cap and jitter. */
  lemma BackoffRecurrence<V>(c: Config<V>, attempt: nat)
    ensures match c.strategy
            case Exponential => Backed(c, attempt + 1) == Backed(c, attempt) * c.multiplier
            case Linear => Backed(c, attempt + 1) == Backed(c, attempt) + c.multiplier
            case Constant => Backed(c, attempt + 1) == Backed(c, attempt)
  {
    match c.strategy
    case Exponential =>
      var p := Power(c.multiplier, attempt);
      assert Power(c.multiplier, attempt + 1) == c.multiplier * p;
      hide Power;
      Regrouped(c.initialDelay, c.multiplier, p);
    case Linear => assert (attempt + 1) as real == attempt as real + 1.0;
    case Constant =>
  }

  /** With a multiplier of at least one, the delays before jitter never get shorter. */
  lemma DelaysGrow<V>(c: Config<V>, attempt: nat)
    requires Sane(c) && c.multiplier >= 1.0
    ensures Min(Backed(c, attempt), c.maxDelay) <= Min(Backed(c, attempt + 1), c.maxDelay)
  {
    hide Backed;
    BackoffRecurrence(c, attempt);
    BackedNonNegative(c, attempt);
    Scaled(Backed(c, attempt), c.multiplier);
  }

  /** One delay after another, by what the strategies are for. */
  predicate Follows<V>(c: Config<V>, before: real, next: real) {
    match c.strategy
    case Exponential => next == before * c.multiplier
    case Linear => next == before + c.multiplier
    case Constant => next == before
  }

  /** The delays before cap and jitter: where they start and how they go on. */
  ghost predicate Progression<V>(c: Config<V>, d: seq<real>) {
    && (d != [] ==> d[0] == c.initialDelay)
    && forall i :: 1 <= i < |d| ==> Follows(c, d[i - 1], d[i])
  }

  lemma {:induction false} ProgressionIsBacked<V>(c: Config<V>, d: seq<real>, attempt: nat)
    requires Progression(c, d) && attempt < |d|
    ensures d[attempt] == Backed(c, attempt)
  {
    if attempt == 0 {
      assert Power(c.multiplier, 0) == 1.0;
    } else {
      ProgressionIsBacked(c, d, attempt - 1);
      BackoffRecurrence(c, attempt - 1);
      hide Backed;
      assert Follows(c, d[attempt - 1], d[attempt]);
    }
  }

  /** How the loop ends, said of its very inputs: every attempt before the last one asked
      for another, by the predicate on results or by the types to retry on, with a sleep
      that was possible; and the last one says how. */
  lemma EndsAsPromised<V>(c: Config<V>, blocking: bool, calls: nat -> Outcome<V>, d: seq<real>)
    requires c.maxAttempts >= 1 && Progression(c, d) && |d| == c.maxAttempts
    ensures var (ending, made) := Expected(c, blocking, calls);
            && 1 <= made <= c.maxAttempts
            && (forall i :: 0 <= i < made - 1 ==>
                  && (match calls(i)
                      case Returned(v) => c.retryOnResult.Some? && c.retryOnResult.value(v)
                      case Threw(e) => c.retryOn(e))
                  && (blocking && !c.jitter ==> d[i] >= 0.0 && c.maxDelay >= 0.0))
            && var impossible := blocking && !c.jitter && (d[made - 1] < 0.0 || c.maxDelay < 0.0);
               match calls(made - 1)
               case Returned(v) =>
                 if c.retryOnResult.None? || !c.retryOnResult.value(v) then ending == Returned(v)
                 else if made < c.maxAttempts then impossible && ending == Threw(SleepError)
                 else
                   var inner := RetryError(c.maxAttempts, None);
                   ending == Threw(if c.retryOn(inner) then RetryError(c.maxAttempts, Some(inner)) else inner)
               case Threw(e) =>
                 if !c.retryOn(e) then ending == Threw(e)
                 else if made < c.maxAttempts then impossible && ending == Threw(SleepError)
                 else ending == Threw(RetryError(c.maxAttempts, Some(e)))
  {
    hide Backed;
    var k := FirstStop(c, blocking, calls, c.maxAttempts - 1);
    forall i: nat | i <= k ensures d[i] == Backed(c, i) {
      ProgressionIsBacked(c, d, i);
    }
    forall i: nat | i < k ensures Retryable(c, calls(i)) && !(blocking && Negative(c, i)) {
      assert GoesOn(c, blocking, calls, i);
    }
  }

  /** The nap after an attempt: the capped delay, moved by its share of jitter, and never
      less than nothing. */
  function Nap<V>(c: Config<V>, delay: real, draw: real): real {
    var capped := if delay <= c.maxDelay then delay else c.maxDelay;
    var moved := if c.jitter then capped * (1.0 + c.jitterFactor * draw) else capped;
    if moved < 0.0 then 0.0 else moved
  }

  function NapsTaken<V>(c: Config<V>, d: seq<real>, draw: nat -> real, n: nat): real
    requires n <= |d|
  {
    if n == 0 then 0.0 else NapsTaken(c, d, draw, n - 1) + Nap(c, d[n - 1], draw(n - 1))
  }

  /** The time slept after the first n attempts. */
  function Slept<V>(c: Config<V>, draw: nat -> real, n: nat): real {
    if n == 0 then 0.0 else Slept(c, draw, n - 1) + Max(0.0, Delayed(c, n - 1, draw(n - 1)))
  }

  lemma NapIsDelay<V>(c: Config<V>, attempt: nat, draw: real)
    ensures Max(0.0, Delayed(c, attempt, draw)) == Nap(c, Backed(c, attempt), draw)
  {
    var delay := Min(Backed(c, attempt), c.maxDelay);
    Jittered(delay, c.jitterFactor, draw);
    hide Backed;
  }

  lemma Jittered(delay: real, f: real, draw: real)
    ensures delay + Gain(Gain(f, delay), draw) == delay * (1.0 + f * draw)
  {
  }

  /** What is slept is the sum of these naps, for every configuration. */
  lemma {:induction false} SleptIsNaps<V>(c: Config<V>, d: seq<real>, draw: nat -> real, n: nat)
    requires Progression(c, d) && n <= |d|
    ensures Slept(c, draw, n) == NapsTaken(c, d, draw, n)
  {
    hide Nap, Delayed, Backed, Progression;
    if n > 0 {
      SleptIsNaps(c, d, draw, n - 1);
      ProgressionIsBacked(c, d, n - 1);
      NapIsDelay(c, n - 1, draw(n - 1));
    }
  }

  /** With jitter a nap stays within its share of the capped delay, and a draw of zero, or
      no jitter, leaves that delay as it is. */
  lemma NapWithinJitter<V>(c: Config<V>, delay: real, draw: real)
    requires Sane(c) && delay >= 0.0 && -1.0 <= draw <= 1.0
    ensures var capped := Min(delay, c.maxDelay);
            && Nap(c, delay, 0.0) == capped && (!c.jitter ==> Nap(c, delay, draw) == capped)
            && Nap(c, delay, draw) <= capped * (1.0 + c.jitterFactor)
            && Nap(c, delay, draw) >= Max(0.0, capped * (1.0 - c.jitterFactor))
  {
    var capped, f := Min(delay, c.maxDelay), c.jitterFactor;
    NapOf(c, delay, draw);
    NapOf(c, delay, 0.0);
    hide Nap;
    Stretch(capped, f, draw);
    Stretch(capped, f, 0.0);
    var least, nap, most := capped * (1.0 - f), capped * (1.0 + f * draw), capped * (1.0 + f);
    assert least <= nap <= most && capped <= most && least <= capped && most >= 0.0;
  }

  lemma NapOf<V>(c: Config<V>, delay: real, draw: real)
    ensures var capped := Min(delay, c.maxDelay);
            Nap(c, delay, draw) == Max(0.0, if c.jitter then capped * (1.0 + c.jitterFactor * draw) else capped)
  {
  }

  lemma Stretch(delay: real, f: real, draw: real)
    requires delay >= 0.0 && f >= 0.0 && -1.0 <= draw <= 1.0
    ensures delay * (1.0 - f) <= delay * (1.0 + f * draw) <= delay * (1.0 + f)
    ensures delay * (1.0 + f * 0.0) == delay && delay * (1.0 + f) >= delay >= delay * (1.0 - f)
  {
    ProductMonotone(draw, 1.0, f);
    ProductMonotone(-1.0, draw, f);
    var p := f * draw;
    assert -f <= p <= f;
    ProductOrdered(delay, 1.0 - f, 1.0 + p);
    ProductOrdered(delay, 1.0 + p, 1.0 + f);
    ProductOrdered(delay, 1.0, 1.0 + f);
    ProductOrdered(delay, 1.0 - f, 1.0);
  }

  lemma ProductOrdered(x: real, y: real, z: real)
    requires x >= 0.0 && y <= z
    ensures x * y <= x * z
  {
  }

  /** The loop, with its ways into the except branch; `blocking` tells `execute` from its
      asynchronous twin, and `draw` gives the random draws. A sleep that fails after a
      result is tried once more by the except branch, with the same delay. */
  method Execute<V>(c: Config<V>, blocking: bool, calls: nat -> Outcome<V>, draw: nat -> real)
    returns (ending: Ending<V>, made: nat, slept: real)
    ensures (ending, made) == Expected(c, blocking, calls)
    ensures slept == Slept(c, draw, if made == 0 then 0 else made - 1)
    ensures made > 0 && Sane(c) && (forall i :: -1.0 <= draw(i) <= 1.0) ==>
              slept <= Gain(LongestNap(c), (made - 1) as real)
  {
    hide Gain, Delayed, LongestNap, Backed;
    var lastException := None;
    made, slept := 0, 0.0;
    var attempt := 0;
    GainUnit(LongestNap(c));
    while attempt < c.maxAttempts
      invariant made == attempt && 0 <= attempt
      invariant c.maxAttempts >= 1 ==> attempt < c.maxAttempts
      invariant c.maxAttempts <= 0 ==> attempt == 0 && lastException == None
      invariant forall i :: 0 <= i < attempt ==> GoesOn(c, blocking, calls, i)
      invariant slept == Slept(c, draw, attempt)
      invariant Sane(c) && (forall i :: -1.0 <= draw(i) <= 1.0) ==>
                  slept <= Gain(LongestNap(c), attempt as real)
      decreases c.maxAttempts - attempt
    {
      var outcome := calls(attempt);
      made := made + 1;
      var delay := Delayed(c, attempt, draw(attempt));
      NegativeDelay(c, attempt, draw(attempt));
      var sleepFails := blocking && delay < 0.0;
      var caught;
      var goOn := false;
      match outcome {
        case Returned(v) =>
          if !RetriesResult(c, v) {
            FirstAcceptedDecides(c, blocking, calls, attempt);
            ending := outcome;
            return;
          }
          if attempt < c.maxAttempts - 1 {
            goOn := !sleepFails;
            caught := SleepError;
          } else {
            caught := RetryError(c.maxAttempts, None);
          }
        case Threw(e) =>
          caught := e;
      }
      if !goOn {
        lastException := Some(caught);
        if !c.retryOn(caught) {
          ending := Threw(caught);
          if outcome.Threw? {
            FirstAcceptedDecides(c, blocking, calls, attempt);
          } else if sleepFails && attempt < c.maxAttempts - 1 {
            ImpossibleSleepRaises(c, calls, attempt);
          }
          return;
        }
        if attempt >= c.maxAttempts - 1 {
          ending := Threw(RetryError(c.maxAttempts, Some(caught)));
          return;
        }
        if sleepFails {
          ImpossibleSleepRaises(c, calls, attempt);
          ending := Threw(SleepError);
          return;
        }
      }
      if Sane(c) && -1.0 <= draw(attempt) <= 1.0 {
        DelayBounded(c, attempt, draw(attempt));
      }
      GainAdd(LongestNap(c), attempt as real, 1.0);
      GainUnit(LongestNap(c));
      slept := slept + Max(0.0, delay);
      attempt := attempt + 1;
    }
    assert c.maxAttempts <= 0;
    ending := Threw(RetryError(c.maxAttempts, lastException));
  }
}
