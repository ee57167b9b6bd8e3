/** The circuit breaker: its counters, and the atomic steps that the lock delimits.
    The protected function runs outside the lock, so the beginning and the end of a
    call are two separate steps and other calls may come in between. */
module Breaker {
  import opened Machine

  datatype Mode = Closed | Open | HalfOpen

  /** `expected` lists the exception types that count as failures; None counts all. */
  datatype Config = Config(failureThreshold: int, successThreshold: int, timeout: real,
                           halfOpenMaxCalls: int, expected: Option<set<nat>>)

  datatype Counters = Counters(
    mode: Mode,
    failureCount: int,
    successCount: int,
    lastFailure: Option<real>,
    halfOpenCalls: int,
    totalCalls: nat,
    totalFailures: nat,
    totalSuccesses: nat,
    stateChanges: nat)

  const FRESH := Counters(Closed, 0, 0, None, 0, 0, 0, 0, 0)

  /** The atomic steps. `Uncounted` ends a call whose exception is not counted. */
  datatype Op = Begin(now: real) | Success | Failure(now: real) | Uncounted | Reset | Trip(now: real)

  function ToOpen(b: Counters): Counters {
    b.(mode := Open, successCount := 0, halfOpenCalls := 0, stateChanges := b.stateChanges + 1)
  }

  function ToHalfOpen(b: Counters): Counters {
    b.(mode := HalfOpen, failureCount := 0, successCount := 0, halfOpenCalls := 0,
       stateChanges := b.stateChanges + 1)
  }

  function ToClosed(b: Counters): Counters {
    b.(mode := Closed, failureCount := 0, successCount := 0, halfOpenCalls := 0, lastFailure := None,
       stateChanges := b.stateChanges + 1)
  }

  predicate TimeoutOver(c: Config, b: Counters, now: real) {
    b.lastFailure.Some? && now - b.lastFailure.value >= c.timeout
  }

  predicate Admits(c: Config, b: Counters, now: real) {
    match b.mode
    case Closed => true
    case Open => TimeoutOver(c, b, now)
    case HalfOpen => b.halfOpenCalls < c.halfOpenMaxCalls
  }

  function Apply(c: Config, b: Counters, op: Op): Counters {
    match op
    case Begin(now) =>
      var counted := b.(totalCalls := b.totalCalls + 1);
      var moved := if b.mode.Open? && Admits(c, b, now) then ToHalfOpen(counted) else counted;
      if Admits(c, b, now) && moved.mode.HalfOpen? then moved.(halfOpenCalls := moved.halfOpenCalls + 1) else moved
    case Success =>
      var counted := b.(totalSuccesses := b.totalSuccesses + 1);
      (match b.mode
       case Closed => counted.(failureCount := 0)
       case Open => counted
       case HalfOpen =>
         var probed := counted.(successCount := b.successCount + 1);
         if probed.successCount >= c.successThreshold then ToClosed(probed) else probed)
    case Failure(now) =>
      var counted := b.(totalFailures := b.totalFailures + 1, failureCount := b.failureCount + 1,
                        lastFailure := Some(now));
      (match b.mode
       case Closed => if counted.failureCount >= c.failureThreshold then ToOpen(counted) else counted
       case Open => counted
       case HalfOpen => ToOpen(counted))
    case Uncounted => b
    case Reset => ToClosed(b)
    case Trip(now) => ToOpen(b.(failureCount := c.failureThreshold, lastFailure := Some(now)))
  }

  /** How the end of a call that raised an exception of type `kind` is booked. */
  function Raised(c: Config, kind: nat, now: real): Op {
    if c.expected.None? || kind in c.expected.value then Failure(now) else Uncounted
  }

  class CircuitBreaker {
    const config: Config
    var mode: Mode
    var failureCount: int
    var successCount: int
    var lastFailure: Option<real>
    var halfOpenCalls: int
    var totalCalls: nat
    var totalFailures: nat
    var totalSuccesses: nat
    var stateChanges: nat

    constructor (config: Config)
      ensures this.config == config && View() == FRESH
    {
      this.config := config;
      mode, failureCount, successCount, lastFailure, halfOpenCalls := Closed, 0, 0, None, 0;
      totalCalls, totalFailures, totalSuccesses, stateChanges := 0, 0, 0, 0;
    }

    function View(): Counters
      reads this
    {
      Counters(mode, failureCount, successCount, lastFailure, halfOpenCalls,
               totalCalls, totalFailures, totalSuccesses, stateChanges)
    }

    method TransitionToOpen()
      modifies this
      ensures View() == ToOpen(old(View()))
    {
      mode := Open;
      successCount := 0;
      halfOpenCalls := 0;
      stateChanges := stateChanges + 1;
    }

    method TransitionToHalfOpen()
      modifies this
      ensures View() == ToHalfOpen(old(View()))
    {
      mode := HalfOpen;
      failureCount := 0;
      successCount := 0;
      halfOpenCalls := 0;
      stateChanges := stateChanges + 1;
    }

    method TransitionToClosed()
      modifies this
      ensures View() == ToClosed(old(View()))
    {
      mode := Closed;
      failureCount := 0;
      successCount := 0;
      halfOpenCalls := 0;
      lastFailure := None;
      stateChanges := stateChanges + 1;
    }

    method CanAttempt(now: real) returns (ok: bool)
      modifies this
      ensures ok == Admits(config, old(View()), now)
      ensures View() == if old(mode).Open? && ok then ToHalfOpen(old(View())) else old(View())
    {
      if mode == Closed { return true; }
      if mode == Open {
        if lastFailure.None? { return false; }
        var elapsed := now - lastFailure.value;
        if elapsed >= config.timeout {
          TransitionToHalfOpen();
          return true;
        }
        return false;
      }
      return halfOpenCalls < config.halfOpenMaxCalls;
    }

    /** The locked first half of a call. */
    method BeginCall(now: real) returns (admitted: bool)
      modifies this
      ensures View() == Apply(config, old(View()), Begin(now))
      ensures admitted == Admits(config, old(View()), now)
    {
      totalCalls := totalCalls + 1;
      admitted := CanAttempt(now);
      if !admitted { return; }
      if mode == HalfOpen {
        halfOpenCalls := halfOpenCalls + 1;
      }
    }

    method OnSuccess()
      modifies this
      ensures View() == Apply(config, old(View()), Success)
    {
      totalSuccesses := totalSuccesses + 1;
      if mode == Closed {
        failureCount := 0;
      } else if mode == HalfOpen {
        successCount := successCount + 1;
        if successCount >= config.successThreshold {
          TransitionToClosed();
        }
      }
    }

    method OnFailure(now: real)
      modifies this
      ensures View() == Apply(config, old(View()), Failure(now))
    {
      totalFailures := totalFailures + 1;
      failureCount := failureCount + 1;
      lastFailure := Some(now);
      if mode == Closed {
        if failureCount >= config.failureThreshold {
          TransitionToOpen();
        }
      } else if mode == HalfOpen {
        TransitionToOpen();
      }
    }

    /** The second half of a call whose function raised an exception. */
    method OnException(kind: nat, now: real)
      modifies this
      ensures View() == Apply(config, old(View()), Raised(config, kind, now))
    {
      if config.expected.None? || kind in config.expected.value {
        OnFailure(now);
      }
    }

    method ResetBreaker()
      modifies this
      ensures View() == Apply(config, old(View()), Reset)
    {
      TransitionToClosed();
    }

    method TripBreaker(now: real)
      modifies this
      ensures View() == Apply(config, old(View()), Trip(now))
    {
      failureCount := config.failureThreshold;
      lastFailure := Some(now);
      TransitionToOpen();
    }
  }
}
