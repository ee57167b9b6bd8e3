/** The breaker against a specification that keeps no counters: it looks only at the
    admissions and outcomes logged since the present phase began. */
module BreakerHistory {
  import opened Machine
  import opened Breaker

  /** `true` is a success, `false` a counted failure. Admissions are logged by their times. */
  type Log = seq<bool>

  datatype Phase =
    | ClosedSince(log: Log)
    | OpenSince(lastFailure: real)
    | HalfOpenSince(admitted: seq<real>, log: Log)

  /** The failures after the last success of the log. */
  function TrailingFailures(log: Log): nat {
    if log == [] || log[|log| - 1] then 0 else 1 + TrailingFailures(log[..|log| - 1])
  }

  predicate PhaseAdmits(c: Config, p: Phase, now: real) {
    match p
    case ClosedSince(_) => true
    case OpenSince(last) => now >= last + c.timeout
    case HalfOpenSince(admitted, _) => |admitted| < c.halfOpenMaxCalls
  }

  function PhaseAfter(c: Config, p: Phase, op: Op): Phase {
    match op
    case Begin(now) =>
      if !PhaseAdmits(c, p, now) || p.ClosedSince? then p
      else if p.OpenSince? then HalfOpenSince([now], [])
      else HalfOpenSince(p.admitted + [now], p.log)
    case Success =>
      (match p
       case ClosedSince(log) => ClosedSince(log + [true])
       case OpenSince(_) => p
       case HalfOpenSince(admitted, log) =>
         if |log| + 1 >= c.successThreshold then ClosedSince([]) else HalfOpenSince(admitted, log + [true]))
    case Failure(now) =>
      if p.ClosedSince? && TrailingFailures(p.log + [false]) < c.failureThreshold
      then ClosedSince(p.log + [false]) else OpenSince(now)
    case Uncounted => p
    case Reset => ClosedSince([])
    case Trip(now) => OpenSince(now)
  }

  function CountersAt(c: Config, ops: seq<Op>, n: nat): Counters
    requires n <= |ops|
  {
    if n == 0 then FRESH else Apply(c, CountersAt(c, ops, n - 1), ops[n - 1])
  }

  function PhaseAt(c: Config, ops: seq<Op>, n: nat): Phase
    requires n <= |ops|
  {
    if n == 0 then ClosedSince([]) else PhaseAfter(c, PhaseAt(c, ops, n - 1), ops[n - 1])
  }

  function AtLeastOne(x: int): int {
    if x < 1 then 1 else x
  }

  ghost predicate Refines(c: Config, b: Counters, p: Phase) {
    match p
    case ClosedSince(log) =>
      b.mode.Closed? && b.failureCount == TrailingFailures(log) < AtLeastOne(c.failureThreshold)
    case OpenSince(last) =>
      b.mode.Open? && b.lastFailure == Some(last)
    case HalfOpenSince(admitted, log) =>
      && b.mode.HalfOpen? && b.halfOpenCalls == |admitted| && b.successCount == |log|
      && b.failureCount == 0
      && 1 <= |admitted| <= AtLeastOne(c.halfOpenMaxCalls)
      && |log| < AtLeastOne(c.successThreshold)
  }

  lemma StepRefines(c: Config, b: Counters, p: Phase, op: Op)
    requires Refines(c, b, p)
    ensures Refines(c, Apply(c, b, op), PhaseAfter(c, p, op))
    ensures op.Begin? ==> (Admits(c, b, op.now) <==> PhaseAdmits(c, p, op.now))
  {
  }

  /** After any steps in any order the counters are exactly what the logs say: in CLOSED
      the failures since the last success, below the threshold; in OPEN the time of the
      last counted failure; in HALF_OPEN the calls admitted and the successes. */
  lemma {:induction false} CountersRefineHistory(c: Config, ops: seq<Op>, n: nat)
    requires n <= |ops|
    ensures Refines(c, CountersAt(c, ops, n), PhaseAt(c, ops, n))
  {
    if n > 0 {
      CountersRefineHistory(c, ops, n - 1);
      StepRefines(c, CountersAt(c, ops, n - 1), PhaseAt(c, ops, n - 1), ops[n - 1]);
    }
  }

  /** So the two machines admit and reject the same calls. */
  lemma SameAdmissions(c: Config, ops: seq<Op>, n: nat)
    requires n < |ops| && ops[n].Begin?
    ensures Admits(c, CountersAt(c, ops, n), ops[n].now) <==> PhaseAdmits(c, PhaseAt(c, ops, n), ops[n].now)
  {
    CountersRefineHistory(c, ops, n);
    StepRefines(c, CountersAt(c, ops, n), PhaseAt(c, ops, n), ops[n]);
  }

  /** A closed breaker opens at a step exactly when it is tripped or when the step is the
      failure that makes the run of failures reach the threshold. */
  lemma OpensExactlyAtThreshold(c: Config, ops: seq<Op>, n: nat)
    requires n < |ops| && PhaseAt(c, ops, n).ClosedSince?
    ensures CountersAt(c, ops, n + 1).mode.Open? <==>
              || ops[n].Trip?
              || (ops[n].Failure? && TrailingFailures(PhaseAt(c, ops, n).log) + 1 >= c.failureThreshold)
  {
    CountersRefineHistory(c, ops, n);
  }

  /** The time of the last counted failure or trip in the whole run so far. */
  function LastFailureTime(ops: seq<Op>, n: nat): Option<real>
    requires n <= |ops|
  {
    if n == 0 then None
    else match ops[n - 1]
      case Failure(now) => Some(now)
      case Trip(now) => Some(now)
      case _ => LastFailureTime(ops, n - 1)
  }

  lemma {:induction false} OpenKnowsLastFailure(c: Config, ops: seq<Op>, n: nat)
    requires n <= |ops| && PhaseAt(c, ops, n).OpenSince?
    ensures LastFailureTime(ops, n) == Some(PhaseAt(c, ops, n).lastFailure)
  {
    if !ops[n - 1].Failure? && !ops[n - 1].Trip? {
      OpenKnowsLastFailure(c, ops, n - 1);
    }
  }

  /** Every attempt of the stretch comes less than `timeout` after the last counted
      failure before it, and nobody resets the breaker. */
  ghost predicate TooEarly(c: Config, ops: seq<Op>, lo: nat, hi: nat)
    requires lo <= hi <= |ops|
  {
    forall i :: lo <= i < hi ==>
      && !ops[i].Reset?
      && (ops[i].Begin? && LastFailureTime(ops, i).Some? ==>
            ops[i].now < LastFailureTime(ops, i).value + c.timeout)
  }

  /** Over such a stretch an open breaker stays open and rejects every attempt. */
  lemma {:induction false} OpenUntilTimeout(c: Config, ops: seq<Op>, lo: nat, hi: nat)
    requires lo <= hi <= |ops| && CountersAt(c, ops, lo).mode.Open? && TooEarly(c, ops, lo, hi)
    ensures CountersAt(c, ops, hi).mode.Open?
    ensures forall i :: lo <= i < hi && ops[i].Begin? ==> !Admits(c, CountersAt(c, ops, i), ops[i].now)
  {
    if lo < hi {
      OpenUntilTimeout(c, ops, lo, hi - 1);
      CountersRefineHistory(c, ops, hi - 1);
      OpenKnowsLastFailure(c, ops, hi - 1);
    }
  }
}
