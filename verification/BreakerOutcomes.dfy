/** How each way a call can end is booked, in the breaker's own figures. */
module BreakerOutcomes {
  import opened Machine
  import opened Breaker
  import opened BreakerHistory
  import opened BreakerCalls

  /** A failing call is counted exactly if its exception is of an expected type, and then
      it also sets the time of the last failure; otherwise it leaves no trace at all. */
  lemma RaisedIsCountedIff(c: Config, es: seq<Event>, n: nat, id: nat, kind: nat, now: real)
    requires n < |es| && es[n] == RaisedBy(id, kind, now) && id in SysAt(c, es, n).inflight
    ensures var b, b' := SysAt(c, es, n).b, SysAt(c, es, n + 1).b;
            if c.expected.None? || kind in c.expected.value then
              && b'.totalFailures == b.totalFailures + 1 && b'.totalSuccesses == b.totalSuccesses
              && b'.failureCount == b.failureCount + 1 && b'.lastFailure == Some(now)
              && (b'.mode.Open? <==> !b.mode.Closed? || b.failureCount + 1 >= c.failureThreshold)
              && (!b'.mode.Open? ==> b'.mode == b.mode)
            else b' == b
    ensures SysAt(c, es, n + 1).inflight == SysAt(c, es, n).inflight - {id}
  {
  }

  /** A returning call is always counted, and never moves the time of the last failure
      except by closing the breaker. */
  lemma ReturnIsCounted(c: Config, es: seq<Event>, n: nat, id: nat)
    requires n < |es| && es[n] == Returned(id) && id in SysAt(c, es, n).inflight
    ensures var b, b' := SysAt(c, es, n).b, SysAt(c, es, n + 1).b;
            && b'.totalSuccesses == b.totalSuccesses + 1 && b'.totalFailures == b.totalFailures
            && (b.mode.Closed? ==> b' == b.(totalSuccesses := b.totalSuccesses + 1, failureCount := 0))
            && (b.mode.Open? ==> b' == b.(totalSuccesses := b.totalSuccesses + 1))
            && (b.mode.HalfOpen? ==>
                  if b.successCount + 1 >= c.successThreshold
                  then b'.mode.Closed? && b'.failureCount == 0 && b'.lastFailure == None
                  else b' == b.(totalSuccesses := b.totalSuccesses + 1, successCount := b.successCount + 1))
    ensures SysAt(c, es, n + 1).inflight == SysAt(c, es, n).inflight - {id}
  {
  }

  /** An attempt is a call, admitted or not; an admitted one is in flight from then on. */
  lemma AttemptIsCounted(c: Config, es: seq<Event>, n: nat, now: real)
    requires n < |es| && es[n] == Attempt(now)
    ensures var s, s' := SysAt(c, es, n), SysAt(c, es, n + 1);
            var admitted := match s.b.mode
                            case Closed => true
                            case Open => s.b.lastFailure.Some? && now - s.b.lastFailure.value >= c.timeout
                            case HalfOpen => s.b.halfOpenCalls < c.halfOpenMaxCalls;
            && s'.b.totalCalls == s.b.totalCalls + 1 && s'.attempts == s.attempts + 1
            && s'.inflight.Keys == s.inflight.Keys + (if admitted then {s.attempts} else {})
            && s'.rejected == s.rejected + (if admitted then 0 else 1)
            && (s'.b.mode.HalfOpen? <==> s.b.mode.HalfOpen? || (s.b.mode.Open? && admitted))
            && (!s'.b.mode.HalfOpen? ==> s'.b.mode == s.b.mode)
  {
  }

  /** The manual steps. */
  lemma ManualSteps(c: Config, es: seq<Event>, n: nat)
    requires n < |es|
    ensures var b, b' := SysAt(c, es, n).b, SysAt(c, es, n + 1).b;
            && (es[n].ManualReset? ==> b'.mode.Closed? && b'.failureCount == 0 && b'.lastFailure == None)
            && (es[n].ManualTrip? ==>
                  b'.mode.Open? && b'.failureCount == c.failureThreshold && b'.lastFailure == Some(es[n].now))
  {
  }

  /** The number of transitions goes up by one with every change of mode and every manual
      step, and at no other time. */
  lemma StateChangesCount(c: Config, es: seq<Event>, n: nat)
    requires n < |es|
    ensures var b, b' := SysAt(c, es, n).b, SysAt(c, es, n + 1).b;
            b'.stateChanges == b.stateChanges
                               + if b'.mode != b.mode || es[n].ManualReset? || es[n].ManualTrip? then 1 else 0
  {
  }

  /** m calls, one after the other, that all raise an exception of this type; the first of
      them is attempt number `from`. */
  function FailuresInARow(from: nat, kind: nat, now: real, m: nat): (es: seq<Event>)
    ensures |es| == 2 * m
  {
    if m == 0 then []
    else FailuresInARow(from, kind, now, m - 1) + [Attempt(now), RaisedBy(from + m - 1, kind, now)]
  }

  /** A round of a call that fails at once, seen from CLOSED. */
  lemma FailingCall(c: Config, s: Sys, kind: nat, now: real)
    requires s.b.mode.Closed?
    ensures var s' := Next(c, Next(c, s, Attempt(now)), RaisedBy(s.attempts, kind, now));
            && s'.attempts == s.attempts + 1
            && if c.expected.None? || kind in c.expected.value then
                 && s'.b.failureCount == s.b.failureCount + 1
                 && s'.b.mode == if s.b.failureCount + 1 >= c.failureThreshold then Open else Closed
               else s'.b.mode.Closed? && s'.b.failureCount == s.b.failureCount
  {
  }

  lemma {:induction false} RowOfFailures(c: Config, es: seq<Event>, kind: nat, now: real, m: nat)
    requires SysAt(c, es, |es|).b.mode.Closed? && SysAt(c, es, |es|).b.failureCount == 0
    requires m <= AtLeastOne(c.failureThreshold)
    ensures var run := es + FailuresInARow(SysAt(c, es, |es|).attempts, kind, now, m);
            var s := SysAt(c, run, |run|);
            var counted := c.expected.None? || kind in c.expected.value;
            && s.attempts == SysAt(c, es, |es|).attempts + m
            && s.b.failureCount == (if counted then m else 0)
            && s.b.mode == if counted && m == AtLeastOne(c.failureThreshold) then Open else Closed
  {
    hide Next;
    var from := SysAt(c, es, |es|).attempts;
    if m == 0 {
      assert es + [] == es;
    } else {
      RowOfFailures(c, es, kind, now, m - 1);
      var run := es + FailuresInARow(from, kind, now, m - 1);
      FailingCall(c, SysAt(c, run, |run|), kind, now);
      TwoMore(c, run, Attempt(now), RaisedBy(from + m - 1, kind, now));
      assert es + FailuresInARow(from, kind, now, m)
             == run + [Attempt(now), RaisedBy(from + m - 1, kind, now)];
    }
  }

  /** From CLOSED after a success, as many calls in a row as the threshold asks for open
      the breaker exactly if the exception they raise is expected, and fewer never do. */
  lemma ExpectedFailuresOpen(c: Config, es: seq<Event>, id: nat, kind: nat, now: real, m: nat)
    requires id in SysAt(c, es, |es|).inflight && SysAt(c, es, |es|).b.mode.Closed?
    requires m <= AtLeastOne(c.failureThreshold)
    ensures var before := es + [Returned(id)];
            var run := before + FailuresInARow(SysAt(c, es, |es|).attempts, kind, now, m);
            SysAt(c, run, |run|).b.mode.Open?
            <==> m == AtLeastOne(c.failureThreshold) && (c.expected.None? || kind in c.expected.value)
  {
    var before := es + [Returned(id)];
    OneMore(c, es, Returned(id));
    RowOfFailures(c, before, kind, now, m);
    hide FailuresInARow;
  }
}
