/** Calls in flight across the breaker's phases: every interleaving of beginnings and
    ends, including ends of calls that began in an earlier phase. */
module BreakerCalls {
  import opened Machine
  import opened Breaker
  import opened BreakerHistory

  /** A call is named by the number of attempts before it. A `Cancelled` call ends by an
      exception outside the Exception hierarchy, which the breaker never sees. */
  datatype Event =
    | Attempt(now: real)
    | Returned(id: nat)
    | RaisedBy(id: nat, kind: nat, now: real)
    | Cancelled(id: nat)
    | ManualReset
    | ManualTrip(now: real)

  /** The breaker with what it does not record: which calls are in flight, each with the
      phase (numbered by stateChanges) that admitted it, and how the others ended. The
      last two fields count the calls of the present phase that have already ended. */
  datatype Sys = Sys(
    b: Counters,
    inflight: map<nat, nat>,
    attempts: nat,
    rejected: nat,
    uncounted: nat,
    phaseSuccesses: nat,
    phaseUncounted: nat)

  const START := Sys(FRESH, map[], 0, 0, 0, 0, 0)

  function OpOf(c: Config, e: Event): Op {
    match e
    case Attempt(now) => Begin(now)
    case Returned(_) => Success
    case RaisedBy(_, kind, now) => Raised(c, kind, now)
    case Cancelled(_) => Uncounted
    case ManualReset => Reset
    case ManualTrip(now) => Trip(now)
  }

  /** Only a call in flight can end. */
  predicate Possible(s: Sys, e: Event) {
    (e.Returned? || e.RaisedBy? || e.Cancelled?) ==> e.id in s.inflight
  }

  function Next(c: Config, s: Sys, e: Event): Sys {
    if !Possible(s, e) then s
    else
      var op := OpOf(c, e);
      var b := Apply(c, s.b, op);
      var samePhase := b.stateChanges == s.b.stateChanges;
      var s' := s.(b := b,
                   phaseSuccesses := if samePhase then s.phaseSuccesses else 0,
                   phaseUncounted := if samePhase then s.phaseUncounted else 0);
      if e.Attempt? then
        if Admits(c, s.b, e.now)
        then s'.(inflight := s.inflight[s.attempts := b.stateChanges], attempts := s.attempts + 1)
        else s'.(attempts := s.attempts + 1, rejected := s.rejected + 1)
      else if e.ManualReset? || e.ManualTrip? then s'
      else
        var own := samePhase && s.inflight[e.id] == s.b.stateChanges;
        s'.(inflight := s.inflight - {e.id},
            uncounted := s.uncounted + if op.Uncounted? then 1 else 0,
            phaseSuccesses := s'.phaseSuccesses + if own && op.Success? then 1 else 0,
            phaseUncounted := s'.phaseUncounted + if own && op.Uncounted? then 1 else 0)
  }

  function SysAt(c: Config, es: seq<Event>, n: nat): Sys
    requires n <= |es|
  {
    if n == 0 then START else Next(c, SysAt(c, es, n - 1), es[n - 1])
  }

  /** The calls in flight that the given phase admitted. */
  function AdmittedBy(inflight: map<nat, nat>, phase: nat): set<nat> {
    set id | id in inflight && inflight[id] == phase
  }

  ghost predicate WellTagged(s: Sys) {
    forall id :: id in s.inflight ==> id < s.attempts && s.inflight[id] <= s.b.stateChanges
  }

  /** HALF_OPEN: the admitted calls are in flight, succeeded, or ended uncounted. */
  ghost predicate ProbesAccounted(c: Config, s: Sys) {
    s.b.mode.HalfOpen? ==>
      && s.b.halfOpenCalls == |AdmittedBy(s.inflight, s.b.stateChanges)| + s.phaseSuccesses + s.phaseUncounted
      && 1 <= s.b.halfOpenCalls <= AtLeastOne(c.halfOpenMaxCalls)
      && s.phaseSuccesses <= s.b.successCount < AtLeastOne(c.successThreshold)
  }

  ghost predicate TotalsBalance(s: Sys) {
    s.b.totalCalls == s.b.totalSuccesses + s.b.totalFailures + |s.inflight| + s.rejected + s.uncounted
  }

  /** A new call in flight joins the calls of the phase that admits it. */
  lemma AttemptGrows(inflight: map<nat, nat>, id: nat, phase: nat)
    requires id !in inflight
    ensures |inflight[id := phase]| == |inflight| + 1
    ensures |AdmittedBy(inflight[id := phase], phase)| == |AdmittedBy(inflight, phase)| + 1
    ensures (forall i :: i in inflight ==> inflight[i] < phase) ==> |AdmittedBy(inflight, phase)| == 0
  {
    assert AdmittedBy(inflight[id := phase], phase) == AdmittedBy(inflight, phase) + {id};
    assert (forall i :: i in inflight ==> inflight[i] < phase) ==> AdmittedBy(inflight, phase) == {};
  }

  lemma AttemptStep(c: Config, s: Sys, now: real)
    requires WellTagged(s) && ProbesAccounted(c, s) && TotalsBalance(s)
    ensures var s' := Next(c, s, Attempt(now));
            WellTagged(s') && ProbesAccounted(c, s') && TotalsBalance(s')
  {
    AttemptGrows(s.inflight, s.attempts, Next(c, s, Attempt(now)).b.stateChanges);
    hide AdmittedBy;
    match s.b.mode
    case Closed =>
    case Open =>
    case HalfOpen =>
  }

  /** Ending a call removes it from the calls of the phase that admitted it. */
  lemma EndShrinks(inflight: map<nat, nat>, id: nat, phase: nat)
    requires id in inflight
    ensures |inflight - {id}| == |inflight| - 1
    ensures |AdmittedBy(inflight - {id}, phase)|
            == |AdmittedBy(inflight, phase)| - if inflight[id] == phase then 1 else 0
  {
    assert (inflight - {id}).Keys == inflight.Keys - {id};
    assert AdmittedBy(inflight - {id}, phase) == AdmittedBy(inflight, phase) - {id};
  }

  lemma EndStep(c: Config, s: Sys, e: Event)
    requires WellTagged(s) && ProbesAccounted(c, s) && TotalsBalance(s)
    requires (e.Returned? || e.RaisedBy? || e.Cancelled?) && Possible(s, e)
    ensures var s' := Next(c, s, e);
            WellTagged(s') && ProbesAccounted(c, s') && TotalsBalance(s')
  {
    hide AdmittedBy;
    EndShrinks(s.inflight, e.id, s.b.stateChanges);
    match OpOf(c, e)
    case Success =>
    case Failure(_) =>
    case Uncounted =>
  }

  /** In every interleaving: the probes of HALF_OPEN are accounted for and bounded, and
      every call ever attempted is in exactly one of the totals. */
  lemma {:induction false} CallsAccounted(c: Config, es: seq<Event>, n: nat)
    requires n <= |es|
    ensures var s := SysAt(c, es, n); WellTagged(s) && ProbesAccounted(c, s) && TotalsBalance(s)
  {
    if n > 0 {
      CallsAccounted(c, es, n - 1);
      var s, e := SysAt(c, es, n - 1), es[n - 1];
      if e.Attempt? {
        AttemptStep(c, s, e.now);
      } else if Possible(s, e) && !e.ManualReset? && !e.ManualTrip? {
        EndStep(c, s, e);
      }
    }
  }

  /** Every call of the run ended by a return or by an exception that counts. */
  ghost predicate AllCounted(c: Config, es: seq<Event>) {
    forall k :: 0 <= k < |es| ==> OpOf(c, es[k]) != Uncounted
  }

  lemma {:induction false} NothingUncounted(c: Config, es: seq<Event>, n: nat)
    requires n <= |es| && AllCounted(c, es)
    ensures SysAt(c, es, n).phaseUncounted == 0
  {
    if n > 0 {
      NothingUncounted(c, es, n - 1);
    }
  }

  predicate Full(c: Config, s: Sys) {
    s.b.mode.HalfOpen? && s.b.halfOpenCalls >= c.halfOpenMaxCalls
  }

  /** With a success threshold within the probe limit and every outcome counted, a full
      HALF_OPEN still waits for one of its own calls. */
  lemma FullHasProbeInFlight(c: Config, es: seq<Event>, n: nat)
    requires n <= |es| && AllCounted(c, es)
    requires c.successThreshold <= AtLeastOne(c.halfOpenMaxCalls)
    requires Full(c, SysAt(c, es, n))
    ensures var s := SysAt(c, es, n); AdmittedBy(s.inflight, s.b.stateChanges) != {}
  {
    CallsAccounted(c, es, n);
    NothingUncounted(c, es, n);
  }

  /** Full, and no call left whose end could change that. */
  predicate Wedged(c: Config, s: Sys) {
    Full(c, s) && s.inflight == map[]
  }

  /** A wedged breaker rejects every attempt at any time, for ever: nothing but a manual
      reset or trip gets it out. */
  lemma {:induction false} WedgedForever(c: Config, es: seq<Event>, n: nat, m: nat)
    requires n <= m <= |es| && Wedged(c, SysAt(c, es, n))
    requires forall k :: n <= k < m ==> !es[k].ManualReset? && !es[k].ManualTrip?
    ensures Wedged(c, SysAt(c, es, m))
    ensures forall k :: n <= k < m && es[k].Attempt? ==> !Admits(c, SysAt(c, es, k).b, es[k].now)
  {
    if n < m {
      WedgedForever(c, es, n, m - 1);
    }
  }

  /** A trip followed by k probes that all end in the same way. */
  function Probes(c: Config, k: nat, cancelled: bool): seq<Event> {
    if k == 0 then [ManualTrip(0.0)]
    else Probes(c, k - 1, cancelled)
         + [Attempt(c.timeout), ProbeEnd(k - 1, cancelled)]
  }

  lemma {:induction false} Prefix(c: Config, es: seq<Event>, more: seq<Event>, n: nat)
    requires n <= |es|
    ensures SysAt(c, es + more, n) == SysAt(c, es, n)
  {
    if n > 0 {
      Prefix(c, es, more, n - 1);
    }
  }

  /** After k such probes, none of them in flight any more. */
  ghost predicate Probed(s: Sys, k: nat, successes: int) {
    && s.inflight == map[] && s.attempts == k
    && if k == 0 then s.b.mode.Open? && s.b.lastFailure == Some(0.0)
       else s.b.mode.HalfOpen? && s.b.halfOpenCalls == k && s.b.successCount == successes
  }

  function ProbeEnd(id: nat, cancelled: bool): Event {
    if cancelled then Cancelled(id) else Returned(id)
  }

  lemma ProbeStep(c: Config, s: Sys, k: nat, cancelled: bool)
    requires Probed(s, k, if cancelled then 0 else k)
    requires k < AtLeastOne(c.halfOpenMaxCalls) && (!cancelled ==> k + 1 < c.successThreshold)
    ensures Probed(Next(c, Next(c, s, Attempt(c.timeout)), ProbeEnd(k, cancelled)), k + 1,
                   if cancelled then 0 else k + 1)
  {
  }

  lemma {:induction false} ProbesCounted(c: Config, k: nat)
    ensures AllCounted(c, Probes(c, k, false))
  {
    if k > 0 {
      ProbesCounted(c, k - 1);
    }
  }

  lemma Tripped(c: Config)
    ensures Probed(SysAt(c, [ManualTrip(0.0)], 1), 0, 0)
  {
  }

  lemma {:induction false} ProbesRun(c: Config, k: nat, cancelled: bool)
    requires k <= AtLeastOne(c.halfOpenMaxCalls)
    requires !cancelled ==> k == 0 || k < c.successThreshold
    ensures var es := Probes(c, k, cancelled);
            Probed(SysAt(c, es, |es|), k, if cancelled then 0 else k)
  {
    hide Apply, Next, Probed, SysAt;
    if k == 0 {
      Tripped(c);
    } else {
      ProbesRun(c, k - 1, cancelled);
      var before := Probes(c, k - 1, cancelled);
      TwoMore(c, before, Attempt(c.timeout), ProbeEnd(k - 1, cancelled));
      ProbeStep(c, SysAt(c, before, |before|), k - 1, cancelled);
    }
  }

  lemma TwoMore(c: Config, es: seq<Event>, e1: Event, e2: Event)
    ensures SysAt(c, es + [e1, e2], |es| + 2) == Next(c, Next(c, SysAt(c, es, |es|), e1), e2)
  {
    hide Next;
    Prefix(c, es, [e1, e2], |es|);
    assert SysAt(c, es + [e1, e2], |es| + 1) == Next(c, SysAt(c, es, |es|), e1);
  }

  /** Exactly when the breaker can wedge although every outcome is counted: when it asks
      for more successes than it admits probes. */
  lemma WedgesIffThresholdUnreachable(c: Config)
    ensures (exists es :: AllCounted(c, es) && Wedged(c, SysAt(c, es, |es|)))
            <==> c.successThreshold > AtLeastOne(c.halfOpenMaxCalls)
  {
    if c.successThreshold > AtLeastOne(c.halfOpenMaxCalls) {
      var k := AtLeastOne(c.halfOpenMaxCalls);
      ProbesRun(c, k, false);
      ProbesCounted(c, k);
      var es := Probes(c, k, false);
      assert AllCounted(c, es) && Wedged(c, SysAt(c, es, |es|));
    } else {
      forall es | AllCounted(c, es)
        ensures !Wedged(c, SysAt(c, es, |es|))
      {
        if Full(c, SysAt(c, es, |es|)) {
          FullHasProbeInFlight(c, es, |es|);
        }
      }
    }
  }

  lemma {:induction false} OpenHasTime(c: Config, es: seq<Event>, n: nat)
    requires n <= |es|
    ensures SysAt(c, es, n).b.mode.Open? ==> SysAt(c, es, n).b.lastFailure.Some?
  {
    if n > 0 {
      OpenHasTime(c, es, n - 1);
    }
  }

  /** Nobody intervenes, every call ends by a return or a counted exception, and no attempt
      is made before the given time. */
  ghost predicate Unaided(c: Config, es: seq<Event>, from: real) {
    && AllCounted(c, es)
    && forall k :: 0 <= k < |es| ==>
         !es[k].ManualReset? && !es[k].ManualTrip? && (es[k].Attempt? ==> es[k].now >= from)
  }

  /** However late it is, the breaker can still find its own way back to CLOSED. */
  ghost predicate CanRecover(c: Config, es: seq<Event>) {
    forall from: real :: Recovers(c, es, from)
  }

  ghost predicate Recovers(c: Config, es: seq<Event>, from: real) {
    exists more :: Unaided(c, more, from) && SysAt(c, es + more, |es + more|).b.mode.Closed?
  }

  lemma OneMore(c: Config, es: seq<Event>, e: Event)
    ensures SysAt(c, es + [e], |es| + 1) == Next(c, SysAt(c, es, |es|), e)
  {
    hide Next;
    Prefix(c, es, [e], |es|);
  }

  /** A half-open system in which a call can return gets one success nearer to CLOSED. */
  lemma ReturnHelps(c: Config, s: Sys, id: nat)
    requires s.b.mode.HalfOpen? && id in s.inflight
    ensures var b := Next(c, s, Returned(id)).b;
            if s.b.successCount + 1 >= c.successThreshold then b.mode.Closed?
            else b.mode.HalfOpen? && b.successCount == s.b.successCount + 1
  {
  }

  lemma AttemptHelps(c: Config, s: Sys, now: real)
    requires (s.b.mode.HalfOpen? && !Full(c, s)) || (s.b.mode.Open? && TimeoutOver(c, s.b, now))
    ensures var s' := Next(c, s, Attempt(now));
            s'.b.mode.HalfOpen? && s.attempts in s'.inflight && s'.inflight != map[]
            && (s.b.mode.HalfOpen? ==> s'.b.successCount == s.b.successCount)
  {
  }

  /** From HALF_OPEN: let a call return; if there is none, admit one first. */
  lemma {:induction false} CloseFrom(c: Config, es: seq<Event>, from: real) returns (more: seq<Event>)
    requires AllCounted(c, es) && SysAt(c, es, |es|).b.mode.HalfOpen?
    requires c.successThreshold <= AtLeastOne(c.halfOpenMaxCalls)
    ensures Unaided(c, more, from) && SysAt(c, es + more, |es + more|).b.mode.Closed?
    decreases AtLeastOne(c.successThreshold) - SysAt(c, es, |es|).b.successCount, |SysAt(c, es, |es|).inflight| == 0
  {
    hide Next, Apply;
    var s := SysAt(c, es, |es|);
    CallsAccounted(c, es, |es|);
    var e;
    if s.inflight == map[] {
      if Full(c, s) { FullHasProbeInFlight(c, es, |es|); }
      e := Attempt(from);
      AttemptHelps(c, s, from);
    } else {
      var id :| id in s.inflight;
      e := Returned(id);
      ReturnHelps(c, s, id);
    }
    OneMore(c, es, e);
    var rest := [];
    assert (es + [e]) + rest == es + [e];
    if SysAt(c, es + [e], |es + [e]|).b.mode.HalfOpen? {
      rest := CloseFrom(c, es + [e], from);
    }
    more := [e] + rest;
    assert es + more == (es + [e]) + rest;
  }

  lemma RecoverFrom(c: Config, es: seq<Event>, from: real)
    requires AllCounted(c, es) && c.successThreshold <= AtLeastOne(c.halfOpenMaxCalls)
    ensures Recovers(c, es, from)
  {
    hide Next, Apply;
    var s := SysAt(c, es, |es|);
    match s.b.mode
    case Closed =>
      assert es + [] == es;
      assert Unaided(c, [], from);
    case HalfOpen =>
      var more := CloseFrom(c, es, from);
    case Open =>
      OpenHasTime(c, es, |es|);
      var soon := s.b.lastFailure.value + c.timeout;
      var e := Attempt(if soon >= from then soon else from);
      AttemptHelps(c, s, e.now);
      OneMore(c, es, e);
      var rest := CloseFrom(c, es + [e], from);
      assert es + ([e] + rest) == (es + [e]) + rest;
      assert Unaided(c, [e] + rest, from);
  }

  /** Exactly when no counted history can keep the breaker from recovering by itself. */
  lemma RecoversIff(c: Config)
    ensures (forall es :: AllCounted(c, es) ==> CanRecover(c, es))
            <==> c.successThreshold <= AtLeastOne(c.halfOpenMaxCalls)
  {
    if c.successThreshold <= AtLeastOne(c.halfOpenMaxCalls) {
      forall es, from | AllCounted(c, es) ensures Recovers(c, es, from) {
        RecoverFrom(c, es, from);
      }
    } else {
      WedgesIffThresholdUnreachable(c);
      var es :| AllCounted(c, es) && Wedged(c, SysAt(c, es, |es|));
      if Recovers(c, es, 0.0) {
        var more :| Unaided(c, more, 0.0) && SysAt(c, es + more, |es + more|).b.mode.Closed?;
        Prefix(c, es, more, |es|);
        WedgedForever(c, es + more, |es|, |es + more|);
      }
      assert !CanRecover(c, es);
    }
  }

  /** Uncounted outcomes can wedge the breaker under every configuration. */
  lemma UncountedOutcomesWedge(c: Config)
    ensures exists es :: Wedged(c, SysAt(c, es, |es|))
  {
    var k := AtLeastOne(c.halfOpenMaxCalls);
    ProbesRun(c, k, true);
    var es := Probes(c, k, true);
    assert Wedged(c, SysAt(c, es, |es|));
  }
}
