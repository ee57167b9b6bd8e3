/** What the default limit guarantees each client over whole runs of the adapter, and
    what the per-type limits do not. */
module CourierBound {
  import opened Machine
  import opened RealArith
  import opened TokenBucket
  import opened CourierLimits
  import Runs = TokenBucketRuns

  function RegistryAt(s: Settings, reg: Limiters, ops: seq<Op>, n: nat): Limiters
    requires s.window != 0 && n <= |ops|
  {
    if n == 0 then reg else After(s, RegistryAt(s, reg, ops, n - 1), ops[n - 1])
  }

  /** The operation works on the client's own default bucket. */
  predicate Uses(s: Settings, op: Op, client: string) {
    !op.Clear? && !Typed(s, op.messageType) && op.identifier == client
  }

  /** The operation takes the client's bucket away: a clear that reaches its key, or a
      typed operation whose composed key happens to be the client's identifier. */
  predicate Replaces(s: Settings, op: Op, client: string) {
    match op
    case Clear(None, _, _) => true
    case Clear(Some(identifier), messageType, _) => KeyOf(s, identifier, messageType) == client
    case _ => Typed(s, op.messageType) && KeyOf(s, op.identifier, op.messageType) == client
  }

  /** The client's own part of a run, as steps of one bucket. */
  function Own(s: Settings, ops: seq<Op>, n: nat, client: string): seq<Runs.Op>
    requires n <= |ops|
  {
    if n == 0 then []
    else Own(s, ops, n - 1, client) + if Uses(s, ops[n - 1], client) then [BucketOp(ops[n - 1])] else []
  }

  ghost predicate Chronological(ops: seq<Op>) {
    forall j, k :: 0 <= j < k < |ops| ==> ops[j].now <= ops[k].now
  }

  /** The client's checks accepted within [t0, t1] among the first n operations. */
  function AcceptedWithin(s: Settings, reg: Limiters, ops: seq<Op>, n: nat, client: string, t0: real, t1: real): nat
    requires s.window != 0 && n <= |ops|
  {
    if n == 0 then 0
    else
      var op := ops[n - 1];
      AcceptedWithin(s, reg, ops, n - 1, client, t0, t1)
      + if Uses(s, op, client) && t0 <= op.now <= t1 && Accepted(s, RegistryAt(s, reg, ops, n - 1), op) then 1 else 0
  }

  /** A client unknown to the registry is as good as one whose bucket is full. */
  ghost predicate Tracks(s: Settings, reg: Limiters, client: string, b: Bucket, untouched: bool)
    requires s.window != 0
  {
    var c := PerWindow(s.limit, s.window);
    if client in reg then reg[client] == Limiter(c, b)
    else untouched && b.tokens == c.burst as real
  }

  lemma {:induction false} RunsPrefix(c: Config, b: Bucket, ops: seq<Runs.Op>, more: seq<Runs.Op>, n: nat,
                                      t0: real, t1: real)
    requires n <= |ops|
    ensures Runs.BucketAt(c, b, ops + more, n) == Runs.BucketAt(c, b, ops, n)
    ensures Runs.GrantedWithin(c, b, ops + more, n, t0, t1) == Runs.GrantedWithin(c, b, ops, n, t0, t1)
  {
    if n > 0 {
      RunsPrefix(c, b, ops, more, n - 1, t0, t1);
    }
  }

  lemma FullBucketStaysFull(c: Config, b: Bucket, now: real)
    requires c.rate >= 0.0 && b.lastUpdate <= now && b.tokens == c.burst as real
    ensures Level(c, b, now) == c.burst as real
    ensures c.initial.None? ==> Level(c, Fresh(c, now), now) == c.burst as real
  {
  }

  lemma OwnStep(s: Settings, reg: Limiters, op: Op, client: string, b: Bucket, untouched: bool)
    requires s.window > 0 && s.limit >= 0 && Uses(s, op, client) && Tracks(s, reg, client, b, untouched)
    requires b.lastUpdate <= op.now
    ensures var c := PerWindow(s.limit, s.window);
            && Tracks(s, After(s, reg, op), client, Runs.After(c, b, BucketOp(op)), false)
            && (Accepted(s, reg, op) <==> Runs.Granted(c, b, BucketOp(op)))
  {
    var c := PerWindow(s.limit, s.window);
    if client !in reg {
      FullBucketStaysFull(c, b, op.now);
    }
    hide Level;
  }

  lemma {:induction false} OwnChronological(s: Settings, ops: seq<Op>, n: nat, client: string)
    requires n <= |ops| && Chronological(ops)
    ensures var own := Own(s, ops, n, client);
            && Runs.Chronological(own)
            && (own != [] ==> n > 0 && own[|own| - 1].now <= ops[n - 1].now)
  {
    if n > 0 {
      OwnChronological(s, ops, n - 1, client);
      if Uses(s, ops[n - 1], client) {
        LaterStep(Own(s, ops, n - 1, client), BucketOp(ops[n - 1]));
      }
      hide Runs.Chronological, Typed;
    }
  }

  lemma LaterStep(own: seq<Runs.Op>, step: Runs.Op)
    requires Runs.Chronological(own) && (own != [] ==> own[|own| - 1].now <= step.now)
    ensures Runs.Chronological(own + [step])
  {
  }

  /** The client's part of a run so far, next to a bucket of its own. */
  ghost predicate InStep(s: Settings, reg: Limiters, ops: seq<Op>, n: nat, client: string, b: Bucket,
                         t0: real, t1: real)
    requires s.window != 0 && n <= |ops|
  {
    var c, own := PerWindow(s.limit, s.window), Own(s, ops, n, client);
    && Tracks(s, RegistryAt(s, reg, ops, n), client, Runs.BucketAt(c, b, own, |own|), own == [])
    && AcceptedWithin(s, reg, ops, n, client, t0, t1) as real == Runs.GrantedWithin(c, b, own, |own|, t0, t1)
  }

  lemma OwnInStep(s: Settings, reg: Limiters, ops: seq<Op>, n: nat, client: string, b: Bucket, t0: real, t1: real)
    requires s.window > 0 && s.limit >= 0 && n < |ops| && Chronological(ops) && b.lastUpdate <= ops[n].now
    requires Uses(s, ops[n], client) && InStep(s, reg, ops, n, client, b, t0, t1)
    ensures InStep(s, reg, ops, n + 1, client, b, t0, t1)
  {
    hide After, Accepted, Tracks, Uses, PerWindow, Runs.After, Runs.Chronological, Grants;
    var c, own := PerWindow(s.limit, s.window), Own(s, ops, n, client);
    var step := BucketOp(ops[n]);
    OwnChronological(s, ops, n, client);
    LastUpdateAtOwn(c, b, own, |own|);
    hide Chronological;
    OwnStep(s, RegistryAt(s, reg, ops, n), ops[n], client, Runs.BucketAt(c, b, own, |own|), own == []);
    RunsPrefix(c, b, own, [step], |own|, t0, t1);
    assert Own(s, ops, n + 1, client) == own + [step];
    assert Runs.BucketAt(c, b, own + [step], |own| + 1) == Runs.After(c, Runs.BucketAt(c, b, own, |own|), step);
  }

  /** Other clients do not matter: the client's decisions in the run are those of a
      bucket of its own that sees nothing but the client's own operations. */
  lemma {:induction false} OwnBucketDecides(s: Settings, reg: Limiters, ops: seq<Op>, n: nat, client: string,
                                            b: Bucket, t0: real, t1: real)
    requires s.window > 0 && s.limit >= 0 && n <= |ops| && Chronological(ops)
    requires forall k :: 0 <= k < n ==> !Replaces(s, ops[k], client) && b.lastUpdate <= ops[k].now
    requires Tracks(s, reg, client, b, true)
    ensures InStep(s, reg, ops, n, client, b, t0, t1)
  {
    if n > 0 {
      OwnBucketDecides(s, reg, ops, n - 1, client, b, t0, t1);
      var op := ops[n - 1];
      if Uses(s, op, client) {
        OwnInStep(s, reg, ops, n - 1, client, b, t0, t1);
      } else {
        var c, own := PerWindow(s.limit, s.window), Own(s, ops, n - 1, client);
        TracksKept(s, RegistryAt(s, reg, ops, n - 1), op, client, Runs.BucketAt(c, b, own, |own|), own == []);
        hide After, Accepted, Tracks;
        assert Own(s, ops, n, client) == own;
      }
    }
  }

  lemma TracksKept(s: Settings, reg: Limiters, op: Op, client: string, b: Bucket, untouched: bool)
    requires s.window != 0 && !Uses(s, op, client) && !Replaces(s, op, client)
    requires Tracks(s, reg, client, b, untouched)
    ensures Tracks(s, After(s, reg, op), client, b, untouched)
  {
  }

  lemma LastUpdateAtOwn(c: Config, b: Bucket, ops: seq<Runs.Op>, n: nat)
    requires n <= |ops|
    ensures Runs.BucketAt(c, b, ops, n).lastUpdate == if n == 0 then b.lastUpdate else ops[n - 1].now
  {
  }

  /** `limit` requests at once, and `limit` more for every window of the span. */
  function Allowance(limit: real, window: real, span: real): real
    requires window > 0.0
  {
    limit * (1.0 + span / window)
  }

  lemma SpreadEvenly(limit: real, window: real, span: real)
    requires window > 0.0
    ensures limit + Gain(limit / window, span) == Allowance(limit, window, span)
  {
  }

  /** The default limit over whole runs: within any span of time a client gets at most
      limit * (1 + span / window) accepted checks, whatever the other clients do. */
  lemma DefaultLimitHolds(s: Settings, reg: Limiters, ops: seq<Op>, n: nat, client: string, b: Bucket,
                          t0: real, t1: real)
    requires s.window > 0 && s.limit >= 0 && n <= |ops| && Chronological(ops) && t0 <= t1
    requires forall k :: 0 <= k < n ==> !Replaces(s, ops[k], client) && b.lastUpdate <= ops[k].now
    requires Tracks(s, reg, client, b, true)
    ensures AcceptedWithin(s, reg, ops, n, client, t0, t1) as real
            <= Allowance(s.limit as real, s.window as real, t1 - t0)
  {
    hide Gain, Allowance;
    var c, own := PerWindow(s.limit, s.window), Own(s, ops, n, client);
    OwnBucketDecides(s, reg, ops, n, client, b, t0, t1);
    OwnChronological(s, ops, n, client);
    Runs.WindowBound(c, b, own, t0, t1);
    SpreadEvenly(s.limit as real, s.window as real, t1 - t0);
  }

  /** The guarantee for an adapter from its start. */
  lemma LimitFromStart(s: Settings, ops: seq<Op>, n: nat, client: string, t0: real, t1: real)
    requires s.window > 0 && s.limit >= 0 && n <= |ops| && Chronological(ops) && t0 <= t1
    requires forall k :: 0 <= k < n ==> !Replaces(s, ops[k], client)
    ensures AcceptedWithin(s, map[], ops, n, client, t0, t1) as real
            <= Allowance(s.limit as real, s.window as real, t1 - t0)
  {
    var b := Bucket(s.limit as real, if ops == [] then 0.0 else ops[0].now);
    DefaultLimitHolds(s, map[], ops, n, client, b, t0, t1);
  }

  /** Waiting out the reported number of seconds is enough for one token, and at most one
      second too long. */
  lemma WaitedEnough(l: Limiter, now: real)
    requires l.config.rate > 0.0 && l.config.burst >= 1
    ensures RetryAfter(l, now).Some?
    ensures var seconds := RetryAfter(l, now).value;
            && seconds >= 0 && (seconds == 0 <==> Grants(l.config, l.bucket, now, 1.0))
            && (seconds > 0 ==> (seconds - 1) as real <= Wait(l.config, l.bucket, now, 1.0))
            && Grants(l.config, Refilled(l.config, l.bucket, now), now + seconds as real, 1.0)
            && seconds as real <= Wait(l.config, l.bucket, now, 1.0) + 1.0
  {
    var c := l.config;
    var missing := 1.0 - Level(c, l.bucket, now);
    DelayMonotone(c.rate, 0.0, missing);
    assert Delay(c.rate, missing) == missing / c.rate;
    var seconds := RetryAfter(l, now).value;
    WaitShrinks(c, l.bucket, now, now + seconds as real, 1.0);
    RefillsCompose(c, l.bucket, now, now + seconds as real);
    WaitPositive(c, l.bucket, now + seconds as real);
    hide Gain, Delay;
  }

  lemma WaitPositive(c: Config, b: Bucket, t: real)
    requires c.rate > 0.0
    ensures Wait(c, b, t, 1.0) > 0.0 <==> !Grants(c, b, t, 1.0)
  {
  }

  /** Operations that leave a client's entry in the registry alone keep it as it was. */
  lemma {:induction false} EntryKept(s: Settings, reg: Limiters, ops: seq<Op>, n: nat, client: string)
    requires s.window != 0 && n <= |ops| && client in reg
    requires forall k :: 0 <= k < n ==> !Uses(s, ops[k], client) && !Replaces(s, ops[k], client)
    ensures var after := RegistryAt(s, reg, ops, n); client in after && after[client] == reg[client]
  {
    if n > 0 {
      EntryKept(s, reg, ops, n - 1, client);
      EntryKeptStep(s, RegistryAt(s, reg, ops, n - 1), ops[n - 1], client);
      hide After, Uses, Replaces;
    }
  }

  lemma EntryKeptStep(s: Settings, reg: Limiters, op: Op, client: string)
    requires s.window != 0 && client in reg && !Uses(s, op, client) && !Replaces(s, op, client)
    ensures var after := After(s, reg, op); client in after && after[client] == reg[client]
  {
  }

  /** The limiter that an operation on this identifier and type finds. */
  function Found(s: Settings, reg: Limiters, identifier: string, messageType: Option<string>, now: real): Limiter
    requires s.window != 0
  {
    LookedUp(s, reg, identifier, messageType, now)[KeyOf(s, identifier, messageType)]
  }

  /** The report of the adapter is kept under any limit of at least one: a check of the same
      identifier and type comes through after the reported seconds, whatever other clients
      do in between, and the report exceeds the true wait by at most a second. */
  lemma RetryAfterSuffices(s: Settings, reg: Limiters, identifier: string, messageType: Option<string>, now: real,
                           limit: int, others: seq<Op>)
    requires s.window > 0 && limit >= 1
    requires Found(s, reg, identifier, messageType, now).config == PerWindow(limit, s.window)
    requires !Typed(s, messageType) ==>
               forall k :: 0 <= k < |others| ==> !Uses(s, others[k], identifier) && !Replaces(s, others[k], identifier)
    ensures var l := Found(s, reg, identifier, messageType, now);
            && RetryAfter(l, now).Some? && RetryAfter(l, now).value >= 0
            && RetryAfter(l, now).value as real <= Wait(l.config, l.bucket, now, 1.0) + 1.0
            && (RetryAfter(l, now).value == 0 <==> Accepted(s, reg, Check(identifier, messageType, now)))
            && (RetryAfter(l, now).value > 0 ==>
                  (RetryAfter(l, now).value - 1) as real <= Wait(l.config, l.bucket, now, 1.0))
            && var after := RegistryAt(s, After(s, reg, Ask(identifier, messageType, now)), others, |others|);
               Accepted(s, after, Check(identifier, messageType, now + RetryAfter(l, now).value as real))
  {
    hide RegistryAt, Level, RetryAfter, Wait;
    var l := Found(s, reg, identifier, messageType, now);
    RatePositive(limit as real, s.window as real);
    WaitedEnough(l, now);
    var later := now + RetryAfter(l, now).value as real;
    var asked := After(s, reg, Ask(identifier, messageType, now));
    if Typed(s, messageType) {
      TypedChecksUnlimited(s, RegistryAt(s, asked, others, |others|), identifier, messageType, later);
    } else {
      assert identifier in asked && asked[identifier] == Limiter(l.config, Refilled(l.config, l.bucket, now));
      EntryKept(s, asked, others, |others|, identifier);
    }
    hide After;
  }

  lemma RatePositive(limit: real, window: real)
    requires limit >= 1.0 && window > 0.0
    ensures limit / window > 0.0
  {
  }

  /** A configured per-type limit refuses nothing: each check installs a full bucket
      first, so it is accepted exactly when the limit is at least one, however many
      checks went before. */
  lemma TypedChecksUnlimited(s: Settings, reg: Limiters, identifier: string, messageType: Option<string>, now: real)
    requires s.window != 0 && Typed(s, messageType)
    ensures Accepted(s, reg, Check(identifier, messageType, now)) <==> s.perType[messageType.value] >= 1
  {
    var c := PerWindow(s.perType[messageType.value], s.window);
    assert Gain(c.rate, 0.0) == 0.0;
    assert Level(c, Fresh(c, now), now) == c.burst as real;
  }
}
