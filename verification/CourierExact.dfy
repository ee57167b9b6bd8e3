/** Which default checks the adapter accepts, exactly: in the configured limit and window,
    and the client's own accepted checks so far. */
module CourierExact {
  import opened Machine
  import opened RealArith
  import opened TokenBucket
  import opened CourierLimits
  import opened CourierBound
  import Runs = TokenBucketRuns

  /** One more accepted check would stay within the allowance of the span since t0. */
  predicate RoomSince(s: Settings, reg: Limiters, ops: seq<Op>, n: nat, client: string, t0: real, now: real)
    requires s.window > 0 && n <= |ops|
  {
    AcceptedWithin(s, reg, ops, n, client, t0, now) as real + 1.0
    <= Allowance(s.limit as real, s.window as real, now - t0)
  }

  /** Steps within a span of time that take single tokens. */
  ghost predicate SingleSteps(own: seq<Runs.Op>, from: real, to: real) {
    forall j :: 0 <= j < |own| ==> from <= own[j].now <= to && (own[j].Take? ==> own[j].amount == 1.0)
  }

  lemma {:induction false} OwnSteps(s: Settings, ops: seq<Op>, n: nat, client: string, from: real, to: real)
    requires n <= |ops| && forall k :: 0 <= k < n ==> from <= ops[k].now <= to
    ensures SingleSteps(Own(s, ops, n, client), from, to)
  {
    if n > 0 {
      OwnSteps(s, ops, n - 1, client, from, to);
      OneMoreStep(Own(s, ops, n - 1, client), ops[n - 1], from, to);
      assert Own(s, ops, n - 1, client) + [] == Own(s, ops, n - 1, client);
      hide Uses, SingleSteps;
    }
  }

  lemma OneMoreStep(own: seq<Runs.Op>, op: Op, from: real, to: real)
    requires SingleSteps(own, from, to) && from <= op.now <= to
    ensures SingleSteps(own + [BucketOp(op)], from, to)
  {
    assert BucketOp(op).Take? ==> BucketOp(op).amount == 1.0;
  }

  lemma SameRoom(s: Settings, reg: Limiters, ops: seq<Op>, n: nat, client: string, b: Bucket, t0: real, now: real)
    requires s.window > 0 && n <= |ops| && InStep(s, reg, ops, n, client, b, t0, now)
    ensures var c, own := PerWindow(s.limit, s.window), Own(s, ops, n, client);
            RoomSince(s, reg, ops, n, client, t0, now) <==> Runs.RoomIn(c, b, own, |own|, t0, now, 1.0)
  {
    hide Gain, Allowance, AcceptedWithin, Own, Runs.GrantedWithin, Tracks;
    SpreadEvenly(s.limit as real, s.window as real, now - t0);
  }

  /** A client that the registry does not know, from the first operation on, as long as
      nobody replaces its bucket: a check is accepted exactly if, for every span that ends
      now, the accepted checks of the span and this one fit in its allowance. */
  lemma AcceptedIffRoom(s: Settings, reg: Limiters, ops: seq<Op>, n: nat, client: string)
    requires s.window > 0 && s.limit >= 0 && n < |ops| && Chronological(ops) && client !in reg
    requires forall k :: 0 <= k < n ==> !Replaces(s, ops[k], client)
    requires ops[n].Check? && ops[n].identifier == client && !Typed(s, ops[n].messageType)
    ensures Accepted(s, RegistryAt(s, reg, ops, n), ops[n])
            <==> forall t0 :: t0 <= ops[n].now ==> RoomSince(s, reg, ops, n, client, t0, ops[n].now)
  {
    hide RoomSince, Runs.RoomIn, Accepted, Replaces, Grants, Own, Runs.BucketAt, RegistryAt, After, Chronological;
    var c, own, now := PerWindow(s.limit, s.window), Own(s, ops, n, client), ops[n].now;
    var b := Bucket(s.limit as real, ops[0].now);
    ChronologicalTo(ops, n);
    OwnDecision(s, reg, ops, n, client, b);
    OwnSteps(s, ops, n, client, ops[0].now, now);
    OwnChronological(s, ops, n, client);
    RateNonNegative(s.limit as real, s.window as real);
    Runs.GrantsIffRoom(c, b, own, |own|, now, 1.0);
    forall t0 | t0 <= now
      ensures RoomSince(s, reg, ops, n, client, t0, now) <==> Runs.RoomIn(c, b, own, |own|, t0, now, 1.0)
    {
      OwnBucketDecides(s, reg, ops, n, client, b, t0, now);
      SameRoom(s, reg, ops, n, client, b, t0, now);
    }
  }

  lemma ChronologicalTo(ops: seq<Op>, n: nat)
    requires n < |ops| && Chronological(ops)
    ensures forall k :: 0 <= k <= n ==> ops[0].now <= ops[k].now <= ops[n].now
  {
  }

  /** The check is decided by the client's own bucket. */
  lemma OwnDecision(s: Settings, reg: Limiters, ops: seq<Op>, n: nat, client: string, b: Bucket)
    requires s.window > 0 && s.limit >= 0 && n < |ops| && Chronological(ops) && client !in reg
    requires forall k :: 0 <= k < n ==> !Replaces(s, ops[k], client)
    requires ops[n].Check? && ops[n].identifier == client && !Typed(s, ops[n].messageType)
    requires b == Bucket(s.limit as real, ops[0].now)
    ensures var c, own := PerWindow(s.limit, s.window), Own(s, ops, n, client);
            Accepted(s, RegistryAt(s, reg, ops, n), ops[n])
            <==> Grants(c, Runs.BucketAt(c, b, own, |own|), ops[n].now, 1.0)
  {
    hide Accepted, Replaces, Grants, Own, Runs.BucketAt, RegistryAt, After, Chronological, Runs.GrantedWithin;
    var c, own, now := PerWindow(s.limit, s.window), Own(s, ops, n, client), ops[n].now;
    ChronologicalTo(ops, n);
    OwnBucketDecides(s, reg, ops, n, client, b, now, now);
    LastUpdateAtOwn(c, b, own, |own|);
    OwnChronological(s, ops, n, client);
    OwnStep(s, RegistryAt(s, reg, ops, n), ops[n], client, Runs.BucketAt(c, b, own, |own|), own == []);
  }

  lemma RateNonNegative(limit: real, window: real)
    requires limit >= 0.0 && window > 0.0
    ensures limit / window >= 0.0
  {
  }

  /** A burst: m checks of the client at the same time. */
  ghost predicate AllAtOnce(ops: seq<Op>, client: string, now: real) {
    forall k :: 0 <= k < |ops| ==> ops[k] == Check(client, None, now)
  }

  lemma {:induction false} OneInstant(s: Settings, reg: Limiters, ops: seq<Op>, n: nat, client: string,
                                      now: real, t0: real)
    requires s.window > 0 && n <= |ops| && AllAtOnce(ops, client, now) && t0 <= now
    ensures AcceptedWithin(s, reg, ops, n, client, t0, now) == AcceptedWithin(s, reg, ops, n, client, now, now)
  {
    hide Accepted, Uses;
    if n > 0 {
      OneInstant(s, reg, ops, n - 1, client, now, t0);
    }
  }

  lemma AllowanceGrows(limit: real, window: real, span: real)
    requires limit >= 0.0 && window > 0.0 && span >= 0.0
    ensures Allowance(limit, window, span) >= limit
    ensures Allowance(limit, window, 0.0) == limit
  {
    assert span / window >= 0.0;
    var stretch := 1.0 + span / window;
    ProductMonotone(1.0, stretch, limit);
  }

  /** In one instant the span that ends now and begins now decides. */
  lemma InstantRoom(s: Settings, reg: Limiters, ops: seq<Op>, n: nat, client: string, now: real)
    requires s.window > 0 && s.limit >= 0 && n <= |ops| && AllAtOnce(ops, client, now)
    ensures (forall t0 :: t0 <= now ==> RoomSince(s, reg, ops, n, client, t0, now))
            <==> AcceptedWithin(s, reg, ops, n, client, now, now) + 1 <= s.limit
  {
    hide AcceptedWithin, Allowance, AllAtOnce;
    AllowanceGrows(s.limit as real, s.window as real, 0.0);
    assert RoomSince(s, reg, ops, n, client, now, now)
           <==> AcceptedWithin(s, reg, ops, n, client, now, now) + 1 <= s.limit;
    if AcceptedWithin(s, reg, ops, n, client, now, now) + 1 <= s.limit {
      forall t0 | t0 <= now ensures RoomSince(s, reg, ops, n, client, t0, now) {
        OneInstant(s, reg, ops, n, client, now, t0);
        AllowanceGrows(s.limit as real, s.window as real, now - t0);
      }
    }
  }

  /** A client that is new to the registry, or has just been cleared, gets exactly `limit`
      checks accepted in one instant. */
  lemma {:induction false} BurstIsLimit(s: Settings, reg: Limiters, ops: seq<Op>, n: nat, client: string, now: real)
    requires s.window > 0 && s.limit >= 0 && n <= |ops| && AllAtOnce(ops, client, now) && client !in reg
    ensures AcceptedWithin(s, reg, ops, n, client, now, now) == if n <= s.limit then n else s.limit
  {
    hide RoomSince, Accepted, RegistryAt;
    if n > 0 {
      BurstIsLimit(s, reg, ops, n - 1, client, now);
      AcceptedIffRoom(s, reg, ops, n - 1, client);
      InstantRoom(s, reg, ops, n - 1, client, now);
      assert Uses(s, ops[n - 1], client);
    }
  }

  /** A clear takes out exactly what it names: one key, that of the type if it has a limit
      of its own, or everything. */
  lemma ClearForgets(s: Settings, reg: Limiters, identifier: string, messageType: Option<string>, now: real)
    requires s.window != 0
    ensures After(s, reg, Clear(None, messageType, now)) == map[]
    ensures var after := After(s, reg, Clear(Some(identifier), messageType, now));
            var typed := messageType.Some? && messageType.value != "" && messageType.value in s.perType;
            var key := if typed then identifier + ":" + messageType.value else identifier;
            && key !in after
            && forall k :: k != key ==> (k in after <==> k in reg) && (k in reg ==> after[k] == reg[k])
  {
  }

  /** A full bucket for n requests per window. */
  function FullFor(n: int, window: int, now: real): Limiter
    requires window != 0
  {
    Limiter(Config(n as real / window as real, n, None), Bucket(n as real, now))
  }

  /** What a lookup finds or installs: a full bucket of the type's own limit every time, or
      of the default limit if the identifier is new; nobody else's entry moves. */
  lemma LookupMeans(s: Settings, reg: Limiters, identifier: string, messageType: Option<string>, now: real)
    requires s.window != 0
    ensures var typed := messageType.Some? && messageType.value != "" && messageType.value in s.perType;
            var key := if typed then identifier + ":" + messageType.value else identifier;
            var found := LookedUp(s, reg, identifier, messageType, now);
            && key in found
            && (forall k :: k != key ==> (k in found <==> k in reg) && (k in reg ==> found[k] == reg[k]))
            && (typed ==> found[key] == FullFor(s.perType[messageType.value], s.window, now))
            && (!typed && key in reg ==> found[key] == reg[key])
            && (!typed && key !in reg ==> found[key] == FullFor(s.limit, s.window, now))
  {
  }

  /** Under a limit of zero the question when to retry has no answer but an error. */
  lemma NoRetryUnderZero(s: Settings, reg: Limiters, identifier: string, messageType: Option<string>, now: real)
    requires s.window > 0 && Found(s, reg, identifier, messageType, now).config == PerWindow(0, s.window)
    ensures RetryAfter(Found(s, reg, identifier, messageType, now), now) == None
    ensures !Accepted(s, reg, Check(identifier, messageType, now))
  {
    var l := Found(s, reg, identifier, messageType, now);
    assert l.config.burst == 0 && l.config.rate == 0.0;
    assert Level(l.config, l.bucket, now) <= 0.0;
    hide Gain;
  }
}
