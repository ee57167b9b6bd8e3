/** The per-client rate limits of Courier: a registry of token buckets behind an adapter
    that picks the bucket by identifier and, for configured message types, by type. */
module CourierLimits {
  import opened Machine
  import opened RealArith
  import opened TokenBucket
  import Runs = TokenBucketRuns

  datatype Limiter = Limiter(config: Config, bucket: Bucket)

  /** A registry as a value: each key with its limiter. */
  type Limiters = map<string, Limiter>

  class RateLimiterRegistry {
    const defaultConfig: Config
    var limiters: map<string, TokenBucket>

    constructor (defaultConfig: Config)
      ensures this.defaultConfig == defaultConfig && Valid() && View() == map[]
      ensures fresh(limiters.Values)
    {
      this.defaultConfig := defaultConfig;
      this.limiters := map[];
    }

    /** No two keys share a bucket. */
    ghost predicate Valid()
      reads this
    {
      forall j, k :: j in limiters && k in limiters && j != k ==> limiters[j] != limiters[k]
    }

    ghost function View(): Limiters
      reads this, limiters.Values
    {
      map k | k in limiters :: Limiter(limiters[k].config, limiters[k].View())
    }

    /** Changing the bucket of one key changes the entry of that key. */
    twostate lemma OneBucketChanged(key: string)
      requires old(Valid()) && limiters == old(limiters) && key in limiters
      requires forall k :: k in limiters && limiters[k] != limiters[key] ==>
                 limiters[k].View() == old(limiters[k].View())
      ensures View() == old(View())[key := Limiter(limiters[key].config, limiters[key].View())]
    {
    }

    method GetLimiter(key: string, now: real) returns (limiter: TokenBucket)
      requires Valid()
      modifies this
      ensures Valid() && fresh(limiters.Values - old(limiters.Values))
      ensures key in limiters && limiter == limiters[key]
      ensures View() == if key in old(limiters) then old(View())
                        else old(View())[key := Limiter(defaultConfig, Fresh(defaultConfig, now))]
    {
      if key !in limiters {
        var created := new TokenBucket(defaultConfig, now);
        limiters := limiters[key := created];
      }
      limiter := limiters[key];
    }

    method SetLimiter(key: string, config: Config, now: real) returns (limiter: TokenBucket)
      requires Valid()
      modifies this
      ensures Valid() && fresh(limiters.Values - old(limiters.Values))
      ensures key in limiters && limiter == limiters[key]
      ensures View() == old(View())[key := Limiter(config, Fresh(config, now))]
    {
      limiter := new TokenBucket(config, now);
      limiters := limiters[key := limiter];
    }

    method RemoveLimiter(key: string)
      requires Valid()
      modifies this
      ensures Valid() && limiters.Values <= old(limiters.Values)
      ensures View() == old(View()) - {key}
    {
      if key in limiters {
        limiters := limiters - {key};
      }
    }

    method ClearAll()
      modifies this
      ensures Valid() && limiters.Values == {} && View() == map[]
    {
      limiters := map[];
    }
  }

  datatype Settings = Settings(limit: int, window: int, perType: map<string, int>)

  /** `limit` requests per `window` seconds: as a burst and, evenly spread, as a rate. */
  function PerWindow(limit: int, window: int): Config
    requires window != 0
  {
    Config(limit as real / window as real, limit, None)
  }

  predicate Typed(s: Settings, messageType: Option<string>) {
    messageType.Some? && messageType.value != "" && messageType.value in s.perType
  }

  function KeyOf(s: Settings, identifier: string, messageType: Option<string>): string {
    if Typed(s, messageType) then identifier + ":" + messageType.value else identifier
  }

  /** The registry after its lookup: an untyped lookup creates what is missing, a typed
      one installs a new bucket each time. */
  function LookedUp(s: Settings, reg: Limiters, identifier: string, messageType: Option<string>, now: real): Limiters
    requires s.window != 0
  {
    var key := KeyOf(s, identifier, messageType);
    if Typed(s, messageType) then
      var config := PerWindow(s.perType[messageType.value], s.window);
      reg[key := Limiter(config, Fresh(config, now))]
    else if key in reg then reg
    else
      var config := PerWindow(s.limit, s.window);
      reg[key := Limiter(config, Fresh(config, now))]
  }

  datatype Op =
    | Check(identifier: string, messageType: Option<string>, now: real)
    | Ask(identifier: string, messageType: Option<string>, now: real)
    | Clear(who: Option<string>, messageType: Option<string>, now: real)

  /** What an operation does to the bucket it looked up. */
  function BucketOp(op: Op): Runs.Op {
    if op.Check? then Runs.Take(op.now, 1.0) else Runs.Look(op.now)
  }

  function After(s: Settings, reg: Limiters, op: Op): Limiters
    requires s.window != 0
  {
    match op
    case Clear(None, _, _) => map[]
    case Clear(Some(identifier), messageType, _) => reg - {KeyOf(s, identifier, messageType)}
    case _ =>
      var key := KeyOf(s, op.identifier, op.messageType);
      var found := LookedUp(s, reg, op.identifier, op.messageType, op.now);
      found[key := found[key].(bucket := Runs.After(found[key].config, found[key].bucket, BucketOp(op)))]
  }

  predicate Accepted(s: Settings, reg: Limiters, op: Op)
    requires s.window != 0
  {
    op.Check? &&
    var found := LookedUp(s, reg, op.identifier, op.messageType, op.now)[KeyOf(s, op.identifier, op.messageType)];
    Grants(found.config, found.bucket, op.now, 1.0)
  }

  /** `int()` on a float. */
  function Truncate(x: real): int {
    if x >= 0.0 then x.Floor else -((-x).Floor)
  }

  /** None is the ZeroDivisionError of a rate of zero. */
  function RetryAfter(l: Limiter, now: real): Option<int> {
    var available := Level(l.config, l.bucket, now);
    if available >= 1.0 then Some(0)
    else if l.config.rate == 0.0 then None
    else Some(Truncate((1.0 - available) / l.config.rate) + 1)
  }

  class RateLimiter {
    const settings: Settings
    const registry: RateLimiterRegistry

    constructor (settings: Settings)
      requires settings.window != 0
      ensures this.settings == settings && Valid() && registry.View() == map[]
      ensures fresh(registry) && fresh(registry.limiters.Values)
    {
      this.settings := settings;
      this.registry := new RateLimiterRegistry(PerWindow(settings.limit, settings.window));
    }

    ghost predicate Valid()
      reads this, registry
    {
      && settings.window != 0 && registry.Valid()
      && registry.defaultConfig == PerWindow(settings.limit, settings.window)
    }

    method GetLimiter(identifier: string, messageType: Option<string>, now: real) returns (limiter: TokenBucket)
      requires Valid()
      modifies registry
      ensures Valid() && fresh(registry.limiters.Values - old(registry.limiters.Values))
      ensures var key := KeyOf(settings, identifier, messageType);
              key in registry.limiters && limiter == registry.limiters[key]
      ensures registry.View() == LookedUp(settings, old(registry.View()), identifier, messageType, now)
    {
      var key := KeyOf(settings, identifier, messageType);
      if Typed(settings, messageType) {
        limiter := registry.SetLimiter(key, PerWindow(settings.perType[messageType.value], settings.window), now);
      } else {
        limiter := registry.GetLimiter(key, now);
      }
    }

    method CheckRateLimit(identifier: string, messageType: Option<string>, now: real) returns (allowed: bool)
      requires Valid()
      modifies registry, registry.limiters.Values
      ensures Valid() && fresh(registry.limiters.Values - old(registry.limiters.Values))
      ensures registry.View() == After(settings, old(registry.View()), Check(identifier, messageType, now))
      ensures allowed == Accepted(settings, old(registry.View()), Check(identifier, messageType, now))
    {
      hide Level, Gain, Fresh;
      var limiter := GetLimiter(identifier, messageType, now);
      assert registry.View()[KeyOf(settings, identifier, messageType)] == Limiter(limiter.config, limiter.View());
      hide RateLimiterRegistry.View;
      label Before:
      allowed := limiter.TryAcquire(now, 1.0);
      registry.OneBucketChanged@Before(KeyOf(settings, identifier, messageType));
    }

    method GetRetryAfterSeconds(identifier: string, messageType: Option<string>, now: real)
      returns (seconds: Option<int>)
      requires Valid()
      modifies registry, registry.limiters.Values
      ensures Valid() && fresh(registry.limiters.Values - old(registry.limiters.Values))
      ensures registry.View() == After(settings, old(registry.View()), Ask(identifier, messageType, now))
      ensures seconds == RetryAfter(LookedUp(settings, old(registry.View()), identifier, messageType, now)
                                      [KeyOf(settings, identifier, messageType)], now)
    {
      hide Level, Gain, Fresh, Truncate;
      var limiter := GetLimiter(identifier, messageType, now);
      assert registry.View()[KeyOf(settings, identifier, messageType)] == Limiter(limiter.config, limiter.View());
      hide RateLimiterRegistry.View;
      label Before:
      var available := limiter.AvailableTokens(now);
      registry.OneBucketChanged@Before(KeyOf(settings, identifier, messageType));
      if available >= 1.0 { return Some(0); }
      if limiter.config.rate == 0.0 { return None; }
      var needed := 1.0 - available;
      seconds := Some(Truncate(needed / limiter.config.rate) + 1);
    }

    method ClearLimits(identifier: Option<string>, messageType: Option<string>, now: real)
      requires Valid()
      modifies registry
      ensures Valid() && registry.limiters.Values <= old(registry.limiters.Values)
      ensures registry.View() == After(settings, old(registry.View()), Clear(identifier, messageType, now))
    {
      if identifier.None? {
        registry.ClearAll();
      } else {
        registry.RemoveLimiter(KeyOf(settings, identifier.value, messageType));
      }
    }
  }
}
