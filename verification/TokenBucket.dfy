/** The token bucket: refills, acquisitions and the waiting loop, over real time. */
module TokenBucket {
  import opened Machine
  import opened RealArith

  datatype Config = Config(rate: real, burst: int, initial: Option<int>)

  datatype Bucket = Bucket(tokens: real, lastUpdate: real)

  function Fresh(c: Config, now: real): Bucket {
    Bucket(if c.initial.Some? then c.initial.value as real else c.burst as real, now)
  }

  /** The level that a refill at time t would find: the bucket fills at `rate` up to `burst`. */
  function Level(c: Config, b: Bucket, t: real): real {
    Min(b.tokens + Gain(c.rate, t - b.lastUpdate), c.burst as real)
  }

  function Refilled(c: Config, b: Bucket, now: real): Bucket {
    Bucket(Level(c, b, now), now)
  }

  predicate Grants(c: Config, b: Bucket, now: real, amount: real) {
    Level(c, b, now) >= amount
  }

  function Taken(c: Config, b: Bucket, now: real, amount: real): Bucket {
    Bucket(Level(c, b, now) - if Grants(c, b, now, amount) then amount else 0.0, now)
  }

  /** Seconds until `amount` is there, from the level found at time t. */
  function Wait(c: Config, b: Bucket, t: real, amount: real): real
    requires c.rate > 0.0
  {
    if Level(c, b, t) >= amount then 0.0 else Delay(c.rate, amount - Level(c, b, t))
  }

  /** Refills compose: a refill in between changes nothing later. */
  lemma RefillsCompose(c: Config, b: Bucket, t1: real, t2: real)
    requires c.rate >= 0.0 && t1 <= t2
    ensures Level(c, Refilled(c, b, t1), t2) == Level(c, b, t2)
  {
    hide Gain;
    GainAdd(c.rate, t1 - b.lastUpdate, t2 - t1);
    GainPositive(c.rate, t2 - t1);
  }

  /** As long as the bucket is short of an amount it can hold, waiting shortens the wait
      second by second. */
  lemma WaitShrinks(c: Config, b: Bucket, t1: real, t2: real, amount: real)
    requires c.rate > 0.0 && t1 <= t2 && amount <= c.burst as real
    ensures Wait(c, b, t2, amount) > 0.0 ==> Wait(c, b, t2, amount) == Wait(c, b, t1, amount) - (t2 - t1)
    ensures Wait(c, b, t2, amount) > 0.0 <==> Wait(c, b, t1, amount) > t2 - t1
  {
    hide Gain, Delay;
    GainAdd(c.rate, t1 - b.lastUpdate, t2 - t1);
    GainPositive(c.rate, t2 - t1);
    var missing := amount - b.tokens - Gain(c.rate, t1 - b.lastUpdate);
    DelayShift(c.rate, missing, t2 - t1);
    DelayMonotone(c.rate, 0.0, missing);
    DelayMonotone(c.rate, 0.0, missing - Gain(c.rate, t2 - t1));
  }

  datatype Acquisition = Acquired | Exceeded(retryAfter: real)

  class TokenBucket {
    const config: Config
    var tokens: real
    var lastUpdate: real

    constructor (config: Config, now: real)
      ensures this.config == config && View() == Fresh(config, now)
      ensures lastUpdate == now
      ensures tokens == (match config.initial case Some(n) => n as real case None => config.burst as real)
    {
      this.config := config;
      this.tokens := if config.initial.Some? then config.initial.value as real else config.burst as real;
      this.lastUpdate := now;
    }

    function View(): Bucket
      reads this
    {
      Bucket(tokens, lastUpdate)
    }

    method RefillTokens(now: real)
      modifies this
      ensures View() == Refilled(config, old(View()), now)
    {
      var elapsed := now - lastUpdate;
      var newTokens := Gain(config.rate, elapsed);
      tokens := Min(tokens + newTokens, config.burst as real);
      lastUpdate := now;
    }

    method TryAcquire(now: real, amount: real) returns (granted: bool)
      modifies this
      ensures granted == Grants(config, old(View()), now, amount)
      ensures View() == Taken(config, old(View()), now, amount)
    {
      RefillTokens(now);
      if tokens >= amount {
        tokens := tokens - amount;
        return true;
      }
      return false;
    }

    method AvailableTokens(now: real) returns (level: real)
      modifies this
      ensures level == Level(config, old(View()), now)
      ensures View() == Refilled(config, old(View()), now)
    {
      RefillTokens(now);
      level := tokens;
    }

    method ResetBucket(now: real)
      modifies this
      ensures View() == Fresh(config, now)
      ensures lastUpdate == now
      ensures tokens == (match config.initial case Some(n) => n as real case None => config.burst as real)
    {
      tokens := if config.initial.Some? then config.initial.value as real else config.burst as real;
      lastUpdate := now;
    }

    /** Bounds the rounds of the waiting loop that are still to come. */
    ghost function RoundsLeft(b: Bucket, amount: real, timeout: Option<real>, start: real, now: real): nat
      requires config.rate > 0.0 && (amount <= config.burst as real || timeout.Some?)
    {
      if amount <= config.burst as real then Naps(Wait(config, b, start, amount) - (now - start))
      else
        var left := timeout.value - (now - start);
        NapPositive(amount);
        NapsWithin(Nap(amount), left)
    }

    /** The shortest nap while waiting for more than the bucket can hold. */
    function Nap(amount: real): real
      requires config.rate > 0.0
    {
      Min(Delay(config.rate, amount - config.burst as real), 0.1)
    }

    lemma NapPositive(amount: real)
      requires config.rate > 0.0 && amount > config.burst as real
      ensures Nap(amount) > 0.0
    {
    }

    /** A sole consumer waits for `amount`. Sleeping may overrun and the clock moves on
        between its reads: `gap(i)` passes before the refill of round i, on top of the
        nap, and `lag(i)` between that refill and the timeout check of the same round. */
    method Acquire(amount: real, timeout: Option<real>, start: real, gap: nat -> real, lag: nat -> real)
      returns (result: Acquisition, rounds: nat, finish: real)
      requires config.rate > 0.0 && (amount <= config.burst as real || timeout.Some?)
      requires forall i :: gap(i) >= 0.0 && lag(i) >= 0.0
      modifies this
      ensures rounds >= 1 && start <= finish
      ensures View() == Taken(config, old(View()), finish, amount)
      ensures result.Acquired? <==> Grants(config, old(View()), finish, amount)
      ensures amount > config.burst as real ==> result.Exceeded?
      ensures timeout.None? ==> result.Acquired?
      ensures result.Exceeded? ==> result.retryAfter == Wait(config, old(View()), finish, amount)
      ensures amount <= config.burst as real ==>
                var wait := Wait(config, old(View()), start, amount);
                && rounds <= Naps(wait) + 1
                && (result.Acquired? ==>
                      && start + wait <= finish
                      // late by the last overrun at most
                      && finish <= start + wait + gap(rounds - 1) + if rounds > 1 then lag(rounds - 2) else 0.0)
                && (timeout.Some? ==>
                      && (forall i :: 0 <= i < rounds - 1 ==> wait + lag(i) <= timeout.value)
                      && (result.Exceeded? ==> wait + lag(rounds - 1) > timeout.value)
                      // read at one instant per round, the clock decides by the initial wait alone
                      && (gap(0) == 0.0 && (forall i :: lag(i) == 0.0) ==>
                            (result.Exceeded? <==> wait > 0.0 && wait > timeout.value)))
    {
      hide Gain, Delay, Naps, NapsWithin;
      ghost var before := View();
      DelayMonotone(config.rate, 0.0, amount - Level(config, before, start));
      var now := start;
      rounds := 0;
      while true
        invariant start <= now
        invariant rounds == 0 ==> View() == before && now == start
        invariant rounds > 0 ==> View() == Refilled(config, before, lastUpdate) && start <= lastUpdate <= now
        invariant rounds > 0 ==> !Grants(config, before, lastUpdate, amount)
        invariant amount <= config.burst as real && rounds > 0 ==>
                    now <= start + Wait(config, before, start, amount) + lag(rounds - 1)
        invariant amount <= config.burst as real ==>
                    rounds + RoundsLeft(before, amount, timeout, start, now)
                    <= Naps(Wait(config, before, start, amount))
        invariant amount <= config.burst as real && timeout.Some? ==>
                    forall i :: 0 <= i < rounds ==>
                      Wait(config, before, start, amount) + lag(i) <= timeout.value
        decreases RoundsLeft(before, amount, timeout, start, now)
      {
        ghost var head := now;
        now := now + gap(rounds);
        if rounds > 0 { RefillsCompose(config, before, lastUpdate, now); }
        RefillTokens(now);
        finish := now;
        if amount <= config.burst as real { WaitShrinks(config, before, start, now, amount); }
        if tokens >= amount {
          tokens := tokens - amount;
          result, rounds := Acquired, rounds + 1;
          return;
        }
        DelayMonotone(config.rate, 0.0, amount - tokens);
        var waitTime := Delay(config.rate, amount - tokens);
        now := now + lag(rounds);
        if timeout.Some? {
          var elapsed := now - start;
          if elapsed + waitTime > timeout.value {
            result, rounds := Exceeded(waitTime), rounds + 1;
            return;
          }
        }
        var sleepTime := Min(waitTime, 0.1);
        now := now + sleepTime;
        RoundEnds(before, amount, timeout, start, head, finish, now);
        rounds := rounds + 1;
      }
    }

    /** A round that neither acquires nor gives up brings the end nearer. */
    lemma RoundEnds(b: Bucket, amount: real, timeout: Option<real>, start: real, head: real, refill: real, now: real)
      requires config.rate > 0.0 && (amount <= config.burst as real || timeout.Some?)
      requires start <= head <= refill && Level(config, b, refill) < amount
      requires now >= refill + Min(Delay(config.rate, amount - Level(config, b, refill)), 0.1)
      requires amount > config.burst as real ==>
                 now - Min(Delay(config.rate, amount - Level(config, b, refill)), 0.1) - start <= timeout.value
      ensures RoundsLeft(b, amount, timeout, start, now) < RoundsLeft(b, amount, timeout, start, head)
    {
      hide Gain, Delay, Naps, NapsWithin;
      if amount <= config.burst as real {
        var wait := Wait(config, b, start, amount);
        WaitShrinks(config, b, start, refill, amount);
        DelayMonotone(config.rate, 0.0, amount - Level(config, b, refill));
        NapTaken(wait - (head - start), wait - (now - start));
      } else {
        NapPositive(amount);
        DelayMonotone(config.rate, amount - Level(config, b, refill), amount - config.burst as real);
        LimitNearer(Nap(amount), timeout.value - (head - start), timeout.value - (now - start));
      }
    }
  }
}
