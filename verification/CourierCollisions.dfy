/** When the keys of typed operations get in the way of a client's default limit: exactly
    which clients are limited at all. */
module CourierCollisions {
  import opened Machine
  import opened RealArith
  import opened TokenBucket
  import opened CourierLimits
  import opened CourierBound
  import Runs = TokenBucketRuns

  /** No clear of the run reaches the client's key. */
  ghost predicate Unforgotten(s: Settings, ops: seq<Op>, client: string) {
    forall k :: 0 <= k < |ops| && ops[k].Clear? ==> !Replaces(s, ops[k], client)
  }

  /** The guarantee: from its start the adapter never accepts more of the client's checks
      within any span than the default limit allows. */
  ghost predicate Limited(s: Settings, client: string)
    requires s.window > 0
  {
    forall ops, t0, t1 :: Chronological(ops) && Unforgotten(s, ops, client) && t0 <= t1 ==>
      AcceptedWithin(s, map[], ops, |ops|, client, t0, t1) as real
      <= Allowance(s.limit as real, s.window as real, t1 - t0)
  }

  /** The client's identifier is also the key of a message type whose limit lets something
      through. */
  ghost predicate Collides(s: Settings, client: string) {
    exists identifier, messageType ::
      Typed(s, Some(messageType)) && s.perType[messageType] >= 1 && client == identifier + ":" + messageType
  }

  /** A bucket that never holds a token. */
  ghost predicate Dead(reg: Limiters, client: string) {
    client in reg && reg[client].config.burst <= 0
  }

  /** Without a harmful collision, replacing the client's bucket kills it for good. */
  lemma DeadStep(s: Settings, reg: Limiters, op: Op, client: string)
    requires s.window > 0 && !Collides(s, client)
    requires op.Clear? ==> !Replaces(s, op, client)
    requires Dead(reg, client) || Replaces(s, op, client)
    ensures Dead(After(s, reg, op), client)
    ensures Uses(s, op, client) ==> !Accepted(s, reg, op)
  {
    if Replaces(s, op, client) {
      assert s.perType[op.messageType.value] < 1;
    }
    hide Gain;
  }

  lemma {:induction false} DeadRun(s: Settings, ops: seq<Op>, n: nat, client: string, t0: real, t1: real)
    requires s.window > 0 && s.limit >= 0 && n <= |ops| && t0 <= t1 && !Collides(s, client)
    requires Chronological(ops) && Unforgotten(s, ops, client)
    requires exists k :: 0 <= k < n && Replaces(s, ops[k], client)
    ensures Dead(RegistryAt(s, map[], ops, n), client)
    ensures AcceptedWithin(s, map[], ops, n, client, t0, t1) as real
            <= Allowance(s.limit as real, s.window as real, t1 - t0)
  {
    hide After, Accepted, Allowance, Collides;
    var reg, op := RegistryAt(s, map[], ops, n - 1), ops[n - 1];
    if exists k :: 0 <= k < n - 1 && Replaces(s, ops[k], client) {
      DeadRun(s, ops, n - 1, client, t0, t1);
    } else {
      LimitFromStart(s, ops, n - 1, client, t0, t1);
    }
    DeadStep(s, reg, op, client);
    hide Replaces, Uses, Dead;
  }

  /** Retry-after queries of a colliding type and default checks of the client, in turn,
      all at once. */
  function Alternating(identifier: string, messageType: string, client: string, rounds: nat): (ops: seq<Op>)
    ensures |ops| == 2 * rounds
  {
    seq(2 * rounds, k => if k % 2 == 0 then Ask(identifier, Some(messageType), 0.0) else Check(client, None, 0.0))
  }

  /** A typed query that replaces a client's bucket leaves a token for that client. */
  lemma CollisionRefills(s: Settings, reg: Limiters, identifier: string, messageType: string, client: string)
    requires s.window != 0 && Typed(s, Some(messageType)) && s.perType[messageType] >= 1
    requires client == identifier + ":" + messageType
    ensures Accepted(s, After(s, reg, Ask(identifier, Some(messageType), 0.0)), Check(client, None, 0.0))
  {
    var c := PerWindow(s.perType[messageType], s.window);
    assert Gain(c.rate, 0.0) == 0.0;
    assert Level(c, Fresh(c, 0.0), 0.0) == c.burst as real;
  }

  lemma Turns(s: Settings, identifier: string, messageType: string, client: string, rounds: nat, n: nat)
    requires Typed(s, Some(messageType)) && n < rounds
    ensures var ops := Alternating(identifier, messageType, client, rounds);
            && ops[2 * n] == Ask(identifier, Some(messageType), 0.0) && !Uses(s, ops[2 * n], client)
            && ops[2 * n + 1] == Check(client, None, 0.0) && Uses(s, ops[2 * n + 1], client)
  {
  }

  lemma {:induction false} CollisionRun(s: Settings, identifier: string, messageType: string, client: string,
                                        rounds: nat, n: nat)
    requires s.window != 0 && Typed(s, Some(messageType)) && s.perType[messageType] >= 1
    requires client == identifier + ":" + messageType && n <= rounds
    ensures AcceptedWithin(s, map[], Alternating(identifier, messageType, client, rounds), 2 * n, client, 0.0, 0.0) == n
  {
    hide After, Accepted, Uses, Alternating, Typed;
    if n > 0 {
      var ops := Alternating(identifier, messageType, client, rounds);
      var k := 2 * n - 2;
      CollisionRun(s, identifier, messageType, client, rounds, n - 1);
      Turns(s, identifier, messageType, client, rounds, n - 1);
      var reg := RegistryAt(s, map[], ops, k);
      CollisionRefills(s, reg, identifier, messageType, client);
      assert RegistryAt(s, map[], ops, k + 1) == After(s, reg, ops[k]);
      assert AcceptedWithin(s, map[], ops, k + 1, client, 0.0, 0.0) == n - 1;
    }
  }

  /** A colliding client gets any number of checks accepted in one instant. */
  lemma KeysCollide(s: Settings, identifier: string, messageType: string, rounds: nat)
    requires s.window > 0 && Typed(s, Some(messageType)) && s.perType[messageType] >= 1
    ensures var client := identifier + ":" + messageType;
            var ops := Alternating(identifier, messageType, client, rounds);
            && KeyOf(s, identifier, Some(messageType)) == KeyOf(s, client, None)
            && Chronological(ops) && Unforgotten(s, ops, client)
            && AcceptedWithin(s, map[], ops, |ops|, client, 0.0, 0.0) == rounds
            && (rounds > s.limit ==> rounds as real > Allowance(s.limit as real, s.window as real, 0.0))
  {
    CollisionRun(s, identifier, messageType, identifier + ":" + messageType, rounds, rounds);
    hide AcceptedWithin;
  }

  /** Exactly which clients are limited: those whose identifier is not the key of a
      message type with a limit of at least one. */
  lemma LimitedIff(s: Settings, client: string)
    requires s.window > 0 && s.limit >= 0
    ensures Limited(s, client) <==> !Collides(s, client)
  {
    hide AcceptedWithin, Allowance, Replaces;
    if identifier, messageType :|
         Typed(s, Some(messageType)) && s.perType[messageType] >= 1 && client == identifier + ":" + messageType {
      KeysCollide(s, identifier, messageType, s.limit + 1);
      var ops := Alternating(identifier, messageType, client, s.limit + 1);
      assert AcceptedWithin(s, map[], ops, |ops|, client, 0.0, 0.0) == s.limit + 1;
    } else {
      forall ops, t0, t1 | Chronological(ops) && Unforgotten(s, ops, client) && t0 <= t1
        ensures AcceptedWithin(s, map[], ops, |ops|, client, t0, t1) as real
                <= Allowance(s.limit as real, s.window as real, t1 - t0)
      {
        if exists k :: 0 <= k < |ops| && Replaces(s, ops[k], client) {
          DeadRun(s, ops, |ops|, client, t0, t1);
        } else {
          LimitFromStart(s, ops, |ops|, client, t0, t1);
        }
      }
    }
  }
}
