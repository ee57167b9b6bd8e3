/** Whole runs of a token bucket: what it can grant within any window of time, and why
    looking at it, or being refused by it, changes nothing. */
module TokenBucketRuns {
  import opened Machine
  import opened RealArith
  import opened TokenBucket

  /** One locked step: an acquisition (also each round of a waiting one) or a look at the
      level. */
  datatype Op = Take(now: real, amount: real) | Look(now: real)

  predicate Granted(c: Config, b: Bucket, op: Op) {
    op.Take? && Grants(c, b, op.now, op.amount)
  }

  function After(c: Config, b: Bucket, op: Op): Bucket {
    match op
    case Take(now, amount) => Taken(c, b, now, amount)
    case Look(now) => Refilled(c, b, now)
  }

  function BucketAt(c: Config, b: Bucket, ops: seq<Op>, n: nat): Bucket
    requires n <= |ops|
  {
    if n == 0 then b else After(c, BucketAt(c, b, ops, n - 1), ops[n - 1])
  }

  ghost predicate Chronological(ops: seq<Op>) {
    forall j, k :: 0 <= j < k < |ops| ==> ops[j].now <= ops[k].now
  }

  /** The tokens granted by the first n steps at times within [s, t]. */
  function GrantedWithin(c: Config, b: Bucket, ops: seq<Op>, n: nat, s: real, t: real): real
    requires n <= |ops|
  {
    if n == 0 then 0.0
    else
      var op := ops[n - 1];
      GrantedWithin(c, b, ops, n - 1, s, t)
      + if s <= op.now <= t && Granted(c, BucketAt(c, b, ops, n - 1), op) then op.amount else 0.0
  }

  /** Inside the window, what was granted and what is left never exceed the burst plus
      what the time since s can have added. */
  ghost predicate WithinBudget(c: Config, b: Bucket, ops: seq<Op>, n: nat, s: real, t: real)
    requires n <= |ops|
  {
    var granted := GrantedWithin(c, b, ops, n, s, t);
    && granted <= c.burst as real + Gain(c.rate, t - s)
    && (n == 0 || ops[n - 1].now < s ==> granted == 0.0)
    && (n > 0 && s <= ops[n - 1].now <= t ==>
          granted + BucketAt(c, b, ops, n).tokens <= c.burst as real + Gain(c.rate, ops[n - 1].now - s))
  }

  lemma BudgetStep(c: Config, b: Bucket, ops: seq<Op>, n: nat, s: real, t: real)
    requires n < |ops| && Chronological(ops) && s <= t
    requires c.rate >= 0.0 && c.burst >= 0
    requires WithinBudget(c, b, ops, n, s, t)
    ensures WithinBudget(c, b, ops, n + 1, s, t)
  {
    hide Gain;
    var op, before := ops[n], BucketAt(c, b, ops, n);
    if s <= op.now <= t {
      GainPositive(c.rate, op.now - s);
      GainPositive(c.rate, t - op.now);
      GainAdd(c.rate, op.now - s, t - op.now);
      if n > 0 && s <= ops[n - 1].now {
        GainAdd(c.rate, ops[n - 1].now - s, op.now - before.lastUpdate);
      }
    }
  }

  lemma {:induction false} BudgetKept(c: Config, b: Bucket, ops: seq<Op>, n: nat, s: real, t: real)
    requires n <= |ops| && Chronological(ops) && s <= t
    requires c.rate >= 0.0 && c.burst >= 0
    ensures WithinBudget(c, b, ops, n, s, t)
  {
    hide Gain;
    if n == 0 {
      GainPositive(c.rate, t - s);
    } else {
      BudgetKept(c, b, ops, n - 1, s, t);
      BudgetStep(c, b, ops, n - 1, s, t);
    }
  }

  /** Window bound: whatever the bucket started with, whatever is asked of it and however
      often it is looked at, the tokens granted within [s, t] are at most the burst plus
      the rate times the length of the window. */
  lemma WindowBound(c: Config, b: Bucket, ops: seq<Op>, s: real, t: real)
    requires Chronological(ops) && s <= t
    requires c.rate >= 0.0 && c.burst >= 0
    ensures GrantedWithin(c, b, ops, |ops|, s, t) <= c.burst as real + Gain(c.rate, t - s)
  {
    BudgetKept(c, b, ops, |ops|, s, t);
  }

  /** The decisions taken along a run. */
  function Decisions(c: Config, b: Bucket, ops: seq<Op>): (r: seq<bool>)
    ensures |r| == |ops|
    decreases |ops|
  {
    if ops == [] then []
    else [Granted(c, b, ops[0])] + Decisions(c, After(c, b, ops[0]), ops[1..])
  }

  function RunAll(c: Config, b: Bucket, ops: seq<Op>): Bucket
    decreases |ops|
  {
    if ops == [] then b else RunAll(c, After(c, b, ops[0]), ops[1..])
  }

  /** Two buckets that no later refill can tell apart. */
  ghost predicate SameFrom(c: Config, b1: Bucket, b2: Bucket, from: real) {
    forall t :: t >= from ==> Level(c, b1, t) == Level(c, b2, t)
  }

  ghost predicate NotBefore(ops: seq<Op>, from: real) {
    Chronological(ops) && forall k :: 0 <= k < |ops| ==> from <= ops[k].now
  }

  lemma {:induction false} SameDecisions(c: Config, b1: Bucket, b2: Bucket, from: real, ops: seq<Op>)
    requires SameFrom(c, b1, b2, from) && NotBefore(ops, from)
    ensures Decisions(c, b1, ops) == Decisions(c, b2, ops)
    ensures ops != [] ==> RunAll(c, b1, ops) == RunAll(c, b2, ops)
    decreases |ops|
  {
  }

  /** A refused acquisition or a look leaves every later level as it was. */
  lemma UselessStep(c: Config, b: Bucket, op: Op)
    requires c.rate >= 0.0 && !Granted(c, b, op)
    ensures SameFrom(c, After(c, b, op), b, op.now)
  {
  }

  /** Observation independence: a stretch of looks and refused acquisitions changes no
      later level and no later decision, in whatever state it finds the bucket. */
  lemma {:induction false} ObservationIndependence(c: Config, b: Bucket, noise: seq<Op>, from: real, later: seq<Op>)
    requires c.rate >= 0.0 && Chronological(noise) && NotBefore(later, from)
    requires forall k :: 0 <= k < |noise| ==> noise[k].now <= from
    requires forall k :: 0 <= k < |noise| ==> !Decisions(c, b, noise)[k]
    ensures SameFrom(c, RunAll(c, b, noise), b, from)
    ensures Decisions(c, RunAll(c, b, noise), later) == Decisions(c, b, later)
    decreases |noise|
  {
    if noise != [] {
      var next := After(c, b, noise[0]);
      assert !Decisions(c, b, noise)[0];
      UselessStep(c, b, noise[0]);
      assert forall k :: 0 <= k < |noise[1..]| ==>
               Decisions(c, next, noise[1..])[k] == Decisions(c, b, noise)[k + 1];
      ObservationIndependence(c, next, noise[1..], from, later);
    }
    SameDecisions(c, RunAll(c, b, noise), b, from, later);
  }

  /** The grants of a run and nothing else. */
  function GrantsOnly(c: Config, b: Bucket, ops: seq<Op>): seq<Op>
    decreases |ops|
  {
    if ops == [] then []
    else (if Granted(c, b, ops[0]) then [ops[0]] else []) + GrantsOnly(c, After(c, b, ops[0]), ops[1..])
  }

  /** The level at any time is that of a bucket which only ever saw the grants. */
  lemma {:induction false} GrantsDecideLevel(c: Config, b: Bucket, fluid: Bucket, from: real, ops: seq<Op>, t: real)
    requires c.rate >= 0.0 && NotBefore(ops, from) && SameFrom(c, b, fluid, from)
    requires from <= t && forall k :: 0 <= k < |ops| ==> ops[k].now <= t
    ensures Level(c, RunAll(c, b, ops), t) == Level(c, RunAll(c, fluid, GrantsOnly(c, b, ops)), t)
    decreases |ops|
  {
    if ops != [] {
      var op := ops[0];
      var rest := GrantsOnly(c, After(c, b, op), ops[1..]);
      if Granted(c, b, op) {
        assert After(c, b, op) == After(c, fluid, op);
        assert ([op] + rest)[1..] == rest;
        hide Level;
        GrantsDecideLevel(c, After(c, b, op), After(c, fluid, op), op.now, ops[1..], t);
      } else {
        UselessStep(c, b, op);
        assert [] + rest == rest;
        hide Level;
        GrantsDecideLevel(c, After(c, b, op), fluid, op.now, ops[1..], t);
      }
    }
  }

  /** What step k takes out of the bucket. */
  function Drawn(c: Config, b: Bucket, ops: seq<Op>, k: nat): real
    requires k < |ops|
  {
    if Granted(c, BucketAt(c, b, ops, k), ops[k]) then ops[k].amount else 0.0
  }

  function DrawnBetween(c: Config, b: Bucket, ops: seq<Op>, k: nat, n: nat): real
    requires k <= n <= |ops|
  {
    if k == n then 0.0 else DrawnBetween(c, b, ops, k, n - 1) + Drawn(c, b, ops, n - 1)
  }

  /** Fluid lines: a tank without a rim that starts as the bucket did, and one that is full
      just before step k; both fill at the rate and lose what the steps take. */
  function FromStart(c: Config, b: Bucket, ops: seq<Op>, n: nat, t: real): real
    requires n <= |ops|
  {
    b.tokens + Gain(c.rate, t - b.lastUpdate) - DrawnBetween(c, b, ops, 0, n)
  }

  function FullAt(c: Config, b: Bucket, ops: seq<Op>, k: nat, n: nat, t: real): real
    requires k < n <= |ops|
  {
    c.burst as real + Gain(c.rate, t - ops[k].now) - DrawnBetween(c, b, ops, k, n)
  }

  /** The least of the burst and all the lines. */
  ghost predicate Lowest(c: Config, b: Bucket, ops: seq<Op>, n: nat, t: real, level: real)
    requires n <= |ops|
  {
    && level <= c.burst as real && level <= FromStart(c, b, ops, n, t)
    && (forall k :: 0 <= k < n ==> level <= FullAt(c, b, ops, k, n, t))
    && (|| level == c.burst as real || level == FromStart(c, b, ops, n, t)
        || exists k :: 0 <= k < n && level == FullAt(c, b, ops, k, n, t))
  }

  /** One more step moves every line by what accrues after it, less what it takes. */
  lemma LinesMove(c: Config, b: Bucket, ops: seq<Op>, n: nat, t: real)
    requires n < |ops|
    ensures var now, drawn := ops[n].now, Drawn(c, b, ops, n);
            && FromStart(c, b, ops, n + 1, t) == FromStart(c, b, ops, n, now) + Gain(c.rate, t - now) - drawn
            && (forall k :: 0 <= k < n ==>
                  FullAt(c, b, ops, k, n + 1, t) == FullAt(c, b, ops, k, n, now) + Gain(c.rate, t - now) - drawn)
            && FullAt(c, b, ops, n, n + 1, t) == c.burst as real + Gain(c.rate, t - now) - drawn
  {
    hide Gain, Drawn;
    var now := ops[n].now;
    GainAdd(c.rate, now - b.lastUpdate, t - now);
    assert DrawnBetween(c, b, ops, n, n) == 0.0;
    forall k | 0 <= k < n
      ensures FullAt(c, b, ops, k, n + 1, t)
              == FullAt(c, b, ops, k, n, now) + Gain(c.rate, t - now) - Drawn(c, b, ops, n)
    {
      GainAdd(c.rate, now - ops[k].now, t - now);
    }
  }

  lemma LevelMoves(c: Config, b: Bucket, ops: seq<Op>, n: nat, t: real)
    requires n < |ops|
    ensures var now := ops[n].now;
            Level(c, BucketAt(c, b, ops, n + 1), t)
            == Min(Level(c, BucketAt(c, b, ops, n), now) + Gain(c.rate, t - now) - Drawn(c, b, ops, n), c.burst as real)
  {
    hide Gain;
  }

  lemma LowestMoves(c: Config, b: Bucket, ops: seq<Op>, n: nat, t: real, before: real)
    requires n < |ops| && Lowest(c, b, ops, n, ops[n].now, before)
    ensures var filled := before + Gain(c.rate, t - ops[n].now) - Drawn(c, b, ops, n);
            Lowest(c, b, ops, n + 1, t, Min(filled, c.burst as real))
  {
    LinesMove(c, b, ops, n, t);
    var shift := Gain(c.rate, t - ops[n].now) - Drawn(c, b, ops, n);
    var level := Min(before + shift, c.burst as real);
    hide Gain, Drawn, FromStart, FullAt;
    var next := n + 1;
    forall k | 0 <= k < next ensures level <= FullAt(c, b, ops, k, next, t) {
      assert k < n ==> before <= FullAt(c, b, ops, k, n, ops[n].now);
    }
    if before == FromStart(c, b, ops, n, ops[n].now) {
      assert before + shift == FromStart(c, b, ops, n + 1, t);
    } else if before == c.burst as real {
      assert before + shift == FullAt(c, b, ops, n, n + 1, t);
    } else {
      var k :| 0 <= k < n && before == FullAt(c, b, ops, k, n, ops[n].now);
      assert before + shift == FullAt(c, b, ops, k, n + 1, t);
    }
  }

  /** The closed form of the level, for every run and every time: refilling at each step
      with a cap is the same as taking the least of these lines once. */
  lemma {:induction false} FluidLevel(c: Config, b: Bucket, ops: seq<Op>, n: nat, t: real)
    requires n <= |ops|
    ensures Lowest(c, b, ops, n, t, Level(c, BucketAt(c, b, ops, n), t))
  {
    if n > 0 {
      hide Lowest, Level, BucketAt, Gain, Drawn;
      var now := ops[n - 1].now;
      FluidLevel(c, b, ops, n - 1, now);
      LowestMoves(c, b, ops, n - 1, t, Level(c, BucketAt(c, b, ops, n - 1), now));
      LevelMoves(c, b, ops, n - 1, t);
    }
  }

  /** The first step, if any, at or after time s. */
  function FirstFrom(ops: seq<Op>, n: nat, s: real): (k: nat)
    requires n <= |ops|
    ensures k <= n
    ensures forall j :: k <= j < n ==> s <= ops[j].now
    ensures k > 0 ==> ops[k - 1].now < s
  {
    if n == 0 || ops[n - 1].now < s then n else FirstFrom(ops, n - 1, s)
  }

  /** What is granted within [s, t] is what the steps from k on take, if these are all that
      come at or after s, and at least that if others do as well. */
  lemma {:induction false} WithinIsBetween(c: Config, b: Bucket, ops: seq<Op>, k: nat, n: nat, s: real, t: real)
    requires k <= n <= |ops| && forall j :: k <= j < n ==> s <= ops[j].now <= t
    ensures (forall j :: 0 <= j < k ==> ops[j].now < s) ==>
              GrantedWithin(c, b, ops, n, s, t) == DrawnBetween(c, b, ops, k, n)
    ensures (forall j :: 0 <= j < n && ops[j].Take? ==> ops[j].amount >= 0.0) ==>
              GrantedWithin(c, b, ops, n, s, t) >= DrawnBetween(c, b, ops, k, n)
  {
    if k < n {
      WithinIsBetween(c, b, ops, k, n - 1, s, t);
      hide BucketAt, Granted;
    } else {
      NothingWithin(c, b, ops, n, s, t);
    }
  }

  lemma {:induction false} NothingWithin(c: Config, b: Bucket, ops: seq<Op>, n: nat, s: real, t: real)
    requires n <= |ops|
    ensures (forall j :: 0 <= j < n ==> ops[j].now < s) ==> GrantedWithin(c, b, ops, n, s, t) == 0.0
    ensures (forall j :: 0 <= j < n && ops[j].Take? ==> ops[j].amount >= 0.0) ==>
              GrantedWithin(c, b, ops, n, s, t) >= 0.0
  {
    if n > 0 {
      NothingWithin(c, b, ops, n - 1, s, t);
      hide BucketAt, Grants;
    }
  }

  /** Every window that ends at t has room for the amount, besides what it has granted. */
  ghost predicate RoomInAll(c: Config, b: Bucket, ops: seq<Op>, n: nat, t: real, amount: real)
    requires n <= |ops|
  {
    forall s :: s <= t ==> RoomIn(c, b, ops, n, s, t, amount)
  }

  predicate RoomIn(c: Config, b: Bucket, ops: seq<Op>, n: nat, s: real, t: real, amount: real)
    requires n <= |ops|
  {
    GrantedWithin(c, b, ops, n, s, t) + amount <= c.burst as real + Gain(c.rate, t - s)
  }

  lemma BeforeFirst(ops: seq<Op>, n: nat, s: real)
    requires n <= |ops| && Chronological(ops)
    ensures forall j :: 0 <= j < FirstFrom(ops, n, s) ==> ops[j].now < s
  {
  }

  lemma GrantLeavesRoom(c: Config, b: Bucket, ops: seq<Op>, n: nat, s: real, t: real, amount: real)
    requires n <= |ops| && Chronological(ops) && c.rate >= 0.0 && s <= t
    requires forall j :: 0 <= j < n ==> ops[j].now <= t
    requires Grants(c, BucketAt(c, b, ops, n), t, amount)
    ensures RoomIn(c, b, ops, n, s, t, amount)
  {
    hide Gain, BucketAt, GrantedWithin, Level, FirstFrom;
    var k := FirstFrom(ops, n, s);
    BeforeFirst(ops, n, s);
    FluidLevel(c, b, ops, n, t);
    WithinIsBetween(c, b, ops, k, n, s, t);
    hide Chronological;
    if k < n {
      GainOrdered(c.rate, t - ops[k].now, t - s);
      assert Level(c, BucketAt(c, b, ops, n), t) <= FullAt(c, b, ops, k, n, t);
    } else {
      GainPositive(c.rate, t - s);
    }
  }

  lemma RoomGrants(c: Config, b: Bucket, ops: seq<Op>, n: nat, t: real, amount: real)
    requires n <= |ops| && Chronological(ops) && c.rate >= 0.0
    requires b.tokens == c.burst as real && b.lastUpdate <= t
    requires forall j :: 0 <= j < n ==> b.lastUpdate <= ops[j].now <= t && (ops[j].Take? ==> ops[j].amount >= 0.0)
    requires RoomInAll(c, b, ops, n, t, amount)
    ensures Grants(c, BucketAt(c, b, ops, n), t, amount)
  {
    hide Gain, BucketAt, GrantedWithin, Level, DrawnBetween;
    var level := Level(c, BucketAt(c, b, ops, n), t);
    FluidLevel(c, b, ops, n, t);
    GainUnit(c.rate);
    NothingWithin(c, b, ops, n, t, t);
    assert RoomIn(c, b, ops, n, t, t, amount);
    if level == FromStart(c, b, ops, n, t) {
      WithinIsBetween(c, b, ops, 0, n, b.lastUpdate, t);
      assert RoomIn(c, b, ops, n, b.lastUpdate, t, amount);
    } else if level != c.burst as real {
      var k :| 0 <= k < n && level == FullAt(c, b, ops, k, n, t);
      assert forall j :: k <= j < n ==> ops[k].now <= ops[j].now;
      hide Chronological;
      WithinIsBetween(c, b, ops, k, n, ops[k].now, t);
      assert RoomIn(c, b, ops, n, ops[k].now, t, amount);
    }
  }

  /** The decision in closed form: a bucket that started full grants an amount exactly if
      every window ending now has room for it within the burst and the rate. */
  lemma GrantsIffRoom(c: Config, b: Bucket, ops: seq<Op>, n: nat, t: real, amount: real)
    requires n <= |ops| && Chronological(ops) && c.rate >= 0.0
    requires b.tokens == c.burst as real && b.lastUpdate <= t
    requires forall j :: 0 <= j < n ==> b.lastUpdate <= ops[j].now <= t && (ops[j].Take? ==> ops[j].amount >= 0.0)
    ensures Grants(c, BucketAt(c, b, ops, n), t, amount) <==> RoomInAll(c, b, ops, n, t, amount)
  {
    hide Grants, RoomIn;
    if Grants(c, BucketAt(c, b, ops, n), t, amount) {
      forall s | s <= t ensures RoomIn(c, b, ops, n, s, t, amount) {
        GrantLeavesRoom(c, b, ops, n, s, t, amount);
      }
    } else if RoomInAll(c, b, ops, n, t, amount) {
      RoomGrants(c, b, ops, n, t, amount);
    }
  }
}
