/** The bounded indicator history of a trading strategy, and the questions asked of it. */
module History {
  import opened Machine

  const MAX_HISTORY: nat := 100

  type Values = map<string, real>

  type Buffers = map<string, seq<real>>

  function Buffer(h: Buffers, name: string): seq<real> {
    if name in h then h[name] else []
  }

  /** One more value; the oldest goes when the buffer would get too long. */
  function Push(buffer: seq<real>, v: real): seq<real> {
    if |buffer| + 1 > MAX_HISTORY then (buffer + [v])[1..] else buffer + [v]
  }

  function Updated(h: Buffers, values: Values): Buffers {
    map name | name in h.Keys + values.Keys ::
      if name in values then Push(Buffer(h, name), values[name]) else h[name]
  }

  /** Python's `list[-n:]`: the last n entries; all of them for n = 0; from index -n on
      for a negative n. */
  function Tail(list: seq<real>, n: int): seq<real> {
    if n > |list| || n == 0 then list
    else if n > 0 then list[|list| - n..]
    else if -n > |list| then [] else list[-n..]
  }

  /** Python's `list[:-1]`. */
  function Earlier(list: seq<real>): seq<real> {
    if list == [] then [] else list[..|list| - 1]
  }

  function Greatest(list: seq<real>): real
    requires list != []
  {
    if |list| == 1 then list[0]
    else if Greatest(list[1..]) >= list[0] then Greatest(list[1..]) else list[0]
  }

  function Least(list: seq<real>): real
    requires list != []
  {
    if |list| == 1 then list[0]
    else if Least(list[1..]) <= list[0] then Least(list[1..]) else list[0]
  }

  /** The questions, on any list of values; the extremum of nothing is an error that
      answers no. */
  predicate Highest(list: seq<real>, current: real, periods: int) {
    |list| >= periods && current in Tail(list, periods) && forall x | x in Tail(list, periods) :: x <= current
  }

  predicate Lowest(list: seq<real>, current: real, periods: int) {
    |list| >= periods && current in Tail(list, periods) && forall x | x in Tail(list, periods) :: x >= current
  }

  predicate Rising(list: seq<real>) {
    forall i :: 1 <= i < |list| ==> list[i - 1] < list[i]
  }

  predicate Falling(list: seq<real>) {
    forall i :: 1 <= i < |list| ==> list[i - 1] > list[i]
  }

  predicate RisingFor(list: seq<real>, periods: int) {
    |list| >= periods + 1 && Rising(Tail(list, periods + 1))
  }

  predicate FallingFor(list: seq<real>, periods: int) {
    |list| >= periods + 1 && Falling(Tail(list, periods + 1))
  }

  /** The entries of the look-back before the current one. */
  function Before(list: seq<real>, lookback: int): seq<real> {
    Earlier(Tail(list, lookback))
  }

  /** The price is below all earlier prices, the indicator above one of its earlier values. */
  predicate BullishDivergence(prices: seq<real>, indicator: seq<real>, price: real, value: real, lookback: int) {
    && |prices| >= lookback && |indicator| >= lookback && Before(prices, lookback) != []
    && (forall x | x in Before(prices, lookback) :: price < x)
    && (exists x | x in Before(indicator, lookback) :: x < value)
  }

  /** The price is above all earlier prices, the indicator below one of its earlier values. */
  predicate BearishDivergence(prices: seq<real>, indicator: seq<real>, price: real, value: real, lookback: int) {
    && |prices| >= lookback && |indicator| >= lookback && Before(prices, lookback) != []
    && (forall x | x in Before(prices, lookback) :: price > x)
    && (exists x | x in Before(indicator, lookback) :: x > value)
  }

  class TradingStrategy {
    var previous: Values
    var history: Buffers

    constructor ()
      ensures previous == map[] && history == map[]
    {
      previous, history := map[], map[];
    }

    method Record(name: string, v: real)
      modifies this`history
      ensures history == old(history)[name := Push(Buffer(old(history), name), v)]
    {
      if name !in history {
        history := history[name := []];
      }
      history := history[name := history[name] + [v]];
      if |history[name]| > MAX_HISTORY {
        history := history[name := history[name][1..]];
      }
    }

    method UpdatePreviousValues(indicators: Values)
      modifies this
      ensures previous == indicators
      ensures history == Updated(old(history), indicators)
    {
      previous := indicators;
      var left := indicators.Keys;
      ghost var done: Values := map[];
      assert Updated(history, done) == history;
      while left != {}
        invariant left <= indicators.Keys && previous == indicators
        invariant done == indicators - left
        invariant history == Updated(old(history), done)
      {
        var name :| name in left;
        OneMore(old(history), done, name, indicators[name]);
        Record(name, indicators[name]);
        done := done[name := indicators[name]];
        left := left - {name};
        assert done == indicators - left;
      }
      assert indicators - left == indicators;
    }

    method IsHighest(name: string, current: real, periods: int) returns (r: bool)
      ensures r == (name in history && Highest(history[name], current, periods))
    {
      if name !in history { return false; }
      if |history[name]| < periods { return false; }
      var recent := Tail(history[name], periods);
      if recent == [] { return false; }
      ExtremaBound(recent);
      r := current == Greatest(recent);
    }

    method IsLowest(name: string, current: real, periods: int) returns (r: bool)
      ensures r == (name in history && Lowest(history[name], current, periods))
    {
      if name !in history { return false; }
      if |history[name]| < periods { return false; }
      var recent := Tail(history[name], periods);
      if recent == [] { return false; }
      ExtremaBound(recent);
      r := current == Least(recent);
    }

    method DivergenceBullish(priceName: string, indicatorName: string, price: real, value: real, lookback: int)
      returns (r: bool)
      ensures r == (&& priceName in history && indicatorName in history
                    && BullishDivergence(history[priceName], history[indicatorName], price, value, lookback))
    {
      if priceName !in history || indicatorName !in history { return false; }
      var prices, indicator := history[priceName], history[indicatorName];
      if |prices| < lookback || |indicator| < lookback { return false; }
      var recentPrices, recentIndicators := Before(prices, lookback), Before(indicator, lookback);
      if recentPrices == [] || recentIndicators == [] { return false; }
      ExtremaBound(recentPrices);
      ExtremaBound(recentIndicators);
      var priceLowerLow := price < Least(recentPrices);
      var indicatorHigherLow := value > Least(recentIndicators);
      r := priceLowerLow && indicatorHigherLow;
    }

    method DivergenceBearish(priceName: string, indicatorName: string, price: real, value: real, lookback: int)
      returns (r: bool)
      ensures r == (&& priceName in history && indicatorName in history
                    && BearishDivergence(history[priceName], history[indicatorName], price, value, lookback))
    {
      if priceName !in history || indicatorName !in history { return false; }
      var prices, indicator := history[priceName], history[indicatorName];
      if |prices| < lookback || |indicator| < lookback { return false; }
      var recentPrices, recentIndicators := Before(prices, lookback), Before(indicator, lookback);
      if recentPrices == [] || recentIndicators == [] { return false; }
      ExtremaBound(recentPrices);
      ExtremaBound(recentIndicators);
      var priceHigherHigh := price > Greatest(recentPrices);
      var indicatorLowerHigh := value < Greatest(recentIndicators);
      r := priceHigherHigh && indicatorLowerHigh;
    }

    method IsRisingFor(name: string, periods: int) returns (r: bool)
      ensures r == (name in history && RisingFor(history[name], periods))
    {
      if name !in history { return false; }
      if |history[name]| < periods + 1 { return false; }
      var recent := Tail(history[name], periods + 1);
      var i := 1;
      while i < |recent|
        invariant 1 <= i
        invariant forall k :: 1 <= k < i && k < |recent| ==> recent[k - 1] < recent[k]
      {
        if recent[i] <= recent[i - 1] { return false; }
        i := i + 1;
      }
      r := true;
    }

    method IsFallingFor(name: string, periods: int) returns (r: bool)
      ensures r == (name in history && FallingFor(history[name], periods))
    {
      if name !in history { return false; }
      if |history[name]| < periods + 1 { return false; }
      var recent := Tail(history[name], periods + 1);
      var i := 1;
      while i < |recent|
        invariant 1 <= i
        invariant forall k :: 1 <= k < i && k < |recent| ==> recent[k - 1] > recent[k]
      {
        if recent[i] >= recent[i - 1] { return false; }
        i := i + 1;
      }
      r := true;
    }
  }

  /** The order in which an update's names are recorded does not matter. */
  lemma OneMore(h: Buffers, values: Values, name: string, v: real)
    requires name !in values
    ensures Updated(h, values[name := v])
            == Updated(h, values)[name := Push(Buffer(Updated(h, values), name), v)]
  {
  }

  /** The greatest and the least value are values of the list that bound all of it. */
  lemma {:induction false} ExtremaBound(list: seq<real>)
    requires list != []
    ensures Least(list) in list && Greatest(list) in list
    ensures forall x :: x in list ==> Least(list) <= x <= Greatest(list)
  {
    if |list| > 1 {
      ExtremaBound(list[1..]);
      assert list == [list[0]] + list[1..];
    }
  }

  /** Where a look-back of n entries begins: n before the end; at the front for zero; -n
      after the front for a negative n. */
  function Begin(list: seq<real>, n: int): (k: nat)
    requires n <= |list|
    ensures k <= |list|
  {
    if n > 0 then |list| - n else if -n <= |list| then -n else |list|
  }

  lemma TailBegins(list: seq<real>, n: int)
    requires n <= |list|
    ensures Tail(list, n) == list[Begin(list, n)..]
  {
  }

  /** The questions about one list, answered entry by entry. */
  lemma ExtremaByIndex(list: seq<real>, current: real, periods: int)
    ensures Highest(list, current, periods) <==>
              && periods <= |list|
              && (exists i :: Begin(list, periods) <= i < |list| && list[i] == current)
              && (forall i :: Begin(list, periods) <= i < |list| ==> list[i] <= current)
    ensures Lowest(list, current, periods) <==>
              && periods <= |list|
              && (exists i :: Begin(list, periods) <= i < |list| && list[i] == current)
              && (forall i :: Begin(list, periods) <= i < |list| ==> list[i] >= current)
    ensures 1 <= periods <= |list| ==> Begin(list, periods) == |list| - periods
  {
    hide Tail;
    if periods <= |list| {
      TailBegins(list, periods);
      var lo := Begin(list, periods);
      hide Begin;
      InSuffix(list, lo, |list|);
      assert list[lo..|list|] == list[lo..];
    }
  }

  lemma TrendsByIndex(list: seq<real>, periods: int)
    ensures RisingFor(list, periods) <==>
              && periods + 1 <= |list|
              && (forall i :: Begin(list, periods + 1) < i < |list| ==> list[i - 1] < list[i])
    ensures FallingFor(list, periods) <==>
              && periods + 1 <= |list|
              && (forall i :: Begin(list, periods + 1) < i < |list| ==> list[i - 1] > list[i])
  {
    hide Tail, Rising, Falling, Begin;
    if periods + 1 <= |list| {
      TailBegins(list, periods + 1);
      TrendOfSuffix(list, Begin(list, periods + 1));
    }
  }

  lemma InSuffix(list: seq<real>, lo: nat, hi: nat)
    requires lo <= hi <= |list|
    ensures forall x :: x in list[lo..hi] <==> exists i :: lo <= i < hi && list[i] == x
    ensures forall i :: lo <= i < hi ==> list[i] in list[lo..hi]
  {
    var part := list[lo..hi];
    forall i | lo <= i < hi ensures list[i] in part {
      assert part[i - lo] == list[i];
    }
  }

  lemma TrendOfSuffix(list: seq<real>, lo: nat)
    requires lo <= |list|
    ensures Rising(list[lo..]) <==> forall i :: lo < i < |list| ==> list[i - 1] < list[i]
    ensures Falling(list[lo..]) <==> forall i :: lo < i < |list| ==> list[i - 1] > list[i]
  {
    var part := list[lo..];
    assert forall i :: lo <= i < |list| ==> list[i] == part[i - lo];
    assert forall j :: 0 <= j < |part| ==> part[j] == list[j + lo];
  }

  /** The divergences, entry by entry: the current entry, which is the last one, is
      compared with the entries of the look-back before it. */
  lemma DivergencesByIndex(prices: seq<real>, indicator: seq<real>, price: real, value: real, lookback: int)
    ensures BullishDivergence(prices, indicator, price, value, lookback) <==>
              && lookback <= |prices| && lookback <= |indicator| && Begin(prices, lookback) < |prices| - 1
              && (forall i :: Begin(prices, lookback) <= i < |prices| - 1 ==> price < prices[i])
              && (exists j :: Begin(indicator, lookback) <= j < |indicator| - 1 && indicator[j] < value)
    ensures BearishDivergence(prices, indicator, price, value, lookback) <==>
              && lookback <= |prices| && lookback <= |indicator| && Begin(prices, lookback) < |prices| - 1
              && (forall i :: Begin(prices, lookback) <= i < |prices| - 1 ==> price > prices[i])
              && (exists j :: Begin(indicator, lookback) <= j < |indicator| - 1 && indicator[j] > value)
    ensures 1 <= lookback <= |prices| ==> Begin(prices, lookback) == |prices| - lookback
  {
    if lookback <= |prices| && lookback <= |indicator| {
      BeforeBegins(prices, lookback);
      BeforeBegins(indicator, lookback);
    }
    hide Before, Begin;
  }

  lemma BeforeBegins(list: seq<real>, lookback: int)
    requires lookback <= |list|
    ensures Before(list, lookback) == [] <==> Begin(list, lookback) >= |list| - 1
    ensures forall x :: x in Before(list, lookback) <==>
              exists i :: Begin(list, lookback) <= i < |list| - 1 && list[i] == x
    ensures forall i :: Begin(list, lookback) <= i < |list| - 1 ==> list[i] in Before(list, lookback)
  {
    TailBegins(list, lookback);
    var lo := Begin(list, lookback);
    if lo < |list| {
      assert Before(list, lookback) == list[lo..|list| - 1];
      InSuffix(list, lo, |list| - 1);
    }
    hide Tail, Begin;
  }
}
