/** The bounded buffers against the unbounded streams they are cut from. */
module HistoryWindow {
  import opened Machine
  import opened History

  function HistoryAt(updates: seq<Values>, n: nat): Buffers
    requires n <= |updates|
  {
    if n == 0 then map[] else Updated(HistoryAt(updates, n - 1), updates[n - 1])
  }

  /** Everything ever recorded under a name. */
  function Stream(updates: seq<Values>, n: nat, name: string): seq<real>
    requires n <= |updates|
  {
    if n == 0 then []
    else Stream(updates, n - 1, name) + Recorded(updates[n - 1], name)
  }

  function LastValues(stream: seq<real>): seq<real> {
    if |stream| <= MAX_HISTORY then stream else stream[|stream| - MAX_HISTORY..]
  }

  lemma PushKeepsWindow(stream: seq<real>, v: real)
    ensures Push(LastValues(stream), v) == LastValues(stream + [v])
  {
  }

  lemma UpdatedBuffer(h: Buffers, values: Values, name: string)
    ensures Buffer(Updated(h, values), name)
            == if name in values then Push(Buffer(h, name), values[name]) else Buffer(h, name)
    ensures name in Updated(h, values) <==> name in h || name in values
  {
  }

  /** The buffer of a name holds the last values of a stream, up to a hundred. */
  ghost predicate Windows(h: Buffers, name: string, stream: seq<real>) {
    && Buffer(h, name) == LastValues(stream)
    && (name in h <==> stream != [])
  }

  function Recorded(values: Values, name: string): seq<real> {
    if name in values then [values[name]] else []
  }

  lemma StepWindows(h: Buffers, values: Values, name: string, stream: seq<real>)
    requires Windows(h, name, stream)
    ensures Windows(Updated(h, values), name, stream + Recorded(values, name))
  {
    UpdatedBuffer(h, values, name);
    if name in values {
      PushKeepsWindow(stream, values[name]);
    } else {
      assert stream + [] == stream;
    }
    hide Push, LastValues, Updated, Buffer;
  }

  lemma EmptyWindow(name: string)
    ensures Windows(map[], name, [])
  {
  }

  /** After any updates each name's buffer holds the last values of its stream. */
  lemma {:induction false} BufferIsWindow(updates: seq<Values>, n: nat, name: string)
    requires n <= |updates|
    ensures Windows(HistoryAt(updates, n), name, Stream(updates, n, name))
  {
    hide Windows, Updated, Recorded;
    if n == 0 {
      EmptyWindow(name);
    } else {
      BufferIsWindow(updates, n - 1, name);
      StepWindows(HistoryAt(updates, n - 1), updates[n - 1], name, Stream(updates, n - 1, name));
    }
  }

  lemma TailOfWindow(stream: seq<real>, n: int)
    requires 1 <= n <= MAX_HISTORY
    ensures |LastValues(stream)| >= n <==> |stream| >= n
    ensures |stream| >= n ==> Tail(LastValues(stream), n) == Tail(stream, n)
  {
  }

  /** Within the size of the buffer the answers are those of the unbounded stream. */
  lemma ExtremaLikeStream(stream: seq<real>, current: real, periods: int)
    requires 1 <= periods <= MAX_HISTORY
    ensures Highest(LastValues(stream), current, periods) <==> Highest(stream, current, periods)
    ensures Lowest(LastValues(stream), current, periods) <==> Lowest(stream, current, periods)
  {
    TailOfWindow(stream, periods);
    hide LastValues, Tail;
  }

  lemma TrendsLikeStream(stream: seq<real>, periods: int)
    requires 0 <= periods < MAX_HISTORY
    ensures RisingFor(LastValues(stream), periods) <==> RisingFor(stream, periods)
    ensures FallingFor(LastValues(stream), periods) <==> FallingFor(stream, periods)
  {
    hide LastValues, Tail, Rising, Falling;
    TailOfWindow(stream, periods + 1);
    if |stream| > periods {
      assert Tail(LastValues(stream), periods + 1) == Tail(stream, periods + 1);
    }
  }

  /** The strategy's own question after any updates is a question about the stream. */
  lemma HistoryAnswersLikeStream(updates: seq<Values>, n: nat, name: string, current: real, periods: int)
    requires n <= |updates| && 1 <= periods <= MAX_HISTORY
    ensures var h, stream := HistoryAt(updates, n), Stream(updates, n, name);
            && (name in h && Highest(h[name], current, periods) <==> Highest(stream, current, periods))
            && (name in h && Lowest(h[name], current, periods) <==> Lowest(stream, current, periods))
            && (periods < MAX_HISTORY ==>
                  && (name in h && RisingFor(h[name], periods) <==> RisingFor(stream, periods))
                  && (name in h && FallingFor(h[name], periods) <==> FallingFor(stream, periods)))
  {
    BufferIsWindow(updates, n, name);
    var stream := Stream(updates, n, name);
    ExtremaLikeStream(stream, current, periods);
    if periods < MAX_HISTORY { TrendsLikeStream(stream, periods); }
    hide HistoryAt, LastValues, Tail, Rising, Falling;
  }

  lemma DivergencesLikeStream(prices: seq<real>, indicator: seq<real>, price: real, value: real, lookback: int)
    requires 1 <= lookback <= MAX_HISTORY
    ensures BullishDivergence(LastValues(prices), LastValues(indicator), price, value, lookback)
            <==> BullishDivergence(prices, indicator, price, value, lookback)
    ensures BearishDivergence(LastValues(prices), LastValues(indicator), price, value, lookback)
            <==> BearishDivergence(prices, indicator, price, value, lookback)
  {
    TailOfWindow(prices, lookback);
    TailOfWindow(indicator, lookback);
    assert |prices| >= lookback ==> Before(LastValues(prices), lookback) == Before(prices, lookback);
    assert |indicator| >= lookback ==> Before(LastValues(indicator), lookback) == Before(indicator, lookback);
    hide LastValues, Before;
  }

  /** The divergence tests, too, ask after any updates about the streams. */
  lemma HistoryDivergencesLikeStream(updates: seq<Values>, n: nat, priceName: string, indicatorName: string,
                                     price: real, value: real, lookback: int)
    requires n <= |updates| && 1 <= lookback <= MAX_HISTORY
    ensures var h := HistoryAt(updates, n);
            var prices, indicator := Stream(updates, n, priceName), Stream(updates, n, indicatorName);
            && (&& priceName in h && indicatorName in h
                && BullishDivergence(h[priceName], h[indicatorName], price, value, lookback)
                <==> BullishDivergence(prices, indicator, price, value, lookback))
            && (&& priceName in h && indicatorName in h
                && BearishDivergence(h[priceName], h[indicatorName], price, value, lookback)
                <==> BearishDivergence(prices, indicator, price, value, lookback))
  {
    BufferIsWindow(updates, n, priceName);
    BufferIsWindow(updates, n, indicatorName);
    DivergencesLikeStream(Stream(updates, n, priceName), Stream(updates, n, indicatorName), price, value, lookback);
    hide HistoryAt, Stream, LastValues, Before;
  }

  /** n values that start at zero and move by `step`. */
  function Ramp(n: nat, step: real): (s: seq<real>)
    ensures |s| == n
    ensures forall i :: 0 <= i < n ==> s[i] == i as real * step
  {
    if n == 0 then [] else Ramp(n - 1, step) + [(n - 1) as real * step]
  }

  /** A value just before a full window, behind so many others that a look-back of -k
      entries, which Python counts from the front, begins with it. */
  function JustOutside(k: nat, v: real, step: real): seq<real> {
    Ramp(k, 0.0) + [v] + Ramp(MAX_HISTORY, step)
  }

  lemma OutsideTails(k: nat, v: real, step: real)
    ensures var s := JustOutside(k, v, step);
            && Tail(s, -(k as int)) == [v] + Ramp(MAX_HISTORY, step)
            && LastValues(s) == Ramp(MAX_HISTORY, step)
  {
  }

  /** What a look-back that Python counts from the front sees of such a stream, and what
      of its window. */
  lemma OutsideSeen(periods: int, v: real)
    requires periods < 1
    ensures var s := JustOutside(-periods, v, 0.0);
            && |s| >= periods && v in Tail(s, periods)
            && (forall x | x in Tail(s, periods) :: x == v || x == 0.0)
            && (forall x | x in Tail(LastValues(s), periods) :: x == 0.0)
  {
    OutsideTails(-periods, v, 0.0);
    var long := [v] + Ramp(MAX_HISTORY, 0.0);
    assert Tail(JustOutside(-periods, v, 0.0), periods) == long && long[0] == v;
    hide JustOutside, LastValues;
  }

  lemma FlatTail(n: nat)
    requires n > 0
    ensures 0.0 in Tail(Ramp(n, 0.0), n) && forall x | x in Tail(Ramp(n, 0.0), n) :: x == 0.0
  {
    var ramp := Ramp(n, 0.0);
    assert Tail(ramp, n) == ramp && ramp[0] == 0.0;
  }

  /** A stream on which a look-back of that length gets a different answer. */
  lemma MisledExtrema(periods: int, peak: real) returns (s: seq<real>, current: real)
    requires periods < 1 || periods > MAX_HISTORY
    ensures peak > 0.0 ==> Highest(s, current, periods) && !Highest(LastValues(s), current, periods)
    ensures peak < 0.0 ==> Lowest(s, current, periods) && !Lowest(LastValues(s), current, periods)
  {
    hide Tail, JustOutside, Ramp;
    if periods > MAX_HISTORY {
      s, current := Ramp(periods, 0.0), 0.0;
      FlatTail(periods);
    } else {
      s, current := JustOutside(-periods, peak, 0.0), peak;
      OutsideSeen(periods, peak);
    }
  }

  /** The ramp is a trend; a step taken just before it, back to its start, is none. */
  lemma RampTrend(n: nat, k: int, step: real)
    ensures step > 0.0 ==> Rising(Tail(Ramp(n, step), k))
    ensures step < 0.0 ==> Falling(Tail(Ramp(n, step), k))
    ensures step > 0.0 && n > 0 ==> !Rising([step] + Ramp(n, step))
    ensures step < 0.0 && n > 0 ==> !Falling([step] + Ramp(n, step))
  {
    RampItself(n, step);
    var long := [step] + Ramp(n, step);
    assert long[0] == step && (n > 0 ==> long[1] == 0.0);
    hide Ramp;
  }

  lemma RampItself(n: nat, step: real)
    ensures step > 0.0 ==> Rising(Ramp(n, step))
    ensures step < 0.0 ==> Falling(Ramp(n, step))
  {
    var ramp := Ramp(n, step);
    forall i | 1 <= i < n
      ensures step > 0.0 ==> ramp[i - 1] < ramp[i]
      ensures step < 0.0 ==> ramp[i - 1] > ramp[i]
    {
      assert ramp[i] == i as real * step && ramp[i - 1] == (i - 1) as real * step;
      assert i as real * step == (i - 1) as real * step + step;
    }
  }

  /** The same for trends. */
  lemma MisledTrend(periods: int, step: real) returns (s: seq<real>)
    requires periods < 0 || periods >= MAX_HISTORY
    ensures step > 0.0 ==> !(RisingFor(LastValues(s), periods) <==> RisingFor(s, periods))
    ensures step < 0.0 ==> !(FallingFor(LastValues(s), periods) <==> FallingFor(s, periods))
  {
    if periods >= MAX_HISTORY {
      s := Ramp(periods + 1, step);
      RampTrend(periods + 1, periods + 1, step);
    } else {
      var k := -(periods + 1);
      s := JustOutside(k, step, step);
      OutsideTails(k, step, step);
      RampTrend(MAX_HISTORY, periods + 1, step);
    }
    hide Ramp, Rising, Falling, Tail;
  }

  /** Exactly the look-backs of one to a hundred periods are answered as on the whole
      stream, for every stream. */
  lemma HighestFaithfulIff(periods: int)
    ensures (forall s, current :: Highest(LastValues(s), current, periods) <==> Highest(s, current, periods))
            <==> 1 <= periods <= 100
  {
    if 1 <= periods <= MAX_HISTORY {
      forall s, current
        ensures Highest(LastValues(s), current, periods) <==> Highest(s, current, periods)
      {
        ExtremaLikeStream(s, current, periods);
      }
    } else {
      var s, current := MisledExtrema(periods, 1.0);
    }
  }

  lemma LowestFaithfulIff(periods: int)
    ensures (forall s, current :: Lowest(LastValues(s), current, periods) <==> Lowest(s, current, periods))
            <==> 1 <= periods <= 100
  {
    if 1 <= periods <= MAX_HISTORY {
      forall s, current
        ensures Lowest(LastValues(s), current, periods) <==> Lowest(s, current, periods)
      {
        ExtremaLikeStream(s, current, periods);
      }
    } else {
      var s, current := MisledExtrema(periods, -1.0);
    }
  }

  /** For trends the range is one lower: a trend over n periods needs n + 1 values. */
  lemma RisingFaithfulIff(periods: int)
    ensures (forall s :: RisingFor(LastValues(s), periods) <==> RisingFor(s, periods))
            <==> 0 <= periods < 100
  {
    if 0 <= periods < MAX_HISTORY {
      forall s ensures RisingFor(LastValues(s), periods) <==> RisingFor(s, periods) {
        TrendsLikeStream(s, periods);
      }
    } else {
      var s := MisledTrend(periods, 1.0);
    }
  }

  lemma FallingFaithfulIff(periods: int)
    ensures (forall s :: FallingFor(LastValues(s), periods) <==> FallingFor(s, periods))
            <==> 0 <= periods < 100
  {
    if 0 <= periods < MAX_HISTORY {
      forall s ensures FallingFor(LastValues(s), periods) <==> FallingFor(s, periods) {
        TrendsLikeStream(s, periods);
      }
    } else {
      var s := MisledTrend(periods, -1.0);
    }
  }

  /** The same without the last entry. */
  lemma OutsideBefore(lookback: int, v: real)
    requires lookback < 1
    ensures var s := JustOutside(-lookback, v, 0.0);
            && |s| >= lookback && v in Before(s, lookback)
            && (forall x | x in Before(s, lookback) :: x == v || x == 0.0)
            && (forall x | x in Before(LastValues(s), lookback) :: x == 0.0)
  {
    var s := JustOutside(-lookback, v, 0.0);
    OutsideSeen(lookback, v);
    OutsideTails(-lookback, v, 0.0);
    hide Tail, JustOutside, LastValues, Ramp;
    var long, window := Tail(s, lookback), Tail(LastValues(s), lookback);
    assert long[0] == v && Earlier(long)[0] == v;
    assert forall x | x in Earlier(long) :: x in long;
    assert forall x | x in Earlier(window) :: x in window;
  }

  /** Flat prices under a new extreme, and an indicator whose only other value lies outside
      the window: the stream shows a divergence and the window does not. */
  lemma MisledDivergence(lookback: int, peak: real) returns (prices: seq<real>, indicator: seq<real>, value: real)
    requires lookback < 1 || lookback > MAX_HISTORY
    ensures peak < 0.0 ==> BullishDivergence(prices, indicator, peak, value, lookback)
                           && !BullishDivergence(LastValues(prices), LastValues(indicator), peak, value, lookback)
    ensures peak > 0.0 ==> BearishDivergence(prices, indicator, peak, value, lookback)
                           && !BearishDivergence(LastValues(prices), LastValues(indicator), peak, value, lookback)
  {
    hide Before, JustOutside, Ramp;
    if lookback > MAX_HISTORY {
      prices, value := Ramp(lookback, 0.0), -peak;
      indicator := prices;
      FlatBefore(lookback);
    } else {
      prices, indicator := JustOutside(-lookback, 0.0, 0.0), JustOutside(-lookback, peak, 0.0);
      value := peak / 2.0;
      OutsideBefore(lookback, 0.0);
      OutsideBefore(lookback, peak);
    }
  }

  lemma FlatBefore(n: nat)
    requires n > 1
    ensures 0.0 in Before(Ramp(n, 0.0), n) && forall x | x in Before(Ramp(n, 0.0), n) :: x == 0.0
  {
    var ramp := Ramp(n, 0.0);
    assert Before(ramp, n) == ramp[..n - 1] && ramp[..n - 1][0] == 0.0;
  }

  /** The divergences, too, are answered as on the whole streams for exactly these. */
  lemma DivergencesFaithfulIff(lookback: int)
    ensures (forall prices, indicator, price, value ::
               BullishDivergence(LastValues(prices), LastValues(indicator), price, value, lookback)
               <==> BullishDivergence(prices, indicator, price, value, lookback))
            <==> 1 <= lookback <= 100
    ensures (forall prices, indicator, price, value ::
               BearishDivergence(LastValues(prices), LastValues(indicator), price, value, lookback)
               <==> BearishDivergence(prices, indicator, price, value, lookback))
            <==> 1 <= lookback <= 100
  {
    hide BullishDivergence, BearishDivergence, LastValues;
    if 1 <= lookback <= MAX_HISTORY {
      forall prices, indicator, price, value
        ensures BullishDivergence(LastValues(prices), LastValues(indicator), price, value, lookback)
                <==> BullishDivergence(prices, indicator, price, value, lookback)
        ensures BearishDivergence(LastValues(prices), LastValues(indicator), price, value, lookback)
                <==> BearishDivergence(prices, indicator, price, value, lookback)
      {
        DivergencesLikeStream(prices, indicator, price, value, lookback);
      }
    } else {
      var prices, indicator, value := MisledDivergence(lookback, -1.0);
      var prices', indicator', value' := MisledDivergence(lookback, 1.0);
    }
  }

  /** The two divergences exclude each other, whatever the look-back. */
  lemma DivergencesExclusive(prices: seq<real>, indicator: seq<real>, price: real, value: real, lookback: int)
    ensures !(&& BullishDivergence(prices, indicator, price, value, lookback)
              && BearishDivergence(prices, indicator, price, value, lookback))
  {
    hide Before;
    if BullishDivergence(prices, indicator, price, value, lookback) {
      var x := Before(prices, lookback)[0];
      assert x in Before(prices, lookback) && price < x;
    }
  }
}
