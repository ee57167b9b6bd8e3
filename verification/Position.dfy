/** A trading position with a trailing stop, and the closed form of that stop. */
module Position {
  import opened Machine
  import opened RealArith

  datatype Side = Long | Short

  datatype Status = IsOpen | IsClosed

  class Position {
    const side: Side
    const entryPrice: real
    const size: real
    const takeProfit: Option<real>
    const trailing: Option<real>
    var stopLoss: Option<real>
    var highest: real
    var lowest: real
    var status: Status
    var exitPrice: Option<real>
    var realizedPnl: Option<real>

    /** An optional price of zero counts as absent. */
    constructor (side: Side, entryPrice: real, size: real, stopLoss: Option<real>,
                 takeProfit: Option<real>, trailing: Option<real>)
      ensures this.side == side && this.entryPrice == entryPrice && this.size == size
      ensures this.takeProfit == NonZero(takeProfit) && this.trailing == NonZero(trailing)
      ensures View() == Opened(entryPrice, stopLoss)
      ensures status == IsOpen
    {
      this.side, this.entryPrice, this.size := side, entryPrice, size;
      this.takeProfit := NonZero(takeProfit);
      this.trailing := NonZero(trailing);
      this.stopLoss := NonZero(stopLoss);
      highest, lowest := entryPrice, entryPrice;
      status, exitPrice, realizedPnl := IsOpen, None, None;
    }

    function View(): Tracked
      reads this
    {
      Tracked(stopLoss, highest, lowest)
    }

    function UnrealizedPnl(price: real): real {
      if side.Long? then (price - entryPrice) * size else (entryPrice - price) * size
    }

    method ShouldStopLoss(price: real) returns (r: bool)
      ensures r == Stops(side, stopLoss, price)
    {
      if stopLoss.None? { return false; }
      if side.Long? { return price <= stopLoss.value; } else { return price >= stopLoss.value; }
    }

    method ShouldTakeProfit(price: real) returns (r: bool)
      ensures r <==> takeProfit.Some? && if side.Long? then price >= takeProfit.value else price <= takeProfit.value
    {
      if takeProfit.None? { return false; }
      if side.Long? { return price >= takeProfit.value; } else { return price <= takeProfit.value; }
    }

    method UpdatePrice(price: real)
      modifies this`stopLoss, this`highest, this`lowest
      ensures View() == AfterPrice(side, trailing, old(View()), price)
    {
      if price > highest { highest := price; }
      if price < lowest { lowest := price; }
      if NonZero(trailing).Some? && side.Long? {
        var newStop := Gain(highest, 1.0 - trailing.value / 100.0);
        if stopLoss.None? || newStop > stopLoss.value { stopLoss := Some(newStop); }
      } else if NonZero(trailing).Some? && side.Short? {
        var newStop := Gain(lowest, 1.0 + trailing.value / 100.0);
        if stopLoss.None? || newStop < stopLoss.value { stopLoss := Some(newStop); }
      }
    }

    /** Closing books the profit the position showed at the exit price. */
    method Close(price: real) returns (pnl: real)
      modifies this`status, this`exitPrice, this`realizedPnl
      ensures pnl == UnrealizedPnl(price) && realizedPnl == Some(pnl)
      ensures status == IsClosed && exitPrice == Some(price)
    {
      exitPrice := Some(price);
      status := IsClosed;
      pnl := UnrealizedPnl(price);
      realizedPnl := Some(pnl);
    }
  }

  /** A position shows a profit exactly when the price has moved in favour of its side. */
  lemma ProfitIffFavourable(p: Position, price: real)
    requires p.size > 0.0
    ensures p.UnrealizedPnl(price) > 0.0 <==> if p.side.Long? then price > p.entryPrice else price < p.entryPrice
    ensures p.UnrealizedPnl(price) < 0.0 <==> if p.side.Long? then price < p.entryPrice else price > p.entryPrice
  {
    SignOfProduct(price - p.entryPrice, p.size);
    SignOfProduct(p.entryPrice - price, p.size);
  }

  /** It shows none at the entry price, and each step of the price is worth the size of
      the position, for or against its side. */
  lemma ProfitFollowsPrice(p: Position, price: real, step: real)
    ensures p.UnrealizedPnl(p.entryPrice) == 0.0
    ensures p.UnrealizedPnl(price + step) - p.UnrealizedPnl(price)
            == (if p.side.Long? then p.size else -p.size) * step
  {
    var d := if p.side.Long? then price - p.entryPrice else p.entryPrice - price;
    Distribute(d, if p.side.Long? then step else -step, p.size);
  }

  lemma Distribute(x: real, y: real, z: real)
    ensures (x + y) * z == x * z + y * z && (-y) * z == (-z) * y && y * z == z * y
  {
  }

  lemma SignOfProduct(x: real, y: real)
    requires y > 0.0
    ensures x > 0.0 <==> x * y > 0.0
    ensures x < 0.0 <==> x * y < 0.0
  {
  }

  /** Python's truth of an optional number. */
  function NonZero(x: Option<real>): Option<real> {
    if x == Some(0.0) then None else x
  }

  /** The part of a position that price updates change. */
  datatype Tracked = Tracked(stop: Option<real>, highest: real, lowest: real)

  function Opened(entry: real, stop: Option<real>): Tracked {
    Tracked(NonZero(stop), entry, entry)
  }

  predicate Stops(side: Side, stop: Option<real>, price: real) {
    stop.Some? && if side.Long? then price <= stop.value else price >= stop.value
  }

  /** The factor that keeps a stop the given percentage away from the best price. */
  function Factor(side: Side, percent: real): real {
    if side.Long? then 1.0 - percent / 100.0 else 1.0 + percent / 100.0
  }

  /** The tighter of two stops. */
  function Tighter(side: Side, stop: Option<real>, other: real): Option<real> {
    if stop.None? then Some(other)
    else if side.Long? then Some(Max(other, stop.value)) else Some(Min(other, stop.value))
  }

  function AfterPrice(side: Side, trailing: Option<real>, t: Tracked, price: real): Tracked {
    var highest, lowest := Max(price, t.highest), Min(price, t.lowest);
    Tracked(if NonZero(trailing).None? then t.stop
            else Tighter(side, t.stop, Gain(if side.Long? then highest else lowest, Factor(side, trailing.value))),
            highest, lowest)
  }

  function AfterPrices(side: Side, trailing: Option<real>, t: Tracked, prices: seq<real>): Tracked {
    if prices == [] then t
    else AfterPrice(side, trailing, AfterPrices(side, trailing, t, prices[..|prices| - 1]), prices[|prices| - 1])
  }

  /** The best price for the position's side: the highest for a long one, the lowest for
      a short one. */
  function Best(side: Side, entry: real, prices: seq<real>): real {
    if prices == [] then entry
    else
      var before, last := Best(side, entry, prices[..|prices| - 1]), prices[|prices| - 1];
      if side.Long? then Max(last, before) else Min(last, before)
  }

  lemma {:induction false} TracksBest(side: Side, trailing: Option<real>, t: Tracked, prices: seq<real>)
    ensures var after := AfterPrices(side, trailing, t, prices);
            && (side.Long? ==> after.highest == Best(side, t.highest, prices))
            && (side.Short? ==> after.lowest == Best(side, t.lowest, prices))
  {
    if prices != [] {
      TracksBest(side, trailing, t, prices[..|prices| - 1]);
    }
  }

  /** A stop never loosens: up only for a long position, down only for a short one. */
  lemma StopNeverLoosens(side: Side, trailing: Option<real>, t: Tracked, price: real)
    requires t.stop.Some?
    ensures var after := AfterPrice(side, trailing, t, price);
            after.stop.Some? && (if side.Long? then after.stop.value >= t.stop.value
                                 else after.stop.value <= t.stop.value)
  {
  }

  /** The closed form: the tighter of the initial stop and the best price so far, entry
      included, kept away by the trailing percentage. */
  predicate ClosedForm(side: Side, percent: real, entry: real, stop: Option<real>, prices: seq<real>) {
    AfterPrices(side, Some(percent), Opened(entry, stop), prices).stop
    == Tighter(side, NonZero(stop), Gain(Best(side, entry, prices), Factor(side, percent)))
  }

  lemma ProductOrdered(x: real, y: real, f: real)
    requires f >= 0.0 && x <= y
    ensures Gain(x, f) <= Gain(y, f)
  {
  }

  lemma {:induction false} ClosedFormHolds(side: Side, percent: real, entry: real, stop: Option<real>,
                                           prices: seq<real>)
    requires percent != 0.0 && Factor(side, percent) >= 0.0 && prices != []
    ensures ClosedForm(side, percent, entry, stop, prices)
  {
    hide Gain;
    var before := prices[..|prices| - 1];
    TracksBest(side, Some(percent), Opened(entry, stop), prices);
    if before != [] {
      ClosedFormHolds(side, percent, entry, stop, before);
      var f := Factor(side, percent);
      if side.Long? {
        ProductOrdered(Best(side, entry, before), Best(side, entry, prices), f);
      } else {
        ProductOrdered(Best(side, entry, prices), Best(side, entry, before), f);
      }
    }
  }

  /** Prices that break the closed form: one is enough at zero percent, where no stop is
      ever set, and two when the factor is negative. */
  function Breaking(side: Side, percent: real): seq<real> {
    if percent == 0.0 then [3.0] else if side.Long? then [2.0, 3.0] else [2.0, 1.0]
  }

  lemma ClosedFormBreaks(side: Side, percent: real)
    requires percent == 0.0 || Factor(side, percent) < 0.0
    ensures !ClosedForm(side, percent, 2.0, None, Breaking(side, percent))
  {
    var prices := Breaking(side, percent);
    var start := Opened(2.0, None);
    assert [3.0][..0] == [] && [2.0][..0] == [];
    if percent == 0.0 {
      assert AfterPrices(side, Some(percent), start, prices) == AfterPrice(side, Some(percent), start, 3.0);
    } else {
      var last := prices[1];
      assert prices[..1] == [2.0];
      var one := AfterPrice(side, Some(percent), start, 2.0);
      assert AfterPrices(side, Some(percent), start, [2.0]) == one;
      assert AfterPrices(side, Some(percent), start, prices) == AfterPrice(side, Some(percent), one, last);
      assert Best(side, 2.0, [2.0]) == 2.0;
      assert Best(side, 2.0, prices) == last;
      var f := Factor(side, percent);
      assert Gain(2.0, f) == 2.0 * f && Gain(last, f) == last * f;
      assert one.stop == Some(2.0 * f);
    }
  }

  ghost predicate Positive(entry: real, prices: seq<real>) {
    entry > 0.0 && forall i :: 0 <= i < |prices| ==> prices[i] > 0.0
  }

  /** The trailing stop has its closed form for all positive prices exactly if there is a
      percentage and its factor is not negative: up to 100 percent for a long position,
      from -100 for a short one, and not zero, which means no trailing stop at all. */
  lemma ClosedFormIff(side: Side, percent: real)
    ensures (forall entry, stop, prices ::
               Positive(entry, prices) && prices != [] ==> ClosedForm(side, percent, entry, stop, prices))
            <==> percent != 0.0 && Factor(side, percent) >= 0.0
    ensures Factor(side, percent) >= 0.0 <==> if side.Long? then percent <= 100.0 else percent >= -100.0
  {
    hide ClosedForm;
    if percent != 0.0 && Factor(side, percent) >= 0.0 {
      forall entry, stop, prices | prices != []
        ensures ClosedForm(side, percent, entry, stop, prices)
      {
        ClosedFormHolds(side, percent, entry, stop, prices);
      }
    } else {
      ClosedFormBreaks(side, percent);
      assert Positive(2.0, Breaking(side, percent));
    }
  }

  /** A position without a trailing stop keeps the stop it was opened with. */
  lemma {:induction false} ZeroMeansNoTrailing(side: Side, t: Tracked, prices: seq<real>)
    ensures AfterPrices(side, Some(0.0), t, prices).stop == t.stop
  {
    if prices != [] {
      ZeroMeansNoTrailing(side, t, prices[..|prices| - 1]);
    }
  }

  /** A negative factor puts the stop, like the limit it should be at, below zero. */
  lemma {:induction false} BeyondReach(side: Side, percent: real, entry: real, prices: seq<real>)
    requires Factor(side, percent) < 0.0 && Positive(entry, prices) && percent != 0.0
    ensures Best(side, entry, prices) > 0.0 && Gain(Best(side, entry, prices), Factor(side, percent)) < 0.0
    ensures prices != [] ==>
              var stop := AfterPrices(side, Some(percent), Opened(entry, None), prices).stop;
              stop.Some? && stop.value < 0.0
  {
    if prices != [] {
      BeyondReach(side, percent, entry, prices[..|prices| - 1]);
      TracksBest(side, Some(percent), Opened(entry, None), prices);
    }
    SignOfProduct(-Factor(side, percent), Best(side, entry, prices));
    hide AfterPrices, Best;
  }

  /** Without an initial stop the position is stopped out exactly when there is a
      percentage and the price has come back from the best price by that much: for every
      percentage as long as prices are positive, otherwise while the factor is not
      negative. */
  lemma StopsOnDrawdown(side: Side, percent: real, entry: real, prices: seq<real>)
    requires prices != [] && (Factor(side, percent) >= 0.0 || Positive(entry, prices))
    ensures var price, limit := prices[|prices| - 1], Gain(Best(side, entry, prices), Factor(side, percent));
            Stops(side, AfterPrices(side, Some(percent), Opened(entry, None), prices).stop, price)
            <==> percent != 0.0 && if side.Long? then price <= limit else price >= limit
  {
    if percent == 0.0 {
      ZeroMeansNoTrailing(side, Opened(entry, None), prices);
    } else if Factor(side, percent) >= 0.0 {
      ClosedFormHolds(side, percent, entry, None, prices);
    } else {
      BeyondReach(side, percent, entry, prices);
    }
    hide AfterPrices, Best, Gain;
  }

  /** Both extremes are kept for either side: prices seen, entry included, that bound all. */
  lemma {:induction false} ExtremesTracked(side: Side, trailing: Option<real>, entry: real, stop: Option<real>,
                                           prices: seq<real>)
    ensures var after, seen := AfterPrices(side, trailing, Opened(entry, stop), prices), [entry] + prices;
            && after.highest in seen && after.lowest in seen
            && forall p :: p in seen ==> after.lowest <= p <= after.highest
  {
    if prices != [] {
      var before := prices[..|prices| - 1];
      ExtremesTracked(side, trailing, entry, stop, before);
      assert [entry] + prices == ([entry] + before) + [prices[|prices| - 1]];
    }
  }

  /** The best price belongs to the prices seen, and none of them is better. */
  lemma BestSeen(side: Side, entry: real, prices: seq<real>)
    ensures var best, seen := Best(side, entry, prices), [entry] + prices;
            best in seen && forall p :: p in seen ==> if side.Long? then p <= best else p >= best
  {
    TracksBest(side, None, Opened(entry, None), prices);
    ExtremesTracked(side, None, entry, None, prices);
    hide AfterPrices, Best;
  }

  /** The price has come back from p by the percentage, or never was that far from it. */
  predicate CameBack(side: Side, percent: real, p: real, price: real) {
    if side.Long? then price <= p * (1.0 - percent / 100.0) else price >= p * (1.0 + percent / 100.0)
  }

  lemma CameBackMeans(side: Side, percent: real, p: real, price: real)
    ensures CameBack(side, percent, p, price) <==> Stops(side, Some(Gain(p, Factor(side, percent))), price)
  {
  }

  /** When a position is stopped out, in prices alone: when the price is at or beyond the
      initial stop, or has come back from some price seen, the entry included, by the
      trailing percentage. */
  lemma StopsIffPriceCameBack(side: Side, percent: real, entry: real, stop: Option<real>, prices: seq<real>)
    requires prices != [] && percent != 0.0 && if side.Long? then percent <= 100.0 else percent >= -100.0
    ensures var price, seen := prices[|prices| - 1], [entry] + prices;
            var after := AfterPrices(side, Some(percent), Opened(entry, stop), prices).stop;
            && after.Some?
            && ((if side.Long? then price <= after.value else price >= after.value) <==>
                  || (stop.Some? && stop.value != 0.0
                      && if side.Long? then price <= stop.value else price >= stop.value)
                  || (exists p :: p in seen && CameBack(side, percent, p, price)))
  {
    var price, seen := prices[|prices| - 1], [entry] + prices;
    var best, f := Best(side, entry, prices), Factor(side, percent);
    assert f >= 0.0;
    ClosedFormHolds(side, percent, entry, stop, prices);
    BestSeen(side, entry, prices);
    hide AfterPrices, Best, Gain, CameBack, Factor;
    CameBackMeans(side, percent, best, price);
    forall p | p in seen && CameBack(side, percent, p, price)
      ensures CameBack(side, percent, best, price)
    {
      CameBackMeans(side, percent, p, price);
      if side.Long? { ProductOrdered(p, best, f); } else { ProductOrdered(best, p, f); }
    }
  }
}
