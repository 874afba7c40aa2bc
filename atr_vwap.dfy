/** `ATRVWAPStrategy`: the ATR moving-average strategy with the custom VWAP
    indicator as an extra entry filter and an extra exit. */
module AtrVwap {
  import opened Wrappers
  import opened Bars

  datatype Params = Params(shortPeriod: int, longPeriod: int, stopLossMultiplier: real, takeProfitMultiplier: real)

  const RiskPerTrade: real := 0.02

  function StopPrice(p: Params, entry: real, atr: real): real
  {
    entry - atr * p.stopLossMultiplier
  }

  function TargetPrice(p: Params, entry: real, atr: real): real
  {
    entry + atr * p.takeProfitMultiplier
  }

  /** The decision `next()` takes on one bar (`s.vwap` is the VWAP indicator's
      current value). */
  function Decide(p: Params, inPosition: bool, entryPrice: Option<real>, s: Snapshot): (d: Decision)
    requires inPosition ==> entryPrice.Some?
    // Flat: both filters must hold, each strictly.
    ensures !inPosition ==> (d.Enter? <==> s.shortMa > s.longMa && s.close > s.vwap && s.atr != 0.0)
    ensures !inPosition && d.Enter? ==> d.order == Buy(Units(s.cash * RiskPerTrade / s.atr))
    ensures !inPosition ==> (d == Raise(DivisionByZero) <==> s.shortMa > s.longMa && s.close > s.vwap && s.atr == 0.0)
    ensures !inPosition ==> (d == Hold <==> !(s.shortMa > s.longMa && s.close > s.vwap))
    // In position: stop or VWAP breakdown first, then the target.
    ensures inPosition ==> d == Hold || d == Exit(StopOrVwap) || d == Exit(TakeProfit)
    ensures inPosition ==>
      (d == Exit(StopOrVwap) <==> s.close <= StopPrice(p, entryPrice.value, s.atr) || s.close < s.vwap)
    ensures inPosition ==>
      (d == Exit(TakeProfit) <==> StopPrice(p, entryPrice.value, s.atr) < s.close && s.vwap <= s.close
                                  && s.close >= TargetPrice(p, entryPrice.value, s.atr))
  {
    if !inPosition then
      if s.shortMa > s.longMa && s.close > s.vwap then
        if s.atr == 0.0 then Raise(DivisionByZero)
        else Enter(Buy(Units((s.cash * RiskPerTrade) / s.atr)))
      else Hold
    else
      var stop := StopPrice(p, entryPrice.value, s.atr);
      var target := TargetPrice(p, entryPrice.value, s.atr);
      if s.close <= stop || s.close < s.vwap then Exit(StopOrVwap)
      else if s.close >= target then Exit(TakeProfit)
      else Hold
  }

  class AtrVwapStrategy {
    const params: Params
    var inPosition: bool
    var entryPrice: Option<real>
    var orders: seq<OrderIntent>

    ghost predicate Valid()
      reads this
    {
      (inPosition ==> entryPrice.Some?) &&
      Alternates(orders) && (inPosition <==> |orders| % 2 == 1)
    }

    constructor (p: Params)
      ensures Valid() && params == p
      ensures !inPosition && entryPrice == None && orders == []
    {
      params := p;
      inPosition, entryPrice, orders := false, None, [];
    }

    /** Built without keyword arguments: 20/80 and multipliers 2 and 6. */
    constructor Default()
      ensures Valid() && params == Params(20, 80, 2.0, 6.0)
      ensures !inPosition && entryPrice == None && orders == []
    {
      params := Params(20, 80, 2.0, 6.0);
      inPosition, entryPrice, orders := false, None, [];
    }

    method Step(s: Snapshot) returns (d: Decision)
      requires Valid()
      modifies this
      ensures Valid()
      ensures d == Decide(params, old(inPosition), old(entryPrice), s)
      ensures inPosition == (d.Enter? || (old(inPosition) && !d.Exit?))
      ensures entryPrice == if d.Enter? then Some(s.close) else old(entryPrice)
      ensures orders == old(orders) + OrdersOf(d)
    {
      d := Hold;
      if !inPosition {
        if s.shortMa > s.longMa && s.close > s.vwap {
          if s.atr == 0.0 {
            d := Raise(DivisionByZero);
            return;
          }
          var positionSize := (s.cash * RiskPerTrade) / s.atr;
          orders := orders + [Buy(Units(positionSize))];
          inPosition := true;
          entryPrice := Some(s.close);
          d := Enter(Buy(Units(positionSize)));
        }
      } else {
        var stopLossPrice := entryPrice.value - s.atr * params.stopLossMultiplier;
        var takeProfitPrice := entryPrice.value + s.atr * params.takeProfitMultiplier;
        if s.close <= stopLossPrice || s.close < s.vwap {
          d := Exit(StopOrVwap);
        } else if s.close >= takeProfitPrice {
          d := Exit(TakeProfit);
        }
        if d.Exit? {
          orders := orders + [Close];
          inPosition := false;
        }
      }
    }
  }
}
