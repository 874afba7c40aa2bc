/** `ATRMovingAverageStrategy`: SMA crossover entry sized by ATR, with a stop
    and a target at ATR multiples from the entry price. The older copy in the
    repository has the same defaults and `next()`. */
module AtrMovingAverage {
  import opened Wrappers
  import opened Bars

  datatype Params = Params(shortPeriod: int, longPeriod: int, stopLossMultiplier: real, takeProfitMultiplier: real)

  /** Fraction of cash risked per trade, a literal inside `next()`. */
  const RiskPerTrade: real := 0.02

  /** Period of the ATR indicator, fixed in the constructor. */
  const AtrPeriod: int := 14

  function StopPrice(p: Params, entry: real, atr: real): real
  {
    entry - atr * p.stopLossMultiplier
  }

  function TargetPrice(p: Params, entry: real, atr: real): real
  {
    entry + atr * p.takeProfitMultiplier
  }

  /** The decision `next()` takes on one bar. The stop and target are computed
      from the ATR of the current bar, not fixed at entry. */
  function Decide(p: Params, inPosition: bool, entryPrice: Option<real>, s: Snapshot): (d: Decision)
    requires inPosition ==> entryPrice.Some?
    // Flat: buy cash * 2% / ATR units on a strict crossover; an ATR of zero raises.
    ensures !inPosition ==> (d.Enter? <==> s.shortMa > s.longMa && s.atr != 0.0)
    ensures !inPosition && d.Enter? ==> d.order == Buy(Units(s.cash * RiskPerTrade / s.atr))
    ensures !inPosition ==> (d == Raise(DivisionByZero) <==> s.shortMa > s.longMa && s.atr == 0.0)
    ensures !inPosition ==> (d == Hold <==> s.shortMa <= s.longMa)
    // In position: stop (inclusive) before target (inclusive); no crossover exit.
    ensures inPosition ==> d == Hold || d == Exit(StopLoss) || d == Exit(TakeProfit)
    ensures inPosition ==>
      (d == Exit(StopLoss) <==> s.close <= StopPrice(p, entryPrice.value, s.atr))
    ensures inPosition ==>
      (d == Exit(TakeProfit) <==> StopPrice(p, entryPrice.value, s.atr) < s.close
                                  && s.close >= TargetPrice(p, entryPrice.value, s.atr))
  {
    if !inPosition then
      if s.shortMa > s.longMa then
        if s.atr == 0.0 then Raise(DivisionByZero)
        else Enter(Buy(Units((s.cash * RiskPerTrade) / s.atr)))
      else Hold
    else
      var stop := StopPrice(p, entryPrice.value, s.atr);
      var target := TargetPrice(p, entryPrice.value, s.atr);
      if s.close <= stop then Exit(StopLoss)
      else if s.close >= target then Exit(TakeProfit)
      else Hold
  }

  /** While a position is open the moving averages play no part. */
  lemma AveragesIgnoredInPosition(p: Params, entryPrice: real, s: Snapshot, shortMa: real, longMa: real)
    ensures Decide(p, true, Some(entryPrice), s) == Decide(p, true, Some(entryPrice), s.(shortMa := shortMa, longMa := longMa))
  {
  }

  class AtrMovingAverageStrategy {
    const params: Params
    var inPosition: bool
    var entryPrice: Option<real>
    var orders: seq<OrderIntent>

    ghost predicate Valid()
      reads this
    {
      (inPosition ==> entryPrice.Some?) &&
      Alternates(orders) && (inPosition <==> |orders| % 2 == 1)
    }

    constructor (p: Params)
      ensures Valid() && params == p
      ensures !inPosition && entryPrice == None && orders == []
    {
      params := p;
      inPosition, entryPrice, orders := false, None, [];
    }

    /** The strategy built without keyword arguments: 20/80 and multipliers 2
        and 6 (the docstring's 10/30/1.5/3.0 are not what the code uses). */
    constructor Default()
      ensures Valid() && params == Params(20, 80, 2.0, 6.0)
      ensures !inPosition && entryPrice == None && orders == []
    {
      params := Params(20, 80, 2.0, 6.0);
      inPosition, entryPrice, orders := false, None, [];
    }

    /** `next()`: one bar. A raised exception leaves the state as it was. */
    method Step(s: Snapshot) returns (d: Decision)
      requires Valid()
      modifies this
      ensures Valid()
      ensures d == Decide(params, old(inPosition), old(entryPrice), s)
      ensures inPosition == (d.Enter? || (old(inPosition) && !d.Exit?))
      ensures entryPrice == if d.Enter? then Some(s.close) else old(entryPrice)
      ensures orders == old(orders) + OrdersOf(d)
    {
      d := Hold;
      if !inPosition {
        if s.shortMa > s.longMa {
          if s.atr == 0.0 {
            d := Raise(DivisionByZero);
            return;
          }
          var positionSize := (s.cash * RiskPerTrade) / s.atr;
          orders := orders + [Buy(Units(positionSize))];
          inPosition := true;
          entryPrice := Some(s.close);
          d := Enter(Buy(Units(positionSize)));
        }
      } else {
        var stopLossPrice := entryPrice.value - s.atr * params.stopLossMultiplier;
        var takeProfitPrice := entryPrice.value + s.atr * params.takeProfitMultiplier;
        if s.close <= stopLossPrice {
          d := Exit(StopLoss);
        } else if s.close >= takeProfitPrice {
          d := Exit(TakeProfit);
        }
        if d.Exit? {
          orders := orders + [Close];
          inPosition := false;
        }
      }
    }
  }
}
