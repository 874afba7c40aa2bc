/** `MovingAverageStrategy`: SMA crossover entry with a fixed-percentage
    stop-loss and take-profit. The repository holds three copies with the same
    defaults and the same `next()`; this module models all three. */
module MovingAverage {
  import opened Wrappers
  import opened Bars

  datatype Params = Params(shortPeriod: int, longPeriod: int, stopLossPct: real, takeProfitPct: real)

  /** The decision `next()` takes on one bar, given whether a position is open
      and the recorded buy price. */
  function Decide(p: Params, inPosition: bool, buyPrice: Option<real>, s: Snapshot): (d: Decision)
    requires inPosition ==> buyPrice.Some?
    // Flat: buy exactly when the short average is strictly above the long one.
    ensures !inPosition ==> (d == Enter(Buy(DefaultSize)) <==> s.shortMa > s.longMa)
    ensures !inPosition ==> (d == Hold <==> s.shortMa <= s.longMa)
    // In position: close when any exit condition holds; the first one listed wins.
    ensures inPosition ==> d == Hold || d.Exit?
    ensures inPosition ==> var bp := buyPrice.value;
      (d.Exit? <==> s.close < bp * p.stopLossPct || s.close > bp * p.takeProfitPct || s.shortMa < s.longMa)
    ensures inPosition ==> var bp := buyPrice.value;
      (d == Exit(StopLoss) <==> s.close < bp * p.stopLossPct)
    ensures inPosition ==> var bp := buyPrice.value;
      (d == Exit(TakeProfit) <==> !(s.close < bp * p.stopLossPct) && s.close > bp * p.takeProfitPct)
    ensures inPosition ==> var bp := buyPrice.value;
      (d == Exit(MaCrossover) <==>
         bp * p.stopLossPct <= s.close <= bp * p.takeProfitPct && s.shortMa < s.longMa)
  {
    if inPosition then
      if s.close < buyPrice.value * p.stopLossPct then Exit(StopLoss)
      else if s.close > buyPrice.value * p.takeProfitPct then Exit(TakeProfit)
      else if s.shortMa < s.longMa then Exit(MaCrossover)
      else Hold
    else if s.shortMa > s.longMa then Enter(Buy(DefaultSize))
    else Hold
  }

  /** With equal averages a flat strategy stays flat, and an open position is
      not closed by the crossover rule. */
  lemma EqualAveragesNoCrossover(p: Params, inPosition: bool, buyPrice: Option<real>, s: Snapshot)
    requires inPosition ==> buyPrice.Some?
    requires s.shortMa == s.longMa
    ensures !inPosition ==> Decide(p, inPosition, buyPrice, s) == Hold
    ensures Decide(p, inPosition, buyPrice, s) != Exit(MaCrossover)
  {
  }

  class MovingAverageStrategy {
    const params: Params
    var inPosition: bool             // self.position
    var buyPrice: Option<real>       // self.buy_price
    var orders: seq<OrderIntent>     // the orders placed so far

    ghost predicate Valid()
      reads this
    {
      (inPosition ==> buyPrice.Some?) &&
      Alternates(orders) && (inPosition <==> |orders| % 2 == 1)
    }

    constructor (p: Params)
      ensures Valid() && params == p
      ensures !inPosition && buyPrice == None && orders == []
    {
      params := p;
      inPosition, buyPrice, orders := false, None, [];
    }

    /** The strategy built without keyword arguments. */
    constructor Default()
      ensures Valid() && params == Params(10, 30, 0.95, 1.10)
      ensures !inPosition && buyPrice == None && orders == []
    {
      params := Params(10, 30, 0.95, 1.10);
      inPosition, buyPrice, orders := false, None, [];
    }

    /** `next()`: one bar. A buy is recorded as an open position from the next
        bar on; a close as flat from the next bar on. */
    method Step(s: Snapshot) returns (d: Decision)
      requires Valid()
      modifies this
      ensures Valid()
      ensures d == Decide(params, old(inPosition), old(buyPrice), s)
      ensures inPosition == (d.Enter? || (old(inPosition) && !d.Exit?))
      ensures buyPrice == if d.Enter? then Some(s.close) else old(buyPrice)
      ensures orders == old(orders) + OrdersOf(d)
    {
      d := Hold;
      if inPosition {
        if s.close < buyPrice.value * params.stopLossPct {
          d := Exit(StopLoss);
        } else if s.close > buyPrice.value * params.takeProfitPct {
          d := Exit(TakeProfit);
        } else if s.shortMa < s.longMa {
          d := Exit(MaCrossover);
        }
        if d.Exit? {
          orders := orders + [Close];
          inPosition := false;
        }
      } else {
        if s.shortMa > s.longMa {
          orders := orders + [Buy(DefaultSize)];
          inPosition := true;
          buyPrice := Some(s.close);
          d := Enter(Buy(DefaultSize));
        }
      }
    }
  }
}
