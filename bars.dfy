/** What a backtrader strategy sees on one bar, and what it can do about it. */
module Bars {

  /** The indicator values, account figures and bar counter that a strategy's
      `next()` reads on one bar. backtrader computes these (SMA, EMA, ATR, MACD,
      RSI, broker cash and value); the model takes them as given. */
  datatype Snapshot = Snapshot(
    close: real,        // data.close[0]
    prevClose: real,    // data.close[-1]
    shortMa: real,
    longMa: real,
    atr: real,
    vwap: real,         // the custom VWAP indicator's current value
    fastEma: real,
    slowEma: real,
    macd: real,
    macdSignal: real,
    rsi: real,
    cash: real,         // broker.get_cash()
    value: real,        // broker.getvalue()
    barCount: int       // len(self)
  )

  /** The orders a strategy places: `buy()`, `sell()` (with an optional size)
      and `close()`. */
  datatype OrderIntent = Buy(size: OrderSize) | Sell(size: OrderSize) | Close

  /** The size argument of `buy`/`sell`: absent (backtrader's sizer decides),
      a float or an int. */
  datatype OrderSize = DefaultSize | Units(amount: real)

  datatype ExitReason = StopLoss | TakeProfit | MaCrossover | StopOrVwap | VwapBelow | TimeLimit | TrailingStop

  /** An exception `next()` raises instead of deciding. */
  datatype StepError = DivisionByZero | EmptyFrame

  /** What `next()` did on one bar. */
  datatype Decision = Hold | Enter(order: OrderIntent) | Exit(reason: ExitReason) | Raise(error: StepError)

  /** The orders placed by one decision. */
  function OrdersOf(d: Decision): (os: seq<OrderIntent>)
    ensures |os| <= 1
    ensures os == [] <==> !d.Enter? && !d.Exit?
  {
    match d
    case Enter(o) => [o]
    case Exit(_) => [Close]
    case _ => []
  }

  /** An order log of a long-only strategy: entries and closes alternate,
      starting with an entry, so at most one position is ever open. */
  ghost predicate Alternates(orders: seq<OrderIntent>)
  {
    forall i :: 0 <= i < |orders| ==> (orders[i].Buy? <==> i % 2 == 0) && !orders[i].Sell?
  }

  lemma AlternatesAppend(orders: seq<OrderIntent>, o: OrderIntent)
    requires Alternates(orders) && !o.Sell? && (o.Buy? <==> |orders| % 2 == 0)
    ensures Alternates(orders + [o])
  {
  }
}
