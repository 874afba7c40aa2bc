/** `TradingBot` (tws/trading_bot.py): one trading cycle turns the latest
    bars into at most one market order for the bot's symbol. The broker
    connection, the data request and the strategy are inputs; placing an
    order appends it to the bot's order log. */
module TradingBot {
  import opened Wrappers

  /** TWS API ports. */
  const PaperTradingPort: int := 7497
  const LiveTradingPort: int := 7496

  /** One entry of `get_positions()`. */
  datatype Position = Position(symbol: string, quantity: int)

  datatype Action = BUY | SELL

  /** `MarketOrder(action, quantity)` on the bot's contract. */
  datatype MarketOrder = MarketOrder(action: Action, quantity: int)

  function PortFor(paperTrading: bool): (port: int)
    ensures port == PaperTradingPort <==> paperTrading
    ensures port == LiveTradingPort <==> !paperTrading
  {
    if paperTrading then PaperTradingPort else LiveTradingPort
  }

  /** The `any(...)` holding check: some position in the symbol with a
      strictly positive quantity; short or empty positions do not count. */
  function Holding(positions: seq<Position>, symbol: string): (r: bool)
    ensures r <==> exists i :: 0 <= i < |positions| && positions[i].symbol == symbol && positions[i].quantity > 0
  {
    if positions == [] then false
    else (positions[0].symbol == symbol && positions[0].quantity > 0) || Holding(positions[1..], symbol)
  }

  /** A Python signal is falsy when it is `None` or the empty string. */
  predicate Truthy(signal: Option<string>)
  {
    signal.Some? && signal.value != ""
  }

  /** The order one signal produces: BUY only when not holding, SELL only
      when holding; every other signal (falsy, "HOLD", anything else)
      produces none. */
  function OrderFor(signal: Option<string>, holding: bool, quantity: int): (o: Option<MarketOrder>)
    ensures o == Some(MarketOrder(BUY, quantity)) <==> signal == Some("BUY") && !holding
    ensures o == Some(MarketOrder(SELL, quantity)) <==> signal == Some("SELL") && holding
    ensures o.Some? ==> o.value.quantity == quantity && Truthy(signal)
    ensures o.None? <==> !(signal == Some("BUY") && !holding) && !(signal == Some("SELL") && holding)
  {
    if !Truthy(signal) then None
    else if signal.value == "BUY" && !holding then Some(MarketOrder(BUY, quantity))
    else if signal.value == "SELL" && holding then Some(MarketOrder(SELL, quantity))
    else None
  }

  /** Once the broker reports a long position in the symbol, a repeated BUY
      signal places nothing. */
  lemma NoRepeatedBuy(symbol: string, quantity: int, positions: seq<Position>)
    requires quantity > 0
    ensures OrderFor(Some("BUY"), Holding(positions + [Position(symbol, quantity)], symbol), quantity) == None
  {
    var i := |positions|;
    assert (positions + [Position(symbol, quantity)])[i] == Position(symbol, quantity);
  }

  function OrdersOf(o: Option<MarketOrder>): (os: seq<MarketOrder>)
    ensures |os| <= 1 && (os == [] <==> o.None?)
  {
    if o.Some? then [o.value] else []
  }

  class TradingBot {
    const symbol: string
    const quantity: int
    const isBacktrader: bool
    const port: int
    var placed: seq<MarketOrder>
    var cerebroRuns: nat

    /** The connection and contract set-up is left out; the port is chosen
        from the trading mode. */
    constructor (symbol: string, isBacktrader: bool, quantity: int, paperTrading: bool)
      ensures this.symbol == symbol && this.quantity == quantity && this.isBacktrader == isBacktrader
      ensures port == PortFor(paperTrading)
      ensures placed == [] && cerebroRuns == 0
    {
      this.symbol := symbol;
      this.quantity := quantity;
      this.isBacktrader := isBacktrader;
      port := PortFor(paperTrading);
      placed := [];
      cerebroRuns := 0;
    }

    /** `trade()`: `data` is the frame of closes from `get_live_data` (None
        when TWS returned no bars), `generateSignals` the strategy and
        `positions` what `get_positions` reports. */
    method Trade(data: Option<seq<real>>, generateSignals: seq<real> -> Option<string>, positions: seq<Position>)
      modifies this
      // No data: nothing happens.
      ensures data.None? || data.value == [] ==> placed == old(placed) && cerebroRuns == old(cerebroRuns)
      // A backtrader strategy is run by cerebro and no order is placed by hand.
      ensures data.Some? && data.value != [] && isBacktrader ==>
        placed == old(placed) && cerebroRuns == old(cerebroRuns) + 1
      // Otherwise at most one order, the one the signal and the holding decide.
      ensures data.Some? && data.value != [] && !isBacktrader ==>
        && cerebroRuns == old(cerebroRuns)
        && placed == old(placed) + OrdersOf(OrderFor(generateSignals(data.value), Holding(positions, symbol), quantity))
    {
      if data.None? || data.value == [] {
        return;
      }
      if isBacktrader {
        cerebroRuns := cerebroRuns + 1;
        return;
      }
      var signal := generateSignals(data.value);
      if signal.Some? && signal.value != "" {
        var holding := Holding(positions, symbol);
        if signal.value == "BUY" && !holding {
          placed := placed + [MarketOrder(BUY, quantity)];
        } else if signal.value == "SELL" && holding {
          placed := placed + [MarketOrder(SELL, quantity)];
        }
      }
    }
  }
}
