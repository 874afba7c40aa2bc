/** `EnhancedATRStrategy`: EMA trend with confirmation voting, risk-based
    position sizing, a trailing stop and a holding-time limit. */
module EnhancedAtr {
  import opened Wrappers
  import opened Bars

  datatype Params = Params(
    fastEma: int, slowEma: int, signalEma: int, rsiPeriod: int, atrPeriod: int,
    riskPerTrade: real, atrStopMultiplier: real, atrTargetMultiplier: real, maxHoldingDays: int)

  /** The cap on one position: 5% of portfolio value. */
  const MaxPositionFraction: real := 0.05

  /** Python's `int()` on a float: truncation toward zero. */
  function Trunc(x: real): (n: int)
    ensures x >= 0.0 ==> n as real <= x < n as real + 1.0
    ensures x < 0.0 ==> x <= n as real < x + 1.0 && n <= 0
  {
    if x >= 0.0 then x.Floor else -((-x).Floor)
  }

  function Min(a: real, b: real): real
  {
    if a <= b then a else b
  }

  lemma QuotientNonNegative(a: real, b: real)
    requires a >= 0.0 && b > 0.0
    ensures a / b >= 0.0
  {
    var q := a / b;
    assert q * b == a;
  }

  lemma QuotientTimes(a: real, b: real)
    requires b != 0.0
    ensures a / b * b == a
  {
  }

  lemma TruncAtMost(x: real, bound: real)
    requires x <= bound && bound >= 0.0
    ensures Trunc(x) as real <= bound
  {
  }

  lemma ScaleBelow(a: real, b: real, c: real)
    requires a <= b && c > 0.0
    ensures a * c <= b * c
  {
  }

  /** `calculate_position_size`: zero for a zero stop distance; otherwise the
      risked amount over the stop distance, capped at 5% of portfolio value,
      truncated to whole units. Dividing by a zero close raises. */
  function PositionSize(riskPerTrade: real, value: real, close: real, stopDistance: real): (r: Result<int, StepError>)
    ensures stopDistance == 0.0 ==> r == Ok(0)
    ensures r.Err? <==> stopDistance != 0.0 && close == 0.0
  {
    if stopDistance == 0.0 then Ok(0)
    else if close == 0.0 then Err(DivisionByZero)
    else
      // risk amount over stop distance, against the 5% position value over the price
      var positionSize := value * riskPerTrade / stopDistance;
      var maxPositionSize := value * MaxPositionFraction / close;
      Ok(Trunc(Min(positionSize, maxPositionSize)))
  }

  /** The cap holds: size times price never exceeds 5% of a non-negative
      portfolio, and with a positive stop distance the size is the largest
      whole number of units within both the risk budget and the cap. */
  lemma PositionSizeCapped(riskPerTrade: real, value: real, close: real, stopDistance: real)
    requires value >= 0.0 && close > 0.0
    ensures var r := PositionSize(riskPerTrade, value, close, stopDistance);
      && r.Ok?
      && r.value as real * close <= MaxPositionFraction * value
      && (stopDistance > 0.0 && riskPerTrade >= 0.0 ==>
            var cap := Min(value * riskPerTrade / stopDistance, value * MaxPositionFraction / close);
            0 <= r.value && r.value as real <= cap < r.value as real + 1.0)
  {
    if stopDistance != 0.0 {
      SizeWithinCap(riskPerTrade, value, close, stopDistance,
                    value * riskPerTrade / stopDistance, value * MaxPositionFraction / close,
                    Trunc(Min(value * riskPerTrade / stopDistance, value * MaxPositionFraction / close)));
    }
  }

  lemma SizeWithinCap(riskPerTrade: real, value: real, close: real, stopDistance: real,
                      positionSize: real, maxPositionSize: real, size: int)
    requires stopDistance != 0.0 && close != 0.0
    requires positionSize == value * riskPerTrade / stopDistance
    requires maxPositionSize == value * MaxPositionFraction / close
    requires size == Trunc(Min(positionSize, maxPositionSize))
    ensures value >= 0.0 && close > 0.0 ==> size as real * close <= MaxPositionFraction * value
    ensures stopDistance > 0.0 && value >= 0.0 && riskPerTrade >= 0.0 && close > 0.0 ==>
      0 <= size && size as real <= Min(positionSize, maxPositionSize) < size as real + 1.0
  {
    var m := Min(positionSize, maxPositionSize);
    if value >= 0.0 && close > 0.0 {
      QuotientNonNegative(value * MaxPositionFraction, close);
      TruncAtMost(m, maxPositionSize);
      ScaleBelow(size as real, maxPositionSize, close);
      QuotientTimes(value * MaxPositionFraction, close);
    }
    if stopDistance > 0.0 && value >= 0.0 && riskPerTrade >= 0.0 && close > 0.0 {
      QuotientNonNegative(value * riskPerTrade, stopDistance);
      assert m >= 0.0;
    }
  }

  /** `should_long`: the trend is up and at least one of the three
      confirmations holds (the code asks for one, not two). */
  function ShouldLong(s: Snapshot): (r: bool)
    ensures r <==> s.fastEma > s.slowEma
                   && (s.close > s.prevClose || s.macd > s.macdSignal || 30.0 < s.rsi < 70.0)
  {
    var trendUp := s.fastEma > s.slowEma;
    var confirmations :=
      (if s.close > s.prevClose then 1 else 0) +
      (if s.macd > s.macdSignal then 1 else 0) +
      (if 30.0 < s.rsi < 70.0 then 1 else 0);
    trendUp && confirmations >= 1
  }

  /** `should_short`: the mirror image, with the same RSI band. */
  function ShouldShort(s: Snapshot): (r: bool)
    ensures r <==> s.fastEma < s.slowEma
                   && (s.close < s.prevClose || s.macd < s.macdSignal || 30.0 < s.rsi < 70.0)
  {
    var trendDown := s.fastEma < s.slowEma;
    var confirmations :=
      (if s.close < s.prevClose then 1 else 0) +
      (if s.macd < s.macdSignal then 1 else 0) +
      (if 30.0 < s.rsi < 70.0 then 1 else 0);
    trendDown && confirmations >= 1
  }

  /** The long and the short rule never both fire. */
  lemma LongShortExclusive(s: Snapshot)
    ensures !(ShouldLong(s) && ShouldShort(s))
  {
  }

  /** The strategy's own fields; `position` is backtrader's signed position
      size (positive long, negative short, zero flat). */
  datatype State = State(
    order: bool,                   // self.order is set
    position: int,
    entryPrice: Option<real>,
    positionSize: Option<int>,
    trailingStop: Option<real>,
    entryBar: int,
    consecutiveLosses: nat)

  const Initial: State := State(false, 0, None, None, None, 0, 0)

  ghost predicate Consistent(st: State)
  {
    st.position != 0 ==> st.entryPrice.Some? && st.trailingStop.Some?
  }

  /** The in-position part of `next()`: time exit first; otherwise ratchet the
      trailing stop while in profit and close on a close strictly beyond it. */
  function ManagePosition(p: Params, st: State, s: Snapshot): (r: (State, Decision))
    requires st.position != 0 && Consistent(st)
    ensures Consistent(r.0)
    // The time limit takes precedence and leaves the stop alone.
    ensures s.barCount - st.entryBar > p.maxHoldingDays ==> r == (st.(position := 0), Exit(TimeLimit))
    ensures s.barCount - st.entryBar <= p.maxHoldingDays ==>
      && r.0.trailingStop.Some?
      && (r.1 == Hold || r.1 == Exit(TrailingStop))
      && r.0 == st.(trailingStop := r.0.trailingStop, position := if r.1.Exit? then 0 else st.position)
      // Long: the stop never decreases, moves only on a close above the entry,
      // and a close strictly below it exits.
      && (st.position > 0 ==>
            && r.0.trailingStop.value >= st.trailingStop.value
            && (s.close > st.entryPrice.value ==> r.0.trailingStop.value >= s.close - s.atr * p.atrStopMultiplier)
            && (s.close <= st.entryPrice.value ==> r.0.trailingStop == st.trailingStop)
            && (r.1.Exit? <==> s.close < r.0.trailingStop.value))
      // Short: the stop never increases, moves only on a close below the entry,
      // and a close strictly above it exits.
      && (st.position < 0 ==>
            && r.0.trailingStop.value <= st.trailingStop.value
            && (s.close < st.entryPrice.value ==> r.0.trailingStop.value <= s.close + s.atr * p.atrStopMultiplier)
            && (s.close >= st.entryPrice.value ==> r.0.trailingStop == st.trailingStop)
            && (r.1.Exit? <==> s.close > r.0.trailingStop.value))
  {
    var barsHeld := s.barCount - st.entryBar;
    if barsHeld > p.maxHoldingDays then (st.(position := 0), Exit(TimeLimit))
    else
      var stop := RatchetedStop(p, st, s);
      if StopHit(st, s, stop) then (st.(trailingStop := Some(stop), position := 0), Exit(TrailingStop))
      else (st.(trailingStop := Some(stop)), Hold)
  }

  /** The trailing stop after one bar in position: a long's stop follows a
      close above the entry upwards, a short's follows a close below the entry
      downwards; otherwise it stays. */
  function RatchetedStop(p: Params, st: State, s: Snapshot): (stop: real)
    requires st.position != 0 && Consistent(st)
    // Long: the larger of the old stop and the close minus the ATR offset
    // while in profit, the old stop otherwise.
    ensures st.position > 0 ==> stop >= st.trailingStop.value
    ensures st.position > 0 && s.close > st.entryPrice.value ==>
      var candidate := s.close - s.atr * p.atrStopMultiplier;
      stop >= candidate && (stop == candidate || stop == st.trailingStop.value)
    ensures st.position > 0 && s.close <= st.entryPrice.value ==> stop == st.trailingStop.value
    // Short: the smaller of the old stop and the close plus the ATR offset
    // while in profit, the old stop otherwise.
    ensures st.position < 0 ==> stop <= st.trailingStop.value
    ensures st.position < 0 && s.close < st.entryPrice.value ==>
      var candidate := s.close + s.atr * p.atrStopMultiplier;
      stop <= candidate && (stop == candidate || stop == st.trailingStop.value)
    ensures st.position < 0 && s.close >= st.entryPrice.value ==> stop == st.trailingStop.value
  {
    if st.position > 0 then
      if s.close > st.entryPrice.value
      then (var candidate := s.close - s.atr * p.atrStopMultiplier;
            if candidate >= st.trailingStop.value then candidate else st.trailingStop.value)
      else st.trailingStop.value
    else
      if s.close < st.entryPrice.value
      then (var candidate := s.close + s.atr * p.atrStopMultiplier;
            if candidate <= st.trailingStop.value then candidate else st.trailingStop.value)
      else st.trailingStop.value
  }

  /** A long exits on a close strictly below its stop, a short on a close
      strictly above it. */
  predicate StopHit(st: State, s: Snapshot, stop: real)
  {
    if st.position > 0 then s.close < stop else s.close > stop
  }

  /** The initial stop of an entry: `atr_stop_multiplier` ATRs below the
      close for a long, above it for a short. */
  function StopPrice(p: Params, s: Snapshot, long: bool): (stop: real)
    // With a non-negative ATR offset the stop is on the losing side of the close.
    ensures long ==> (stop <= s.close <==> s.atr * p.atrStopMultiplier >= 0.0)
    ensures !long ==> (stop >= s.close <==> s.atr * p.atrStopMultiplier >= 0.0)
  {
    if long then s.close - s.atr * p.atrStopMultiplier else s.close + s.atr * p.atrStopMultiplier
  }

  /** The size `calculate_position_size` returns for an entry at this close
      with this stop: the stop distance is the close minus the stop for a
      long, the stop minus the close for a short. */
  function EntrySize(p: Params, s: Snapshot, long: bool): (r: Result<int, StepError>)
    // The stop distance is the ATR offset on either side, so only a zero
    // close with a non-zero offset raises, and a zero offset sizes nothing.
    ensures r.Err? <==> s.close == 0.0 && s.atr * p.atrStopMultiplier != 0.0
    ensures s.atr * p.atrStopMultiplier == 0.0 ==> r == Ok(0)
  {
    var stopPrice := StopPrice(p, s, long);
    PositionSize(p.riskPerTrade, s.value, s.close, if long then s.close - stopPrice else stopPrice - s.close)
  }

  /** One entry attempt (the long and the short block of `next()` differ only
      in the side of the stop): the size is stored even when it is zero, and
      only a positive size places an order. */
  function Open(p: Params, st: State, s: Snapshot, long: bool): (r: (State, Decision))
    requires st.position == 0 && !st.order
    ensures r.1 == Hold || r.1.Enter? || r.1.Raise?
    ensures r.1.Raise? <==> EntrySize(p, s, long).Err?
    ensures r.1.Raise? ==> r.0 == st
    // The stored size is what `calculate_position_size` gave, and exactly a
    // positive one enters.
    ensures EntrySize(p, s, long).Ok? ==>
      && r.0.positionSize == Some(EntrySize(p, s, long).value)
      && (r.1.Enter? <==> EntrySize(p, s, long).value > 0)
    ensures r.1.Hold? ==> r.0 == st.(positionSize := r.0.positionSize)
                          && r.0.positionSize.Some? && r.0.positionSize.value <= 0
    ensures r.1.Enter? ==>
      && r.0.order && r.0.entryPrice == Some(s.close) && r.0.entryBar == s.barCount
      && r.0.positionSize.Some? && r.0.positionSize.value > 0
      && r.0.position == (if long then r.0.positionSize.value else -r.0.positionSize.value)
      && r.1.order == EntryOrder(long, r.0.positionSize.value)
      && r.0.trailingStop == Some(StopPrice(p, s, long))
      && r.0 == st.(order := true, position := r.0.position, positionSize := r.0.positionSize,
                    entryPrice := r.0.entryPrice, trailingStop := r.0.trailingStop, entryBar := r.0.entryBar)
  {
    var sized := EntrySize(p, s, long);
    if sized.Err? then (st, Raise(sized.error))
    else if sized.value > 0 then
      (st.(order := true, position := if long then sized.value else -sized.value, positionSize := Some(sized.value),
           entryPrice := Some(s.close), trailingStop := Some(StopPrice(p, s, long)), entryBar := s.barCount),
       Enter(EntryOrder(long, sized.value)))
    else (st.(positionSize := Some(sized.value)), Hold)
  }

  /** A long entry buys, a short entry sells, `size` units. */
  function EntryOrder(long: bool, size: int): (o: OrderIntent)
    ensures o.Buy? <==> long
    ensures o.Buy? || o.Sell?
  {
    if long then Buy(Units(size as real)) else Sell(Units(size as real))
  }

  /** The flat part of `next()`: try long first, then short. */
  function EnterIfSignalled(p: Params, st: State, s: Snapshot): (r: (State, Decision))
    requires st.position == 0 && !st.order
    ensures ShouldLong(s) ==> r == Open(p, st, s, true)
    ensures !ShouldLong(s) && ShouldShort(s) ==> r == Open(p, st, s, false)
    ensures !ShouldLong(s) && !ShouldShort(s) ==> r == (st, Hold)
  {
    if ShouldLong(s) then Open(p, st, s, true)
    else if ShouldShort(s) then Open(p, st, s, false)
    else (st, Hold)
  }

  /** `next()` on one bar. */
  function Decide(p: Params, st: State, s: Snapshot): (r: (State, Decision))
    requires Consistent(st)
    ensures Consistent(r.0)
    // A pending order blocks everything.
    ensures st.order ==> r == (st, Hold)
    // Exits are tried before entries; a bar that closes a position opens none.
    ensures !st.order && st.position != 0 ==> !r.1.Enter? && !r.1.Raise?
    ensures !st.order && st.position == 0 ==> !r.1.Exit?
    // Every entry sets the order flag.
    ensures r.1.Enter? ==> r.0.order
  {
    if st.order then (st, Hold)
    else if st.position != 0 then ManagePosition(p, st, s)
    else EnterIfSignalled(p, st, s)
  }

  /** An entry placed by `next()` respects the 5% cap: the order's size times
      the close is at most 5% of a non-negative portfolio value, and it is the
      size `calculate_position_size` gave for the signalled side. */
  lemma EntryWithinCap(p: Params, st: State, s: Snapshot)
    requires Consistent(st) && s.value >= 0.0 && s.close > 0.0
    requires Decide(p, st, s).1.Enter?
    ensures var r := Decide(p, st, s);
      && r.0.positionSize == Some(EntrySize(p, s, ShouldLong(s)).value)
      && r.1.order == EntryOrder(ShouldLong(s), r.0.positionSize.value)
      && r.0.positionSize.value as real * s.close <= MaxPositionFraction * s.value
  {
    var long := ShouldLong(s);
    assert !st.order && st.position == 0;
    assert Decide(p, st, s) == EnterIfSignalled(p, st, s);
    assert long || ShouldShort(s);
    assert Decide(p, st, s) == Open(p, st, s, long);
    EntrySizeCapped(p, s, long);
  }

  /** The size of either entry is within the 5% cap. */
  lemma EntrySizeCapped(p: Params, s: Snapshot, long: bool)
    requires s.value >= 0.0 && s.close > 0.0
    ensures EntrySize(p, s, long).Ok?
    ensures EntrySize(p, s, long).value as real * s.close <= MaxPositionFraction * s.value
  {
    var stopPrice := StopPrice(p, s, long);
    PositionSizeCapped(p.riskPerTrade, s.value, s.close, if long then s.close - stopPrice else stopPrice - s.close);
  }

  /** The strategy state after a sequence of bars. */
  function Run(p: Params, st: State, bars: seq<Snapshot>): (r: State)
    requires Consistent(st)
    ensures Consistent(r)
    decreases |bars|
  {
    if bars == [] then st else Run(p, Decide(p, st, bars[0]).0, bars[1..])
  }

  /** `self.order` is never cleared: once set, every later bar returns at the
      guard and the state never changes again. */
  lemma {:induction false} OrderBlocksForever(p: Params, st: State, bars: seq<Snapshot>)
    requires Consistent(st) && st.order
    ensures Run(p, st, bars) == st
  {
    if bars != [] {
      OrderBlocksForever(p, st, bars[1..]);
    }
  }

  /** Hence at most one entry is ever made: after the first entry, no bar
      opens, manages or closes anything. */
  lemma {:induction false} AtMostOneEntry(p: Params, st: State, bars: seq<Snapshot>, i: nat)
    requires Consistent(st) && i < |bars|
    requires Decide(p, Run(p, st, bars[..i]), bars[i]).1.Enter?
    ensures Run(p, st, bars[..i + 1]) == Run(p, st, bars)
    ensures forall j :: i < j < |bars| ==> Decide(p, Run(p, st, bars[..j]), bars[j]).1 == Hold
  {
    var mid := Run(p, st, bars[..i + 1]);
    RunSplit(p, st, bars, i + 1);
    RunStep(p, st, bars, i);
    assert mid.order;
    OrderBlocksForever(p, mid, bars[i + 1..]);
    forall j | i < j < |bars|
      ensures Decide(p, Run(p, st, bars[..j]), bars[j]).1 == Hold
    {
      RunSplit(p, st, bars[..j], i + 1);
      assert bars[..j][..i + 1] == bars[..i + 1];
      OrderBlocksForever(p, mid, bars[..j][i + 1..]);
    }
  }

  lemma {:induction false} RunSplit(p: Params, st: State, bars: seq<Snapshot>, k: nat)
    requires Consistent(st) && k <= |bars|
    ensures Run(p, st, bars) == Run(p, Run(p, st, bars[..k]), bars[k..])
    decreases k
  {
    if k > 0 {
      assert bars[..k][1..] == bars[1..][..k - 1];
      assert bars[k..] == bars[1..][k - 1..];
      RunSplit(p, Decide(p, st, bars[0]).0, bars[1..], k - 1);
    }
  }

  lemma RunStep(p: Params, st: State, bars: seq<Snapshot>, i: nat)
    requires Consistent(st) && i < |bars|
    ensures Run(p, st, bars[..i + 1]) == Decide(p, Run(p, st, bars[..i]), bars[i]).0
  {
    RunSplit(p, st, bars[..i + 1], i);
    assert bars[..i + 1][..i] == bars[..i];
    assert bars[..i + 1][i..] == [bars[i]];
  }

  /** `notify_trade`: a closed losing trade extends the losing streak, a closed
      trade without loss resets it, an open trade changes nothing. */
  function NotifyTrade(st: State, closed: bool, pnl: real): (r: State)
    ensures r == st.(consecutiveLosses := r.consecutiveLosses)
    ensures !closed ==> r.consecutiveLosses == st.consecutiveLosses
    ensures closed ==> (r.consecutiveLosses > st.consecutiveLosses <==> pnl < 0.0)
    ensures closed && pnl < 0.0 ==> r.consecutiveLosses == st.consecutiveLosses + 1
    ensures closed && pnl >= 0.0 ==> r.consecutiveLosses == 0
  {
    if closed then
      if pnl < 0.0 then st.(consecutiveLosses := st.consecutiveLosses + 1)
      else st.(consecutiveLosses := 0)
    else st
  }

  class EnhancedAtrStrategy {
    const params: Params
    var order: bool
    var position: int
    var entryPrice: Option<real>
    var positionSize: Option<int>
    var trailingStop: Option<real>
    var entryBar: int
    var consecutiveLosses: nat
    var orders: seq<OrderIntent>

    ghost function Current(): State
      reads this
    {
      State(order, position, entryPrice, positionSize, trailingStop, entryBar, consecutiveLosses)
    }

    ghost predicate Valid()
      reads this
    {
      Consistent(Current())
    }

    constructor (p: Params)
      ensures Valid() && Current() == Initial && orders == []
      ensures params == p
    {
      params := p;
      order, position, entryPrice, positionSize, trailingStop := false, 0, None, None, None;
      entryBar, consecutiveLosses, orders := 0, 0, [];
    }

    /** Built without keyword arguments. */
    constructor Default()
      ensures Valid() && Current() == Initial && orders == []
      ensures params == Params(5, 15, 9, 14, 14, 0.01, 1.5, 2.0, 15)
    {
      params := Params(5, 15, 9, 14, 14, 0.01, 1.5, 2.0, 15);
      order, position, entryPrice, positionSize, trailingStop := false, 0, None, None, None;
      entryBar, consecutiveLosses, orders := 0, 0, [];
    }

    method Step(s: Snapshot) returns (d: Decision)
      requires Valid()
      modifies this
      ensures Valid()
      ensures (Current(), d) == Decide(params, old(Current()), s)
      ensures orders == old(orders) + OrdersOf(d)
    {
      if order {
        return Hold;
      }
      if position != 0 {
        d := ManageOpenPosition(s);
      } else {
        d := EnterOnSignal(s);
      }
    }

    /** The in-position branch of `next()`. */
    method ManageOpenPosition(s: Snapshot) returns (d: Decision)
      requires Valid() && position != 0
      modifies this
      ensures Valid()
      ensures (Current(), d) == ManagePosition(params, old(Current()), s)
      ensures orders == old(orders) + OrdersOf(d)
    {
      d := Hold;
      ghost var st := Current();
      var barsHeld := s.barCount - entryBar;
      if barsHeld > params.maxHoldingDays {
        orders, position, d := orders + [Close], 0, Exit(TimeLimit);
        return;
      }
      var stop := trailingStop.value;
      var hit: bool;
      if position > 0 {
        if s.close > entryPrice.value {
          var candidate := s.close - s.atr * params.atrStopMultiplier;
          stop := if candidate >= stop then candidate else stop;
        }
        hit := s.close < stop;
      } else {
        if s.close < entryPrice.value {
          var candidate := s.close + s.atr * params.atrStopMultiplier;
          stop := if candidate <= stop then candidate else stop;
        }
        hit := s.close > stop;
      }
      assert stop == RatchetedStop(params, st, s) && hit == StopHit(st, s, stop);
      trailingStop := Some(stop);
      if hit {
        orders, position, d := orders + [Close], 0, Exit(TrailingStop);
        assert Current() == st.(trailingStop := Some(stop), position := 0);
      } else {
        assert Current() == st.(trailingStop := Some(stop));
      }
    }

    /** The flat branch of `next()`. */
    method EnterOnSignal(s: Snapshot) returns (d: Decision)
      requires Valid() && position == 0 && !order
      modifies this
      ensures Valid()
      ensures (Current(), d) == EnterIfSignalled(params, old(Current()), s)
      ensures orders == old(orders) + OrdersOf(d)
    {
      d := Hold;
      if ShouldLong(s) {
        d := OpenPosition(s, true);
      } else if ShouldShort(s) {
        d := OpenPosition(s, false);
      }
    }

    /** The body shared by the long and the short entry block. */
    method OpenPosition(s: Snapshot, long: bool) returns (d: Decision)
      requires Valid() && position == 0 && !order
      modifies this
      ensures Valid()
      ensures (Current(), d) == Open(params, old(Current()), s, long)
      ensures orders == old(orders) + OrdersOf(d)
    {
      var stopPrice := StopPrice(params, s, long);
      var size := EntrySize(params, s, long);
      if size.Err? {
        return Raise(size.error);
      }
      positionSize := Some(size.value);
      if size.value <= 0 {
        return Hold;
      }
      var intent := EntryOrder(long, size.value);
      orders, order, position := orders + [intent], true, if long then size.value else -size.value;
      entryPrice, trailingStop, entryBar := Some(s.close), Some(stopPrice), s.barCount;
      d := Enter(intent);
    }

    method NotifyTradeClosed(closed: bool, pnl: real)
      requires Valid()
      modifies this`consecutiveLosses
      ensures Valid()
      ensures Current() == NotifyTrade(old(Current()), closed, pnl)
    {
      if closed {
        if pnl < 0.0 {
          consecutiveLosses := consecutiveLosses + 1;
        } else {
          consecutiveLosses := 0;
        }
      }
    }
  }
}
