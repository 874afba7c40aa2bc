/** `VWAPStrategy`: a cumulative VWAP computed with pandas, a 0.5% band signal
    for DataFrames, and a price-versus-VWAP rule for backtrader. */
module VwapSignals {
  import opened Wrappers
  import opened Sums
  import opened Bars

  /** A float as pandas produces it from a division: a finite value, or, when
      the divisor is zero, +inf, -inf or NaN according to the dividend. */
  datatype Extended = Finite(v: real) | PosInf | NegInf | NaN

  function Divide(n: real, d: real): (q: Extended)
  {
    if d != 0.0 then Finite(n / d)
    else if n > 0.0 then PosInf
    else if n < 0.0 then NegInf
    else NaN
  }

  /** `x > e * f` for a positive factor `f`; every comparison with NaN is false. */
  predicate Above(x: real, e: Extended, f: real)
  {
    match e
    case Finite(v) => x > v * f
    case PosInf => false
    case NegInf => true
    case NaN => false
  }

  /** `x < e * f` for a positive factor `f`. */
  predicate Below(x: real, e: Extended, f: real)
  {
    match e
    case Finite(v) => x < v * f
    case PosInf => true
    case NegInf => false
    case NaN => false
  }

  /** The cumulative VWAP after the given rows: cumsum(close * volume) /
      cumsum(volume), evaluated at the last row. */
  function CumulativeVwap(close: seq<real>, volume: seq<real>): Extended
    requires |close| == |volume|
  {
    Divide(Dot(close, volume), Sum(volume))
  }

  /** With non-negative volumes and some volume traded, the cumulative VWAP is
      finite and lies between the lowest and the highest close. */
  lemma CumulativeVwapWithinCloses(close: seq<real>, volume: seq<real>, lo: real, hi: real)
    requires |close| == |volume| && NonNegative(volume) && Between(close, lo, hi)
    requires exists k :: 0 <= k < |volume| && volume[k] > 0.0
    ensures CumulativeVwap(close, volume).Finite?
    ensures lo <= CumulativeVwap(close, volume).v <= hi
  {
    var k :| 0 <= k < |volume| && volume[k] > 0.0;
    PositiveSum(volume, k);
    MeanBounds(close, volume, lo, hi);
  }

  lemma {:induction false} PositiveSum(ws: seq<real>, k: nat)
    requires NonNegative(ws) && k < |ws| && ws[k] > 0.0
    ensures Sum(ws) > 0.0
  {
    var n := |ws| - 1;
    if k == n {
      SumNonNegative(ws[..n]);
    } else {
      PositiveSum(ws[..n], k);
    }
  }

  /** Row `i` adds its own terms to both running sums. */
  lemma RunningSumsStep(close: seq<real>, volume: seq<real>, i: nat)
    requires |close| == |volume| && i < |close|
    ensures Dot(close[..i + 1], volume[..i + 1]) == Dot(close[..i], volume[..i]) + close[i] * volume[i]
    ensures Sum(volume[..i + 1]) == Sum(volume[..i]) + volume[i]
  {
    assert close[..i + 1] == close[..i] + [close[i]];
    assert volume[..i + 1] == volume[..i] + [volume[i]];
    DotAppend(close[..i], volume[..i], close[i], volume[i]);
    SumAppend(volume[..i], volume[i]);
  }

  /** `calculate_vwap`: the running sums are accumulated row by row; row `i`
      of the result is the cumulative VWAP of rows `0..i`. */
  method CalculateVwap(close: seq<real>, volume: seq<real>) returns (vwap: seq<Extended>)
    requires |close| == |volume|
    ensures |vwap| == |close|
    ensures forall i :: 0 <= i < |close| ==> vwap[i] == CumulativeVwap(close[..i + 1], volume[..i + 1])
  {
    var cumVolPrice, cumVol := 0.0, 0.0;
    vwap := [];
    var i := 0;
    while i < |close|
      invariant 0 <= i <= |close| && |vwap| == i
      invariant cumVolPrice == Dot(close[..i], volume[..i]) && cumVol == Sum(volume[..i])
      invariant forall k :: 0 <= k < i ==> vwap[k] == CumulativeVwap(close[..k + 1], volume[..k + 1])
    {
      RunningSumsStep(close, volume, i);
      cumVolPrice := cumVolPrice + close[i] * volume[i];
      cumVol := cumVol + volume[i];
      vwap := vwap + [Divide(cumVolPrice, cumVol)];
      i := i + 1;
    }
  }

  datatype Signal = BUY | SELL | HOLD

  /** The columns of a DataFrame, by name; all columns have the same length. */
  datatype Frame = Frame(columns: map<string, seq<real>>)

  ghost predicate Rectangular(f: Frame)
  {
    forall a, b :: a in f.columns && b in f.columns ==> |f.columns[a]| == |f.columns[b]|
  }

  datatype FrameError = ValueError(message: string) | KeyError(key: string) | IndexError

  const MissingVolumeMessage: string := "Market data must include a 'volume' column for VWAP calculation."

  /** `generate_signals`: the band signal on the last row, with the VWAP
      column it adds to the frame. */
  method GenerateSignals(df: Frame) returns (r: Result<(Signal, seq<Extended>), FrameError>)
    requires Rectangular(df)
    ensures "volume" !in df.columns ==> r == Err(ValueError(MissingVolumeMessage))
    ensures "volume" in df.columns && "close" !in df.columns ==> r == Err(KeyError("close"))
    ensures "volume" in df.columns && "close" in df.columns && |df.columns["close"]| == 0 ==> r == Err(IndexError)
    ensures r.Ok? <==> "volume" in df.columns && "close" in df.columns && |df.columns["close"]| > 0
    ensures r.Ok? ==>
      var c, v := df.columns["close"], df.columns["volume"];
      var last := c[|c| - 1];
      var vw := CumulativeVwap(c, v);
      && (r.value.0 == BUY <==> Above(last, vw, 1.005))
      && (r.value.0 == SELL <==> !Above(last, vw, 1.005) && Below(last, vw, 0.995))
      && |r.value.1| == |c|
      && forall i :: 0 <= i < |c| ==> r.value.1[i] == CumulativeVwap(c[..i + 1], v[..i + 1])
  {
    if "volume" !in df.columns {
      return Err(ValueError(MissingVolumeMessage));
    }
    if "close" !in df.columns {
      return Err(KeyError("close"));
    }
    var close, volume := df.columns["close"], df.columns["volume"];
    var vwap := CalculateVwap(close, volume);
    if |close| == 0 {
      return Err(IndexError);
    }
    var lastClose, lastVwap := close[|close| - 1], vwap[|vwap| - 1];
    assert close[..|close|] == close && volume[..|volume|] == volume;
    if Above(lastClose, lastVwap, 1.005) {
      r := Ok((BUY, vwap));
    } else if Below(lastClose, lastVwap, 0.995) {
      r := Ok((SELL, vwap));
    } else {
      r := Ok((HOLD, vwap));
    }
  }

  /** For a finite, non-negative VWAP the band test reads as written in the
      source, and BUY and SELL cannot both hold. */
  lemma BandSignalFinite(last: real, vw: real)
    requires vw >= 0.0
    ensures Above(last, Finite(vw), 1.005) <==> last > vw * 1.005
    ensures Below(last, Finite(vw), 0.995) <==> last < vw * 0.995
    ensures !(Above(last, Finite(vw), 1.005) && Below(last, Finite(vw), 0.995))
  {
  }

  /** The backtrader rule: buy when flat and the close is above VWAP; close when
      in position and the close is below VWAP. */
  function Decide(inPosition: bool, close: real, vwap: Extended): (d: Decision)
    ensures d == Enter(Buy(DefaultSize)) <==> !inPosition && Above(close, vwap, 1.0)
    ensures d == Exit(VwapBelow) <==> inPosition && Below(close, vwap, 1.0)
    ensures d == Hold || d == Enter(Buy(DefaultSize)) || d == Exit(VwapBelow)
  {
    if Above(close, vwap, 1.0) && !inPosition then Enter(Buy(DefaultSize))
    else if Below(close, vwap, 1.0) && inPosition then Exit(VwapBelow)
    else Hold
  }

  class VwapStrategy {
    const vwapPeriod: int   // stored, never read by the rules
    var inPosition: bool
    var orders: seq<OrderIntent>

    ghost predicate Valid()
      reads this
    {
      Alternates(orders) && (inPosition <==> |orders| % 2 == 1)
    }

    constructor (vwapPeriod: int)
      ensures Valid() && this.vwapPeriod == vwapPeriod && !inPosition && orders == []
    {
      this.vwapPeriod := vwapPeriod;
      inPosition, orders := false, [];
    }

    /** `next()`: the VWAP is recomputed over the whole close and volume arrays
        of the data feed and its last value compared with the current close. */
    method Step(close: real, closeArray: seq<real>, volumeArray: seq<real>) returns (d: Decision)
      requires Valid() && |closeArray| == |volumeArray|
      modifies this
      ensures Valid()
      ensures |closeArray| == 0 ==> d == Raise(EmptyFrame)
      ensures |closeArray| > 0 ==> d == Decide(old(inPosition), close, CumulativeVwap(closeArray, volumeArray))
      ensures inPosition == (d.Enter? || (old(inPosition) && !d.Exit?))
      ensures orders == old(orders) + OrdersOf(d)
    {
      var column := CalculateVwap(closeArray, volumeArray);
      if |column| == 0 {
        return Raise(EmptyFrame);
      }
      var vwap := column[|column| - 1];
      assert closeArray[..|closeArray|] == closeArray && volumeArray[..|volumeArray|] == volumeArray;
      d := Hold;
      if Above(close, vwap, 1.0) && !inPosition {
        orders := orders + [Buy(DefaultSize)];
        inPosition := true;
        d := Enter(Buy(DefaultSize));
      } else if Below(close, vwap, 1.0) && inPosition {
        orders := orders + [Close];
        inPosition := false;
        d := Exit(VwapBelow);
      }
    }
  }
}
