/** The custom backtrader indicators: a windowed VWAP (two identical copies of
    it exist in the repository) and On-Balance Volume. */
module Indicators {
  import opened Wrappers
  import opened Sums

  /** The columns of one bar the indicators read. */
  datatype Bar = Bar(high: real, low: real, close: real, volume: real)

  /** Why a VWAP value is missing: backtrader has not yet seen `period` bars,
      or the division by a zero window volume raised ZeroDivisionError. */
  datatype VwapError = NotReady | ZeroVolume

  function TypicalPrice(b: Bar): real
  {
    (b.high + b.low + b.close) / 3.0
  }

  function TypicalPrices(w: seq<Bar>): (ps: seq<real>)
    ensures |ps| == |w|
    ensures forall k :: 0 <= k < |w| ==> ps[k] == TypicalPrice(w[k])
  {
    seq(|w|, k requires 0 <= k < |w| => TypicalPrice(w[k]))
  }

  function Volumes(w: seq<Bar>): (vs: seq<real>)
    ensures |vs| == |w|
    ensures forall k :: 0 <= k < |w| ==> vs[k] == w[k].volume
  {
    seq(|w|, k requires 0 <= k < |w| => w[k].volume)
  }

  /** The last `period` bars up to and including bar `i` (SumN's window). */
  function Window(bars: seq<Bar>, period: nat, i: nat): (w: seq<Bar>)
    requires period <= i + 1 <= |bars|
    ensures |w| == period
    ensures forall k :: 0 <= k < period ==> w[k] == bars[i + 1 - period + k]
  {
    bars[i + 1 - period .. i + 1]
  }

  /** The VWAP line at bar `i`: SumN(typical price * volume) / SumN(volume). */
  function VwapAt(bars: seq<Bar>, period: nat, i: nat): (r: Result<real, VwapError>)
    requires i < |bars|
    ensures r == Err(NotReady) <==> i + 1 < period
    ensures r == Err(ZeroVolume) <==> period <= i + 1 && Sum(Volumes(Window(bars, period, i))) == 0.0
    ensures r.Ok? ==> var w := Window(bars, period, i);
                      r.value * Sum(Volumes(w)) == Dot(TypicalPrices(w), Volumes(w))
  {
    if i + 1 < period then Err(NotReady)
    else
      var w := Window(bars, period, i);
      var vol := Sum(Volumes(w));
      if vol == 0.0 then Err(ZeroVolume) else Ok(Dot(TypicalPrices(w), Volumes(w)) / vol)
  }

  /** The value at bar `i` depends on bars `i+1-period .. i` only: two series
      that agree on that window give the same value there, whatever came
      before and whatever comes after. */
  lemma VwapDependsOnWindowOnly(bars: seq<Bar>, other: seq<Bar>, period: nat, i: nat, j: nat)
    requires i < |bars| && j < |other| && period <= i + 1 && period <= j + 1
    requires Window(bars, period, i) == Window(other, period, j)
    ensures VwapAt(bars, period, i) == VwapAt(other, period, j)
  {
  }

  /** Causality: appending later bars never changes an earlier value. */
  lemma VwapCausal(bars: seq<Bar>, later: seq<Bar>, period: nat, i: nat)
    requires i < |bars|
    ensures VwapAt(bars + later, period, i) == VwapAt(bars, period, i)
  {
    if period <= i + 1 {
      assert Window(bars + later, period, i) == Window(bars, period, i);
    }
  }

  /** VWAP is a volume-weighted mean: with non-negative volumes it lies between
      the smallest and the largest typical price of its window. */
  lemma VwapWithinTypicalRange(bars: seq<Bar>, period: nat, i: nat, lo: real, hi: real)
    requires i < |bars| && period <= i + 1
    requires forall k :: i + 1 - period <= k <= i ==> bars[k].volume >= 0.0
    requires forall k :: i + 1 - period <= k <= i ==> lo <= TypicalPrice(bars[k]) <= hi
    ensures VwapAt(bars, period, i).Ok? ==> lo <= VwapAt(bars, period, i).value <= hi
  {
    var w := Window(bars, period, i);
    if Sum(Volumes(w)) != 0.0 {
      SumNonNegative(Volumes(w));
      MeanBounds(TypicalPrices(w), Volumes(w), lo, hi);
    }
  }

  /** When every bar of the window has typical price `p`, VWAP is `p`. */
  lemma VwapOfConstantPrice(bars: seq<Bar>, period: nat, i: nat, p: real)
    requires i < |bars| && period <= i + 1
    requires forall k :: i + 1 - period <= k <= i ==> TypicalPrice(bars[k]) == p
    ensures VwapAt(bars, period, i).Ok? ==> VwapAt(bars, period, i).value == p
  {
    var w := Window(bars, period, i);
    DotConstant(TypicalPrices(w), Volumes(w), p);
  }

  // ---------------------------------------------------------------- OBV

  /** OBV at bar `i`, by the indicator's recurrence. */
  function Obv(closes: seq<real>, volumes: seq<real>, i: nat): real
    requires |closes| == |volumes| && i < |closes|
  {
    if i == 0 then volumes[0]
    else if closes[i] > closes[i - 1] then Obv(closes, volumes, i - 1) + volumes[i]
    else if closes[i] < closes[i - 1] then Obv(closes, volumes, i - 1) - volumes[i]
    else Obv(closes, volumes, i - 1)
  }

  function Sign(x: real): real
  {
    if x > 0.0 then 1.0 else if x < 0.0 then -1.0 else 0.0
  }

  /** Volumes signed by the direction of each close-to-close move, bars 1..n. */
  function SignedVolumes(closes: seq<real>, volumes: seq<real>, n: nat): (sv: seq<real>)
    requires |closes| == |volumes| && n < |closes|
    ensures |sv| == n
    ensures forall k :: 0 <= k < n ==> sv[k] == Sign(closes[k + 1] - closes[k]) * volumes[k + 1]
  {
    seq(n, k requires 0 <= k < n => Sign(closes[k + 1] - closes[k]) * volumes[k + 1])
  }

  /** Closed form: OBV is the first volume plus the signed volumes since. */
  lemma {:induction false} ObvClosedForm(closes: seq<real>, volumes: seq<real>, n: nat)
    requires |closes| == |volumes| && n < |closes|
    ensures Obv(closes, volumes, n) == volumes[0] + Sum(SignedVolumes(closes, volumes, n))
  {
    if n > 0 {
      ObvClosedForm(closes, volumes, n - 1);
      assert SignedVolumes(closes, volumes, n)[..n - 1] == SignedVolumes(closes, volumes, n - 1);
    }
  }

  /** One bar moves OBV by at most that bar's volume. */
  lemma ObvStepBound(closes: seq<real>, volumes: seq<real>, i: nat)
    requires |closes| == |volumes| && 0 < i < |closes| && volumes[i] >= 0.0
    ensures -volumes[i] <= Obv(closes, volumes, i) - Obv(closes, volumes, i - 1) <= volumes[i]
  {
  }

  /** The OBV indicator object: backtrader calls `Next` once per bar, and the
      indicator writes `lines.obv[0]` from the previous value. */
  class ObvIndicator {
    var closes: seq<real>
    var volumes: seq<real>
    var line: seq<real>

    ghost predicate Valid()
      reads this
    {
      |closes| == |volumes| == |line| &&
      forall i :: 0 <= i < |line| ==> line[i] == Obv(closes, volumes, i)
    }

    constructor ()
      ensures Valid() && closes == [] && volumes == [] && line == []
    {
      closes, volumes, line := [], [], [];
    }

    method Next(close: real, volume: real)
      requires Valid()
      modifies this
      ensures Valid()
      ensures closes == old(closes) + [close] && volumes == old(volumes) + [volume]
      ensures line == old(line) + [Obv(closes, volumes, |old(line)|)]
    {
      var n := |line|;
      var value: real;
      if n == 0 {
        value := volume;
      } else {
        var prevObv := line[n - 1];
        var prevClose := closes[n - 1];
        if close > prevClose {
          value := prevObv + volume;
        } else if close < prevClose {
          value := prevObv - volume;
        } else {
          value := prevObv;
        }
      }
      closes, volumes := closes + [close], volumes + [volume];
      line := line + [value];
      forall i | 0 <= i < n
        ensures line[i] == Obv(closes, volumes, i)
      {
        ObvPrefix(old(closes), old(volumes), closes, volumes, i);
      }
      if n > 0 {
        ObvPrefix(old(closes), old(volumes), closes, volumes, n - 1);
      }
    }
  }

  /** OBV at bar `i` does not depend on bars after `i`. */
  lemma {:induction false} ObvPrefix(c: seq<real>, v: seq<real>, c2: seq<real>, v2: seq<real>, i: nat)
    requires |c| == |v| && |c2| == |v2| && i < |c| <= |c2|
    requires c == c2[..|c|] && v == v2[..|v|]
    ensures Obv(c, v, i) == Obv(c2, v2, i)
  {
    if i > 0 {
      ObvPrefix(c, v, c2, v2, i - 1);
    }
  }

  /** backtrader's bar loop over a whole series: the line it leaves behind is
      OBV bar by bar. */
  method RunObv(closes: seq<real>, volumes: seq<real>) returns (line: seq<real>)
    requires |closes| == |volumes|
    ensures |line| == |closes|
    ensures forall i :: 0 <= i < |line| ==> line[i] == Obv(closes, volumes, i)
  {
    var obv := new ObvIndicator();
    var n := 0;
    while n < |closes|
      invariant 0 <= n <= |closes|
      invariant obv.Valid()
      invariant obv.closes == closes[..n] && obv.volumes == volumes[..n]
      invariant |obv.line| == n
    {
      obv.Next(closes[n], volumes[n]);
      assert closes[..n + 1] == closes[..n] + [closes[n]];
      assert volumes[..n + 1] == volumes[..n] + [volumes[n]];
      n := n + 1;
    }
    line := obv.line;
    assert closes[..n] == closes && volumes[..n] == volumes;
  }
}
