/** `MovingAverageOptimizer`: a grid search over short and long SMA periods
    for `ATRMovingAverageStrategy`, keeping the pair with the best Sharpe
    ratio. The backtest itself (data feed, broker, analyzer) is a function
    argument. */
module Optimizer {
  import opened Wrappers
  import AtrMovingAverage

  /** Starting capital of every backtest. */
  const StartingCash: real := 10000.0

  /** Risk-free rate given to the Sharpe ratio analyzer. */
  const RiskFreeRate: real := 0.0

  /** Default multipliers of `run_backtest`. */
  const DefaultStopLossMultiplier: real := 2.0
  const DefaultTakeProfitMultiplier: real := 6.0

  /** What one backtest is run with. */
  datatype BacktestConfig = BacktestConfig(strategy: AtrMovingAverage.Params, cash: real, riskFreeRate: real)

  /** What the Sharpe analyzer reports: no `sharperatio` entry, an entry
      holding `None`, or a ratio. */
  datatype SharpeAnalysis = Absent | NullRatio | Ratio(value: real)

  /** The dictionary `run_backtest` returns; a `None` ratio is `None` here. */
  datatype BacktestResult = BacktestResult(shortPeriod: int, longPeriod: int, sharpeRatio: Option<real>)

  datatype OptimizeError = TypeError

  function ConfigFor(shortPeriod: int, longPeriod: int): (c: BacktestConfig)
    ensures c.strategy.shortPeriod == shortPeriod && c.strategy.longPeriod == longPeriod
  {
    BacktestConfig(
      AtrMovingAverage.Params(shortPeriod, longPeriod, DefaultStopLossMultiplier, DefaultTakeProfitMultiplier),
      StartingCash, RiskFreeRate)
  }

  /** `run_backtest`: echoes the periods; a missing ratio reads as 0. */
  function RunBacktest(analyze: BacktestConfig -> SharpeAnalysis, shortPeriod: int, longPeriod: int): (r: BacktestResult)
    ensures r.shortPeriod == shortPeriod && r.longPeriod == longPeriod
    ensures analyze(ConfigFor(shortPeriod, longPeriod)).Absent? ==> r.sharpeRatio == Some(0.0)
    ensures r.sharpeRatio.None? <==> analyze(ConfigFor(shortPeriod, longPeriod)).NullRatio?
    ensures analyze(ConfigFor(shortPeriod, longPeriod)).Ratio? ==>
      r.sharpeRatio == Some(analyze(ConfigFor(shortPeriod, longPeriod)).value)
  {
    var sharpe := match analyze(ConfigFor(shortPeriod, longPeriod))
      case Absent => Some(0.0)
      case NullRatio => None
      case Ratio(x) => Some(x);
    BacktestResult(shortPeriod, longPeriod, sharpe)
  }

  function Score(analyze: BacktestConfig -> SharpeAnalysis, c: (int, int)): Option<real>
  {
    RunBacktest(analyze, c.0, c.1).sharpeRatio
  }

  /** The pairs (short, long) with short < long that one short period makes
      against `longs`, in list order. */
  function Row(shortPeriod: int, longs: seq<int>): (row: seq<(int, int)>)
    ensures |row| <= |longs|
    decreases |longs|
  {
    if longs == [] then []
    else
      var l := longs[|longs| - 1];
      Row(shortPeriod, longs[..|longs| - 1]) + (if shortPeriod < l then [(shortPeriod, l)] else [])
  }

  /** The pairs the grid search evaluates, in its order: short periods outer,
      long periods inner. */
  function Candidates(shorts: seq<int>, longs: seq<int>): seq<(int, int)>
    decreases |shorts|
  {
    if shorts == [] then []
    else Candidates(shorts[..|shorts| - 1], longs) + Row(shorts[|shorts| - 1], longs)
  }

  lemma {:induction false} RowMembers(shortPeriod: int, longs: seq<int>, c: (int, int))
    ensures c in Row(shortPeriod, longs) <==> c.0 == shortPeriod && c.1 in longs && c.0 < c.1
    decreases |longs|
  {
    if longs != [] {
      var init := longs[..|longs| - 1];
      RowMembers(shortPeriod, init, c);
      assert longs == init + [longs[|longs| - 1]];
    }
  }

  /** Exactly the pairs with short < long drawn from the two lists are
      evaluated: a pair with short >= long never reaches `run_backtest`. */
  lemma {:induction false} CandidatesMembers(shorts: seq<int>, longs: seq<int>, c: (int, int))
    ensures c in Candidates(shorts, longs) <==> c.0 in shorts && c.1 in longs && c.0 < c.1
    decreases |shorts|
  {
    if shorts != [] {
      var init := shorts[..|shorts| - 1];
      CandidatesMembers(init, longs, c);
      RowMembers(shorts[|shorts| - 1], longs, c);
      assert shorts == init + [shorts[|shorts| - 1]];
    }
  }

  /** With no short or no long periods there is nothing to evaluate (and the
      search returns None). */
  lemma {:induction false} CandidatesOfEmpty(shorts: seq<int>, longs: seq<int>)
    requires longs == [] || shorts == []
    ensures Candidates(shorts, longs) == []
    decreases |shorts|
  {
    if shorts != [] {
      CandidatesOfEmpty(shorts[..|shorts| - 1], longs);
    }
  }

  lemma {:induction false} RowPrefix(shortPeriod: int, longs: seq<int>, j: nat)
    requires j <= |longs|
    ensures Row(shortPeriod, longs[..j]) <= Row(shortPeriod, longs)
    decreases |longs|
  {
    if j < |longs| {
      var init := longs[..|longs| - 1];
      RowPrefix(shortPeriod, init, j);
      assert init[..j] == longs[..j];
    } else {
      assert longs[..j] == longs;
    }
  }

  lemma {:induction false} CandidatesPrefix(shorts: seq<int>, longs: seq<int>, i: nat)
    requires i <= |shorts|
    ensures Candidates(shorts[..i], longs) <= Candidates(shorts, longs)
    decreases |shorts|
  {
    if i < |shorts| {
      var init := shorts[..|shorts| - 1];
      CandidatesPrefix(init, longs, i);
      assert init[..i] == shorts[..i];
    } else {
      assert shorts[..i] == shorts;
    }
  }

  lemma PrefixExtend<T>(a: seq<T>, b: seq<T>, c: seq<T>)
    requires b <= c
    ensures a + b <= a + c
  {
    assert (a + c)[..|a + b|] == a + c[..|b|];
  }

  lemma PrefixTransitive<T>(a: seq<T>, b: seq<T>, c: seq<T>)
    requires a <= b && b <= c
    ensures a <= c
  {
    assert c[..|a|] == c[..|b|][..|a|];
  }

  /** One more long period appends at most one pair to the row. */
  lemma RowStep(shortPeriod: int, longs: seq<int>, j: nat)
    requires j < |longs|
    ensures Row(shortPeriod, longs[..j + 1]) ==
      Row(shortPeriod, longs[..j]) + (if shortPeriod < longs[j] then [(shortPeriod, longs[j])] else [])
  {
    assert longs[..j + 1][..j] == longs[..j];
  }

  /** The same step, after the runs of earlier rows. */
  lemma RowExtend(runs0: seq<(int, int)>, shortPeriod: int, longs: seq<int>, j: nat)
    requires j < |longs|
    ensures runs0 + Row(shortPeriod, longs[..j + 1]) ==
      (runs0 + Row(shortPeriod, longs[..j])) + (if shortPeriod < longs[j] then [(shortPeriod, longs[j])] else [])
  {
    RowStep(shortPeriod, longs, j);
  }

  /** One more short period appends its row. */
  lemma CandidatesStep(shorts: seq<int>, longs: seq<int>, i: nat)
    requires i < |shorts|
    ensures Candidates(shorts[..i + 1], longs) == Candidates(shorts[..i], longs) + Row(shorts[i], longs)
  {
    assert shorts[..i + 1][..i] == shorts[..i];
  }

  lemma WithinRow(shorts: seq<int>, longs: seq<int>, i: nat, j: nat)
    requires i < |shorts| && j < |longs|
    ensures Candidates(shorts[..i], longs) + Row(shorts[i], longs[..j + 1]) <= Candidates(shorts[..i + 1], longs)
  {
    CandidatesStep(shorts, longs, i);
    RowPrefix(shorts[i], longs, j + 1);
    PrefixExtend(Candidates(shorts[..i], longs), Row(shorts[i], longs[..j + 1]), Row(shorts[i], longs));
  }

  /** The pairs evaluated before position (i, j) of the nested loops, followed
      by the one at (i, j), are a prefix of all candidates. */
  lemma NextCandidate(shorts: seq<int>, longs: seq<int>, i: nat, j: nat)
    requires i < |shorts| && j < |longs|
    ensures Candidates(shorts[..i], longs) + Row(shorts[i], longs[..j + 1]) <= Candidates(shorts, longs)
  {
    WithinRow(shorts, longs, i, j);
    CandidatesPrefix(shorts, longs, i + 1);
    PrefixTransitive(Candidates(shorts[..i], longs) + Row(shorts[i], longs[..j + 1]),
                     Candidates(shorts[..i + 1], longs), Candidates(shorts, longs));
  }

  /** Every pair in `seen` has a ratio. */
  ghost predicate AllScored(analyze: BacktestConfig -> SharpeAnalysis, seen: seq<(int, int)>)
  {
    forall k :: 0 <= k < |seen| ==> Score(analyze, seen[k]).Some?
  }

  /** `best` is the first pair of `seen` with the greatest ratio, and `None`
      only when nothing was seen. */
  ghost predicate IsFirstBest(analyze: BacktestConfig -> SharpeAnalysis, seen: seq<(int, int)>, best: Option<(int, int)>)
    requires AllScored(analyze, seen)
  {
    && (best.None? <==> seen == [])
    && (best.Some? ==>
          exists b :: 0 <= b < |seen| && seen[b] == best.value
            && (forall k :: 0 <= k < |seen| ==> Score(analyze, seen[k]).value <= Score(analyze, seen[b]).value)
            && (forall k :: 0 <= k < b ==> Score(analyze, seen[k]).value < Score(analyze, seen[b]).value))
  }

  /** The loop state of the search after the pairs `seen`: `bestConfig` is the
      first pair of greatest Sharpe ratio, `bestSharpe` its ratio (`None`
      standing for minus infinity). */
  ghost predicate Tracks(analyze: BacktestConfig -> SharpeAnalysis, seen: seq<(int, int)>,
                         bestConfig: Option<(int, int)>, bestSharpe: Option<real>, bestIndex: nat)
  {
    && AllScored(analyze, seen)
    && (bestConfig.None? <==> seen == [])
    && (bestConfig.None? ==> bestSharpe.None?)
    && (bestConfig.Some? ==>
          && bestIndex < |seen| && seen[bestIndex] == bestConfig.value
          && bestSharpe == Score(analyze, seen[bestIndex])
          && (forall k :: 0 <= k < |seen| ==> Score(analyze, seen[k]).value <= bestSharpe.value)
          && (forall k :: 0 <= k < bestIndex ==> Score(analyze, seen[k]).value < bestSharpe.value))
  }

  lemma TracksFirstBest(analyze: BacktestConfig -> SharpeAnalysis, seen: seq<(int, int)>,
                        bestConfig: Option<(int, int)>, bestSharpe: Option<real>, bestIndex: nat)
    requires Tracks(analyze, seen, bestConfig, bestSharpe, bestIndex)
    ensures AllScored(analyze, seen) && IsFirstBest(analyze, seen, bestConfig)
  {
    if bestConfig.Some? {
      var b := bestIndex;
      assert 0 <= b < |seen| && seen[b] == bestConfig.value;
    }
  }

  /** One more evaluated pair: a strictly greater ratio (or the first ratio,
      against minus infinity) takes over, anything else keeps the best. */
  lemma TracksExtend(analyze: BacktestConfig -> SharpeAnalysis, seen: seq<(int, int)>, c: (int, int),
                     bestConfig: Option<(int, int)>, bestSharpe: Option<real>, bestIndex: nat)
    requires Tracks(analyze, seen, bestConfig, bestSharpe, bestIndex) && Score(analyze, c).Some?
    ensures bestSharpe.None? || Score(analyze, c).value > bestSharpe.value ==>
      Tracks(analyze, seen + [c], Some(c), Score(analyze, c), |seen|)
    ensures !(bestSharpe.None? || Score(analyze, c).value > bestSharpe.value) ==>
      Tracks(analyze, seen + [c], bestConfig, bestSharpe, bestIndex)
  {
    var next := seen + [c];
    assert forall k :: 0 <= k < |seen| ==> next[k] == seen[k];
  }

  /** The comparison with the best ratio so far: a strictly greater ratio
      replaces the best pair, so ties keep the earlier one. */
  method Consider(analyze: BacktestConfig -> SharpeAnalysis, seen: seq<(int, int)>, result: BacktestResult,
                  bestConfig0: Option<(int, int)>, bestSharpe0: Option<real>, ghost bestIndex0: nat)
    returns (bestConfig: Option<(int, int)>, bestSharpe: Option<real>, ghost bestIndex: nat)
    requires Tracks(analyze, seen, bestConfig0, bestSharpe0, bestIndex0)
    requires result == RunBacktest(analyze, result.shortPeriod, result.longPeriod) && result.sharpeRatio.Some?
    ensures Tracks(analyze, seen + [(result.shortPeriod, result.longPeriod)], bestConfig, bestSharpe, bestIndex)
  {
    bestConfig, bestSharpe, bestIndex := bestConfig0, bestSharpe0, bestIndex0;
    TracksExtend(analyze, seen, (result.shortPeriod, result.longPeriod), bestConfig, bestSharpe, bestIndex);
    if bestSharpe.None? || result.sharpeRatio.value > bestSharpe.value {
      bestSharpe := result.sharpeRatio;
      bestConfig := Some((result.shortPeriod, result.longPeriod));
      bestIndex := |seen|;
    }
  }

  /** A run without a ratio ends a sequence of scored runs. */
  lemma FailedRun(analyze: BacktestConfig -> SharpeAnalysis, seen: seq<(int, int)>, c: (int, int))
    requires AllScored(analyze, seen) && Score(analyze, c).None?
    ensures var next := seen + [c]; Score(analyze, next[|next| - 1]).None? && AllScored(analyze, next[..|next| - 1])
  {
    assert (seen + [c])[..|seen|] == seen;
  }

  /** `optimize_ma_periods`. `runs` lists the backtests in the order they are
      run. A `None` ratio makes the strict comparison with a float raise. */
  method OptimizeMaPeriods(shortMaList: seq<int>, longMaList: seq<int>, analyze: BacktestConfig -> SharpeAnalysis)
    returns (r: Result<Option<(int, int)>, OptimizeError>, runs: seq<(int, int)>)
    ensures runs <= Candidates(shortMaList, longMaList)
    // A TypeError exactly when some evaluated pair has a None ratio: the run
    // stops at the first one, and a completed run saw none.
    ensures r.Err? ==> runs != [] && Score(analyze, runs[|runs| - 1]).None?
                       && AllScored(analyze, runs[..|runs| - 1])
    // Otherwise every valid pair is backtested once, in loop order, and the
    // result is the first of greatest ratio (None when there is no valid pair).
    ensures r.Ok? ==> && runs == Candidates(shortMaList, longMaList)
                      && AllScored(analyze, runs)
                      && IsFirstBest(analyze, runs, r.value)
  {
    var bestConfig: Option<(int, int)> := None;
    var bestSharpe: Option<real> := None;
    ghost var bestIndex: nat := 0;
    runs := [];
    for i := 0 to |shortMaList|
      invariant runs == Candidates(shortMaList[..i], longMaList)
      invariant Tracks(analyze, runs, bestConfig, bestSharpe, bestIndex)
    {
      var failed: bool;
      ghost var stop: nat;
      failed, runs, bestConfig, bestSharpe, bestIndex, stop :=
        EvaluateRow(shortMaList[i], longMaList, analyze, runs, bestConfig, bestSharpe, bestIndex);
      if failed {
        NextCandidate(shortMaList, longMaList, i, stop);
        return Err(TypeError), runs;
      }
      CandidatesStep(shortMaList, longMaList, i);
    }
    assert shortMaList[..|shortMaList|] == shortMaList;
    TracksFirstBest(analyze, runs, bestConfig, bestSharpe, bestIndex);
    r := Ok(bestConfig);
  }

  /** The inner loop of `optimize_ma_periods` for one short period, carrying
      the search state; `failed` reports the TypeError of a None ratio at
      long period index `stop`. */
  method EvaluateRow(shortPeriod: int, longMaList: seq<int>, analyze: BacktestConfig -> SharpeAnalysis,
                     runs0: seq<(int, int)>, bestConfig0: Option<(int, int)>, bestSharpe0: Option<real>,
                     ghost bestIndex0: nat)
    returns (failed: bool, runs: seq<(int, int)>, bestConfig: Option<(int, int)>, bestSharpe: Option<real>,
             ghost bestIndex: nat, ghost stop: nat)
    requires Tracks(analyze, runs0, bestConfig0, bestSharpe0, bestIndex0)
    ensures !failed ==> runs == runs0 + Row(shortPeriod, longMaList)
                        && Tracks(analyze, runs, bestConfig, bestSharpe, bestIndex)
    ensures failed ==> && stop < |longMaList|
                       && runs == runs0 + Row(shortPeriod, longMaList[..stop + 1])
                       && runs != [] && Score(analyze, runs[|runs| - 1]).None?
                       && AllScored(analyze, runs[..|runs| - 1])
  {
    runs, bestConfig, bestSharpe, bestIndex, stop := runs0, bestConfig0, bestSharpe0, bestIndex0, 0;
    for j := 0 to |longMaList|
      invariant runs == runs0 + Row(shortPeriod, longMaList[..j])
      invariant Tracks(analyze, runs, bestConfig, bestSharpe, bestIndex)
    {
      var longPeriod := longMaList[j];
      RowExtend(runs0, shortPeriod, longMaList, j);
      if shortPeriod >= longPeriod {
        continue;
      }
      var result := RunBacktest(analyze, shortPeriod, longPeriod);
      if result.sharpeRatio.None? {
        FailedRun(analyze, runs, (shortPeriod, longPeriod));
        runs := runs + [(shortPeriod, longPeriod)];
        return true, runs, bestConfig, bestSharpe, bestIndex, j;
      }
      bestConfig, bestSharpe, bestIndex := Consider(analyze, runs, result, bestConfig, bestSharpe, bestIndex);
      runs := runs + [(shortPeriod, longPeriod)];
    }
    assert longMaList[..|longMaList|] == longMaList;
    failed := false;
  }
}
