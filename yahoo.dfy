/** The Yahoo Finance data provider: the market-hours rule, the fixed trading
    hours and the filtering of fetched frames. The clock and the download are
    parameters: the weekday and time of day in New York, and one outcome per
    requested ticker. */
module YahooProvider {
  import opened Wrappers
  import Dotenv

  /** A wall-clock time as `datetime.time` holds it (without a time zone). */
  datatype TimeOfDay = TimeOfDay(hour: nat, minute: nat, second: nat, microsecond: nat)

  predicate ValidTime(t: TimeOfDay)
  {
    t.hour < 24 && t.minute < 60 && t.second < 60 && t.microsecond < 1000000
  }

  /** Python orders times field by field, hour first. */
  predicate NotAfter(a: TimeOfDay, b: TimeOfDay)
  {
    a.hour < b.hour || (a.hour == b.hour &&
    (a.minute < b.minute || (a.minute == b.minute &&
    (a.second < b.second || (a.second == b.second && a.microsecond <= b.microsecond)))))
  }

  /** Microseconds since midnight: an independent measure of a time. */
  function Micros(t: TimeOfDay): nat
  {
    ((t.hour * 60 + t.minute) * 60 + t.second) * 1000000 + t.microsecond
  }

  /** On valid times the field-by-field order is the order of the instants. */
  lemma NotAfterIsEarlier(a: TimeOfDay, b: TimeOfDay)
    requires ValidTime(a) && ValidTime(b)
    ensures NotAfter(a, b) <==> Micros(a) <= Micros(b)
  {
    var sa := (a.hour * 60 + a.minute) * 60 + a.second;
    var sb := (b.hour * 60 + b.minute) * 60 + b.second;
    assert Micros(a) == sa * 1000000 + a.microsecond;
    assert Micros(b) == sb * 1000000 + b.microsecond;
    var ma := a.hour * 60 + a.minute;
    var mb := b.hour * 60 + b.minute;
    assert ma < mb <==> (a.hour < b.hour || (a.hour == b.hour && a.minute < b.minute));
    assert sa < sb <==> (ma < mb || (ma == mb && a.second < b.second));
    if sa < sb {
      assert sa * 1000000 + a.microsecond < (sa + 1) * 1000000 <= sb * 1000000;
    } else if sb < sa {
      assert sb * 1000000 + b.microsecond < (sb + 1) * 1000000 <= sa * 1000000;
    }
  }

  /** The regular session, 9:30 to 16:00 Eastern. */
  const MarketOpen := TimeOfDay(9, 30, 0, 0)
  const MarketClose := TimeOfDay(16, 0, 0, 0)

  /** `is_market_open` for the current New York weekday (Monday is 0) and
      time: closed on Saturday and Sunday, otherwise open from the opening
      time to the closing time, both included. */
  function IsMarketOpen(weekday: nat, now: TimeOfDay): (r: bool)
    requires weekday < 7 && ValidTime(now)
    ensures weekday >= 5 ==> !r
    ensures weekday < 5 ==> (r <==> 34200000000 <= Micros(now) <= 57600000000)
  {
    NotAfterIsEarlier(MarketOpen, now);
    NotAfterIsEarlier(now, MarketClose);
    if weekday >= 5 then false
    else NotAfter(MarketOpen, now) && NotAfter(now, MarketClose)
  }

  /** The dictionary returned by `get_trading_hours`. */
  datatype TradingHours = TradingHours(marketOpen: string, marketClose: string, timezone: string,
                                       preMarketOpen: string, afterMarketClose: string)

  function GetTradingHours(): TradingHours
  {
    TradingHours("9:30", "16:00", "America/New_York", "4:00", "20:00")
  }

  predicate IsDigit(c: char)
  {
    '0' <= c <= '9'
  }

  function DigitValue(c: char): (r: nat)
    requires IsDigit(c)
    ensures r < 10
  {
    (c as int - '0' as int) as nat
  }

  /** The value of a string of decimal digits. */
  function Digits(s: string): (r: nat)
    requires forall i :: 0 <= i < |s| ==> IsDigit(s[i])
    ensures |s| == 1 ==> r == DigitValue(s[0])
    ensures |s| == 2 ==> r == 10 * DigitValue(s[0]) + DigitValue(s[1])
    ensures r < Pow10(|s|)
    decreases |s|
  {
    if s == [] then 0
    else 10 * Digits(s[..|s| - 1]) + DigitValue(s[|s| - 1])
  }

  function Pow10(n: nat): (r: nat)
    ensures r >= 1
  {
    if n == 0 then 1 else 10 * Pow10(n - 1)
  }

  /** `strptime(s, "%H:%M").time()`: one or two digits of hour below 24, a
      colon, one or two digits of minute below 60. */
  function ParseHourMinute(s: string): (r: Option<TimeOfDay>)
    ensures r.Some? ==> ValidTime(r.value) && r.value.second == 0 && r.value.microsecond == 0
  {
    match Dotenv.Find(s, ':')
    case None => None
    case Some(i) =>
      var h, m := s[..i], s[i + 1..];
      if 1 <= |h| <= 2 && 1 <= |m| <= 2
         && (forall j :: 0 <= j < |h| ==> IsDigit(h[j]))
         && (forall j :: 0 <= j < |m| ==> IsDigit(m[j]))
         && Digits(h) < 24 && Digits(m) < 60
      then Some(TimeOfDay(Digits(h), Digits(m), 0, 0))
      else None
  }

  /** A time written as hour digits, a colon and minute digits parses to
      that hour and minute. */
  lemma ParseWritten(h: string, m: string)
    requires 1 <= |h| <= 2 && 1 <= |m| <= 2
    requires (forall j :: 0 <= j < |h| ==> IsDigit(h[j])) && (forall j :: 0 <= j < |m| ==> IsDigit(m[j]))
    requires Digits(h) < 24 && Digits(m) < 60
    ensures ParseHourMinute(h + ":" + m) == Some(TimeOfDay(Digits(h), Digits(m), 0, 0))
  {
    var s := h + ":" + m;
    assert s[|h|] == ':' && s[..|h|] == h && s[|h| + 1..] == m;
    assert ':' !in h;
    var f := Dotenv.Find(s, ':');
    assert f.Some?;
    assert forall j :: 0 <= j < |h| ==> s[j] == h[j];
    assert f.value <= |h|;
  }

  /** "9:30" is the opening time. */
  lemma OpenParses()
    ensures ParseHourMinute("9:30") == Some(MarketOpen)
  {
    ParseWritten("9", "30");
    assert "9" + ":" + "30" == "9:30";
    assert Digits("9") == 9 && Digits("30") == 30;
  }

  /** "16:00" is the closing time. */
  lemma CloseParses()
    ensures ParseHourMinute("16:00") == Some(MarketClose)
  {
    ParseWritten("16", "00");
    assert "16" + ":" + "00" == "16:00";
    assert Digits("16") == 16 && Digits("00") == 0;
  }

  /** "4:00" is four o'clock. */
  lemma PreMarketParses()
    ensures ParseHourMinute("4:00") == Some(TimeOfDay(4, 0, 0, 0))
  {
    ParseWritten("4", "00");
    assert "4" + ":" + "00" == "4:00";
    assert Digits("4") == 4 && Digits("00") == 0;
  }

  /** "20:00" is eight in the evening. */
  lemma AfterMarketParses()
    ensures ParseHourMinute("20:00") == Some(TimeOfDay(20, 0, 0, 0))
  {
    ParseWritten("20", "00");
    assert "20" + ":" + "00" == "20:00";
    assert Digits("20") == 20 && Digits("00") == 0;
  }

  /** The hours `get_trading_hours` reports read back, with the same format
      `is_market_open` parses, as the session it checks, and the extended
      hours surround that session. */
  lemma TradingHoursAgree()
    ensures var hours := GetTradingHours();
      && ParseHourMinute(hours.marketOpen) == Some(MarketOpen)
      && ParseHourMinute(hours.marketClose) == Some(MarketClose)
      && ParseHourMinute(hours.preMarketOpen) == Some(TimeOfDay(4, 0, 0, 0))
      && ParseHourMinute(hours.afterMarketClose) == Some(TimeOfDay(20, 0, 0, 0))
      && NotAfter(TimeOfDay(4, 0, 0, 0), MarketOpen) && NotAfter(MarketClose, TimeOfDay(20, 0, 0, 0))
  {
    OpenParses();
    CloseParses();
    PreMarketParses();
    AfterMarketParses();
  }

  /** A downloaded price history: labelled columns of equal length `rows`.
      Column labels are distinct. */
  datatype Frame = Frame(columns: seq<(string, seq<real>)>, rows: nat)

  /** `df.empty`: no rows or no columns. */
  predicate IsEmpty(df: Frame)
  {
    df.rows == 0 || |df.columns| == 0
  }

  /** The columns `fetch_data` keeps, in this order. */
  const Ohlcv: seq<string> := ["Open", "High", "Low", "Close", "Volume"]

  predicate HasColumn(df: Frame, name: string)
  {
    exists i :: 0 <= i < |df.columns| && df.columns[i].0 == name
  }

  function Column(df: Frame, name: string): (r: seq<real>)
    requires HasColumn(df, name)
    ensures exists i :: 0 <= i < |df.columns| && df.columns[i] == (name, r)
    decreases |df.columns|
  {
    if df.columns[0].0 == name then df.columns[0].1
    else
      assert HasColumn(Frame(df.columns[1..], df.rows), name) by {
        var i :| 0 <= i < |df.columns| && df.columns[i].0 == name;
        assert df.columns[1..][i - 1].0 == name;
      }
      Column(Frame(df.columns[1..], df.rows), name)
  }

  /** `df[names]`: the named columns in the given order, or a `KeyError`
      when one is missing. */
  function Select(df: Frame, names: seq<string>): (r: Option<Frame>)
    ensures r.Some? <==> forall k :: 0 <= k < |names| ==> HasColumn(df, names[k])
    ensures r.Some? ==> r.value.rows == df.rows && |r.value.columns| == |names|
    ensures r.Some? ==> forall k :: 0 <= k < |names| ==> r.value.columns[k] == (names[k], Column(df, names[k]))
  {
    if forall k :: 0 <= k < |names| ==> HasColumn(df, names[k])
    then Some(Frame(seq(|names|, k requires 0 <= k < |names| => (names[k], Column(df, names[k]))), df.rows))
    else None
  }

  /** What the download of one ticker gave: an exception, or a frame. */
  datatype Outcome = Raised | Got(df: Frame)

  /** The frame `fetch_data` stores for one download, if any: none when the
      download raised, the frame is empty or a price column is missing. */
  function Kept(o: Outcome): (r: Option<Frame>)
    ensures r.Some? <==> o.Got? && !IsEmpty(o.df) && forall k :: 0 <= k < |Ohlcv| ==> HasColumn(o.df, Ohlcv[k])
    ensures r.Some? ==> r.value.rows == o.df.rows && |r.value.columns| == |Ohlcv|
    ensures r.Some? ==> forall k :: 0 <= k < |Ohlcv| ==> r.value.columns[k] == (Ohlcv[k], Column(o.df, Ohlcv[k]))
  {
    if o.Raised? || IsEmpty(o.df) then None else Select(o.df, Ohlcv)
  }

  /** The dictionary `fetch_data` returns after the downloads `outcomes` of
      `tickers`, one per ticker, in order: each kept frame is stored under its
      ticker, replacing an earlier one. */
  function Fetched(tickers: seq<string>, outcomes: seq<Outcome>): map<string, Frame>
    requires |outcomes| == |tickers|
    decreases |tickers|
  {
    if tickers == [] then map[]
    else
      var n := |tickers| - 1;
      Store(Fetched(tickers[..n], outcomes[..n]), tickers[n], outcomes[n])
  }

  /** One step of `fetch_data`: the frame kept from download `o`, if any,
      stored under `t`. */
  function Store(data: map<string, Frame>, t: string, o: Outcome): (r: map<string, Frame>)
    ensures Kept(o).Some? ==> r == data[t := Kept(o).value]
    ensures forall u :: u != t || Kept(o).None? ==> (u in r <==> u in data) && (u in r ==> r[u] == data[u])
  {
    match Kept(o)
    case None => data
    case Some(df) => data[t := df]
  }

  /** `fetch_data` with the downloads as a parameter. */
  method FetchData(tickers: seq<string>, outcomes: seq<Outcome>) returns (data: map<string, Frame>)
    requires |outcomes| == |tickers|
    ensures data == Fetched(tickers, outcomes)
  {
    data := map[];
    for i := 0 to |tickers|
      invariant data == Fetched(tickers[..i], outcomes[..i])
    {
      assert tickers[..i + 1][..i] == tickers[..i] && outcomes[..i + 1][..i] == outcomes[..i];
      match Kept(outcomes[i])
      case None =>
      case Some(df) => data := data[tickers[i] := df];
    }
    assert tickers[..|tickers|] == tickers && outcomes[..|outcomes|] == outcomes;
  }

  /** Download `i` is the last one of ticker `t` that gave a kept frame. */
  ghost predicate LastKept(tickers: seq<string>, outcomes: seq<Outcome>, t: string, i: int)
    requires |outcomes| == |tickers|
  {
    && 0 <= i < |tickers| && tickers[i] == t && Kept(outcomes[i]).Some?
    && forall j :: i < j < |tickers| && tickers[j] == t ==> Kept(outcomes[j]).None?
  }

  /** A frame as `fetch_data` stores it: some rows, and exactly the price
      columns, in order. */
  predicate PriceFrame(df: Frame)
  {
    df.rows > 0 && |df.columns| == |Ohlcv| && forall k :: 0 <= k < |Ohlcv| ==> df.columns[k].0 == Ohlcv[k]
  }

  /** The result holds only requested tickers, each with a price frame. */
  lemma {:induction false} FetchedShape(tickers: seq<string>, outcomes: seq<Outcome>)
    requires |outcomes| == |tickers|
    ensures forall t :: t in Fetched(tickers, outcomes) ==> t in tickers && PriceFrame(Fetched(tickers, outcomes)[t])
    decreases |tickers|
  {
    if tickers != [] {
      var n := |tickers| - 1;
      FetchedShape(tickers[..n], outcomes[..n]);
      forall t | t in Fetched(tickers, outcomes)
        ensures t in tickers && PriceFrame(Fetched(tickers, outcomes)[t])
      {
        if t != tickers[n] || Kept(outcomes[n]).None? {
          assert t in Fetched(tickers[..n], outcomes[..n]);
          assert t in tickers[..n];
        }
      }
    }
  }

  /** The last download leaves every ticker but its own alone, and its own
      too when its frame is not kept. */
  lemma FetchedStepOther(tickers: seq<string>, outcomes: seq<Outcome>, t: string)
    requires |outcomes| == |tickers| && tickers != []
    requires var n := |tickers| - 1; !(tickers[n] == t && Kept(outcomes[n]).Some?)
    ensures var n := |tickers| - 1;
      && (t in Fetched(tickers, outcomes) <==> t in Fetched(tickers[..n], outcomes[..n]))
      && (t in Fetched(tickers, outcomes) ==> Fetched(tickers, outcomes)[t] == Fetched(tickers[..n], outcomes[..n])[t])
  {
  }

  /** A download kept for `t` among the first ones is one among all. */
  lemma KeptInPrefix(tickers: seq<string>, outcomes: seq<Outcome>, t: string, n: nat)
    requires |outcomes| == |tickers| && n <= |tickers|
    ensures (exists i :: 0 <= i < n && tickers[..n][i] == t && Kept(outcomes[..n][i]).Some?) <==>
            (exists i :: 0 <= i < n && tickers[i] == t && Kept(outcomes[i]).Some?)
  {
    if exists i :: 0 <= i < n && tickers[i] == t && Kept(outcomes[i]).Some? {
      var i :| 0 <= i < n && tickers[i] == t && Kept(outcomes[i]).Some?;
      assert tickers[..n][i] == t && outcomes[..n][i] == outcomes[i];
    }
  }

  /** A ticker is in the result iff one of its downloads gave a kept frame. */
  lemma {:induction false} FetchedPresent(tickers: seq<string>, outcomes: seq<Outcome>, t: string)
    requires |outcomes| == |tickers|
    ensures t in Fetched(tickers, outcomes) <==>
              exists i :: 0 <= i < |tickers| && tickers[i] == t && Kept(outcomes[i]).Some?
    decreases |tickers|
  {
    if tickers != [] {
      var n := |tickers| - 1;
      if !(tickers[n] == t && Kept(outcomes[n]).Some?) {
        FetchedPresent(tickers[..n], outcomes[..n], t);
        FetchedStepOther(tickers, outcomes, t);
        KeptInPrefix(tickers, outcomes, t, n);
      }
    }
  }

  /** The last kept download of `t` among the first ones stays the last one
      when the final download does not keep a frame for `t`. */
  lemma LastKeptExtend(tickers: seq<string>, outcomes: seq<Outcome>, t: string, i: int)
    requires |outcomes| == |tickers| && tickers != []
    requires var n := |tickers| - 1;
      LastKept(tickers[..n], outcomes[..n], t, i) && !(tickers[n] == t && Kept(outcomes[n]).Some?)
    ensures LastKept(tickers, outcomes, t, i) && Kept(outcomes[i]) == Kept(outcomes[..|tickers| - 1][i])
  {
    var n := |tickers| - 1;
    assert tickers[..n][i] == tickers[i] && outcomes[..n][i] == outcomes[i];
    forall j | i < j < |tickers| && tickers[j] == t
      ensures Kept(outcomes[j]).None?
    {
      if j < n {
        assert tickers[..n][j] == tickers[j] && outcomes[..n][j] == outcomes[j];
      }
    }
  }

  /** A ticker in the result holds the frame of its last kept download. */
  lemma {:induction false} FetchedLast(tickers: seq<string>, outcomes: seq<Outcome>, t: string)
    requires |outcomes| == |tickers|
    requires t in Fetched(tickers, outcomes)
    ensures exists i :: LastKept(tickers, outcomes, t, i) && Kept(outcomes[i]) == Some(Fetched(tickers, outcomes)[t])
    decreases |tickers|
  {
    var n := |tickers| - 1;
    if tickers[n] == t && Kept(outcomes[n]).Some? {
      assert LastKept(tickers, outcomes, t, n);
    } else {
      FetchedStepOther(tickers, outcomes, t);
      FetchedLast(tickers[..n], outcomes[..n], t);
      var i :| LastKept(tickers[..n], outcomes[..n], t, i)
               && Kept(outcomes[..n][i]) == Some(Fetched(tickers[..n], outcomes[..n])[t]);
      LastKeptExtend(tickers, outcomes, t, i);
    }
  }

  /** With distinct tickers, each ticker is present exactly when its own
      download gave a usable frame, and holds the price columns of it. */
  lemma FetchedDistinct(tickers: seq<string>, outcomes: seq<Outcome>, i: nat)
    requires |outcomes| == |tickers| && i < |tickers|
    requires forall j, k :: 0 <= j < k < |tickers| ==> tickers[j] != tickers[k]
    ensures tickers[i] in Fetched(tickers, outcomes) <==>
              outcomes[i].Got? && !IsEmpty(outcomes[i].df) && forall k :: 0 <= k < |Ohlcv| ==> HasColumn(outcomes[i].df, Ohlcv[k])
    ensures tickers[i] in Fetched(tickers, outcomes) ==> Kept(outcomes[i]) == Some(Fetched(tickers, outcomes)[tickers[i]])
  {
    FetchedPresent(tickers, outcomes, tickers[i]);
    if tickers[i] in Fetched(tickers, outcomes) {
      FetchedLast(tickers, outcomes, tickers[i]);
    }
  }
}
