# Trading strategies, optimizer, bot gateway and configuration — a Dafny model

This project models the decision-making core of a small algorithmic-trading
repository and proves properties of it.

- **Strategies.** The backtrader strategies are:
  - `MovingAverageStrategy`, `ATRMovingAverageStrategy`, `VWAPStrategy`,
    `ATRVWAPStrategy` and `EnhancedATRStrategy` in `src/strategy/strategies.py`;
  - the older copies of the first two in `strategy/strategies.py` and
    `strategy/moving_average_strategy.py`.

  Each strategy is a pure decision function over one bar's `Snapshot` (indicator
  values, account figures, bar counter). A class holds the fields that `next()`
  updates. Its `Step` method is proved equal to the decision function and
  appends the orders it places to an order log. In the four long-only
  strategies that log alternates between entries and closes;
  `EnhancedATRStrategy` places at most one entry per run (`AtMostOneEntry`).
- **Indicators.** The custom indicators in both `indicators.py` files: the
  windowed VWAP (`SumN` of typical price times volume over `SumN` of volume)
  and On-Balance Volume. OBV is an indicator object whose `Next` extends its
  line by the OBV recurrence.
- **Optimizer.** `MovingAverageOptimizer.optimize_ma_periods` is a nested-loop
  grid search. It is proved to visit exactly the valid (short, long) pairs in
  order, to return the first pair with the greatest Sharpe ratio, and to fail
  on a `None` ratio. The backtest itself is a function parameter.
- **Trading bot.** `TradingBot.trade` in `tws/trading_bot.py` places at most one
  market order per cycle, decided by the signal and the holding check. The
  TWS port is chosen from the trading mode.
- **Configuration.** `Config` in `src/config/config.py` covers:
  - the dotted-key lookup with its environment-variable override;
  - `_nested_get`, `_nested_set` and `_iter_deep_items` on a configuration tree
    kept in insertion order;
  - the `${NAME}` secret resolution;
  - the parser of the decrypted secrets file (`str.splitlines`, `str.strip`,
    the split on the first `=`).
- **Telegram bot.** `TelegramBot` in `src/bot_gateway/bots/telegram_bot.py`:
  webhook verification, command parsing (`str.split`, `" ".join`), user
  authorisation, the command table and response formatting.
- **Yahoo provider.** `YahooFinanceProvider` in
  `src/analysis/data_providers/yahoo_provider.py`: the market-hours rule, the
  fixed trading hours and the filtering of fetched frames.

Floats are modelled as reals. Where Python's behaviour on a float matters it is
written out:
- `int()` truncates toward zero;
- a float division by zero raises;
- a pandas division by zero gives ±inf or NaN, and every comparison with NaN
  is false.

Inputs from outside the program are parameters:
- the clock;
- the downloads;
- the decrypted secrets text;
- the parsed YAML documents;
- backtrader's indicator values.

Modules: `Wrappers`, `Bars`, `Sums`, `Indicators`, `MovingAverage`,
`AtrMovingAverage`, `VwapSignals`, `AtrVwap`, `EnhancedAtr`, `Optimizer`,
`TradingBot`, `ConfigTree`, `Dotenv`, `AppConfig`, `Telegram`, `YahooProvider`.

## Model

| member | source | states |
|---|---|---|
| Bars.OrdersOf | src/strategy/strategies.py:60-78 | One bar places at most one order, and places none exactly when the strategy neither enters nor exits |
| Bars.AlternatesAppend | src/strategy/strategies.py:62-78 | An entry at an even position, or a close at an odd one, keeps a long-only order log alternating, so at most one position is open |
| MovingAverage.Decide | src/strategy/strategies.py:60-78 | Flat: buys (default size) iff short SMA > long SMA, otherwise holds. In position: exits iff close < buy price × stop %, close > buy price × target %, or short < long. Stop-loss is checked before take-profit, and take-profit before the crossover exit. The copies at strategy/strategies.py:40-64 and strategy/moving_average_strategy.py:16-35 have the same rules |
| MovingAverage.EqualAveragesNoCrossover | src/strategy/strategies.py:71-76 | With equal averages a flat strategy holds, and an open position is never closed by the crossover rule (both comparisons are strict) |
| MovingAverage.MovingAverageStrategy.constructor | src/strategy/strategies.py:44-58 | The given parameters; flat, no buy price, empty order log |
| MovingAverage.MovingAverageStrategy.Default | src/strategy/strategies.py:46-49 | Defaults 10, 30, 0.95 and 1.10, as in strategy/strategies.py:28-31 and strategy/moving_average_strategy.py:4-9 |
| MovingAverage.MovingAverageStrategy.Step | src/strategy/strategies.py:60-78 | `next()` on one bar equals `Decide` on the old state. A buy opens the position and records the close as buy price; an exit closes it. The log grows by that bar's order and keeps alternating |
| AtrMovingAverage.Decide | src/strategy/strategies.py:121-147 | Flat: on short SMA > long SMA it buys cash × 0.02 / ATR units, or raises ZeroDivisionError when ATR is 0; otherwise holds. In position: exits at close ≤ entry − ATR × stop multiplier, else at close ≥ entry + ATR × target multiplier; no crossover exit. The copy at strategy/strategies.py:107-134 has the same rules |
| AtrMovingAverage.AveragesIgnoredInPosition | src/strategy/strategies.py:134-147 | While a position is open the decision does not depend on the moving averages |
| AtrMovingAverage.AtrMovingAverageStrategy.constructor | src/strategy/strategies.py:103-119 | The given parameters; flat, no entry price, empty order log |
| AtrMovingAverage.AtrMovingAverageStrategy.Default | src/strategy/strategies.py:105-108 | Defaults 20, 80, 2 and 6 (not the 10/30/1.5/3.0 the docstring lists), as in strategy/strategies.py:92-95 |
| AtrMovingAverage.AtrMovingAverageStrategy.Step | src/strategy/strategies.py:121-147 | `next()` equals `Decide`. An entry records the close; an exit closes; a raised error changes nothing. The log stays alternating |
| AtrVwap.Decide | src/strategy/strategies.py:276-309 | Entry needs short > long AND close > VWAP, sized as in the ATR strategy (an ATR of 0 raises). Exit at close ≤ stop OR close < VWAP, otherwise at close ≥ target |
| AtrVwap.AtrVwapStrategy.constructor | src/strategy/strategies.py:257-260 | The given parameters; flat, no entry price, empty order log |
| AtrVwap.AtrVwapStrategy.Default | src/strategy/strategies.py:257-260 | Defaults 20, 80, 2 and 6 |
| AtrVwap.AtrVwapStrategy.Step | src/strategy/strategies.py:276-309 | `next()` equals `Decide`, with the same state and order-log invariant as the ATR strategy |
| VwapSignals.CumulativeVwapWithinCloses | src/strategy/strategies.py:185-187 | With non-negative volumes and some volume traded, the cumulative VWAP is finite and lies between the lowest and the highest close |
| VwapSignals.CalculateVwap | src/strategy/strategies.py:175-188 | Row i of the result is cumsum(close·volume) / cumsum(volume) over rows 0..i; +inf, −inf or NaN where no volume has traded yet |
| VwapSignals.GenerateSignals | src/strategy/strategies.py:190-215 | A missing volume column raises the ValueError with its message, a missing close column a KeyError, an empty frame an IndexError. Otherwise: BUY iff last close > 1.005 × last VWAP; SELL iff not BUY and last close < 0.995 × VWAP; else HOLD. The VWAP column is returned too |
| VwapSignals.BandSignalFinite | src/strategy/strategies.py:210-213 | For a finite non-negative VWAP the band tests read as written, and BUY and SELL exclude each other |
| VwapSignals.Decide | src/strategy/strategies.py:230-234 | Buys iff flat and close > VWAP; closes iff in position and close < VWAP; NaN never triggers |
| VwapSignals.VwapStrategy.constructor | src/strategy/strategies.py:165-173 | Stores the period; flat, empty order log |
| VwapSignals.VwapStrategy.Step | src/strategy/strategies.py:217-235 | VWAP is recomputed over the whole close and volume arrays and its last value is compared; an empty series raises; the order log stays alternating |
| EnhancedAtr.Trunc | src/strategy/strategies.py:382 | `int()` of a float: truncation toward zero from either side; the result is the unique integer n with n ≤ x < n + 1 for x ≥ 0 and x ≤ n < x + 1 for x < 0 |
| EnhancedAtr.PositionSize | src/strategy/strategies.py:369-382 | A zero stop distance gives 0; otherwise the call fails exactly when the close is 0 (division by zero) |
| EnhancedAtr.PositionSizeCapped | src/strategy/strategies.py:374-382 | For a non-negative portfolio and positive close, size × close ≤ 5% of portfolio value. With a positive stop distance, the size is the whole part of min(risk amount / stop distance, 5% value / close) |
| EnhancedAtr.ShouldLong | src/strategy/strategies.py:384-405 | Long iff fast EMA > slow EMA and at least one of: close up on the bar, MACD above signal, 30 < RSI < 70. One confirmation is enough; the docstring's "2 out of 3" is not what the code does |
| EnhancedAtr.ShouldShort | src/strategy/strategies.py:407-428 | Short iff fast EMA < slow EMA and at least one of: close down, MACD below signal, 30 < RSI < 70 |
| EnhancedAtr.LongShortExclusive | src/strategy/strategies.py:384-428 | The long and the short rule never both fire |
| EnhancedAtr.ManagePosition | src/strategy/strategies.py:443-474 | Time exit first: more than `max_holding_days` bars held closes without touching the stop. Otherwise the trailing stop only ratchets in the trade's favour and only when the close is in profit. A close strictly beyond the stop exits. Nothing else in the state changes |
| EnhancedAtr.RatchetedStop | src/strategy/strategies.py:449-470 | A long's stop becomes the larger of the old stop and close − ATR × multiplier while the close is above the entry, a short's the smaller of the old stop and close + ATR × multiplier while below; otherwise the stop stays. So a long's stop never falls and a short's never rises |
| EnhancedAtr.StopPrice | src/strategy/strategies.py:478-493 | The initial stop is ATR × multiplier below the close for a long, above it for a short; on the losing side iff that offset is non-negative |
| EnhancedAtr.EntrySize | src/strategy/strategies.py:477-497 | The size `calculate_position_size` returns for the stop distance of an entry: it raises iff the close is 0 and the ATR offset is not, and a zero offset sizes 0. Its bounds are in the `PositionSizeCapped` and `EntryWithinCap` rows |
| EnhancedAtr.Open | src/strategy/strategies.py:477-505 | Sizing errors propagate with the state unchanged. A zero or negative size is stored but places nothing. A positive size sets the order flag, the entry price, the entry bar, the initial trailing stop and a signed position, and places a buy (long) or sell (short) of that size. The stored size is exactly what `calculate_position_size` returned for that side, and the entry happens iff that size is positive |
| EnhancedAtr.EntryWithinCap | src/strategy/strategies.py:369-505 | An entry placed by `next()` has the size `calculate_position_size` gave for the signalled side, buys for a long and sells for a short, and its size times the close is at most 5% of a non-negative portfolio value |
| EnhancedAtr.EntryOrder | src/strategy/strategies.py:483-499 | A long entry buys, a short entry sells |
| EnhancedAtr.EnterIfSignalled | src/strategy/strategies.py:476-505 | Tries the long entry first, the short entry only when the long rule does not fire, and holds when neither does |
| EnhancedAtr.Decide | src/strategy/strategies.py:430-505 | A pending order blocks the bar. With a position only exits happen; when flat only entries. Every entry sets the order flag. A position always has an entry price and a trailing stop |
| EnhancedAtr.Run | src/strategy/strategies.py:430-505 | Over any sequence of bars a position always has an entry price and a trailing stop |
| EnhancedAtr.OrderBlocksForever | src/strategy/strategies.py:432-433 | `self.order` is never cleared, so once it is set no later bar changes the state |
| EnhancedAtr.AtMostOneEntry | src/strategy/strategies.py:430-505 | After the first entry every later bar holds: the strategy trades at most once per run |
| EnhancedAtr.NotifyTrade | src/strategy/strategies.py:507-513 | A closed losing trade adds exactly 1 to the losing streak; a closed trade without loss resets it to 0; an open trade changes nothing; no other field changes |
| EnhancedAtr.EnhancedAtrStrategy.constructor | src/strategy/strategies.py:337-367 | The given parameters; no order, flat, no entry data, zero losses, empty order log |
| EnhancedAtr.EnhancedAtrStrategy.Default | src/strategy/strategies.py:337-367 | Defaults 5, 15, 9, 14, 14, 0.01, 1.5, 2.0, 15; no order, flat, no entry data, zero losses |
| EnhancedAtr.EnhancedAtrStrategy.Step | src/strategy/strategies.py:430-505 | `next()` changes the fields as `Decide` does and logs its order |
| EnhancedAtr.EnhancedAtrStrategy.ManageOpenPosition | src/strategy/strategies.py:443-474 | The in-position branch updates the fields as `ManagePosition` does |
| EnhancedAtr.EnhancedAtrStrategy.EnterOnSignal | src/strategy/strategies.py:476-505 | The flat branch updates the fields as `EnterIfSignalled` does |
| EnhancedAtr.EnhancedAtrStrategy.OpenPosition | src/strategy/strategies.py:477-505 | One entry block updates the fields as `Open` does |
| EnhancedAtr.EnhancedAtrStrategy.NotifyTradeClosed | src/strategy/strategies.py:507-513 | `notify_trade` updates the losing streak as `NotifyTrade` does |
| Indicators.VwapAt | src/strategy/indicators.py:19-28 | Before `period` bars there is no value; a zero window volume raises; otherwise value × window volume = Σ typical price × volume over the last `period` bars. The copy at strategy/indicators.py:16-23 is identical |
| Indicators.VwapDependsOnWindowOnly | src/strategy/indicators.py:24-28 | Two series that agree on a window give the same VWAP at its end |
| Indicators.VwapCausal | src/strategy/indicators.py:24-28 | Later bars never change an earlier VWAP value |
| Indicators.VwapWithinTypicalRange | src/strategy/indicators.py:21-28 | With non-negative volumes the VWAP lies between the smallest and the largest typical price of its window |
| Indicators.VwapOfConstantPrice | src/strategy/indicators.py:21-28 | A window of constant typical price p has VWAP p |
| Indicators.ObvClosedForm | src/strategy/indicators.py:47-59 | OBV equals the first volume plus the sum of volumes signed by each close-to-close move |
| Indicators.ObvStepBound | src/strategy/indicators.py:54-59 | One bar moves OBV by at most that bar's volume |
| Indicators.ObvIndicator.constructor | src/strategy/indicators.py:44-45 | An empty line |
| Indicators.ObvIndicator.Next | src/strategy/indicators.py:47-59 | Appends the bar. The new line value is the OBV recurrence: the first volume, or the previous value ± volume on a higher/lower close, unchanged on an equal one. The whole line stays equal to OBV |
| Indicators.ObvPrefix | src/strategy/indicators.py:47-59 | OBV at a bar does not depend on later bars |
| Indicators.RunObv | src/strategy/indicators.py:47-59 | Feeding a series bar by bar leaves a line equal to OBV at every bar |
| Optimizer.ConfigFor | src/strategy/optimizer.py:36-58 | Each backtest runs the ATR moving-average strategy with the given periods |
| Optimizer.RunBacktest | src/strategy/optimizer.py:17-70 | Echoes the periods. An absent `sharperatio` reads as 0, a `None` one stays `None`, and any other value is passed through |
| Optimizer.RowMembers | src/strategy/optimizer.py:87-89 | One short period is paired with exactly the long periods greater than it |
| Optimizer.CandidatesMembers | src/strategy/optimizer.py:86-91 | Exactly the pairs with short < long from the two lists are backtested |
| Optimizer.CandidatesOfEmpty | src/strategy/optimizer.py:83-96 | An empty list of short or long periods backtests nothing |
| Optimizer.TracksExtend | src/strategy/optimizer.py:92-94 | A strictly greater ratio (or the first one, against −inf) becomes the best; anything else keeps the earlier best |
| Optimizer.Consider | src/strategy/optimizer.py:92-94 | After one comparison the state is still the first pair of greatest ratio among the pairs seen |
| Optimizer.OptimizeMaPeriods | src/strategy/optimizer.py:72-96 | The backtests run are a prefix of the valid pairs in loop order. On success they are all of them, all scored, and the result is the first pair with the greatest Sharpe ratio (`None` when there is none). A `None` ratio raises TypeError right after its own backtest |
| Optimizer.EvaluateRow | src/strategy/optimizer.py:87-94 | The inner loop backtests this short period's row and keeps the first-best state, or stops at the first `None` ratio |
| TradingBot.PortFor | tws/trading_bot.py:36 | Port 7497 iff paper trading, 7496 iff live |
| TradingBot.Holding | tws/trading_bot.py:78 | Holding iff some position in the symbol has a strictly positive quantity |
| TradingBot.OrderFor | tws/trading_bot.py:76-88 | BUY iff the signal is "BUY" and not holding; SELL iff "SELL" and holding; otherwise no order; the quantity is the bot's |
| TradingBot.NoRepeatedBuy | tws/trading_bot.py:78-83 | Once the broker reports a long position in the symbol, a repeated BUY places nothing |
| TradingBot.TradingBot.constructor | tws/trading_bot.py:20-36 | Keeps the symbol, quantity and strategy kind; the port is chosen from the trading mode |
| TradingBot.TradingBot.Trade | tws/trading_bot.py:61-88 | No data: nothing happens. A backtrader strategy: cerebro runs once and nothing is placed by hand. Otherwise exactly the order `OrderFor` decides is placed |
| AppConfig.EnvKey | src/config/config.py:53 | Same length as the key; dots become underscores; each lower-case ASCII letter becomes its upper-case letter (code point minus 32); every other character is kept |
| AppConfig.Get | src/config/config.py:39-63 | An environment variable named after the key wins. Otherwise the dotted key is walked through the configuration, and a failed walk raises its error |
| AppConfig.VarName | src/config/config.py:129-130 | `value[2:-1]` is the NAME of "${NAME}" |
| AppConfig.ResolveItems | src/config/config.py:128-135 | Definition of the loop body of `_resolve_secrets` over the listed items; its properties are in the `ResolveStep`, `ResolveItemsFails` and `ResolveItemsResolves` rows |
| AppConfig.ResolveSecretsOf | src/config/config.py:120-136 | Definition of `_resolve_secrets` on a whole configuration; its properties are in the `ResolveSecretsFails`, `ResolveSecretsFirstMissing` and `ResolveSecretsResolves` rows |
| AppConfig.ResolveStep | src/config/config.py:128-135 | Resolving one leaf sets that leaf and leaves every diverging path and the remaining items intact |
| AppConfig.ResolveItemsFails | src/config/config.py:128-134 | Over distinct leaves the loop fails exactly when some placeholder's variable is unset, with the error naming the first one |
| AppConfig.ResolveItemsResolves | src/config/config.py:128-135 | A loop that does not fail leaves every item's leaf resolved and every other path as it was |
| AppConfig.IterDeepLeafItems | src/config/config.py:172-188 | On a well-formed tree the yielded items name distinct leaves |
| AppConfig.ResolveSecretsFails | src/config/config.py:120-137 | `_resolve_secrets` fails exactly when some "${NAME}" leaf names an unset variable |
| AppConfig.ResolveSecretsFirstMissing | src/config/config.py:128-133 | The ValueError names the first unset variable in iteration order |
| AppConfig.ResolveSecretsResolves | src/config/config.py:120-137 | On success every leaf holds its resolved value: the variable's value for a placeholder, itself otherwise |
| AppConfig.MissingVariableExample | src/config/config.py:129-133 | A lone "${MISSING_VAR}" with the variable unset raises "Missing required environment variable: MISSING_VAR" |
| AppConfig.OverrideExample | src/config/config.py:53-56 | DATABASE_HOST overrides "database.host" whatever the file says |
| AppConfig.OrEmpty | src/config/config.py:116 | A falsy YAML document becomes an empty configuration; a truthy one is kept |
| AppConfig.Config.constructor | src/config/config.py:24-33 | An empty configuration before initialisation |
| AppConfig.Config.Initialize | src/config/config.py:65-70 | The environment name comes from APP_ENV (default "development"). Secrets are loaded, then the configuration; the first error stops and keeps what was loaded: a decryption error or the first bad secrets line is returned with the configuration unchanged; after loaded secrets, a missing environment file raises FileNotFoundError with the configuration unchanged, and otherwise the configuration and error are those of resolving the file's document |
| AppConfig.Config.LoadDotenv | src/config/config.py:72-100 | No secrets file: nothing happens. A failed decryption raises and changes nothing. Otherwise the lines are applied in order until a bad line raises |
| AppConfig.Config.LoadAndMergeConfig | src/config/config.py:102-118 | A missing environment file raises FileNotFoundError with its message; otherwise its document (or `{}`) is loaded and its secrets resolved |
| AppConfig.Config.ResolveSecrets | src/config/config.py:120-137 | The placeholder-by-placeholder rewrite equals the specification `ResolveSecretsOf` (proved above); a non-dictionary configuration raises |
| ConfigTree.Lookup | src/config/config.py:153-155 | `d[key]` is missing iff no entry has the key, and otherwise is the value of an entry with that key |
| ConfigTree.GetPath | src/config/config.py:139-155 | Definition of `_nested_get`; its properties are in the `NestedGet`, `GetPathAppend`, `KeyErrorIsFirstMissing` and `GetAfterSet` rows |
| ConfigTree.SetPath | src/config/config.py:157-169 | Definition of `_nested_set`; its properties are in the `GetAfterSet`, `SetLeavesOthers`, `ExistingPathSettable` and `MissingPathCreated` rows |
| ConfigTree.IterDeepItems | src/config/config.py:171-188 | Definition of `_iter_deep_items` from the top level; its properties are in the `ItemsAreLeaves`, `ItemsAreDottedPaths`, `IterDeepItemsSound`, `IterDeepItemsComplete` and `ItemsSplitToPaths` rows |
| ConfigTree.ItemsFrom | src/config/config.py:183-188 | Definition of the loop of `_iter_deep_items` from one entry on, recursing into nested dictionaries; its properties are in the same rows as `IterDeepItems` |
| ConfigTree.Assign | src/config/config.py:169 | After `d[key] = value` the key reads `value`, every other key reads as before, and the size grows only for a new key |
| ConfigTree.NestedGet | src/config/config.py:139-156 | The key-by-key loop equals the path walk: KeyError for a missing key, TypeError for a non-dictionary |
| ConfigTree.GetPathAppend | src/config/config.py:153-155 | Walking p + q is walking p, then q; an error on p is the error on p + q |
| ConfigTree.KeyErrorIsFirstMissing | src/config/config.py:150-155 | The KeyError names the first missing key: every key before it was found, on a dictionary |
| ConfigTree.GetAfterSet | src/config/config.py:158-170 | Reading a path right after setting it gives the value set |
| ConfigTree.SetLeavesOthers | src/config/config.py:158-170 | Setting a path leaves every diverging path as it was |
| ConfigTree.ExistingPathSettable | src/config/config.py:167-169 | A non-empty path that already resolves can be set |
| ConfigTree.MissingPathCreated | src/config/config.py:167-168 | `setdefault` creates the missing dictionaries below a missing key |
| ConfigTree.Split | src/config/config.py:58 | `str.split(".")` always yields at least one part |
| ConfigTree.SplitJoin | src/config/config.py:184 | A dotted key built from dot-free parts splits back into those parts |
| ConfigTree.ItemsAreLeaves | src/config/config.py:185-188 | Nested dictionaries are descended into, never yielded |
| ConfigTree.ItemsAreDottedPaths | src/config/config.py:183-188 | The keys yielded are the leaves' key paths joined with dots, in insertion order |
| ConfigTree.IterDeepItemsSound | src/config/config.py:172-188 | Every item is a leaf whose split key resolves to its value, and no key path is yielded twice |
| ConfigTree.IterDeepItemsComplete | src/config/config.py:172-188 | Every leaf is yielded under the dotted form of its path |
| ConfigTree.ItemsSplitToPaths | src/config/config.py:184 | The items correspond one to one, in order, to the leaf paths |
| ConfigTree.LeafPathsDiverge | src/config/config.py:185-188 | Two different leaf paths diverge: neither is a prefix of the other |
| Dotenv.SplitLines | src/config/config.py:90 | No line holds a line-break character |
| Dotenv.SplitJoinLines | src/config/config.py:90 | Text written line by line splits back into those lines |
| Dotenv.Strip | src/config/config.py:91-93 | The result has no whitespace at either end, and is empty iff the text is all whitespace |
| Dotenv.StripSlice | src/config/config.py:91-93 | `strip()` keeps a slice of the text with nothing but whitespace before and after it: only leading and trailing whitespace is removed |
| Dotenv.Find | src/config/config.py:92 | The first "=" position, or none iff there is no "=" |
| Dotenv.ParseLine | src/config/config.py:91-93 | Blank lines and lines starting with "#" are skipped. A kept line without "=" raises the unpacking ValueError. Otherwise the stripped line is cut at its first "=", as `CutAt` states |
| Dotenv.CutAt | src/config/config.py:92-93 | Cutting a kept line at its first "=": a NUL character in the stripped name or value raises the "embedded null byte" ValueError; otherwise an empty name raises OSError EINVAL; otherwise a definition with the stripped name (non-empty, without "=") and the stripped value. Each outcome is stated as an if-and-only-if |
| Dotenv.ParseCut | src/config/config.py:91-93 | For every kept line with an "=", padded or not: the name and the value are the stripped sides of the stripped line's first "=", a NUL in either raises ValueError, and otherwise an empty name raises OSError |
| Dotenv.ParseDefinition | src/config/config.py:91-93 | A clean `NAME=value` line (no NUL, no line break, no padding) parses back into its name and value |
| Dotenv.Load | src/config/config.py:90-93 | Definition of the loop that applies the parsed lines to the environment; its properties are in the `LastDefinitionWins`, `FirstBadLineFails` and `LoadRendered` rows |
| Dotenv.LastDefinitionWins | src/config/config.py:90-93 | After a clean load every name has the value of its last definition; names not defined keep their old value or stay unset |
| Dotenv.FirstBadLineFails | src/config/config.py:90-100 | A load fails iff some line is bad, with the error of the first bad line |
| Dotenv.LoadRendered | src/config/config.py:90-93 | Writing clean pairs one per line and loading them back applies exactly those pairs, in order, without error |
| Telegram.Get | src/bot_gateway/bots/telegram_bot.py:53-54 | `d.get(key, default)`: the default iff the key is absent, otherwise a value stored under the key |
| Telegram.VerifyWebhook | src/bot_gateway/bots/telegram_bot.py:45-68 | Headers that are not a dictionary raise; a missing or empty token is refused; a present ASCII token is compared with an ASCII secret; any other present token, or a non-ASCII secret, raises TypeError |
| Telegram.VerifyWebhookAccepts | src/bot_gateway/bots/telegram_bot.py:57-68 | Accepted iff the token header holds exactly the (non-empty, ASCII) webhook secret |
| Telegram.MissingTokenRefused | src/bot_gateway/bots/telegram_bot.py:57-61 | Headers without the token header are refused whatever the secret |
| Telegram.Words | src/bot_gateway/bots/telegram_bot.py:80 | `str.split()`: every word is non-empty and whitespace-free; no words iff the text is all whitespace |
| Telegram.WordsJoin | src/bot_gateway/bots/telegram_bot.py:80-82 | Words joined by single spaces split back into the same words |
| Telegram.SplitCommand | src/bot_gateway/bots/telegram_bot.py:80-82 | The command is the first word, or "" iff there are none; arguments exist iff there are more than one word, and are the remaining words joined by single spaces, which split back into those words |
| Telegram.ParseCommand | src/bot_gateway/bots/telegram_bot.py:70-92 | Parsing succeeds iff the message, the sender and the chat are dictionaries and the text is a string; the command and arguments come from the text as `SplitCommand` says, and the user and chat ids are `str()` of the `id` entries ("None" when absent); every failure is the "Invalid command format" ValueError |
| Telegram.SplitTypedCommand | src/bot_gateway/bots/telegram_bot.py:80-82 | A typed command with argument words splits back into that command and those arguments |
| Telegram.ParseMessage | src/bot_gateway/bots/telegram_bot.py:78-89 | A message with text, sender and chat parses into the split text and the `str()` of both ids |
| Telegram.ParseTypedCommand | src/bot_gateway/bots/telegram_bot.py:78-89 | Round trip: a typed command from integer sender and chat ids parses back into that command, those ids' digits and those arguments |
| Telegram.AuthorizedIffListed | src/bot_gateway/bots/telegram_bot.py:116-127 | Authorised iff the id is in the configured list |
| Telegram.IsUserAuthorized | src/bot_gateway/bots/telegram_bot.py:116-127 | A user is authorised iff the id is in the allowed list |
| Telegram.CommandTable | src/bot_gateway/bots/telegram_bot.py:38-43 | The commands are exactly /scan, /trending, /health and /help |
| Telegram.CommandTableInjective | src/bot_gateway/bots/telegram_bot.py:38-43 | Each command has its own handler |
| Telegram.FormatResponse | src/bot_gateway/bots/telegram_bot.py:94-114 | A failure gives the error line, a success without data the check-mark line. Data with "trending" gives the trending report, which wins over "scan"; data with only "scan" gives the scan report |
| Telegram.FormatTrending | src/bot_gateway/bots/telegram_bot.py:129-133 | An empty list of trending stocks gives "No trending stocks found", and only that case does |
| Telegram.ReplyMarks | src/bot_gateway/bots/telegram_bot.py:102-106 | Every text reply other than the no-trending message starts with ✅ on success and ❌ on failure |
| YahooProvider.NotAfterIsEarlier | src/analysis/data_providers/yahoo_provider.py:48 | Comparing times field by field is comparing instants |
| YahooProvider.IsMarketOpen | src/analysis/data_providers/yahoo_provider.py:28-48 | Closed on Saturday and Sunday; on weekdays open iff 9:30 ≤ time ≤ 16:00, both ends included |
| YahooProvider.ParseHourMinute | src/analysis/data_providers/yahoo_provider.py:45-46 | A parsed "%H:%M" time is valid with zero seconds |
| YahooProvider.ParseWritten | src/analysis/data_providers/yahoo_provider.py:45-46 | Hour digits, a colon and minute digits parse to that hour and minute |
| YahooProvider.GetTradingHours | src/analysis/data_providers/yahoo_provider.py:50-63 | Definition of the fixed trading-hours dictionary; its agreement with `is_market_open` is in the `TradingHoursAgree` row |
| YahooProvider.TradingHoursAgree | src/analysis/data_providers/yahoo_provider.py:50-63 | The reported hours parse to the session `is_market_open` checks, and the extended hours surround it |
| YahooProvider.Select | src/analysis/data_providers/yahoo_provider.py:23 | `df[names]` succeeds iff every name is a column, and gives those columns in the given order with the same rows |
| YahooProvider.Kept | src/analysis/data_providers/yahoo_provider.py:20-24 | A frame is kept iff the download did not raise, the frame is not empty and has all five price columns; the kept frame is exactly those columns |
| YahooProvider.Store | src/analysis/data_providers/yahoo_provider.py:22-23 | A kept frame is stored under its ticker; nothing else changes |
| YahooProvider.FetchData | src/analysis/data_providers/yahoo_provider.py:16-26 | The loop over tickers builds the dictionary `Fetched` specifies |
| YahooProvider.FetchedShape | src/analysis/data_providers/yahoo_provider.py:16-26 | Only requested tickers appear, each with a non-empty frame of exactly Open, High, Low, Close, Volume |
| YahooProvider.FetchedPresent | src/analysis/data_providers/yahoo_provider.py:19-24 | A ticker appears iff one of its downloads gave a kept frame |
| YahooProvider.FetchedLast | src/analysis/data_providers/yahoo_provider.py:19-23 | A repeated ticker holds the frame of its last kept download |
| YahooProvider.FetchedDistinct | src/analysis/data_providers/yahoo_provider.py:16-26 | With distinct tickers each appears iff its own download is usable, and holds that download's price columns |

## Left out

- backtrader itself is not part of this model. Indicator values (SMA, EMA,
  ATR, MACD, RSI, the VWAP line), broker cash and value, and the bar counter
  are inputs of each bar's `Snapshot`.
- Order execution: `buy()`, `sell()` and `close()` take effect on the next
  bar in backtrader. The model records them at once as a change of the
  position flag and an entry in an order log.
- `print` and logging calls, and the debugging output of `next()`, are left
  out.
- The three copies of `MovingAverageStrategy` and the two of
  `ATRMovingAverageStrategy` and of `VWAP` behave identically. Each is one
  model, with rows citing every copy.
- `EnhancedATRStrategy` never clears `self.order` (it defines no
  `notify_order`). The model keeps this behaviour, so the in-position branch
  is unreachable after the first entry.
- `generate_signals` placeholders that return `None` are not modelled.
- `VWAPStrategy.calculate_vwap` uses pandas `cumsum`; the model writes it as
  a running-sum loop over the rows.
- `VWAPStrategy` also writes VWAP columns into the caller's DataFrame. The
  model returns the column instead of mutating the frame.
- Floats are real numbers, so rounding is not modelled.
- NaN, as a Sharpe ratio or a price, is not modelled, except the NaN/inf of a
  pandas division by zero.
- Optimizer.RunBacktest: reading the CSV feed, cerebro and the Sharpe
  analyzer are one function parameter.
- The TypeError that a `None` ratio raises in the comparison at
  src/strategy/optimizer.py:92 is modelled as an error result.
- `TradingBot.run`, `run_forever`, the TWS connection, `get_live_data` and
  contract qualification are I/O and not modelled. The bars and the positions
  are parameters of `Trade`.
- Config:
  - SOPS decryption, file existence and YAML parsing are parameters: the
    decrypted text, or its error, and a map from file path to parsed document.
  - The singleton `__new__` and logging are not modelled.
  - `_resolve_secrets` walks the leaves listed before the walk starts, while
    Python iterates a generator over the dictionary being changed. On trees
    with dot-free keys every item names an existing leaf, `_nested_set` only
    replaces that value, no dictionary changes size, and both agree.
  - ResolveSecretsOf: a key containing a dot (such as `{"a.b": "${X}"}` with X
    set) makes `_nested_set` add a new key with `setdefault` to a dictionary
    being iterated, and Python then raises RuntimeError ("dictionary changed
    size during iteration"). The model does not raise: it returns success
    with the new entry added.
  - The resolution lemmas assume a well-formed tree: non-empty, dot-free,
    unique keys at every level. Keys with dots, empty keys or non-string keys
    are not covered by them.
  - Upper-casing in `get` is ASCII only; Unicode case mapping is not modelled.
  - `_nested_set` mutates nested dictionaries in place. The model returns the
    new tree, so aliasing between the dictionaries is not modelled.
- Dotenv.CutAt: the empty-name error is the POSIX one, where `setenv(3)`
  fails with EINVAL and Python raises OSError "[Errno 22] Invalid argument".
  On Windows `os.environ` raises ValueError "illegal environment variable
  name" instead; that platform is not modelled. Characters that cannot be
  encoded for the environment (lone surrogates) are not modelled either.
- Telegram:
  - The async handlers, `MarketClient` and `health_check` are network calls
    and are not modelled.
  - The layout of the trending and scan reports is not modelled, including
    number formatting with `:.2f`.
  - `repr` of values is modelled without string escapes.
- Telegram.FormatResponse: the contract does not state the text of the last
  case (message, newline, repr of the data), because dictionary repr is only
  approximated.
- `hmac.compare_digest`'s constant-time behaviour is not modelled.
- Yahoo:
  - The clock (weekday and New York time) and the `yfinance` download (an
    outcome per ticker: raised, or a frame) are parameters.
  - Printing the error is not modelled.
  - Column labels are assumed distinct.
  - A returned dictionary is a map, so key insertion order is not modelled.
- `market_scanner`, the other data providers, the API server and the scripts
  are not part of this model.
