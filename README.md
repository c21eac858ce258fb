# FVG scanner — a Dafny model

This project models the core of a Fair Value Gap (FVG) scanner for stock
price data and proves properties of that model. The model covers five parts:

- **The detector** (`FvgDetector`, `fvg_detector.dfy`). It finds three-bar
  price gaps in a series of OHLCV bars. It finds their inversions (iFVGs):
  the first bar that trades back into the gap, followed within six bars by a
  bar that trades back beyond it. It selects the gaps still active at the
  last close and builds the per-symbol summary.
- **The scanner** (`Scanner`, `scanner.dfy`, class `FvgScanner`). A scan
  analyses every symbol's timeframes and counts successes and failures. It
  compares each symbol's recent signals with the previous scan's and alerts
  the new ones. The scanner also keeps a running flag and computes its
  statistics.
- **The alert manager** (`Alerts`, `alert_manager.dfy`, class
  `AlertManager`). It drops an alert whose key
  `symbol_timeframe_type_direction` was accepted less than 60 s earlier. It
  records the alerts it accepts and answers history and statistics queries.
- **The symbol validator** (`Utils`, `utils.dfy`).
- **The table display's arithmetic** (`TableDisplay`, `table_display.dfy`):
  the summary statistics and the column widths.

Three helper modules support these:

- `Wrappers` holds `Option`, for Python's `None`.
- `Dict` models a Python `dict` as a list of entries with distinct keys:
  lookup, assignment in place, and appending at the end.
- `Sequences` holds the subsequence relation.

The data model:

- Prices are `real` and bar timestamps are `int`.
- A series is a `seq<Bar>`. Its position `i` is the DataFrame's row `i`, and
  `timestamp` is the row's index label.
- Every clock reading is a parameter, in seconds: `datetime.now()`, a scan's
  start and end, and the elapsed time in the scan loop.
- The data provider's answer for a symbol is a parameter. It is either the
  list of timeframes with their series (`None` or empty allowed) or an
  exception (`FetchOutcome`).

Where the source loops, the model has a method proved equal to a recursive
function that defines its result. The properties are proved about those functions.

Two details of the detector fix how its records read:

- An iFVG is stamped with the bar that fills the gap
  (src/fvg_detector.py:127, :157).
- A bullish gap's percentage divides by the earlier bar's high
  (src/fvg_detector.py:40). A bearish gap's percentage divides by the
  current bar's high (src/fvg_detector.py:63).

## Model

| member | source | states |
|---|---|---|
| FvgDetector.FvgAt | src/fvg_detector.py:29-78 | A gap at bar i is stamped with bar i and its imbalance candle is bar i-1. Its size is positive and its percentage exceeds 100 times the threshold; bullish size is gap_end - gap_start, bearish size is gap_start - gap_end |
| FvgDetector.FvgsOf | src/fvg_detector.py:24-27 | Fewer than 3 bars give no gaps; at most one gap per bar from the third on; every gap is well formed |
| FvgDetector.DetectFvg | src/fvg_detector.py:15-80 | The loop returns exactly FvgsOf, in bar order |
| FvgDetector.FvgsMembers | src/fvg_detector.py:29-78 | A gap is reported if and only if some bar from index 2 on yields it |
| FvgDetector.FvgsAscending | src/fvg_detector.py:29-54 | On a series with increasing timestamps, the reported gaps have strictly increasing timestamps, so there is at most one per bar |
| FvgDetector.BullishGapReported | src/fvg_detector.py:36-54 | When bar i-2's high is strictly below bar i's low by more than the threshold, a bullish gap from that high to that low is reported at bar i, and nothing else is reported at that bar |
| FvgDetector.BearishGapReported | src/fvg_detector.py:59-77 | When the bullish test fails and bar i-2's low is above bar i's high by more than the threshold, a bearish gap from that low to that high is reported at bar i |
| FvgDetector.ThresholdMonotone | src/fvg_detector.py:36-63 | For bars whose low is at most their high, the gaps found at a higher threshold are a subsequence of those found at a lower one |
| FvgDetector.IndexOf | src/fvg_detector.py:101 | Finds the position of a timestamp, or reports that no bar has it |
| FvgDetector.FirstFill | src/fvg_detector.py:107-110 | The first bar from a position on that fills the gap; every bar before it does not fill; None means no bar fills |
| FvgDetector.InversionOf | src/fvg_detector.py:94-166 | An inversion keeps its gap as original_fvg and its direction, is confirmed, and has a non-negative fill percentage |
| FvgDetector.IFvgsOf | src/fvg_detector.py:82-172 | At most one inversion per input gap; each has its gap's direction and a non-negative fill percentage |
| FvgDetector.FindFill | src/fvg_detector.py:107-110 | The scan over the bars after the anchor stops at the first fill |
| FvgDetector.FindReversal | src/fvg_detector.py:112-121 | Reports a reversal exactly when one of the bars at offsets 1 to 6 after the fill trades beyond gap_end |
| FvgDetector.InvertFvg | src/fvg_detector.py:95-166 | What the loop body produces for one gap equals InversionOf |
| FvgDetector.DetectIFvg | src/fvg_detector.py:82-172 | The loop returns exactly IFvgsOf |
| FvgDetector.InversionsFollowGaps | src/fvg_detector.py:94-166 | The inversions' original gaps form a subsequence of the input gaps |
| FvgDetector.InversionIsFirstFill | src/fvg_detector.py:101-136 | An inversion is stamped with the first bar after the anchor that fills the gap. It is priced at that bar's low (bullish) or high (bearish), and it requires a reversal within the look-ahead window |
| FvgDetector.FirstFillDecides | src/fvg_detector.py:108-136 | Only the first fill counts: the inversion is present exactly when a reversal follows that fill, whatever later bars do |
| FvgDetector.NoInversionAtEnd | src/fvg_detector.py:101-105 | A gap anchored at one of the last two bars has no inversion |
| FvgDetector.ActiveFvgsOf | src/fvg_detector.py:174-197 | At most one active gap per input gap, each passing the price test at the last close. The order-preserving selection and the "exactly when" direction are stated by ActiveSelection |
| FvgDetector.GetActiveFvgs | src/fvg_detector.py:174-197 | The loop returns ActiveFvgsOf |
| FvgDetector.ActiveSelection | src/fvg_detector.py:181-197 | Active gaps are an order-preserving subsequence of the input. A gap is among them exactly when it is bullish with the last close above gap_start, or bearish with the last close below it |
| FvgDetector.LastSinceMeaning | src/fvg_detector.py:223-235 | The last element stamped at or after the threshold, with no later such element; None exactly when every element is older |
| FvgDetector.AnalyzeSymbol | src/fvg_detector.py:199-249 | The counts equal the list lengths; for a non-empty series, active_fvg_count is the number of active gaps and current_price is the last close |
| FvgDetector.AnalyzeNoData | src/fvg_detector.py:201-212 | Missing or empty data: empty lists, no recent signals, zero counts, and no active_fvg_count or current_price |
| FvgDetector.AnalyzeSeries | src/fvg_detector.py:214-249 | The summary holds the detector's lists; its active gaps are an order-preserving subsequence of the gaps, exactly those that pass the price test at the last close |
| FvgDetector.AnalyzeRecentGap | src/fvg_detector.py:223-228 | recent_fvg is the newest gap if it lies within the last 10 bars, and none otherwise |
| FvgDetector.AnalyzeRecentInversion | src/fvg_detector.py:230-235 | recent_ifvg is the last inversion listed inside the recency window, and none when all are older |
| Alerts.FvgAlertOf | src/alert_manager.py:147-159 | The FVG alert has type 'FVG' and copies symbol, timeframe, direction, timestamp and the detection price |
| Alerts.IFvgAlertOf | src/alert_manager.py:161-172 | The iFVG alert has type 'iFVG' and copies symbol, timeframe, direction, timestamp and the fill price |
| Alerts.Send | src/alert_manager.py:53-74 | The cooldown gate of send_alert: the history stays as it is or gains exactly one record of this alert stamped now, and afterwards the alert's key has a last-alert time. SendOutcome states both branches in full |
| Alerts.SendAll | src/scanner.py:133-163 | A batch sent at one clock reading only extends the history, by at most one record per alert. SendAllConcat and SendAllExtendsHistory relate batches |
| Alerts.SendOutcome | src/alert_manager.py:53-74 | An alert in cooldown leaves the state unchanged. Otherwise it sets its key's time to now, appends one record stamped now, and leaves other keys' times alone |
| Alerts.RepeatWithinCooldownDropped | src/alert_manager.py:58-62 | A second alert with the same key less than 60 s after an accepted one is dropped |
| Alerts.RepeatAfterCooldownSent | src/alert_manager.py:58-74 | Once 60 s have passed the same key is accepted again |
| Alerts.OtherKeysUnaffected | src/alert_manager.py:56-64 | An alert never changes whether an alert with another key is in cooldown |
| Alerts.SendAllConcat | src/scanner.py:133-163 | Sending two batches in turn equals sending their concatenation |
| Alerts.SendAllExtendsHistory | src/alert_manager.py:70-74 | A batch only appends to the history, at most one record per alert, each one of the sent alerts stamped now |
| Alerts.FvgAndIFvgKeysDiffer | src/alert_manager.py:56 | An FVG and an iFVG alert on the same symbol and timeframe have different keys |
| Alerts.KeyIdentifiesAlert | src/alert_manager.py:56 | For symbols and timeframes without '_', two alerts share a key exactly when they agree on symbol, timeframe, type and direction |
| Alerts.LastEntries | src/alert_manager.py:191-193 | The `[-limit:]` slice is a suffix. Its length is min(limit, len) for limit >= 1, the whole list for limit 0, and max(0, len + limit) for negative limit |
| Alerts.CountsPartition | src/alert_manager.py:211-215 | FVG plus iFVG records, and bullish plus bearish records, each sum to the history length |
| Alerts.AlertStatsOf | src/alert_manager.py:200-223 | All zeros on an empty history; total is the length; fvg + ifvg = total; bullish + bearish = total |
| Alerts.StatsAfterSend | src/alert_manager.py:70-74 | An accepted alert raises the total, its type's count and its direction's count by one each |
| Alerts.CooldownSurvivesClear | src/alert_manager.py:195-198 | After clearing the history, an alert within the cooldown is still dropped |
| Alerts.AlertManager.constructor | src/alert_manager.py:29-51 | Starts with no cooldowns and an empty history |
| Alerts.AlertManager.SendAlert | src/alert_manager.py:53-74 | The new state is the cooldown gate applied to the old state |
| Alerts.AlertManager.SendFvgAlert | src/alert_manager.py:147-159 | Sends the FVG alert record |
| Alerts.AlertManager.SendIFvgAlert | src/alert_manager.py:161-172 | Sends the iFVG alert record |
| Alerts.AlertManager.GetAlertHistory | src/alert_manager.py:191-193 | Returns the history's `[-limit:]` slice, with limit 50 by default. Its length and suffix property are the contract of Alerts.LastEntries |
| Alerts.AlertManager.ClearAlertHistory | src/alert_manager.py:195-198 | Empties the history and keeps the cooldown times |
| Alerts.AlertManager.GetAlertStats | src/alert_manager.py:200-223 | Returns the statistics of the current history. What they satisfy is stated by Alerts.AlertStatsOf, Alerts.CountsPartition and Alerts.StatsAfterSend |
| Scanner.FallbackDiffersOnlyInActiveCount | src/scanner.py:64-78 | The scanner's placeholder equals the detector's empty-data answer, except that it sets active_fvg_count to 0 where the detector has no such key |
| Scanner.TimeframeAnalysis | src/scanner.py:60-78 | Missing or empty data gives the placeholder. Otherwise it gives the detector's gaps and the last close. Either way active_fvg_count is present and equal to the number of active gaps |
| Scanner.TimeframesOf | src/scanner.py:60-78 | The timeframes dictionary has distinct keys, and every analysis in it has its active count |
| Scanner.TimeframesLookup | src/scanner.py:60-78 | There is one entry per fetched timeframe and no other, holding that timeframe's analysis |
| Scanner.TimeframeAlerts | src/scanner.py:133-163 | One timeframe yields at most two alerts, all for its symbol and timeframe, and none when it has no recent signal. NewSignalsAlerted and AlertsAreNewSignals give the new-signal rule |
| Scanner.SignalAlerts | src/scanner.py:132-163 | At most two alerts per timeframe |
| Scanner.NewSignalsAlerted | src/scanner.py:133-163 | A recent FVG or iFVG is alerted when there is no previous entry for its timeframe, no previous recent signal, or a previous one with a different timestamp |
| Scanner.AlertsAreNewSignals | src/scanner.py:133-163 | Every alert sent is the recent FVG or iFVG of some timeframe, new by that rule |
| Scanner.RepeatCheckSendsNothing | src/scanner.py:130-166 | Checking the same results a second time sends nothing |
| Scanner.ScanStep | src/scanner.py:99-110 | One iteration of the scan loop. A raising fetch changes nothing; otherwise the success count rises by one. The alert history is only extended. StepLookup states what happens to the dictionaries |
| Scanner.ScanPassOf | src/scanner.py:97-110 | The success count rises by at most one per symbol |
| Scanner.ScanSuccessCount | src/scanner.py:97-110 | The success count is the number of symbols whose fetch did not raise |
| Scanner.StepLookup | src/scanner.py:99-105 | One step stores the scanned symbol's results in both dictionaries and leaves every other symbol's entries alone; a raising fetch changes nothing |
| Scanner.ScanResultKeys | src/scanner.py:97-110 | The scan's symbols dictionary holds exactly the symbols whose fetch succeeded; a raising symbol does not stop the rest |
| Scanner.ScanUpdatesPrevious | src/scanner.py:130-166 | After a scan the previous results equal this scan's results for every scanned symbol, and keep older entries for the rest |
| Scanner.ScannedAnalysesCounted | src/scanner.py:64-78 | Every analysis a scan stores has its active_fvg_count |
| Scanner.RescanSendsNothing | src/scanner.py:125-166 | Scanning a symbol again on unchanged data sends no alert |
| Scanner.CountSignals | src/scanner.py:296-303 | The number of timeframes with a signal is at most the number of timeframes |
| Scanner.AnySignalMeaning | src/scanner.py:292-312 | A symbol has a signal exactly when some timeframe has one, that is, when the timeframe count is positive |
| Scanner.SignalCountBounds | src/scanner.py:287-312 | symbols_with_fvg is at most total_symbols and at most total_fvgs; likewise for iFVGs |
| Scanner.ActiveSumCounted | src/scanner.py:305 | When every count is present, the summed counts equal the number of active gaps |
| Scanner.StatisticsOf | src/scanner.py:279-323 | total_symbols is the number of symbols, and the scan counts are copied. symbols_with_fvg is at most total_symbols and at most total_fvgs; likewise for iFVGs |
| Scanner.TimeframeTallies | src/scanner.py:295-303 | The inner loop over one symbol's timeframes: whether any has a recent FVG or iFVG, how many do, and the sum of their active counts |
| Scanner.SleepTime | src/scanner.py:208-213 | max(0, interval - elapsed): never negative, and at most the interval when elapsed is non-negative |
| Scanner.FvgScanner.constructor | src/scanner.py:22-48 | A fresh scanner has scan count 0, no results, no previous results, and is not running |
| Scanner.FvgScanner.ScanSingleSymbol | src/scanner.py:50-80 | The loop builds the timeframes dictionary of TimeframesOf |
| Scanner.FvgScanner.AlertTimeframe | src/scanner.py:133-163 | One timeframe's check sends exactly its new-signal alerts, FVG before iFVG |
| Scanner.FvgScanner.SendSignalAlerts | src/scanner.py:132-163 | The loop over the timeframes sends exactly the new-signal alerts of all of them, in timeframe order |
| Scanner.FvgScanner.CheckAndSendAlerts | src/scanner.py:125-166 | Sends the new-signal alerts and then sets previous_results[symbol] to the current results |
| Scanner.FvgScanner.ScanAllSymbols | src/scanner.py:82-123 | The scan count rises by one and the scan number equals it. duration = end - start; failed = len(symbols) - successful; the results, previous results and alert state are those of ScanPassOf from the old state |
| Scanner.FvgScanner.StartContinuousScan | src/scanner.py:168-180 | Sets the running flag and leaves the scan count, results and previous results unchanged |
| Scanner.FvgScanner.StopContinuousScan | src/scanner.py:182-193 | Clears the running flag and leaves the scan count, results and previous results unchanged |
| Scanner.FvgScanner.GetDetailedAnalysis | src/scanner.py:272-277 | None before any scan or for a symbol not in the last scan; otherwise that symbol's stored results |
| Scanner.FvgScanner.GetScanStatistics | src/scanner.py:279-323 | None (the empty dictionary) before any scan; otherwise StatisticsOf the last scan |
| Utils.LeadingSpaces | src/utils.py:68 | The longest whitespace prefix |
| Utils.TrailingSpaces | src/utils.py:68 | The longest whitespace suffix |
| Utils.Strip | src/utils.py:68 | strip() keeps a slice, removes only whitespace at both ends, and leaves no whitespace at either end |
| Utils.ValidSymbolsOf | src/utils.py:63-73 | No more outputs than inputs, each a valid symbol. ValidSymbolsOrder, ValidSymbolsClean and ValidSymbolsMembers state the rest |
| Utils.ValidateSymbols | src/utils.py:63-73 | The loop returns ValidSymbolsOf |
| Utils.ValidSymbolsOrder | src/utils.py:65-71 | The output is a subsequence of the cleaned inputs, so input order is kept and it is no longer than the input |
| Utils.ValidSymbolsClean | src/utils.py:68-71 | Every output is non-empty, at most 10 characters, of letters, digits, '.' and '-', and has no lower-case letter |
| Utils.ValidSymbolsMembers | src/utils.py:65-71 | A string is output exactly when it is valid and is the cleaned form of some input |
| Utils.CleanFixesCleanSymbol | src/utils.py:68 | Stripping and upper-casing a clean symbol leaves it unchanged |
| Utils.CleanSymbolsKept | src/utils.py:65-71 | A list of clean symbols passes validation unchanged |
| Utils.ValidateIdempotent | src/utils.py:63-73 | Validating a validated list changes nothing |
| TableDisplay.DisplayStatisticsOf | src/table_display.py:147-182 | total_symbols is the number of symbols and the scan counts are copied. Each symbol is counted once per signal kind, so symbols_with_fvg and symbols_with_ifvg are at most total_symbols and at most the number of timeframes with that signal |
| TableDisplay.SymbolTallies | src/table_display.py:161-168 | The inner loop over one symbol's timeframes: whether any has a recent FVG or iFVG, and the sum of the active counts, a missing one read as 0 |
| TableDisplay.CalculateStatistics | src/table_display.py:147-182 | The loops compute DisplayStatisticsOf, reading a missing active count as 0 |
| TableDisplay.DisplayAgreesWithScanner | src/table_display.py:147-182 | The table's statistics agree with the scanner's statistics of the same scan |
| TableDisplay.TotalActiveCounted | src/table_display.py:168 | For stored scan results, total_active_fvgs is the number of active gaps over all timeframes of all symbols |
| TableDisplay.ColumnMax | src/table_display.py:188-193 | Column i's widest entry, header included: at least every entry and equal to one of them |
| TableDisplay.ColumnWidths | src/table_display.py:186-194 | One width per header, each min(widest entry of the column, 15) |
| TableDisplay.ColumnWidthBounds | src/table_display.py:186-194 | No width exceeds 15; every entry up to 15 characters fits; a width below 15 is the length of an actual entry |

## Left out

- Network access and the yfinance data provider are not modelled. What it returns for a symbol is an input. Its filtering of `None` timeframes (src/data_provider.py:48-56) is therefore not modelled, though the scanner's own `None` test is.
- Threads are not modelled: the scan thread, `join`, and `time.sleep`. The start and stop methods change only the running flag. The scan loop is modelled only through its sleep computation.
- The alert channels are not modelled: console printing, sound, Telegram, and message formatting. Neither are `test_alerts` and the configuration flags that enable channels. A history record keeps the clock reading and the alert data; it does not keep the message text.
- The data for scans and alerts arrives as parameters. Clock readings are parameters, and one reading `now` stamps every alert of a scan, where the source reads the clock at each alert. The wall-clock `analysis_timestamp` and the `timestamp` of the per-symbol results are dropped.
- Scanner.FvgScanner.ScanAllSymbols: the only exception modelled is one raised while fetching or analysing a symbol. Such a symbol is skipped. Exceptions raised inside the alert check are not modelled.
- Scanner.FvgScanner.ScanAllSymbols: it requires every fetched series to have positive prices and strictly increasing timestamps. Market data has both, and the detector divides by prices.
- FvgDetector.AnalyzeSymbol: it requires positive prices and increasing timestamps for the same reason. The source divides by the high, the low and gap_start. With a zero price the source would produce an infinity or raise; the model makes no statement for such input.
- FvgDetector.IndexOf: the model takes the first bar with the timestamp. It does not model pandas' behaviour on a duplicated index label, which cannot occur in a series with strictly increasing timestamps.
- Python floats become Dafny reals. No rounding is modelled.
- Utils.Strip, Utils.Upper and Utils.IsSymbolChar: whitespace, upper-casing and `isalnum` are modelled on ASCII only. Python also strips, upper-cases and accepts letters and digits outside ASCII.
- TableDisplay.ColumnWidths: cells are given as their visible text, so ANSI colour codes are not stripped. It requires every row to have a cell for every header, as the source's `row[i]` does.
- TableDisplay.CalculateStatistics: in results produced by a scan, `successful_scans` and `failed_scans` are always present, so the source's default of 0 is never used. They are read directly. Reading a missing `active_fvg_count` as 0 matches the source's `.get(..., 0)`.
- Scanner.FvgScanner.GetScanStatistics: the model reads `active_fvg_count` with a default of 0, where the source indexes the key. Every analysis a scan stores has the key (Scanner.ScannedAnalysesCounted), so the two readings agree.
- The model does not cover `get_summary_table`, `export_results`, `create_summary_report`, `display_symbol_details` or the coloured table rendering. They are pandas, CSV or terminal output.
- Configuration parsing, logging setup, the banner and dependency checks are not modelled.
- The GUI, command-line and launcher programs are not modelled.
- Two tests in tests/test_fvg_detector.py contradict the code, so neither is used as a property. `test_no_fvg_detection` (lines 83-88) builds a series in which every bar forms a bullish gap. `test_analyze_symbol_with_empty_data` (lines 139-154) reads keys that the empty-data branch does not set, as FvgDetector.AnalyzeNoData states.
