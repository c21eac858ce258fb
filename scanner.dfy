/**
 * The scanning engine of src/scanner.py, class FVGScanner: one scan runs
 * the detector over every symbol's timeframes, stores the results, and
 * sends an alert for each signal that differs from the previous scan.
 *
 * What the data provider returns for a symbol is given as a `FetchOutcome`
 * (the frames it fetched, or an exception), one per symbol in list order;
 * clock readings are parameters.
 */
module Scanner {
  import opened Wrappers
  import opened Dict
  import opened FvgDetector
  import opened Alerts

  /** The `symbol_results` dictionary: one analysis per timeframe, in fetch order. */
  datatype SymbolResults = SymbolResults(symbol: string, timeframes: seq<Entry<string, SymbolAnalysis>>)

  /** The `scan_results` dictionary of one completed scan. */
  datatype ScanResult = ScanResult(
    scanNumber: nat,
    timestamp: real,
    symbols: seq<Entry<string, SymbolResults>>,
    scanDuration: real,
    successfulScans: nat,
    failedScans: nat)

  /**
   * What fetching one symbol's data yields: a series (possibly empty, or
   * `None`) per timeframe, or an exception.
   */
  datatype FetchOutcome = Fetched(frames: seq<Entry<string, Option<seq<Bar>>>>) | Raised

  predicate ValidFrames(frames: seq<Entry<string, Option<seq<Bar>>>>) {
    forall i :: 0 <= i < |frames| && frames[i].value.Some? ==> ValidSeries(frames[i].value.value)
  }

  predicate ValidOutcomes(outcomes: seq<FetchOutcome>) {
    forall i :: 0 <= i < |outcomes| && outcomes[i].Fetched? ==> ValidFrames(outcomes[i].frames)
  }

  // ------------------------------------------------------------------------
  // scan_single_symbol

  /** The placeholder stored for a timeframe whose series is empty. */
  function FallbackAnalysis(symbol: string): SymbolAnalysis {
    SymbolAnalysis(symbol, [], [], [], None, None, 0, 0, Some(0), None)
  }

  /**
   * The placeholder matches the detector's own answer for empty data except
   * that it carries `active_fvg_count` = 0 where the detector has no such key.
   */
  lemma FallbackDiffersOnlyInActiveCount(symbol: string, threshold: real)
    ensures FallbackAnalysis(symbol) == AnalyzeSymbol(symbol, Some([]), threshold).(activeFvgCount := Some(0))
    ensures AnalyzeSymbol(symbol, Some([]), threshold).activeFvgCount == None
  {
  }

  /** The analysis stored for one timeframe: the detector's, or the placeholder for missing or empty data. */
  function TimeframeAnalysis(symbol: string, data: Option<seq<Bar>>, threshold: real): (r: SymbolAnalysis)
    requires data.Some? ==> ValidSeries(data.value)
    ensures r.symbol == symbol && r.activeFvgCount == Some(|r.activeFvgs|)
    ensures r.fvgCount == |r.fvgs| && r.ifvgCount == |r.ifvgs|
    ensures data.None? || data.value == [] ==> r == FallbackAnalysis(symbol)
    ensures data.Some? && data.value != [] ==>
              r.fvgs == FvgsOf(data.value, threshold) && r.currentPrice == Some(data.value[|data.value| - 1].close)
  {
    if data.Some? && data.value != [] then AnalyzeSymbol(symbol, data, threshold) else FallbackAnalysis(symbol)
  }

  /** Every analysis carries the `active_fvg_count` key, equal to the number of active gaps. */
  predicate Counted(tfs: seq<Entry<string, SymbolAnalysis>>) {
    forall i :: 0 <= i < |tfs| ==> tfs[i].value.activeFvgCount == Some(|tfs[i].value.activeFvgs|)
  }

  /** The `timeframes` dictionary built by scan_single_symbol. */
  function TimeframesOf(symbol: string, frames: seq<Entry<string, Option<seq<Bar>>>>, threshold: real)
    : (r: seq<Entry<string, SymbolAnalysis>>)
    requires ValidFrames(frames)
    ensures DistinctKeys(r) && Counted(r)
  {
    if frames == [] then []
    else
      var init := TimeframesOf(symbol, frames[..|frames| - 1], threshold);
      var last := frames[|frames| - 1];
      var analysis := TimeframeAnalysis(symbol, last.value, threshold);
      PutShape(init, last.key, analysis);
      PutEntries(init, last.key, analysis);
      Put(init, last.key, analysis)
  }

  function SymbolResultsOf(symbol: string, frames: seq<Entry<string, Option<seq<Bar>>>>, threshold: real): SymbolResults
    requires ValidFrames(frames)
  {
    SymbolResults(symbol, TimeframesOf(symbol, frames, threshold))
  }

  /**
   * The results hold one analysis per fetched timeframe and no other: the
   * detector's analysis for a non-empty series, the placeholder for an
   * empty one.
   */
  lemma {:induction false} TimeframesLookup(symbol: string, frames: seq<Entry<string, Option<seq<Bar>>>>,
                                            threshold: real, tf: string)
    requires ValidFrames(frames) && DistinctKeys(frames)
    ensures Get(frames, tf).None? ==> Get(TimeframesOf(symbol, frames, threshold), tf).None?
    ensures Get(frames, tf).Some? ==>
              Get(TimeframesOf(symbol, frames, threshold), tf) ==
              Some(TimeframeAnalysis(symbol, Get(frames, tf).value, threshold))
  {
    if frames != [] {
      var init, last := frames[..|frames| - 1], frames[|frames| - 1];
      assert frames == init + [last];
      TimeframesLookup(symbol, init, threshold, tf);
      GetSnoc(init, last, tf);
      var tfs := TimeframesOf(symbol, init, threshold);
      var analysis := TimeframeAnalysis(symbol, last.value, threshold);
      if last.key == tf {
        PutGet(tfs, tf, analysis);
      } else {
        PutGetOther(tfs, last.key, analysis, tf);
      }
    }
  }

  // ------------------------------------------------------------------------
  // _check_and_send_alerts

  /** The timeframes stored for `symbol` by the previous check, if any. */
  function PreviousTimeframes(previous: map<string, SymbolResults>, symbol: string)
    : seq<Entry<string, SymbolAnalysis>>
  {
    if symbol in previous then previous[symbol].timeframes else []
  }

  /** No previous recent gap on this timeframe, or one with another timestamp. */
  predicate IsNewFvg(prev: Option<SymbolAnalysis>, f: Fvg) {
    prev.None? || prev.value.recentFvg.None? || prev.value.recentFvg.value.timestamp != f.timestamp
  }

  predicate IsNewIFvg(prev: Option<SymbolAnalysis>, x: IFvg) {
    prev.None? || prev.value.recentIFvg.None? || prev.value.recentIFvg.value.timestamp != x.timestamp
  }

  /** The alerts for one timeframe: its recent FVG if new, then its recent iFVG if new. */
  function TimeframeAlerts(symbol: string, tf: string, analysis: SymbolAnalysis,
                           prevTfs: seq<Entry<string, SymbolAnalysis>>): (r: seq<AlertData>)
    ensures |r| <= 2
    ensures forall k :: 0 <= k < |r| ==> r[k].symbol == symbol && r[k].timeframe == tf
    ensures analysis.recentFvg.None? && analysis.recentIFvg.None? ==> r == []
  {
    var prev := Get(prevTfs, tf);
    (if analysis.recentFvg.Some? && IsNewFvg(prev, analysis.recentFvg.value)
     then [FvgAlertOf(symbol, tf, analysis.recentFvg.value)] else []) +
    (if analysis.recentIFvg.Some? && IsNewIFvg(prev, analysis.recentIFvg.value)
     then [IFvgAlertOf(symbol, tf, analysis.recentIFvg.value)] else [])
  }

  /** The alerts one check sends, timeframe by timeframe. */
  function SignalAlerts(symbol: string, prevTfs: seq<Entry<string, SymbolAnalysis>>,
                        tfs: seq<Entry<string, SymbolAnalysis>>): (r: seq<AlertData>)
    ensures |r| <= 2 * |tfs|
  {
    if tfs == [] then []
    else SignalAlerts(symbol, prevTfs, tfs[..|tfs| - 1]) +
         TimeframeAlerts(symbol, tfs[|tfs| - 1].key, tfs[|tfs| - 1].value, prevTfs)
  }

  lemma {:induction false} SignalAlertsOfPrefix(symbol: string, prevTfs: seq<Entry<string, SymbolAnalysis>>,
                                                tfs: seq<Entry<string, SymbolAnalysis>>, n: nat)
    requires n <= |tfs|
    requires forall i :: 0 <= i < n ==> TimeframeAlerts(symbol, tfs[i].key, tfs[i].value, prevTfs) == []
    ensures SignalAlerts(symbol, prevTfs, tfs[..n]) == []
  {
    if n > 0 {
      assert tfs[..n][..n - 1] == tfs[..n - 1];
      SignalAlertsOfPrefix(symbol, prevTfs, tfs, n - 1);
    }
  }

  /** Checking the same results twice: the second check sends nothing. */
  lemma RepeatCheckSendsNothing(symbol: string, tfs: seq<Entry<string, SymbolAnalysis>>)
    requires DistinctKeys(tfs)
    ensures SignalAlerts(symbol, tfs, tfs) == []
  {
    forall i | 0 <= i < |tfs|
      ensures TimeframeAlerts(symbol, tfs[i].key, tfs[i].value, tfs) == []
    {
      GetEntry(tfs, i);
    }
    SignalAlertsOfPrefix(symbol, tfs, tfs, |tfs|);
    assert tfs[..|tfs|] == tfs;
  }

  /** A recent gap (or inversion) that is new on its timeframe is alerted. */
  lemma {:induction false} NewSignalsAlerted(symbol: string, prevTfs: seq<Entry<string, SymbolAnalysis>>,
                                             tfs: seq<Entry<string, SymbolAnalysis>>, i: nat)
    requires i < |tfs|
    ensures var a, prev := tfs[i].value, Get(prevTfs, tfs[i].key);
            (a.recentFvg.Some? && IsNewFvg(prev, a.recentFvg.value) ==>
               FvgAlertOf(symbol, tfs[i].key, a.recentFvg.value) in SignalAlerts(symbol, prevTfs, tfs)) &&
            (a.recentIFvg.Some? && IsNewIFvg(prev, a.recentIFvg.value) ==>
               IFvgAlertOf(symbol, tfs[i].key, a.recentIFvg.value) in SignalAlerts(symbol, prevTfs, tfs))
  {
    var init := tfs[..|tfs| - 1];
    if i < |tfs| - 1 {
      assert init[i] == tfs[i];
      NewSignalsAlerted(symbol, prevTfs, init, i);
    }
  }

  /** Every alert sent is the recent FVG or iFVG of some timeframe, new on that timeframe. */
  lemma {:induction false} AlertsAreNewSignals(symbol: string, prevTfs: seq<Entry<string, SymbolAnalysis>>,
                                               tfs: seq<Entry<string, SymbolAnalysis>>, alert: AlertData)
    requires alert in SignalAlerts(symbol, prevTfs, tfs)
    ensures exists i :: 0 <= i < |tfs| &&
              var a, prev := tfs[i].value, Get(prevTfs, tfs[i].key);
              (a.recentFvg.Some? && IsNewFvg(prev, a.recentFvg.value) &&
               alert == FvgAlertOf(symbol, tfs[i].key, a.recentFvg.value)) ||
              (a.recentIFvg.Some? && IsNewIFvg(prev, a.recentIFvg.value) &&
               alert == IFvgAlertOf(symbol, tfs[i].key, a.recentIFvg.value))
  {
    var init, last := tfs[..|tfs| - 1], tfs[|tfs| - 1];
    if alert in SignalAlerts(symbol, prevTfs, init) {
      AlertsAreNewSignals(symbol, prevTfs, init, alert);
      var i :| 0 <= i < |init| &&
               var a, prev := init[i].value, Get(prevTfs, init[i].key);
               (a.recentFvg.Some? && IsNewFvg(prev, a.recentFvg.value) &&
                alert == FvgAlertOf(symbol, init[i].key, a.recentFvg.value)) ||
               (a.recentIFvg.Some? && IsNewIFvg(prev, a.recentIFvg.value) &&
                alert == IFvgAlertOf(symbol, init[i].key, a.recentIFvg.value));
      assert tfs[i] == init[i];
    } else {
      assert alert in TimeframeAlerts(symbol, last.key, last.value, prevTfs);
    }
  }

  // ------------------------------------------------------------------------
  // scan_all_symbols

  /** What a scan has built so far. */
  datatype ScanPass = ScanPass(
    symbols: seq<Entry<string, SymbolResults>>,
    previous: map<string, SymbolResults>,
    alertState: AlertState,
    successful: nat)

  /** One iteration of the scan loop; a symbol whose fetch raised changes nothing. */
  function ScanStep(p: ScanPass, symbol: string, outcome: FetchOutcome, threshold: real, now: real): (q: ScanPass)
    requires outcome.Fetched? ==> ValidFrames(outcome.frames)
    ensures outcome.Raised? ==> q == p
    ensures q.successful == p.successful + (if outcome.Fetched? then 1 else 0)
    ensures |p.alertState.history| <= |q.alertState.history| &&
            q.alertState.history[..|p.alertState.history|] == p.alertState.history
  {
    match outcome
    case Raised => p
    case Fetched(frames) =>
      var r := SymbolResultsOf(symbol, frames, threshold);
      ScanPass(Put(p.symbols, symbol, r),
               p.previous[symbol := r],
               SendAll(p.alertState, SignalAlerts(symbol, PreviousTimeframes(p.previous, symbol), r.timeframes), now),
               p.successful + 1)
  }

  /** The scan loop over the first |symbols| symbols. */
  function ScanPassOf(start: ScanPass, symbols: seq<string>, outcomes: seq<FetchOutcome>,
                      threshold: real, now: real): (p: ScanPass)
    requires |outcomes| == |symbols| && ValidOutcomes(outcomes)
    ensures start.successful <= p.successful <= start.successful + |symbols|
  {
    if symbols == [] then start
    else
      var n := |symbols| - 1;
      ScanStep(ScanPassOf(start, symbols[..n], outcomes[..n], threshold, now), symbols[n], outcomes[n], threshold, now)
  }

  function CountFetched(outcomes: seq<FetchOutcome>): nat {
    if outcomes == [] then 0
    else CountFetched(outcomes[..|outcomes| - 1]) + (if outcomes[|outcomes| - 1].Fetched? then 1 else 0)
  }

  /** One success per symbol whose fetch did not raise. */
  lemma {:induction false} ScanSuccessCount(start: ScanPass, symbols: seq<string>, outcomes: seq<FetchOutcome>,
                                            threshold: real, now: real)
    requires |outcomes| == |symbols| && ValidOutcomes(outcomes)
    ensures ScanPassOf(start, symbols, outcomes, threshold, now).successful == start.successful + CountFetched(outcomes)
  {
    if symbols != [] {
      var n := |symbols| - 1;
      ScanSuccessCount(start, symbols[..n], outcomes[..n], threshold, now);
    }
  }

  /** One step stores the fetched symbol's results and leaves every other entry alone. */
  lemma StepLookup(p: ScanPass, symbol: string, outcome: FetchOutcome, threshold: real, now: real, s: string)
    requires outcome.Fetched? ==> ValidFrames(outcome.frames)
    ensures var q := ScanStep(p, symbol, outcome, threshold, now);
            && (outcome.Fetched? && symbol == s ==>
                  Get(q.symbols, s) == Some(SymbolResultsOf(symbol, outcome.frames, threshold)) &&
                  s in q.previous && q.previous[s] == SymbolResultsOf(symbol, outcome.frames, threshold))
            && (!(outcome.Fetched? && symbol == s) ==>
                  Get(q.symbols, s) == Get(p.symbols, s) &&
                  (s in q.previous <==> s in p.previous) &&
                  (s in p.previous ==> q.previous[s] == p.previous[s]))
  {
    if outcome.Fetched? {
      var r := SymbolResultsOf(symbol, outcome.frames, threshold);
      if symbol == s {
        PutGet(p.symbols, s, r);
      } else {
        PutGetOther(p.symbols, symbol, r, s);
      }
    }
  }

  /** Some position holds `s` with a fetch that did not raise. */
  predicate FetchedSomewhere(symbols: seq<string>, outcomes: seq<FetchOutcome>, s: string)
    requires |outcomes| == |symbols|
  {
    exists i :: 0 <= i < |symbols| && symbols[i] == s && outcomes[i].Fetched?
  }

  lemma FetchedSomewhereSnoc(symbols: seq<string>, outcomes: seq<FetchOutcome>, s: string)
    requires |outcomes| == |symbols| && symbols != []
    ensures var n := |symbols| - 1;
            FetchedSomewhere(symbols, outcomes, s) <==>
              FetchedSomewhere(symbols[..n], outcomes[..n], s) || (symbols[n] == s && outcomes[n].Fetched?)
  {
    var n := |symbols| - 1;
    var ss, os := symbols[..n], outcomes[..n];
    if FetchedSomewhere(symbols, outcomes, s) && !(symbols[n] == s && outcomes[n].Fetched?) {
      var i :| 0 <= i < |symbols| && symbols[i] == s && outcomes[i].Fetched?;
      assert i < n && ss[i] == s && os[i].Fetched?;
    }
    if FetchedSomewhere(ss, os, s) {
      var i :| 0 <= i < n && ss[i] == s && os[i].Fetched?;
      assert symbols[i] == s && outcomes[i].Fetched?;
    }
  }

  /** The scan's `symbols` dictionary holds exactly the symbols whose fetch succeeded. */
  lemma {:induction false} ScanResultKeys(start: ScanPass, symbols: seq<string>, outcomes: seq<FetchOutcome>,
                                          threshold: real, now: real, s: string)
    requires |outcomes| == |symbols| && ValidOutcomes(outcomes) && start.symbols == []
    ensures var p := ScanPassOf(start, symbols, outcomes, threshold, now);
            Get(p.symbols, s).Some? <==> FetchedSomewhere(symbols, outcomes, s)
  {
    if symbols != [] {
      var n := |symbols| - 1;
      var ss, os := symbols[..n], outcomes[..n];
      ScanResultKeys(start, ss, os, threshold, now, s);
      var p := ScanPassOf(start, ss, os, threshold, now);
      assert ScanPassOf(start, symbols, outcomes, threshold, now) == ScanStep(p, symbols[n], outcomes[n], threshold, now);
      StepLookup(p, symbols[n], outcomes[n], threshold, now, s);
      FetchedSomewhereSnoc(symbols, outcomes, s);
    }
  }

  /** The previous results agree with the scan results for every scanned symbol. */
  ghost predicate PreviousMatches(p: ScanPass) {
    forall s :: Get(p.symbols, s).Some? ==> s in p.previous && p.previous[s] == Get(p.symbols, s).value
  }

  /**
   * After a scan the previous results hold this scan's results for every
   * symbol scanned, and keep the older entry for every other symbol.
   */
  lemma {:induction false} ScanUpdatesPrevious(start: ScanPass, symbols: seq<string>, outcomes: seq<FetchOutcome>,
                                               threshold: real, now: real, s: string)
    requires |outcomes| == |symbols| && ValidOutcomes(outcomes) && PreviousMatches(start)
    ensures var p := ScanPassOf(start, symbols, outcomes, threshold, now);
            PreviousMatches(p) &&
            (Get(p.symbols, s).None? ==>
               Get(start.symbols, s).None? &&
               (s in p.previous <==> s in start.previous) &&
               (s in start.previous ==> p.previous[s] == start.previous[s]))
  {
    if symbols != [] {
      var n := |symbols| - 1;
      ScanUpdatesPrevious(start, symbols[..n], outcomes[..n], threshold, now, s);
      var p := ScanPassOf(start, symbols[..n], outcomes[..n], threshold, now);
      var q := ScanStep(p, symbols[n], outcomes[n], threshold, now);
      assert q == ScanPassOf(start, symbols, outcomes, threshold, now);
      StepLookup(p, symbols[n], outcomes[n], threshold, now, s);
      forall s' | Get(q.symbols, s').Some?
        ensures s' in q.previous && q.previous[s'] == Get(q.symbols, s').value
      {
        StepLookup(p, symbols[n], outcomes[n], threshold, now, s');
      }
    }
  }

  /** Every analysis stored by a scan has its `active_fvg_count`. */
  predicate AllCounted(symbols: seq<Entry<string, SymbolResults>>) {
    forall i :: 0 <= i < |symbols| ==> Counted(symbols[i].value.timeframes)
  }

  lemma {:induction false} ScannedAnalysesCounted(start: ScanPass, symbols: seq<string>, outcomes: seq<FetchOutcome>,
                                                  threshold: real, now: real)
    requires |outcomes| == |symbols| && ValidOutcomes(outcomes) && AllCounted(start.symbols)
    ensures AllCounted(ScanPassOf(start, symbols, outcomes, threshold, now).symbols)
  {
    if symbols != [] {
      var n := |symbols| - 1;
      ScannedAnalysesCounted(start, symbols[..n], outcomes[..n], threshold, now);
      var p := ScanPassOf(start, symbols[..n], outcomes[..n], threshold, now);
      if outcomes[n].Fetched? {
        PutEntries(p.symbols, symbols[n], SymbolResultsOf(symbols[n], outcomes[n].frames, threshold));
      }
    }
  }

  /** Scanning a symbol again on unchanged data sends no alert for it. */
  lemma RescanSendsNothing(p: ScanPass, symbol: string, frames: seq<Entry<string, Option<seq<Bar>>>>, threshold: real,
                           now: real, later: real)
    requires ValidFrames(frames)
    ensures var q := ScanStep(p, symbol, Fetched(frames), threshold, now);
            ScanStep(q, symbol, Fetched(frames), threshold, later).alertState == q.alertState
  {
    var r := SymbolResultsOf(symbol, frames, threshold);
    RepeatCheckSendsNothing(symbol, r.timeframes);
  }

  // ------------------------------------------------------------------------
  // get_scan_statistics

  datatype SignalKind = FvgSignal | IFvgSignal

  predicate HasSignal(a: SymbolAnalysis, kind: SignalKind) {
    match kind
    case FvgSignal => a.recentFvg.Some?
    case IFvgSignal => a.recentIFvg.Some?
  }

  /** Some timeframe of the symbol has a recent signal of this kind. */
  predicate AnySignal(tfs: seq<Entry<string, SymbolAnalysis>>, kind: SignalKind) {
    tfs != [] && (AnySignal(tfs[..|tfs| - 1], kind) || HasSignal(tfs[|tfs| - 1].value, kind))
  }

  /** The number of timeframes with a recent signal of this kind. */
  function CountSignals(tfs: seq<Entry<string, SymbolAnalysis>>, kind: SignalKind): (r: nat)
    ensures r <= |tfs|
  {
    if tfs == [] then 0
    else CountSignals(tfs[..|tfs| - 1], kind) + (if HasSignal(tfs[|tfs| - 1].value, kind) then 1 else 0)
  }

  /** The active-gap counts summed, a missing count read as zero. */
  function ActiveSum(tfs: seq<Entry<string, SymbolAnalysis>>): nat {
    if tfs == [] then 0
    else ActiveSum(tfs[..|tfs| - 1]) + tfs[|tfs| - 1].value.activeFvgCount.GetOr(0)
  }

  function SymbolsWithSignal(symbols: seq<Entry<string, SymbolResults>>, kind: SignalKind): nat {
    if symbols == [] then 0
    else SymbolsWithSignal(symbols[..|symbols| - 1], kind) +
         (if AnySignal(symbols[|symbols| - 1].value.timeframes, kind) then 1 else 0)
  }

  function TotalSignals(symbols: seq<Entry<string, SymbolResults>>, kind: SignalKind): nat {
    if symbols == [] then 0
    else TotalSignals(symbols[..|symbols| - 1], kind) + CountSignals(symbols[|symbols| - 1].value.timeframes, kind)
  }

  function TotalActive(symbols: seq<Entry<string, SymbolResults>>): nat {
    if symbols == [] then 0
    else TotalActive(symbols[..|symbols| - 1]) + ActiveSum(symbols[|symbols| - 1].value.timeframes)
  }

  /** A symbol counts as having a signal exactly when some timeframe of it has one. */
  lemma {:induction false} AnySignalMeaning(tfs: seq<Entry<string, SymbolAnalysis>>, kind: SignalKind)
    ensures AnySignal(tfs, kind) <==> exists i :: 0 <= i < |tfs| && HasSignal(tfs[i].value, kind)
    ensures AnySignal(tfs, kind) <==> CountSignals(tfs, kind) > 0
  {
    if tfs != [] {
      var init := tfs[..|tfs| - 1];
      AnySignalMeaning(init, kind);
      if exists i :: 0 <= i < |init| && HasSignal(init[i].value, kind) {
        var i :| 0 <= i < |init| && HasSignal(init[i].value, kind);
        assert tfs[i] == init[i];
      }
      if exists i :: 0 <= i < |tfs| && HasSignal(tfs[i].value, kind) {
        var i :| 0 <= i < |tfs| && HasSignal(tfs[i].value, kind);
        if i < |init| {
          assert init[i] == tfs[i];
        }
      }
    }
  }

  /**
   * Symbols with a signal are at most all symbols, and at most the
   * timeframes with a signal.
   */
  lemma {:induction false} SignalCountBounds(symbols: seq<Entry<string, SymbolResults>>, kind: SignalKind)
    ensures SymbolsWithSignal(symbols, kind) <= |symbols|
    ensures SymbolsWithSignal(symbols, kind) <= TotalSignals(symbols, kind)
  {
    if symbols != [] {
      SignalCountBounds(symbols[..|symbols| - 1], kind);
      AnySignalMeaning(symbols[|symbols| - 1].value.timeframes, kind);
    }
  }

  /** Where every count is present, the sum is the number of active gaps. */
  lemma {:induction false} ActiveSumCounted(tfs: seq<Entry<string, SymbolAnalysis>>)
    requires Counted(tfs)
    ensures ActiveSum(tfs) == ActiveGaps(tfs)
  {
    if tfs != [] {
      ActiveSumCounted(tfs[..|tfs| - 1]);
    }
  }

  function ActiveGaps(tfs: seq<Entry<string, SymbolAnalysis>>): nat {
    if tfs == [] then 0
    else ActiveGaps(tfs[..|tfs| - 1]) + |tfs[|tfs| - 1].value.activeFvgs|
  }

  datatype ScanStatistics = ScanStatistics(
    scanNumber: nat,
    scanTimestamp: real,
    scanDuration: real,
    totalSymbols: nat,
    successfulScans: nat,
    failedScans: nat,
    symbolsWithFvg: nat,
    symbolsWithIFvg: nat,
    totalFvgs: nat,
    totalIFvgs: nat,
    totalActiveFvgs: nat)

  function StatisticsOf(r: ScanResult): (st: ScanStatistics)
    ensures st.totalSymbols == |r.symbols|
    ensures st.successfulScans == r.successfulScans && st.failedScans == r.failedScans
    ensures st.symbolsWithFvg <= st.totalSymbols && st.symbolsWithFvg <= st.totalFvgs
    ensures st.symbolsWithIFvg <= st.totalSymbols && st.symbolsWithIFvg <= st.totalIFvgs
  {
    SignalCountBounds(r.symbols, FvgSignal);
    SignalCountBounds(r.symbols, IFvgSignal);
    ScanStatistics(r.scanNumber, r.timestamp, r.scanDuration, |r.symbols|, r.successfulScans, r.failedScans,
                   SymbolsWithSignal(r.symbols, FvgSignal), SymbolsWithSignal(r.symbols, IFvgSignal),
                   TotalSignals(r.symbols, FvgSignal), TotalSignals(r.symbols, IFvgSignal),
                   TotalActive(r.symbols))
  }

  /** The inner loop of get_scan_statistics over one symbol's timeframes. */
  method TimeframeTallies(tfs: seq<Entry<string, SymbolAnalysis>>)
    returns (hasFvg: bool, hasIFvg: bool, fvgs: nat, ifvgs: nat, active: nat)
    ensures hasFvg == AnySignal(tfs, FvgSignal) && hasIFvg == AnySignal(tfs, IFvgSignal)
    ensures fvgs == CountSignals(tfs, FvgSignal) && ifvgs == CountSignals(tfs, IFvgSignal)
    ensures active == ActiveSum(tfs)
  {
    hasFvg, hasIFvg, fvgs, ifvgs, active := false, false, 0, 0, 0;
    for m := 0 to |tfs|
      invariant hasFvg == AnySignal(tfs[..m], FvgSignal) && hasIFvg == AnySignal(tfs[..m], IFvgSignal)
      invariant fvgs == CountSignals(tfs[..m], FvgSignal) && ifvgs == CountSignals(tfs[..m], IFvgSignal)
      invariant active == ActiveSum(tfs[..m])
    {
      assert tfs[..m + 1][..m] == tfs[..m];
      var timeframeData := tfs[m].value;
      if timeframeData.recentFvg.Some? {
        hasFvg := true;
        fvgs := fvgs + 1;
      }
      if timeframeData.recentIFvg.Some? {
        hasIFvg := true;
        ifvgs := ifvgs + 1;
      }
      active := active + timeframeData.activeFvgCount.GetOr(0);
    }
    assert tfs[..|tfs|] == tfs;
  }

  // ------------------------------------------------------------------------
  // _scan_loop

  /** The pause between scans: what is left of the interval, never negative. */
  function SleepTime(interval: int, elapsed: real): (r: real)
    ensures r >= 0.0 && r >= interval as real - elapsed
    ensures r == 0.0 || r == interval as real - elapsed
    ensures elapsed >= 0.0 && interval >= 0 ==> r <= interval as real
  {
    if interval as real - elapsed > 0.0 then interval as real - elapsed else 0.0
  }

  // ------------------------------------------------------------------------
  // The object

  class FvgScanner {
    const symbols: seq<string>
    const threshold: real
    const alerts: AlertManager
    var scanCount: nat
    var scanResults: Option<ScanResult>
    var previousResults: map<string, SymbolResults>
    var isRunning: bool

    constructor(symbols: seq<string>, threshold: real)
      ensures this.symbols == symbols && this.threshold == threshold
      ensures scanCount == 0 && scanResults == None && previousResults == map[] && !isRunning
      ensures fresh(alerts) && alerts.State() == AlertState(map[], [])
    {
      this.symbols := symbols;
      this.threshold := threshold;
      alerts := new AlertManager();
      scanCount := 0;
      scanResults := None;
      previousResults := map[];
      isRunning := false;
    }

    /** scan_single_symbol. */
    method ScanSingleSymbol(symbol: string, frames: seq<Entry<string, Option<seq<Bar>>>>) returns (r: SymbolResults)
      requires ValidFrames(frames)
      ensures r == SymbolResultsOf(symbol, frames, threshold)
    {
      var timeframes := [];
      for n := 0 to |frames|
        invariant timeframes == TimeframesOf(symbol, frames[..n], threshold)
      {
        assert frames[..n + 1][..n] == frames[..n];
        var timeframe, data := frames[n].key, frames[n].value;
        if data.Some? && data.value != [] {
          var analysis := AnalyzeSymbol(symbol, data, threshold);
          timeframes := Put(timeframes, timeframe, analysis);
        } else {
          timeframes := Put(timeframes, timeframe, FallbackAnalysis(symbol));
        }
      }
      assert frames[..|frames|] == frames;
      r := SymbolResults(symbol, timeframes);
    }

    /** The body of _check_and_send_alerts' loop for one timeframe. */
    method AlertTimeframe(symbol: string, timeframe: string, analysis: SymbolAnalysis,
                          prevTfs: seq<Entry<string, SymbolAnalysis>>, now: real)
      modifies alerts
      ensures alerts.State() == SendAll(old(alerts.State()), TimeframeAlerts(symbol, timeframe, analysis, prevTfs), now)
    {
      var prev := Get(prevTfs, timeframe);
      ghost var before := alerts.State();
      ghost var fvgPart: seq<AlertData> := [];
      if analysis.recentFvg.Some? {
        var fvg := analysis.recentFvg.value;
        var isNewFvg := true;
        if prev.Some? && prev.value.recentFvg.Some? && prev.value.recentFvg.value.timestamp == fvg.timestamp {
          isNewFvg := false;
        }
        if isNewFvg {
          alerts.SendFvgAlert(symbol, timeframe, fvg, now);
          fvgPart := [FvgAlertOf(symbol, timeframe, fvg)];
          assert fvgPart[..0] == [];
        }
      }
      ghost var middle := alerts.State();
      assert middle == SendAll(before, fvgPart, now);
      ghost var ifvgPart: seq<AlertData> := [];
      if analysis.recentIFvg.Some? {
        var ifvg := analysis.recentIFvg.value;
        var isNewIFvg := true;
        if prev.Some? && prev.value.recentIFvg.Some? && prev.value.recentIFvg.value.timestamp == ifvg.timestamp {
          isNewIFvg := false;
        }
        if isNewIFvg {
          alerts.SendIFvgAlert(symbol, timeframe, ifvg, now);
          ifvgPart := [IFvgAlertOf(symbol, timeframe, ifvg)];
          assert ifvgPart[..0] == [];
        }
      }
      assert alerts.State() == SendAll(middle, ifvgPart, now);
      assert TimeframeAlerts(symbol, timeframe, analysis, prevTfs) == fvgPart + ifvgPart;
      SendAllConcat(before, fvgPart, ifvgPart, now);
    }

    /** The loop of _check_and_send_alerts: every timeframe in turn. */
    method SendSignalAlerts(symbol: string, prevTfs: seq<Entry<string, SymbolAnalysis>>,
                            tfs: seq<Entry<string, SymbolAnalysis>>, now: real)
      modifies alerts
      ensures alerts.State() == SendAll(old(alerts.State()), SignalAlerts(symbol, prevTfs, tfs), now)
    {
      ghost var s0 := alerts.State();
      for n := 0 to |tfs|
        invariant alerts.State() == SendAll(s0, SignalAlerts(symbol, prevTfs, tfs[..n]), now)
      {
        assert tfs[..n + 1][..n] == tfs[..n];
        ghost var done := SignalAlerts(symbol, prevTfs, tfs[..n]);
        ghost var step := TimeframeAlerts(symbol, tfs[n].key, tfs[n].value, prevTfs);
        AlertTimeframe(symbol, tfs[n].key, tfs[n].value, prevTfs, now);
        SendAllConcat(s0, done, step, now);
      }
      assert tfs[..|tfs|] == tfs;
    }

    /** _check_and_send_alerts. */
    method CheckAndSendAlerts(symbolResults: SymbolResults, now: real)
      modifies this, alerts
      ensures alerts.State() ==
              SendAll(old(alerts.State()),
                      SignalAlerts(symbolResults.symbol,
                                   PreviousTimeframes(old(previousResults), symbolResults.symbol),
                                   symbolResults.timeframes), now)
      ensures previousResults == old(previousResults)[symbolResults.symbol := symbolResults]
      ensures scanCount == old(scanCount) && scanResults == old(scanResults) && isRunning == old(isRunning)
    {
      var symbol := symbolResults.symbol;
      var prevTfs := if symbol in previousResults then previousResults[symbol].timeframes else [];
      SendSignalAlerts(symbol, prevTfs, symbolResults.timeframes, now);
      previousResults := previousResults[symbol := symbolResults];
    }

    /** scan_all_symbols: `outcomes[i]` is what fetching `symbols[i]` yields. */
    method ScanAllSymbols(outcomes: seq<FetchOutcome>, startTime: real, endTime: real, now: real)
      returns (result: ScanResult)
      requires |outcomes| == |symbols| && ValidOutcomes(outcomes)
      modifies this, alerts
      ensures scanCount == old(scanCount) + 1 && isRunning == old(isRunning)
      ensures var p := ScanPassOf(ScanPass([], old(previousResults), old(alerts.State()), 0),
                                  symbols, outcomes, threshold, now);
              && result == ScanResult(scanCount, startTime, p.symbols, endTime - startTime,
                                      p.successful, |symbols| - p.successful)
              && scanResults == Some(result)
              && previousResults == p.previous
              && alerts.State() == p.alertState
    {
      scanCount := scanCount + 1;
      ghost var start := ScanPass([], previousResults, alerts.State(), 0);
      var scanSymbols := [];
      var successfulScans := 0;
      for n := 0 to |symbols|
        invariant var p := ScanPassOf(start, symbols[..n], outcomes[..n], threshold, now);
                  && scanSymbols == p.symbols && previousResults == p.previous
                  && alerts.State() == p.alertState && successfulScans == p.successful
        invariant scanCount == old(scanCount) + 1 && isRunning == old(isRunning)
      {
        assert symbols[..n + 1][..n] == symbols[..n];
        assert outcomes[..n + 1][..n] == outcomes[..n];
        match outcomes[n]
        case Raised =>
        case Fetched(frames) =>
          var symbolResults := ScanSingleSymbol(symbols[n], frames);
          scanSymbols := Put(scanSymbols, symbols[n], symbolResults);
          successfulScans := successfulScans + 1;
          CheckAndSendAlerts(symbolResults, now);
      }
      assert symbols[..|symbols|] == symbols;
      assert outcomes[..|outcomes|] == outcomes;
      result := ScanResult(scanCount, startTime, scanSymbols, endTime - startTime,
                           successfulScans, |symbols| - successfulScans);
      scanResults := Some(result);
    }

    /** start_continuous_scan: only the running flag; the scan thread is not modelled. */
    method StartContinuousScan()
      modifies this
      ensures isRunning
      ensures scanCount == old(scanCount) && scanResults == old(scanResults) &&
              previousResults == old(previousResults)
    {
      if isRunning {
        return;
      }
      isRunning := true;
    }

    /** stop_continuous_scan. */
    method StopContinuousScan()
      modifies this
      ensures !isRunning
      ensures scanCount == old(scanCount) && scanResults == old(scanResults) &&
              previousResults == old(previousResults)
    {
      if !isRunning {
        return;
      }
      isRunning := false;
    }

    /** get_detailed_analysis. */
    function GetDetailedAnalysis(symbol: string): (r: Option<SymbolResults>)
      reads this
      ensures r.Some? <==> scanResults.Some? && exists i :: 0 <= i < |scanResults.value.symbols| &&
                                                        scanResults.value.symbols[i].key == symbol
      ensures r.Some? ==> Entry(symbol, r.value) in scanResults.value.symbols
    {
      if scanResults.None? then None else Get(scanResults.value.symbols, symbol)
    }

    /** get_scan_statistics. */
    method GetScanStatistics() returns (stats: Option<ScanStatistics>)
      ensures scanResults.None? ==> stats.None?
      ensures scanResults.Some? ==> stats == Some(StatisticsOf(scanResults.value))
    {
      if scanResults.None? {
        return None;
      }
      var results := scanResults.value;
      var syms := results.symbols;
      var symbolsWithFvg, symbolsWithIFvg := 0, 0;
      var totalFvgs, totalIFvgs, totalActiveFvgs := 0, 0, 0;
      for n := 0 to |syms|
        invariant symbolsWithFvg == SymbolsWithSignal(syms[..n], FvgSignal)
        invariant symbolsWithIFvg == SymbolsWithSignal(syms[..n], IFvgSignal)
        invariant totalFvgs == TotalSignals(syms[..n], FvgSignal)
        invariant totalIFvgs == TotalSignals(syms[..n], IFvgSignal)
        invariant totalActiveFvgs == TotalActive(syms[..n])
      {
        assert syms[..n + 1][..n] == syms[..n];
        var symbolHasFvg, symbolHasIFvg, fvgs, ifvgs, active := TimeframeTallies(syms[n].value.timeframes);
        totalFvgs, totalIFvgs, totalActiveFvgs := totalFvgs + fvgs, totalIFvgs + ifvgs, totalActiveFvgs + active;
        if symbolHasFvg {
          symbolsWithFvg := symbolsWithFvg + 1;
        }
        if symbolHasIFvg {
          symbolsWithIFvg := symbolsWithIFvg + 1;
        }
      }
      assert syms[..|syms|] == syms;
      return Some(ScanStatistics(results.scanNumber, results.timestamp, results.scanDuration, |syms|,
                                 results.successfulScans, results.failedScans,
                                 symbolsWithFvg, symbolsWithIFvg, totalFvgs, totalIFvgs, totalActiveFvgs));
    }
  }
}
