/**
 * The arithmetic of src/table_display.py, class TableDisplay: the summary
 * statistics shown under the results table, and the column widths of a
 * printed table. Cells are given as their visible text.
 */
module TableDisplay {
  import opened Wrappers
  import opened Dict
  import opened FvgDetector
  import opened Scanner

  /** No column is printed wider than this. */
  const MaxColumnWidth: nat := 15

  datatype DisplayStatistics = DisplayStatistics(
    totalSymbols: nat,
    successfulScans: nat,
    failedScans: nat,
    symbolsWithFvg: nat,
    symbolsWithIFvg: nat,
    totalActiveFvgs: nat)

  /**
   * The statistics of a scan: each symbol is counted once per signal kind,
   * however many of its timeframes carry one.
   */
  function DisplayStatisticsOf(r: ScanResult): (d: DisplayStatistics)
    ensures d.totalSymbols == |r.symbols|
    ensures d.successfulScans == r.successfulScans && d.failedScans == r.failedScans
    ensures d.symbolsWithFvg <= d.totalSymbols && d.symbolsWithIFvg <= d.totalSymbols
    ensures d.symbolsWithFvg <= TotalSignals(r.symbols, FvgSignal)
    ensures d.symbolsWithIFvg <= TotalSignals(r.symbols, IFvgSignal)
  {
    SignalCountBounds(r.symbols, FvgSignal);
    SignalCountBounds(r.symbols, IFvgSignal);
    DisplayStatistics(|r.symbols|, r.successfulScans, r.failedScans,
                      SymbolsWithSignal(r.symbols, FvgSignal), SymbolsWithSignal(r.symbols, IFvgSignal),
                      TotalActive(r.symbols))
  }

  /** The inner loop of _calculate_statistics over one symbol's timeframes. */
  method SymbolTallies(tfs: seq<Entry<string, SymbolAnalysis>>) returns (hasFvg: bool, hasIFvg: bool, active: nat)
    ensures hasFvg == AnySignal(tfs, FvgSignal) && hasIFvg == AnySignal(tfs, IFvgSignal)
    ensures active == ActiveSum(tfs)
  {
    hasFvg, hasIFvg, active := false, false, 0;
    for m := 0 to |tfs|
      invariant hasFvg == AnySignal(tfs[..m], FvgSignal) && hasIFvg == AnySignal(tfs[..m], IFvgSignal)
      invariant active == ActiveSum(tfs[..m])
    {
      assert tfs[..m + 1][..m] == tfs[..m];
      var timeframeData := tfs[m].value;
      if timeframeData.recentFvg.Some? {
        hasFvg := true;
      }
      if timeframeData.recentIFvg.Some? {
        hasIFvg := true;
      }
      active := active + timeframeData.activeFvgCount.GetOr(0);
    }
    assert tfs[..|tfs|] == tfs;
  }

  /** _calculate_statistics. */
  method CalculateStatistics(scanResults: ScanResult) returns (stats: DisplayStatistics)
    ensures stats == DisplayStatisticsOf(scanResults)
  {
    var syms := scanResults.symbols;
    var symbolsWithFvg, symbolsWithIFvg, totalActiveFvgs := 0, 0, 0;
    for n := 0 to |syms|
      invariant symbolsWithFvg == SymbolsWithSignal(syms[..n], FvgSignal)
      invariant symbolsWithIFvg == SymbolsWithSignal(syms[..n], IFvgSignal)
      invariant totalActiveFvgs == TotalActive(syms[..n])
    {
      assert syms[..n + 1][..n] == syms[..n];
      var symbolHasFvg, symbolHasIFvg, active := SymbolTallies(syms[n].value.timeframes);
      totalActiveFvgs := totalActiveFvgs + active;
      if symbolHasFvg {
        symbolsWithFvg := symbolsWithFvg + 1;
      }
      if symbolHasIFvg {
        symbolsWithIFvg := symbolsWithIFvg + 1;
      }
    }
    assert syms[..|syms|] == syms;
    stats := DisplayStatistics(|syms|, scanResults.successfulScans, scanResults.failedScans,
                               symbolsWithFvg, symbolsWithIFvg, totalActiveFvgs);
  }

  /** The table's statistics agree with the scanner's own statistics of the same scan. */
  lemma DisplayAgreesWithScanner(r: ScanResult)
    ensures var d, s := DisplayStatisticsOf(r), StatisticsOf(r);
            d.totalSymbols == s.totalSymbols && d.successfulScans == s.successfulScans &&
            d.failedScans == s.failedScans && d.symbolsWithFvg == s.symbolsWithFvg &&
            d.symbolsWithIFvg == s.symbolsWithIFvg && d.totalActiveFvgs == s.totalActiveFvgs
  {
  }

  /**
   * For the results of a scan, whose every analysis has its count, the
   * active total is the number of active gaps summed over all timeframes.
   */
  lemma {:induction false} TotalActiveCounted(symbols: seq<Entry<string, SymbolResults>>)
    requires AllCounted(symbols)
    ensures TotalActive(symbols) == TotalActiveGaps(symbols)
  {
    if symbols != [] {
      TotalActiveCounted(symbols[..|symbols| - 1]);
      ActiveSumCounted(symbols[|symbols| - 1].value.timeframes);
    }
  }

  function TotalActiveGaps(symbols: seq<Entry<string, SymbolResults>>): nat {
    if symbols == [] then 0
    else TotalActiveGaps(symbols[..|symbols| - 1]) + ActiveGaps(symbols[|symbols| - 1].value.timeframes)
  }

  // ------------------------------------------------------------------------
  // Column widths of _print_table

  function Max(a: int, b: int): int {
    if a < b then b else a
  }

  function Min(a: int, b: int): int {
    if a < b then a else b
  }

  /** The widest of the header and the cells of column `i`. */
  function ColumnMax(header: string, rows: seq<seq<string>>, i: nat): (w: nat)
    requires forall r :: 0 <= r < |rows| ==> i < |rows[r]|
    ensures w >= |header| && forall r :: 0 <= r < |rows| ==> w >= |rows[r][i]|
    ensures w == |header| || exists r :: 0 <= r < |rows| && w == |rows[r][i]|
  {
    if rows == [] then |header|
    else
      var init := rows[..|rows| - 1];
      var w := Max(ColumnMax(header, init, i), |rows[|rows| - 1][i]|);
      assert forall r :: 0 <= r < |init| ==> init[r] == rows[r];
      w
  }

  /** The width computation of _print_table: one width per header. */
  method ColumnWidths(headers: seq<string>, rows: seq<seq<string>>) returns (widths: seq<nat>)
    requires forall r :: 0 <= r < |rows| ==> |headers| <= |rows[r]|
    ensures |widths| == |headers|
    ensures forall i :: 0 <= i < |headers| ==> widths[i] == Min(ColumnMax(headers[i], rows, i), MaxColumnWidth)
  {
    widths := [];
    for i := 0 to |headers|
      invariant |widths| == i
      invariant forall k :: 0 <= k < i ==> widths[k] == Min(ColumnMax(headers[k], rows, k), MaxColumnWidth)
    {
      var maxWidth := |headers[i]|;
      for r := 0 to |rows|
        invariant maxWidth == ColumnMax(headers[i], rows[..r], i)
      {
        assert rows[..r + 1][..r] == rows[..r];
        maxWidth := Max(maxWidth, |rows[r][i]|);
      }
      assert rows[..|rows|] == rows;
      widths := widths + [Min(maxWidth, MaxColumnWidth)];
    }
  }

  /**
   * A column is as wide as its widest entry, header included, but never
   * wider than 15; an entry of at most 15 characters always fits.
   */
  lemma ColumnWidthBounds(headers: seq<string>, rows: seq<seq<string>>, i: nat)
    requires forall r :: 0 <= r < |rows| ==> |headers| <= |rows[r]|
    requires i < |headers|
    ensures var w := Min(ColumnMax(headers[i], rows, i), MaxColumnWidth);
            && w <= MaxColumnWidth
            && w >= Min(|headers[i]|, MaxColumnWidth)
            && (forall r :: 0 <= r < |rows| ==> w >= Min(|rows[r][i]|, MaxColumnWidth))
            && (w < MaxColumnWidth ==>
                  w == |headers[i]| || exists r :: 0 <= r < |rows| && w == |rows[r][i]|)
  {
  }
}
