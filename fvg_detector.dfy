/**
 * Fair Value Gap (FVG) and inversion (iFVG) detection over an ordered series
 * of price bars, and the per-symbol summary built from them
 * (src/fvg_detector.py, class FVGDetector).
 *
 * A series is a `seq<Bar>`; position i plays the role of the DataFrame's
 * i-th row and `timestamp` the role of its index label.
 */
module FvgDetector {
  import opened Wrappers
  import opened Sequences

  /** One OHLCV sample. */
  datatype Bar = Bar(timestamp: int, open: real, high: real, low: real, close: real, volume: real)

  datatype Direction = Bullish | Bearish

  /** A three-bar gap anchored at its third ("current") bar. */
  datatype Fvg = Fvg(
    direction: Direction,
    timestamp: int,
    gapStart: real,
    gapEnd: real,
    gapSize: real,
    gapPercentage: real,
    imbalanceCandle: int,
    priceAtDetection: real,
    volume: real)

  /** An inversion of `originalFvg`, recorded at the bar that filled the gap. */
  datatype IFvg = IFvg(
    direction: Direction,
    timestamp: int,
    originalFvg: Fvg,
    fillPrice: real,
    fillPercentage: real,
    reversalConfirmed: bool,
    volume: real)

  /** The reversal search stops after testing the bar at offset `j == LookaheadLimit`. */
  const LookaheadLimit: nat := 5

  /** How many bars back from the end the recency window reaches. */
  const RecentBars: nat := 10

  // ------------------------------------------------------------------------
  // Well-formed series

  /** Market prices are positive, so every price the detector divides by is nonzero. */
  predicate PositivePrices(bars: seq<Bar>) {
    forall i :: 0 <= i < |bars| ==> bars[i].high > 0.0 && bars[i].low > 0.0
  }

  /** A DataFrame index of bar times: sorted and unique. */
  predicate IncreasingTimestamps(bars: seq<Bar>) {
    forall i, j :: 0 <= i < j < |bars| ==> bars[i].timestamp < bars[j].timestamp
  }

  predicate ValidSeries(bars: seq<Bar>) {
    PositivePrices(bars) && IncreasingTimestamps(bars)
  }

  /** Every bar's low is at most its high. */
  predicate LowsBelowHighs(bars: seq<Bar>) {
    forall i :: 0 <= i < |bars| ==> bars[i].low <= bars[i].high
  }

  function Abs(x: real): real {
    if x < 0.0 then -x else x
  }

  // ------------------------------------------------------------------------
  // detect_fvg

  /** What a detected gap always satisfies. */
  predicate WellFormedFvg(f: Fvg, threshold: real) {
    && f.gapStart > 0.0
    && f.gapSize > 0.0
    && f.gapPercentage > 100.0 * threshold
    && (f.direction == Bullish ==> f.gapSize == f.gapEnd - f.gapStart)
    && (f.direction == Bearish ==> f.gapSize == f.gapStart - f.gapEnd)
  }

  lemma QuotientShrinksAsDivisorGrows(g: real, a: real, b: real)
    requires g > 0.0 && 0.0 < a < b
    ensures g / a > g / b
  {
    assert (g / a) * a == g;
    assert (g / b) * b == g;
    assert (g / b) * a < (g / b) * b;
  }

  /** The gap, if any, that index `i` contributes (one loop iteration of detect_fvg). */
  function FvgAt(bars: seq<Bar>, i: nat, threshold: real): (r: Option<Fvg>)
    requires 2 <= i < |bars| && PositivePrices(bars)
    ensures r.Some? ==> r.value.timestamp == bars[i].timestamp
    ensures r.Some? ==> r.value.imbalanceCandle == bars[i - 1].timestamp
    ensures r.Some? ==> WellFormedFvg(r.value, threshold)
  {
    var before, middle, current := bars[i - 2], bars[i - 1], bars[i];
    if before.high < current.low && Abs(before.high - current.low) / current.low > threshold then
      var gapSize := current.low - before.high;
      QuotientShrinksAsDivisorGrows(gapSize, before.high, current.low);
      Some(Fvg(Bullish, current.timestamp, before.high, current.low, gapSize,
               gapSize / before.high * 100.0, middle.timestamp, current.close, current.volume))
    else if before.low > current.high && Abs(before.low - current.high) / current.high > threshold then
      var gapSize := before.low - current.high;
      Some(Fvg(Bearish, current.timestamp, before.low, current.high, gapSize,
               gapSize / current.high * 100.0, middle.timestamp, current.close, current.volume))
    else
      None
  }

  /** The gaps anchored at indices 2 .. n-1, in index order. */
  function FvgsBefore(bars: seq<Bar>, n: nat, threshold: real): (r: seq<Fvg>)
    requires n <= |bars| && PositivePrices(bars)
    ensures r == [] || |r| + 2 <= n
    ensures forall k :: 0 <= k < |r| ==> WellFormedFvg(r[k], threshold)
  {
    if n < 3 then []
    else FvgsBefore(bars, n - 1, threshold) + FvgAt(bars, n - 1, threshold).ToSeq()
  }

  /** The result of detect_fvg. */
  function FvgsOf(bars: seq<Bar>, threshold: real): (r: seq<Fvg>)
    requires PositivePrices(bars)
    ensures |bars| < 3 ==> r == []
    ensures r == [] || |r| <= |bars| - 2
    ensures forall k :: 0 <= k < |r| ==> WellFormedFvg(r[k], threshold)
  {
    FvgsBefore(bars, |bars|, threshold)
  }

  /** detect_fvg: one pass over indices 2 .. |bars|-1, appending at most one gap each. */
  method DetectFvg(bars: seq<Bar>, threshold: real) returns (fvgs: seq<Fvg>)
    requires PositivePrices(bars)
    ensures fvgs == FvgsOf(bars, threshold)
  {
    fvgs := [];
    if |bars| < 3 {
      return;
    }
    for i := 2 to |bars|
      invariant fvgs == FvgsBefore(bars, i, threshold)
    {
      var current, middle, before := bars[i], bars[i - 1], bars[i - 2];
      if before.high < current.low && Abs(before.high - current.low) / current.low > threshold {
        var gapSize := current.low - before.high;
        var gapPercentage := gapSize / before.high * 100.0;
        fvgs := fvgs + [Fvg(Bullish, current.timestamp, before.high, current.low, gapSize,
                            gapPercentage, middle.timestamp, current.close, current.volume)];
      } else if before.low > current.high && Abs(before.low - current.high) / current.high > threshold {
        var gapSize := before.low - current.high;
        var gapPercentage := gapSize / current.high * 100.0;
        fvgs := fvgs + [Fvg(Bearish, current.timestamp, before.low, current.high, gapSize,
                            gapPercentage, middle.timestamp, current.close, current.volume)];
      }
    }
  }

  /** A gap is reported exactly when some index 2 .. |bars|-1 yields it. */
  lemma {:induction false} FvgsBeforeMembers(bars: seq<Bar>, n: nat, threshold: real, f: Fvg)
    requires n <= |bars| && PositivePrices(bars)
    ensures f in FvgsBefore(bars, n, threshold) <==>
            exists i :: 2 <= i < n && FvgAt(bars, i, threshold) == Some(f)
  {
    if n >= 3 {
      FvgsBeforeMembers(bars, n - 1, threshold, f);
      var extra := FvgAt(bars, n - 1, threshold).ToSeq();
      assert FvgsBefore(bars, n, threshold) == FvgsBefore(bars, n - 1, threshold) + extra;
      assert f in extra <==> FvgAt(bars, n - 1, threshold) == Some(f);
      if exists i :: 2 <= i < n && FvgAt(bars, i, threshold) == Some(f) {
        var i :| 2 <= i < n && FvgAt(bars, i, threshold) == Some(f);
        assert i < n - 1 || f in extra;
      }
    }
  }

  lemma FvgsMembers(bars: seq<Bar>, threshold: real, f: Fvg)
    requires PositivePrices(bars)
    ensures f in FvgsOf(bars, threshold) <==>
            exists i :: 2 <= i < |bars| && FvgAt(bars, i, threshold) == Some(f)
  {
    FvgsBeforeMembers(bars, |bars|, threshold, f);
  }

  /** Gaps come out in strictly ascending timestamp order, hence at most one per bar. */
  lemma {:induction false} FvgsBeforeAscending(bars: seq<Bar>, n: nat, threshold: real)
    requires n <= |bars| && ValidSeries(bars)
    ensures var r := FvgsBefore(bars, n, threshold);
            forall j, k :: 0 <= j < k < |r| ==> r[j].timestamp < r[k].timestamp
    ensures var r := FvgsBefore(bars, n, threshold);
            r != [] ==> n >= 1 && r[|r| - 1].timestamp <= bars[n - 1].timestamp
  {
    if n >= 3 {
      FvgsBeforeAscending(bars, n - 1, threshold);
      var prefix := FvgsBefore(bars, n - 1, threshold);
      var extra := FvgAt(bars, n - 1, threshold).ToSeq();
      var r := prefix + extra;
      assert r == FvgsBefore(bars, n, threshold);
      if prefix != [] {
        assert prefix[|prefix| - 1].timestamp < bars[n - 1].timestamp;
      }
      forall j, k | 0 <= j < k < |r|
        ensures r[j].timestamp < r[k].timestamp
      {
        if k >= |prefix| {
          assert r[k] == extra[0];
          assert r[j] == prefix[j];
          if j < |prefix| - 1 {
            assert prefix[j].timestamp < prefix[|prefix| - 1].timestamp;
          }
        }
      }
    }
  }

  lemma FvgsAscending(bars: seq<Bar>, threshold: real)
    requires ValidSeries(bars)
    ensures var r := FvgsOf(bars, threshold);
            forall j, k :: 0 <= j < k < |r| ==> r[j].timestamp < r[k].timestamp
  {
    FvgsBeforeAscending(bars, |bars|, threshold);
  }

  /**
   * A strict bullish gap at index i above the threshold is reported, with
   * gap_start = before.high and gap_end = current.low, and it is the only gap
   * reported at that bar.
   */
  lemma BullishGapReported(bars: seq<Bar>, i: nat, threshold: real)
    requires ValidSeries(bars) && 2 <= i < |bars|
    requires bars[i - 2].high < bars[i].low
    requires (bars[i].low - bars[i - 2].high) / bars[i].low > threshold
    ensures exists f :: f in FvgsOf(bars, threshold) && f.direction == Bullish &&
                        f.timestamp == bars[i].timestamp &&
                        f.gapStart == bars[i - 2].high && f.gapEnd == bars[i].low
    ensures forall f :: f in FvgsOf(bars, threshold) && f.timestamp == bars[i].timestamp ==>
                        f.direction == Bullish
  {
    var f := FvgAt(bars, i, threshold).value;
    FvgsMembers(bars, threshold, f);
    forall g | g in FvgsOf(bars, threshold) && g.timestamp == bars[i].timestamp
      ensures g.direction == Bullish
    {
      FvgsMembers(bars, threshold, g);
      var i' :| 2 <= i' < |bars| && FvgAt(bars, i', threshold) == Some(g);
    }
  }

  /**
   * A strict bearish gap at index i above the threshold is reported, with
   * gap_start = before.low and gap_end = current.high, provided the bullish
   * test at i fails.
   */
  lemma BearishGapReported(bars: seq<Bar>, i: nat, threshold: real)
    requires ValidSeries(bars) && 2 <= i < |bars|
    requires !(bars[i - 2].high < bars[i].low &&
               (bars[i].low - bars[i - 2].high) / bars[i].low > threshold)
    requires bars[i - 2].low > bars[i].high
    requires (bars[i - 2].low - bars[i].high) / bars[i].high > threshold
    ensures exists f :: f in FvgsOf(bars, threshold) && f.direction == Bearish &&
                        f.timestamp == bars[i].timestamp &&
                        f.gapStart == bars[i - 2].low && f.gapEnd == bars[i].high
  {
    var f := FvgAt(bars, i, threshold).value;
    FvgsMembers(bars, threshold, f);
  }

  /** Raising the threshold never adds a gap at an index, nor changes the one found there. */
  lemma GapAtHigherThreshold(bars: seq<Bar>, i: nat, lo: real, hi: real)
    requires 2 <= i < |bars| && PositivePrices(bars) && LowsBelowHighs(bars) && lo <= hi
    ensures FvgAt(bars, i, hi).Some? ==> FvgAt(bars, i, hi) == FvgAt(bars, i, lo)
  {
  }

  lemma {:induction false} FvgsBeforeMonotone(bars: seq<Bar>, n: nat, lo: real, hi: real)
    requires n <= |bars| && PositivePrices(bars) && LowsBelowHighs(bars) && lo <= hi
    ensures IsSubsequence(FvgsBefore(bars, n, hi), FvgsBefore(bars, n, lo))
  {
    if n >= 3 {
      FvgsBeforeMonotone(bars, n - 1, lo, hi);
      GapAtHigherThreshold(bars, n - 1, lo, hi);
      var a, b := FvgsBefore(bars, n - 1, hi), FvgsBefore(bars, n - 1, lo);
      match FvgAt(bars, n - 1, lo)
      case None =>
        assert FvgsBefore(bars, n, hi) == a && FvgsBefore(bars, n, lo) == b;
      case Some(g) =>
        SubsequenceSkip(a, b, g);
        if FvgAt(bars, n - 1, hi).Some? {
          SubsequenceKeep(a, b, g);
        } else {
          assert FvgsBefore(bars, n, hi) == a;
        }
    }
  }

  /**
   * Threshold monotonicity: for bars whose low is at most their high, the gaps
   * found at a higher threshold are a subsequence of those found at a lower one.
   */
  lemma ThresholdMonotone(bars: seq<Bar>, lo: real, hi: real)
    requires PositivePrices(bars) && LowsBelowHighs(bars) && lo <= hi
    ensures IsSubsequence(FvgsOf(bars, hi), FvgsOf(bars, lo))
    ensures |FvgsOf(bars, hi)| <= |FvgsOf(bars, lo)|
  {
    FvgsBeforeMonotone(bars, |bars|, lo, hi);
    SubsequenceContained(FvgsOf(bars, hi), FvgsOf(bars, lo));
  }

  // ------------------------------------------------------------------------
  // detect_ifvg

  /** The bar trades back into the gap, reaching gap_start. */
  predicate Fills(f: Fvg, b: Bar) {
    match f.direction
    case Bullish => b.low <= f.gapStart
    case Bearish => b.high >= f.gapStart
  }

  /** The bar trades back beyond gap_end. */
  predicate Reverses(f: Fvg, b: Bar) {
    match f.direction
    case Bullish => b.high > f.gapEnd
    case Bearish => b.low < f.gapEnd
  }

  /** `data.index.get_loc(ts)`: the position of the bar stamped `ts`. */
  function IndexOf(bars: seq<Bar>, ts: int): (r: Option<nat>)
    ensures r.Some? ==> r.value < |bars| && bars[r.value].timestamp == ts
    ensures r.None? ==> forall i :: 0 <= i < |bars| ==> bars[i].timestamp != ts
  {
    if bars == [] then None
    else match IndexOf(bars[..|bars| - 1], ts)
      case Some(i) => Some(i)
      case None => if bars[|bars| - 1].timestamp == ts then Some(|bars| - 1) else None
  }

  /** The first bar at or after `from` that fills the gap. */
  function FirstFill(bars: seq<Bar>, f: Fvg, from: nat): (r: Option<nat>)
    ensures r.Some? ==> from <= r.value < |bars| && Fills(f, bars[r.value])
    ensures r.Some? ==> forall p :: from <= p < r.value ==> !Fills(f, bars[p])
    ensures r.None? ==> forall p :: from <= p < |bars| ==> !Fills(f, bars[p])
    decreases |bars| - from
  {
    if from >= |bars| then None
    else if Fills(f, bars[from]) then Some(from)
    else FirstFill(bars, f, from + 1)
  }

  /** One of the bars at offsets 0 .. LookaheadLimit after the fill bar reverses. */
  predicate ReversalWithin(bars: seq<Bar>, f: Fvg, fill: nat) {
    exists r :: fill < r < |bars| && r <= fill + 1 + LookaheadLimit && Reverses(f, bars[r])
  }

  /** The inversion record built from the fill bar. */
  function InversionAt(f: Fvg, fill: Bar): (r: IFvg)
    requires f.gapStart > 0.0
  {
    match f.direction
    case Bullish =>
      IFvg(Bullish, fill.timestamp, f, fill.low, (f.gapStart - fill.low) / f.gapStart * 100.0, true, fill.volume)
    case Bearish =>
      IFvg(Bearish, fill.timestamp, f, fill.high, (fill.high - f.gapStart) / f.gapStart * 100.0, true, fill.volume)
  }

  /** What detect_ifvg appends for one input gap. */
  function InversionOf(bars: seq<Bar>, f: Fvg): (r: Option<IFvg>)
    requires f.gapStart > 0.0
    ensures r.Some? ==> r.value.originalFvg == f && r.value.direction == f.direction
    ensures r.Some? ==> r.value.fillPercentage >= 0.0 && r.value.reversalConfirmed
  {
    match IndexOf(bars, f.timestamp)
    case None => None
    case Some(k) =>
      if |bars| - (k + 1) < 2 then None
      else match FirstFill(bars, f, k + 1)
        case None => None
        case Some(m) =>
          if m + 1 < |bars| && ReversalWithin(bars, f, m) then Some(InversionAt(f, bars[m])) else None
  }

  predicate PositiveGapStarts(fvgs: seq<Fvg>) {
    forall k :: 0 <= k < |fvgs| ==> fvgs[k].gapStart > 0.0
  }

  /** The result of detect_ifvg: at most one inversion per input gap, in input order. */
  function IFvgsOf(bars: seq<Bar>, fvgs: seq<Fvg>): (r: seq<IFvg>)
    requires PositiveGapStarts(fvgs)
    ensures |r| <= |fvgs|
    ensures forall k :: 0 <= k < |r| ==>
              r[k].direction == r[k].originalFvg.direction && r[k].fillPercentage >= 0.0
  {
    if fvgs == [] then []
    else IFvgsOf(bars, fvgs[..|fvgs| - 1]) + InversionOf(bars, fvgs[|fvgs| - 1]).ToSeq()
  }

  /** The scan of detect_ifvg for the first bar from `from` on that fills the gap. */
  method FindFill(bars: seq<Bar>, f: Fvg, from: nat) returns (fill: Option<nat>)
    ensures fill == FirstFill(bars, f, from)
  {
    if from >= |bars| {
      return None;
    }
    var i := from;
    while i < |bars|
      invariant from <= i <= |bars|
      invariant FirstFill(bars, f, from) == FirstFill(bars, f, i)
    {
      if Fills(f, bars[i]) {
        return Some(i);
      }
      i := i + 1;
    }
    return None;
  }

  /** The search of detect_ifvg for a reversal after the fill bar at index `fill`. */
  method FindReversal(bars: seq<Bar>, f: Fvg, fill: nat) returns (reversalFound: bool)
    requires fill < |bars|
    ensures reversalFound == ReversalWithin(bars, f, fill)
  {
    reversalFound := false;
    var j := 0;
    while fill + 1 + j < |bars|
      invariant 0 <= j <= LookaheadLimit && fill + 1 + j <= |bars|
      invariant forall r :: fill < r < fill + 1 + j ==> !Reverses(f, bars[r])
    {
      if Reverses(f, bars[fill + 1 + j]) {
        reversalFound := true;
        break;
      }
      if j >= LookaheadLimit {
        break;
      }
      j := j + 1;
    }
  }

  lemma IFvgsOfStep(bars: seq<Bar>, fvgs: seq<Fvg>, n: nat)
    requires PositiveGapStarts(fvgs) && n < |fvgs|
    ensures IFvgsOf(bars, fvgs[..n + 1]) == IFvgsOf(bars, fvgs[..n]) + InversionOf(bars, fvgs[n]).ToSeq()
  {
    assert fvgs[..n + 1][..n] == fvgs[..n];
  }

  /**
   * The body of detect_ifvg's loop for one gap: locate its anchor, skip it
   * when fewer than two bars follow, find the first fill, and record an
   * inversion when a reversal follows it.
   */
  method InvertFvg(bars: seq<Bar>, fvg: Fvg) returns (inversion: Option<IFvg>)
    requires fvg.gapStart > 0.0
    ensures inversion == InversionOf(bars, fvg)
  {
    inversion := None;
    var location := IndexOf(bars, fvg.timestamp);
    if location.None? {
      return;
    }
    var k := location.value;
    if |bars| - (k + 1) < 2 {
      return;
    }
    var fill := FindFill(bars, fvg, k + 1);
    if fill.Some? && fill.value + 1 < |bars| {
      var reversalFound := FindReversal(bars, fvg, fill.value);
      if reversalFound {
        inversion := Some(InversionAt(fvg, bars[fill.value]));
      }
    }
  }

  /** detect_ifvg. */
  method DetectIFvg(bars: seq<Bar>, fvgs: seq<Fvg>) returns (ifvgs: seq<IFvg>)
    requires PositiveGapStarts(fvgs)
    ensures ifvgs == IFvgsOf(bars, fvgs)
  {
    ifvgs := [];
    if |fvgs| == 0 {
      return;
    }
    for n := 0 to |fvgs|
      invariant ifvgs == IFvgsOf(bars, fvgs[..n])
    {
      IFvgsOfStep(bars, fvgs, n);
      var inversion := InvertFvg(bars, fvgs[n]);
      ifvgs := ifvgs + inversion.ToSeq();
    }
    assert fvgs[..|fvgs|] == fvgs;
  }

  function Originals(xs: seq<IFvg>): (r: seq<Fvg>)
    ensures |r| == |xs|
  {
    seq(|xs|, i requires 0 <= i < |xs| => xs[i].originalFvg)
  }

  lemma OriginalsSnoc(xs: seq<IFvg>, ys: seq<IFvg>)
    requires |ys| <= 1
    ensures Originals(xs + ys) == Originals(xs) + Originals(ys)
  {
  }

  /** Each inversion stems from one input gap, in the order of the input gaps. */
  lemma {:induction false} InversionsFollowGaps(bars: seq<Bar>, fvgs: seq<Fvg>)
    requires PositiveGapStarts(fvgs)
    ensures IsSubsequence(Originals(IFvgsOf(bars, fvgs)), fvgs)
  {
    if fvgs != [] {
      var n := |fvgs| - 1;
      var init, f := fvgs[..n], fvgs[n];
      assert PositiveGapStarts(init) by {
        forall k | 0 <= k < n ensures init[k].gapStart > 0.0 {
          assert init[k] == fvgs[k];
        }
      }
      InversionsFollowGaps(bars, init);
      var a := Originals(IFvgsOf(bars, init));
      var extra := InversionOf(bars, f).ToSeq();
      assert IFvgsOf(bars, fvgs) == IFvgsOf(bars, init) + extra;
      OriginalsSnoc(IFvgsOf(bars, init), extra);
      SplitLast(fvgs);
      if InversionOf(bars, f).None? {
        assert Originals(extra) == [];
        assert a + [] == a;
        SubsequenceSkip(a, init, f);
        assert IsSubsequence(Originals(IFvgsOf(bars, fvgs)), init + [f]);
      } else {
        assert Originals(extra) == [f];
        SubsequenceKeep(a, init, f);
        assert IsSubsequence(Originals(IFvgsOf(bars, fvgs)), init + [f]);
      }
    }
  }

  /**
   * An inversion is recorded at the first bar after the gap's anchor that
   * fills the gap; its fill price is that bar's low (bullish) or high
   * (bearish); a bar among the next LookaheadLimit + 1 bars reverses.
   */
  lemma InversionIsFirstFill(bars: seq<Bar>, f: Fvg)
    requires f.gapStart > 0.0 && InversionOf(bars, f).Some?
    ensures var x := InversionOf(bars, f).value;
            exists k, m :: 0 <= k < m < |bars| - 1 && k + 2 < |bars| &&
              bars[k].timestamp == f.timestamp &&
              Fills(f, bars[m]) && (forall p :: k < p < m ==> !Fills(f, bars[p])) &&
              ReversalWithin(bars, f, m) &&
              x.timestamp == bars[m].timestamp && x.volume == bars[m].volume &&
              x.fillPrice == (if f.direction == Bullish then bars[m].low else bars[m].high)
  {
    var k := IndexOf(bars, f.timestamp).value;
    var m := FirstFill(bars, f, k + 1).value;
  }

  /**
   * Once the anchor and the first fill after it are known, the outcome is
   * decided: an inversion at that fill bar if a reversal follows within the
   * look-ahead window, and none otherwise, whatever later bars do.
   */
  lemma FirstFillDecides(bars: seq<Bar>, f: Fvg, k: nat, m: nat)
    requires IncreasingTimestamps(bars) && f.gapStart > 0.0
    requires k < m < |bars| && k + 2 < |bars| && bars[k].timestamp == f.timestamp
    requires Fills(f, bars[m]) && forall p :: k < p < m ==> !Fills(f, bars[p])
    ensures InversionOf(bars, f) ==
            if m + 1 < |bars| && ReversalWithin(bars, f, m) then Some(InversionAt(f, bars[m])) else None
  {
    assert IndexOf(bars, f.timestamp) == Some(k);
    var m' := FirstFill(bars, f, k + 1);
    assert m'.Some?;
    assert m'.value == m;
  }

  /** No inversion for a gap anchored at one of the last two bars. */
  lemma NoInversionAtEnd(bars: seq<Bar>, f: Fvg, k: nat)
    requires IncreasingTimestamps(bars) && f.gapStart > 0.0
    requires k < |bars| && bars[k].timestamp == f.timestamp && k + 2 >= |bars|
    ensures InversionOf(bars, f) == None
  {
    assert IndexOf(bars, f.timestamp) == Some(k);
  }

  // ------------------------------------------------------------------------
  // get_active_fvgs

  /** Still active against the current price (only gap_start is compared). */
  predicate IsActive(f: Fvg, price: real) {
    match f.direction
    case Bullish => price > f.gapStart
    case Bearish => price < f.gapStart
  }

  function ActiveAt(fvgs: seq<Fvg>, price: real): (r: seq<Fvg>)
    ensures |r| <= |fvgs|
    ensures forall k :: 0 <= k < |r| ==> IsActive(r[k], price)
  {
    if fvgs == [] then []
    else
      var f := fvgs[|fvgs| - 1];
      ActiveAt(fvgs[..|fvgs| - 1], price) + (if IsActive(f, price) then [f] else [])
  }

  /** The result of get_active_fvgs: the current price is the last bar's close. */
  function ActiveFvgsOf(bars: seq<Bar>, fvgs: seq<Fvg>): (r: seq<Fvg>)
    requires fvgs != [] ==> bars != []
    ensures |r| <= |fvgs|
    ensures r != [] ==> bars != [] && forall k :: 0 <= k < |r| ==> IsActive(r[k], bars[|bars| - 1].close)
  {
    if fvgs == [] then [] else ActiveAt(fvgs, bars[|bars| - 1].close)
  }

  /** get_active_fvgs. */
  method GetActiveFvgs(bars: seq<Bar>, fvgs: seq<Fvg>) returns (active: seq<Fvg>)
    requires fvgs != [] ==> bars != []
    ensures active == ActiveFvgsOf(bars, fvgs)
  {
    active := [];
    if fvgs == [] {
      return;
    }
    var currentPrice := bars[|bars| - 1].close;
    for n := 0 to |fvgs|
      invariant active == ActiveAt(fvgs[..n], currentPrice)
    {
      assert fvgs[..n + 1][..n] == fvgs[..n];
      var fvg := fvgs[n];
      match fvg.direction
      case Bullish =>
        if currentPrice > fvg.gapStart {
          active := active + [fvg];
        }
      case Bearish =>
        if currentPrice < fvg.gapStart {
          active := active + [fvg];
        }
    }
    assert fvgs[..|fvgs|] == fvgs;
  }

  /**
   * The active gaps are exactly the input gaps that pass the price test,
   * kept in input order.
   */
  lemma {:induction false} ActiveSelection(fvgs: seq<Fvg>, price: real)
    ensures IsSubsequence(ActiveAt(fvgs, price), fvgs)
    ensures forall f :: f in ActiveAt(fvgs, price) <==> f in fvgs && IsActive(f, price)
  {
    if fvgs != [] {
      var init, f := fvgs[..|fvgs| - 1], fvgs[|fvgs| - 1];
      ActiveSelection(init, price);
      assert fvgs == init + [f];
      if IsActive(f, price) {
        SubsequenceKeep(ActiveAt(init, price), init, f);
      } else {
        assert ActiveAt(fvgs, price) == ActiveAt(init, price);
        SubsequenceSkip(ActiveAt(init, price), init, f);
      }
    }
  }

  // ------------------------------------------------------------------------
  // analyze_symbol

  /** The per-timeframe summary; `None` in `activeFvgCount` is a missing key. */
  datatype SymbolAnalysis = SymbolAnalysis(
    symbol: string,
    fvgs: seq<Fvg>,
    ifvgs: seq<IFvg>,
    activeFvgs: seq<Fvg>,
    recentFvg: Option<Fvg>,
    recentIFvg: Option<IFvg>,
    fvgCount: nat,
    ifvgCount: nat,
    activeFvgCount: Option<nat>,
    currentPrice: Option<real>)

  /** The detector's answer for absent or empty data: no `active_fvg_count` or `current_price` key. */
  function NoDataAnalysis(symbol: string): SymbolAnalysis {
    SymbolAnalysis(symbol, [], [], [], None, None, 0, 0, None, None)
  }

  /** The oldest timestamp still inside the recency window. */
  function RecentThreshold(bars: seq<Bar>): int
    requires bars != []
  {
    if |bars| >= RecentBars then bars[|bars| - RecentBars].timestamp else bars[0].timestamp
  }

  /** The last element whose stamp is at least `since`. */
  function LastSince<T>(xs: seq<T>, stamp: T -> int, since: int): Option<T> {
    if xs == [] then None
    else if stamp(xs[|xs| - 1]) >= since then Some(xs[|xs| - 1])
    else LastSince(xs[..|xs| - 1], stamp, since)
  }

  /**
   * The element found is stamped at or after `since` and no later element
   * is; nothing is found exactly when every element is older.
   */
  lemma {:induction false} LastSinceMeaning<T>(xs: seq<T>, stamp: T -> int, since: int)
    ensures var r := LastSince(xs, stamp, since);
            r.None? <==> forall i :: 0 <= i < |xs| ==> stamp(xs[i]) < since
    ensures var r := LastSince(xs, stamp, since);
            r.Some? ==> exists i :: 0 <= i < |xs| && xs[i] == r.value && stamp(xs[i]) >= since &&
                                    forall j :: i < j < |xs| ==> stamp(xs[j]) < since
  {
    if xs != [] {
      var n := |xs| - 1;
      if stamp(xs[n]) >= since {
        assert xs[n] == LastSince(xs, stamp, since).value;
      } else {
        var init := xs[..n];
        LastSinceMeaning(init, stamp, since);
        var r := LastSince(init, stamp, since);
        assert LastSince(xs, stamp, since) == r;
        assert forall i :: 0 <= i < n ==> init[i] == xs[i];
        if r.Some? {
          var i :| 0 <= i < n && init[i] == r.value && stamp(init[i]) >= since &&
                   forall j :: i < j < n ==> stamp(init[j]) < since;
          assert xs[i] == r.value;
        }
      }
    }
  }

  function FvgStamp(f: Fvg): int { f.timestamp }

  function IFvgStamp(x: IFvg): int { x.timestamp }

  /** analyze_symbol. */
  function AnalyzeSymbol(symbol: string, data: Option<seq<Bar>>, threshold: real): (r: SymbolAnalysis)
    requires data.Some? ==> ValidSeries(data.value)
    ensures r.symbol == symbol
    ensures r.fvgCount == |r.fvgs| && r.ifvgCount == |r.ifvgs|
    ensures data.Some? && data.value != [] ==>
              r.activeFvgCount == Some(|r.activeFvgs|) &&
              r.currentPrice == Some(data.value[|data.value| - 1].close)
  {
    if data.None? || data.value == [] then
      NoDataAnalysis(symbol)
    else
      var bars := data.value;
      var fvgs := FvgsOf(bars, threshold);
      assert PositiveGapStarts(fvgs) by {
        forall k | 0 <= k < |fvgs| ensures fvgs[k].gapStart > 0.0 {
          assert WellFormedFvg(fvgs[k], threshold);
        }
      }
      var ifvgs := IFvgsOf(bars, fvgs);
      var active := ActiveFvgsOf(bars, fvgs);
      var since := RecentThreshold(bars);
      SymbolAnalysis(symbol, fvgs, ifvgs, active,
                     LastSince(fvgs, FvgStamp, since), LastSince(ifvgs, IFvgStamp, since),
                     |fvgs|, |ifvgs|, Some(|active|), Some(bars[|bars| - 1].close))
  }

  /** Absent or empty data: empty lists, no recent signals, zero counts, no price. */
  lemma AnalyzeNoData(symbol: string, data: Option<seq<Bar>>, threshold: real)
    requires data.None? || data.value == []
    ensures var r := AnalyzeSymbol(symbol, data, threshold);
            r.fvgs == [] && r.ifvgs == [] && r.activeFvgs == [] &&
            r.recentFvg == None && r.recentIFvg == None &&
            r.fvgCount == 0 && r.ifvgCount == 0 &&
            r.activeFvgCount == None && r.currentPrice == None
  {
  }

  /**
   * For a non-empty series: the summary holds the detector's lists, and the
   * active gaps are exactly the gaps that pass the price test at the last
   * close, in detection order.
   */
  lemma AnalyzeSeries(symbol: string, bars: seq<Bar>, threshold: real)
    requires ValidSeries(bars) && bars != []
    ensures var r := AnalyzeSymbol(symbol, Some(bars), threshold);
            var fvgs := FvgsOf(bars, threshold);
            && r.fvgs == fvgs
            && r.ifvgs == IFvgsOf(bars, fvgs)
            && IsSubsequence(r.activeFvgs, fvgs)
            && (forall f :: f in r.activeFvgs <==> f in fvgs && IsActive(f, bars[|bars| - 1].close))
  {
    var fvgs := FvgsOf(bars, threshold);
    ActiveSelection(fvgs, bars[|bars| - 1].close);
    if fvgs == [] {
      assert ActiveFvgsOf(bars, fvgs) == [];
    }
  }

  /**
   * The recent gap is the newest gap when it lies inside the recency
   * window, and there is none otherwise: gaps are detected in time order.
   */
  lemma AnalyzeRecentGap(symbol: string, bars: seq<Bar>, threshold: real)
    requires ValidSeries(bars) && bars != []
    ensures var r := AnalyzeSymbol(symbol, Some(bars), threshold);
            var fvgs := FvgsOf(bars, threshold);
            r.recentFvg == (if fvgs != [] && fvgs[|fvgs| - 1].timestamp >= RecentThreshold(bars)
                            then Some(fvgs[|fvgs| - 1]) else None)
  {
    var fvgs := FvgsOf(bars, threshold);
    var since := RecentThreshold(bars);
    var r := AnalyzeSymbol(symbol, Some(bars), threshold);
    assert r.recentFvg == LastSince(fvgs, FvgStamp, since);
    LastSinceMeaning(fvgs, FvgStamp, since);
    if fvgs != [] && fvgs[|fvgs| - 1].timestamp < since {
      FvgsAscending(bars, threshold);
      assert forall i :: 0 <= i < |fvgs| ==> FvgStamp(fvgs[i]) < since by {
        forall i | 0 <= i < |fvgs| ensures FvgStamp(fvgs[i]) < since {
          if i < |fvgs| - 1 {
            assert fvgs[i].timestamp < fvgs[|fvgs| - 1].timestamp;
          }
        }
      }
    }
  }

  /**
   * The recent inversion is the last one listed whose timestamp lies inside
   * the recency window, and there is none when every inversion is older.
   */
  lemma AnalyzeRecentInversion(symbol: string, bars: seq<Bar>, threshold: real)
    requires ValidSeries(bars) && bars != []
    ensures var r := AnalyzeSymbol(symbol, Some(bars), threshold);
            var ifvgs, since := r.ifvgs, RecentThreshold(bars);
            && (r.recentIFvg.None? <==> forall k :: 0 <= k < |ifvgs| ==> ifvgs[k].timestamp < since)
            && (r.recentIFvg.Some? ==>
                  exists k :: 0 <= k < |ifvgs| && ifvgs[k] == r.recentIFvg.value && ifvgs[k].timestamp >= since &&
                              forall l :: k < l < |ifvgs| ==> ifvgs[l].timestamp < since)
  {
    var r := AnalyzeSymbol(symbol, Some(bars), threshold);
    assert r.recentIFvg == LastSince(r.ifvgs, IFvgStamp, RecentThreshold(bars));
    LastSinceMeaning(r.ifvgs, IFvgStamp, RecentThreshold(bars));
  }
}
