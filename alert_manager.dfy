/**
 * Alert bookkeeping of src/alert_manager.py, class AlertManager: the
 * per-key cooldown that suppresses repeated alerts, the alert history and
 * its statistics. Clock readings (`datetime.now()`) are passed in as
 * seconds; delivery to the console, sound and Telegram is not modelled.
 */
module Alerts {
  import opened FvgDetector

  /** Seconds during which a second alert with the same key is dropped. */
  const AlertCooldown: real := 60.0

  /** How many history entries `get_alert_history` returns by default. */
  const DefaultHistoryLimit: int := 50

  /** The `alert_data` dictionary, one constructor per alert type. */
  datatype AlertData =
    | FvgAlert(symbol: string, timeframe: string, direction: Direction,
               gapSize: real, gapPercentage: real, price: real, timestamp: int)
    | IFvgAlert(symbol: string, timeframe: string, direction: Direction,
                fillPercentage: real, price: real, timestamp: int)
  {
    /** The `type` field. */
    function TypeName(): string {
      if FvgAlert? then "FVG" else "iFVG"
    }
  }

  function DirectionName(d: Direction): string {
    match d
    case Bullish => "Bullish"
    case Bearish => "Bearish"
  }

  /** The cooldown key `symbol_timeframe_type_direction`. */
  function AlertKey(a: AlertData): string {
    a.symbol + "_" + a.timeframe + "_" + a.TypeName() + "_" + DirectionName(a.direction)
  }

  /** One history record; the formatted message is not modelled. */
  datatype HistoryEntry = HistoryEntry(time: real, data: AlertData)

  datatype AlertState = AlertState(lastAlertTime: map<string, real>, history: seq<HistoryEntry>)

  /** A previous alert with this key was sent less than the cooldown ago. */
  predicate CoolingDown(s: AlertState, key: string, now: real) {
    key in s.lastAlertTime && now - s.lastAlertTime[key] < AlertCooldown
  }

  /** send_alert: drop during the cooldown, otherwise stamp the key and record the alert. */
  function Send(s: AlertState, a: AlertData, now: real): (r: AlertState)
    ensures r.history == s.history || r.history == s.history + [HistoryEntry(now, a)]
    ensures AlertKey(a) in r.lastAlertTime
    ensures r.lastAlertTime.Keys == s.lastAlertTime.Keys + {AlertKey(a)}
  {
    var key := AlertKey(a);
    if CoolingDown(s, key, now) then s
    else AlertState(s.lastAlertTime[key := now], s.history + [HistoryEntry(now, a)])
  }

  /** Sends a batch of alerts in order, all at the same clock reading. */
  function SendAll(s: AlertState, alerts: seq<AlertData>, now: real): (r: AlertState)
    ensures |s.history| <= |r.history| <= |s.history| + |alerts|
    ensures r.history[..|s.history|] == s.history
  {
    if alerts == [] then s
    else
      var prev := SendAll(s, alerts[..|alerts| - 1], now);
      var r := Send(prev, alerts[|alerts| - 1], now);
      assert r.history[..|prev.history|] == prev.history;
      assert r.history[..|s.history|] == r.history[..|prev.history|][..|s.history|];
      r
  }

  /** The record in send_fvg_alert: type 'FVG', the gap's fields, priced at detection. */
  function FvgAlertOf(symbol: string, timeframe: string, f: Fvg): (a: AlertData)
    ensures a.TypeName() == "FVG" && a.symbol == symbol && a.timeframe == timeframe
    ensures a.direction == f.direction && a.timestamp == f.timestamp && a.price == f.priceAtDetection
  {
    FvgAlert(symbol, timeframe, f.direction, f.gapSize, f.gapPercentage, f.priceAtDetection, f.timestamp)
  }

  /** The record in send_ifvg_alert: type 'iFVG', the inversion's fields, priced at the fill. */
  function IFvgAlertOf(symbol: string, timeframe: string, x: IFvg): (a: AlertData)
    ensures a.TypeName() == "iFVG" && a.symbol == symbol && a.timeframe == timeframe
    ensures a.direction == x.direction && a.timestamp == x.timestamp && a.price == x.fillPrice
  {
    IFvgAlert(symbol, timeframe, x.direction, x.fillPercentage, x.fillPrice, x.timestamp)
  }

  // ------------------------------------------------------------------------
  // Properties of the cooldown

  /**
   * A sent alert either leaves the state alone (it was cooling down) or
   * appends exactly one record stamped `now` and stamps its key.
   */
  lemma SendOutcome(s: AlertState, a: AlertData, now: real)
    ensures var t := Send(s, a, now);
            (CoolingDown(s, AlertKey(a), now) ==> t == s) &&
            (!CoolingDown(s, AlertKey(a), now) ==>
               t.history == s.history + [HistoryEntry(now, a)] &&
               AlertKey(a) in t.lastAlertTime && t.lastAlertTime[AlertKey(a)] == now &&
               forall k :: k in s.lastAlertTime && k != AlertKey(a) ==>
                 k in t.lastAlertTime && t.lastAlertTime[k] == s.lastAlertTime[k])
  {
  }

  /** A second alert with the same key less than 60 s after a sent one is dropped. */
  lemma RepeatWithinCooldownDropped(s: AlertState, a: AlertData, b: AlertData, t1: real, t2: real)
    requires AlertKey(a) == AlertKey(b) && t1 <= t2 < t1 + AlertCooldown
    requires !CoolingDown(s, AlertKey(a), t1)
    ensures Send(Send(s, a, t1), b, t2) == Send(s, a, t1)
  {
  }

  /** Once 60 s have passed, the same key is recorded again. */
  lemma RepeatAfterCooldownSent(s: AlertState, a: AlertData, b: AlertData, t1: real, t2: real)
    requires AlertKey(a) == AlertKey(b) && t2 >= t1 + AlertCooldown
    requires !CoolingDown(s, AlertKey(a), t1)
    ensures Send(Send(s, a, t1), b, t2).history == s.history + [HistoryEntry(t1, a), HistoryEntry(t2, b)]
  {
  }

  /** An alert never changes whether an alert with another key is cooling down. */
  lemma OtherKeysUnaffected(s: AlertState, a: AlertData, key: string, now: real, later: real)
    requires key != AlertKey(a)
    ensures CoolingDown(Send(s, a, now), key, later) == CoolingDown(s, key, later)
  {
  }

  /** Sending two batches one after the other is sending their concatenation. */
  lemma {:induction false} SendAllConcat(s: AlertState, xs: seq<AlertData>, ys: seq<AlertData>, now: real)
    ensures SendAll(SendAll(s, xs, now), ys, now) == SendAll(s, xs + ys, now)
  {
    if ys != [] {
      var init := ys[..|ys| - 1];
      SendAllConcat(s, xs, init, now);
      assert (xs + ys)[..|xs + ys| - 1] == xs + init;
    } else {
      assert xs + ys == xs;
    }
  }

  /** The history only grows, and only by alerts that were sent. */
  lemma {:induction false} SendAllExtendsHistory(s: AlertState, alerts: seq<AlertData>, now: real)
    ensures var t := SendAll(s, alerts, now);
            |s.history| <= |t.history| <= |s.history| + |alerts| &&
            t.history[..|s.history|] == s.history &&
            forall k :: |s.history| <= k < |t.history| ==> t.history[k].data in alerts && t.history[k].time == now
  {
    if alerts != [] {
      var init := alerts[..|alerts| - 1];
      SendAllExtendsHistory(s, init, now);
      var mid := SendAll(s, init, now);
      var t := SendAll(s, alerts, now);
      assert t == Send(mid, alerts[|alerts| - 1], now);
      assert forall x :: x in init ==> x in alerts;
      if !CoolingDown(mid, AlertKey(alerts[|alerts| - 1]), now) {
        assert t.history == mid.history + [HistoryEntry(now, alerts[|alerts| - 1])];
        assert t.history[..|s.history|] == mid.history[..|s.history|];
      }
    }
  }

  // ------------------------------------------------------------------------
  // The key identifies symbol, timeframe, type and direction

  predicate NoUnderscore(s: string) {
    forall i :: 0 <= i < |s| ==> s[i] != '_'
  }

  /** In `a + "_" + x` with no underscore in `a`, the first underscore is at |a|. */
  lemma FirstUnderscore(a: string, x: string)
    requires NoUnderscore(a)
    ensures (a + "_" + x)[|a|] == '_'
    ensures forall i :: 0 <= i < |a| ==> (a + "_" + x)[i] != '_'
  {
  }

  lemma SplitAtUnderscore(a: string, x: string, b: string, y: string)
    requires NoUnderscore(a) && NoUnderscore(b) && a + "_" + x == b + "_" + y
    ensures a == b && x == y
  {
    FirstUnderscore(a, x);
    FirstUnderscore(b, y);
    assert |a| == |b|;
    var l, r := a + "_" + x, b + "_" + y;
    assert a == l[..|a|] && b == r[..|b|];
    assert x == l[|a| + 1..] && y == r[|b| + 1..];
  }

  /** The key, grouped from the right. */
  lemma KeyGrouping(a: AlertData)
    ensures AlertKey(a) == a.symbol + "_" + (a.timeframe + "_" + (a.TypeName() + "_" + DirectionName(a.direction)))
  {
  }

  lemma TypeAndDirectionNames(a: AlertData, b: AlertData)
    ensures NoUnderscore(a.TypeName())
    ensures a.TypeName() == b.TypeName() ==> a.FvgAlert? == b.FvgAlert?
    ensures DirectionName(a.direction) == DirectionName(b.direction) ==> a.direction == b.direction
  {
    if a.FvgAlert? != b.FvgAlert? {
      assert |a.TypeName()| != |b.TypeName()|;
    }
    if a.direction != b.direction {
      assert DirectionName(a.direction)[2] != DirectionName(b.direction)[2];
    }
  }

  /**
   * For an FVG and an iFVG alert on the same symbol and timeframe the keys
   * differ, so one never suppresses the other.
   */
  lemma FvgAndIFvgKeysDiffer(a: AlertData, b: AlertData)
    requires a.FvgAlert? && b.IFvgAlert? && a.symbol == b.symbol && a.timeframe == b.timeframe
    ensures AlertKey(a) != AlertKey(b)
  {
    var p := a.symbol + "_" + a.timeframe + "_";
    assert AlertKey(a) == p + ("FVG" + "_" + DirectionName(a.direction));
    assert AlertKey(b) == p + ("iFVG" + "_" + DirectionName(b.direction));
    assert AlertKey(a)[|p|] == 'F' && AlertKey(b)[|p|] == 'i';
  }

  /**
   * When symbols and timeframes contain no underscore (validated symbols
   * never do), two alerts share a cooldown key exactly when they agree on
   * symbol, timeframe, type and direction.
   */
  lemma KeyIdentifiesAlert(a: AlertData, b: AlertData)
    requires NoUnderscore(a.symbol) && NoUnderscore(a.timeframe)
    requires NoUnderscore(b.symbol) && NoUnderscore(b.timeframe)
    ensures AlertKey(a) == AlertKey(b) <==>
            a.symbol == b.symbol && a.timeframe == b.timeframe &&
            a.FvgAlert? == b.FvgAlert? && a.direction == b.direction
  {
    if AlertKey(a) == AlertKey(b) {
      KeyGrouping(a);
      KeyGrouping(b);
      TypeAndDirectionNames(a, b);
      TypeAndDirectionNames(b, a);
      var qa := a.TypeName() + "_" + DirectionName(a.direction);
      var qb := b.TypeName() + "_" + DirectionName(b.direction);
      SplitAtUnderscore(a.symbol, a.timeframe + "_" + qa, b.symbol, b.timeframe + "_" + qb);
      SplitAtUnderscore(a.timeframe, qa, b.timeframe, qb);
      SplitAtUnderscore(a.TypeName(), DirectionName(a.direction), b.TypeName(), DirectionName(b.direction));
    }
  }

  // ------------------------------------------------------------------------
  // History queries

  /** `history[-limit:]` with Python's slicing rules. */
  function LastEntries(history: seq<HistoryEntry>, limit: int): (r: seq<HistoryEntry>)
    ensures |r| <= |history| && r == history[|history| - |r|..]
    ensures limit > 0 ==> |r| == if limit < |history| then limit else |history|
    ensures limit == 0 ==> r == history
    ensures limit < 0 ==> |r| == if |history| + limit > 0 then |history| + limit else 0
  {
    var start := -limit;
    var from := if start < 0 then (if start + |history| < 0 then 0 else start + |history|)
                else (if start > |history| then |history| else start);
    history[from..]
  }

  datatype AlertStats = AlertStats(totalAlerts: nat, fvgAlerts: nat, ifvgAlerts: nat,
                                   bullishAlerts: nat, bearishAlerts: nat)

  function CountFvg(h: seq<HistoryEntry>, fvg: bool): nat {
    if h == [] then 0
    else CountFvg(h[..|h| - 1], fvg) + (if h[|h| - 1].data.FvgAlert? == fvg then 1 else 0)
  }

  function CountDirection(h: seq<HistoryEntry>, d: Direction): nat {
    if h == [] then 0
    else CountDirection(h[..|h| - 1], d) + (if h[|h| - 1].data.direction == d then 1 else 0)
  }

  lemma {:induction false} CountsPartition(h: seq<HistoryEntry>)
    ensures CountFvg(h, true) + CountFvg(h, false) == |h|
    ensures CountDirection(h, Bullish) + CountDirection(h, Bearish) == |h|
  {
    if h != [] {
      CountsPartition(h[..|h| - 1]);
    }
  }

  function AlertStatsOf(h: seq<HistoryEntry>): (r: AlertStats)
    ensures r.totalAlerts == |h|
    ensures r.fvgAlerts + r.ifvgAlerts == r.totalAlerts
    ensures r.bullishAlerts + r.bearishAlerts == r.totalAlerts
    ensures h == [] ==> r == AlertStats(0, 0, 0, 0, 0)
  {
    CountsPartition(h);
    if h == [] then AlertStats(0, 0, 0, 0, 0)
    else AlertStats(|h|, CountFvg(h, true), CountFvg(h, false),
                    CountDirection(h, Bullish), CountDirection(h, Bearish))
  }

  /** Sending one alert raises exactly one type count and one direction count. */
  lemma StatsAfterSend(s: AlertState, a: AlertData, now: real)
    requires !CoolingDown(s, AlertKey(a), now)
    ensures var before, after := AlertStatsOf(s.history), AlertStatsOf(Send(s, a, now).history);
            after.totalAlerts == before.totalAlerts + 1 &&
            after.fvgAlerts == before.fvgAlerts + (if a.FvgAlert? then 1 else 0) &&
            after.ifvgAlerts == before.ifvgAlerts + (if a.FvgAlert? then 0 else 1) &&
            after.bullishAlerts == before.bullishAlerts + (if a.direction == Bullish then 1 else 0) &&
            after.bearishAlerts == before.bearishAlerts + (if a.direction == Bearish then 1 else 0)
  {
    var h := s.history + [HistoryEntry(now, a)];
    assert h[..|h| - 1] == s.history;
  }

  /** Clearing the history forgets the records but not the cooldown clock. */
  lemma CooldownSurvivesClear(s: AlertState, a: AlertData, t1: real, t2: real)
    requires t1 <= t2 < t1 + AlertCooldown && !CoolingDown(s, AlertKey(a), t1)
    ensures var cleared := AlertState(Send(s, a, t1).lastAlertTime, []);
            Send(cleared, a, t2) == cleared
  {
  }

  // ------------------------------------------------------------------------
  // The object

  class AlertManager {
    var lastAlertTime: map<string, real>
    var history: seq<HistoryEntry>

    constructor()
      ensures lastAlertTime == map[] && history == []
    {
      lastAlertTime := map[];
      history := [];
    }

    function State(): AlertState
      reads this
    {
      AlertState(lastAlertTime, history)
    }

    /** send_alert. */
    method SendAlert(alert: AlertData, now: real)
      modifies this
      ensures State() == Send(old(State()), alert, now)
    {
      var key := AlertKey(alert);
      if key in lastAlertTime && now - lastAlertTime[key] < AlertCooldown {
        return;
      }
      lastAlertTime := lastAlertTime[key := now];
      history := history + [HistoryEntry(now, alert)];
    }

    /** send_fvg_alert. */
    method SendFvgAlert(symbol: string, timeframe: string, f: Fvg, now: real)
      modifies this
      ensures State() == Send(old(State()), FvgAlertOf(symbol, timeframe, f), now)
    {
      SendAlert(FvgAlert(symbol, timeframe, f.direction, f.gapSize, f.gapPercentage,
                         f.priceAtDetection, f.timestamp), now);
    }

    /** send_ifvg_alert. */
    method SendIFvgAlert(symbol: string, timeframe: string, x: IFvg, now: real)
      modifies this
      ensures State() == Send(old(State()), IFvgAlertOf(symbol, timeframe, x), now)
    {
      SendAlert(IFvgAlert(symbol, timeframe, x.direction, x.fillPercentage, x.fillPrice, x.timestamp), now);
    }

    /** get_alert_history. */
    function GetAlertHistory(limit: int := DefaultHistoryLimit): (r: seq<HistoryEntry>)
      reads this
      ensures r == LastEntries(history, limit)
    {
      LastEntries(history, limit)
    }

    /** clear_alert_history. */
    method ClearAlertHistory()
      modifies this
      ensures history == [] && lastAlertTime == old(lastAlertTime)
    {
      history := [];
    }

    /** get_alert_stats. */
    function GetAlertStats(): (r: AlertStats)
      reads this
      ensures r == AlertStatsOf(history)
    {
      AlertStatsOf(history)
    }
  }
}
