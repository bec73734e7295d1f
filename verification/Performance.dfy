/** Per-wallet performance of copied trades, and the automatic stop. */
module Performance {
  import opened Types
  import opened Collections
  import opened Drawdown

  /** The figures of a wallet's record. */
  datatype Record = Record(
    totalTrades: nat,
    winningTrades: nat,
    losingTrades: nat,
    winRate: real,
    avgTradePnlUsd: real,
    water: Water)

  const NEW_RECORD := Record(0, 0, 0, 0.0, 0.0, DRY)

  /** In percent. */
  function WinRate(wins: nat, trades: nat): real
    requires trades >= 1
  {
    wins as real / trades as real * 100.0
  }

  function WithTrade(r: Record, pnl: real): Record {
    var trades := r.totalTrades + 1;
    var wins := r.winningTrades + (if pnl > 0.0 then 1 else 0);
    var losses := r.losingTrades + (if pnl < 0.0 then 1 else 0);
    var total := r.water.total + pnl;
    Record(trades, wins, losses, WinRate(wins, trades), total / trades as real,
           Observe(r.water, total))
  }

  predicate ShouldAutoStop(r: Record, config: AutoStopConfig) {
    && r.totalTrades >= config.minTradesBeforeStop
    && (r.winRate < config.minWinRatePercent || r.water.worst > config.maxDrawdownUsd)
  }

  class WalletPerformance {
    var totalTrades: nat
    var winningTrades: nat
    var losingTrades: nat
    var totalPnlUsd: real
    var winRate: real
    var avgTradePnlUsd: real
    var maxDrawdownUsd: real
    var currentDrawdownUsd: real
    var peakEquityUsd: real

    ghost function View(): Record
      reads this
    {
      Record(totalTrades, winningTrades, losingTrades, winRate, avgTradePnlUsd,
             Water(totalPnlUsd, peakEquityUsd, currentDrawdownUsd, maxDrawdownUsd))
    }

    constructor ()
      ensures View() == NEW_RECORD
    {
      totalTrades, winningTrades, losingTrades := 0, 0, 0;
      totalPnlUsd, winRate, avgTradePnlUsd := 0.0, 0.0, 0.0;
      maxDrawdownUsd, currentDrawdownUsd, peakEquityUsd := 0.0, 0.0, 0.0;
    }

    method RecordTrade(pnlUsd: real)
      modifies this
      ensures View() == WithTrade(old(View()), pnlUsd)
    {
      totalTrades := totalTrades + 1;
      totalPnlUsd := totalPnlUsd + pnlUsd;
      if pnlUsd > 0.0 {
        winningTrades := winningTrades + 1;
      } else if pnlUsd < 0.0 {
        losingTrades := losingTrades + 1;
      }
      winRate := if totalTrades > 0 then winningTrades as real / totalTrades as real * 100.0 else 0.0;
      avgTradePnlUsd := totalPnlUsd / totalTrades as real;
      if totalPnlUsd > peakEquityUsd {
        peakEquityUsd := totalPnlUsd;
        currentDrawdownUsd := 0.0;
      } else {
        currentDrawdownUsd := peakEquityUsd - totalPnlUsd;
        if currentDrawdownUsd > maxDrawdownUsd {
          maxDrawdownUsd := currentDrawdownUsd;
        }
      }
    }
  }

  datatype AutoStopReason =
    | LowWinRate(current: real, threshold: real)
    | MaxDrawdown(current: real, threshold: real)
    | Unknown

  /** The tracker's contents; the times at which wallets were stopped are dropped. */
  datatype Tracker = Tracker(records: map<string, Record>, config: AutoStopConfig, stopped: set<string>)

  function TrackerWithTrade(t: Tracker, wallet: string, pnl: real): Tracker {
    t.(records := t.records[wallet := WithTrade(if wallet in t.records then t.records[wallet] else NEW_RECORD, pnl)])
  }

  /** Creating a missing record first makes no difference. */
  lemma TradeAfterCreate(t: Tracker, found: Tracker, wallet: string, pnl: real)
    requires found == t.(records := t.records[wallet := if wallet in t.records then t.records[wallet] else NEW_RECORD])
    ensures found.(records := found.records[wallet := WithTrade(found.records[wallet], pnl)])
         == TrackerWithTrade(t, wallet, pnl)
  {
  }

  function CheckAutoStop(t: Tracker, wallet: string): Option<AutoStopReason> {
    if !t.config.enabled || wallet !in t.records then None
    else
      var r := t.records[wallet];
      if !ShouldAutoStop(r, t.config) then None
      else if r.winRate < t.config.minWinRatePercent then Some(LowWinRate(r.winRate, t.config.minWinRatePercent))
      else if r.water.worst > t.config.maxDrawdownUsd then
        Some(MaxDrawdown(r.water.worst, t.config.maxDrawdownUsd))
      else Some(Unknown)
  }

  class PerformanceTracker {
    var performances: map<string, WalletPerformance>
    var autoStopConfig: AutoStopConfig
    var stoppedWallets: set<string>

    /** No two wallets share a record. */
    ghost predicate Valid()
      reads this
    {
      forall v, w :: v in performances && w in performances && v != w ==> performances[v] != performances[w]
    }

    ghost function View(): Tracker
      reads this, performances.Values
    {
      Tracker(map w | w in performances :: performances[w].View(), autoStopConfig, stoppedWallets)
    }

    constructor (config: AutoStopConfig)
      ensures Valid() && View() == Tracker(map[], config, {}) && performances == map[]
    {
      performances, autoStopConfig, stoppedWallets := map[], config, {};
    }

    method RecordTrade(wallet: string, pnlUsd: real)
      requires Valid()
      modifies this, performances.Values
      ensures Valid() && View() == TrackerWithTrade(old(View()), wallet, pnlUsd)
      ensures forall p :: p in performances.Values ==> p in old(performances.Values) || fresh(p)
    {
      ghost var before := View();
      var perf := GetOrCreate(wallet);
      ghost var found := View();
      assert found.records[wallet] == perf.View();
      label got:
      perf.RecordTrade(pnlUsd);
      OneRecordChanged@got(wallet);
      TradeAfterCreate(before, found, wallet, pnlUsd);
    }

    /** Updating one wallet's record leaves every other wallet's alone. */
    twostate lemma OneRecordChanged(wallet: string)
      requires old(Valid()) && wallet in performances
      requires unchanged(this)
      requires forall p :: p in performances.Values && p != performances[wallet] ==> unchanged(p)
      ensures View() == old(View()).(records := old(View()).records[wallet := performances[wallet].View()])
    {
      forall w | w in performances && w != wallet ensures View().records[w] == old(View()).records[w] {
        assert performances[w] != performances[wallet] && performances[w] in performances.Values;
      }
    }

    method GetOrCreate(wallet: string) returns (perf: WalletPerformance)
      requires Valid()
      modifies this`performances
      ensures Valid() && wallet in performances && performances[wallet] == perf
      ensures perf in old(performances.Values) || fresh(perf)
      ensures forall p :: p in performances.Values ==> p in old(performances.Values) || fresh(p)
      ensures View() == old(View()).(records :=
        old(View()).records[wallet := if wallet in old(performances) then old(View()).records[wallet] else NEW_RECORD])
    {
      if wallet !in performances {
        var created := new WalletPerformance();
        assert forall w :: w in performances ==> performances[w] in performances.Values;
        performances := performances[wallet := created];
      }
      perf := performances[wallet];
      assert perf in performances.Values;
    }

    /** `check_auto_stop`, which reads the record and never `stoppedWallets`. */
    method Check(wallet: string) returns (reason: Option<AutoStopReason>)
      requires Valid()
      ensures reason == CheckAutoStop(View(), wallet)
      ensures reason.Some? <==>
                && autoStopConfig.enabled && wallet in performances
                && performances[wallet].totalTrades >= autoStopConfig.minTradesBeforeStop
                && (performances[wallet].winRate < autoStopConfig.minWinRatePercent
                    || performances[wallet].maxDrawdownUsd > autoStopConfig.maxDrawdownUsd)
      ensures reason != Some(Unknown)
    {
      if !autoStopConfig.enabled || wallet !in performances {
        return None;
      }
      var perf := performances[wallet];
      assert View().records[wallet] == perf.View();
      if perf.totalTrades < autoStopConfig.minTradesBeforeStop {
        return None;
      }
      if perf.winRate < autoStopConfig.minWinRatePercent {
        return Some(LowWinRate(perf.winRate, autoStopConfig.minWinRatePercent));
      }
      if perf.maxDrawdownUsd > autoStopConfig.maxDrawdownUsd {
        return Some(MaxDrawdown(perf.maxDrawdownUsd, autoStopConfig.maxDrawdownUsd));
      }
      return None;
    }

    method MarkStopped(wallet: string)
      modifies this`stoppedWallets
      ensures View() == old(View()).(stopped := old(View()).stopped + {wallet})
    {
      stoppedWallets := stoppedWallets + {wallet};
    }

    method ResumeWallet(wallet: string) returns (wasStopped: bool)
      modifies this`stoppedWallets
      ensures wasStopped <==> wallet in old(stoppedWallets)
      ensures View() == old(View()).(stopped := old(View()).stopped - {wallet})
    {
      wasStopped := wallet in stoppedWallets;
      stoppedWallets := stoppedWallets - {wallet};
    }

    method SetAutoStopConfig(config: AutoStopConfig)
      modifies this`autoStopConfig
      ensures View() == old(View()).(config := config)
    {
      autoStopConfig := config;
    }
  }

  // ---------------------------------------------------------------------------------------------
  // The record of a whole history
  // ---------------------------------------------------------------------------------------------

  function RecordOf(h: seq<real>): Record {
    if h == [] then NEW_RECORD else WithTrade(RecordOf(h[..|h| - 1]), h[|h| - 1])
  }

  /** After any history of outcomes, the record kept trade by trade is the one defined over that history. */
  lemma {:induction false} RecordIsExact(h: seq<real>)
    ensures var r := RecordOf(h);
            && r.totalTrades == |h|
            && r.winningTrades == Count(h, x => x > 0.0)
            && r.losingTrades == Count(h, x => x < 0.0)
            && (h != [] ==>
                && r.winRate == WinRate(Count(h, x => x > 0.0), |h|)
                && r.avgTradePnlUsd == Total(h) / |h| as real)
            && r.water.total == Total(h)
            && IsPeak(EquityCurve(h), r.water.peak)
            && IsWorstDrop(EquityCurve(h), r.water.worst)
            && r.water.current == r.water.peak - Total(h)
  {
    RecordWater(h);
    TrackIsExact(h);
    RecordCounts(h);
    if h != [] { RecordAverages(h); }
  }

  lemma {:induction false} RecordCounts(h: seq<real>)
    ensures RecordOf(h).totalTrades == |h|
    ensures RecordOf(h).winningTrades == Count(h, x => x > 0.0)
    ensures RecordOf(h).losingTrades == Count(h, x => x < 0.0)
  {
    if h != [] {
      RecordCounts(h[..|h| - 1]);
    }
  }

  lemma {:induction false} RecordAverages(h: seq<real>)
    requires h != []
    ensures var r := RecordOf(h);
            && r.totalTrades >= 1
            && r.winRate == WinRate(r.winningTrades, r.totalTrades)
            && r.avgTradePnlUsd == r.water.total / r.totalTrades as real
  {
  }

  lemma {:induction false} RecordWater(h: seq<real>)
    ensures RecordOf(h).water == Track(h)
  {
    if h != [] {
      RecordWater(h[..|h| - 1]);
    }
  }

  // ---------------------------------------------------------------------------------------------
  // When a wallet is stopped, in terms of its history
  // ---------------------------------------------------------------------------------------------

  /** The win rate is below the limit, multiplied out; with no trades the rate counts as zero. */
  predicate WinsTooSeldom(h: seq<real>, config: AutoStopConfig) {
    if h == [] then config.minWinRatePercent > 0.0
    else 100.0 * Count(h, x => x > 0.0) as real < config.minWinRatePercent * |h| as real
  }

  /** Wins as a percentage of the trades, multiplied out. */
  predicate IsWinRate(rate: real, h: seq<real>) {
    rate * |h| as real == 100.0 * Count(h, x => x > 0.0) as real
  }

  /** Some fall of the profit, from any moment to any later one, exceeds the limit. */
  ghost predicate FallsTooFar(h: seq<real>, config: AutoStopConfig) {
    exists i, j :: 0 <= i <= j <= |h| && EquityCurve(h)[i] - EquityCurve(h)[j] > config.maxDrawdownUsd
  }

  /** The reason given for a stop: the win rate first, with its value, else the worst fall, with its value. */
  ghost predicate Explains(reason: AutoStopReason, h: seq<real>, config: AutoStopConfig) {
    match reason
    case LowWinRate(current, threshold) =>
      && WinsTooSeldom(h, config) && threshold == config.minWinRatePercent
      && IsWinRate(current, h)
    case MaxDrawdown(current, threshold) =>
      && !WinsTooSeldom(h, config) && threshold == config.maxDrawdownUsd
      && IsWorstDrop(EquityCurve(h), current)
    case Unknown => false
  }

  /**
   * A wallet with a record of these outcomes is stopped exactly if the stop is enabled, there are enough of them, and
   * it wins too seldom or has fallen too far; the reason says which. Without a record it never is.
   */
  lemma {:induction false} StopFiresExactly(t: Tracker, wallet: string, h: seq<real>)
    requires wallet in t.records ==> t.records[wallet] == RecordOf(h)
    ensures CheckAutoStop(t, wallet).Some? <==>
              && t.config.enabled && wallet in t.records && |h| >= t.config.minTradesBeforeStop
              && (WinsTooSeldom(h, t.config) || FallsTooFar(h, t.config))
    ensures CheckAutoStop(t, wallet).Some? ==> Explains(CheckAutoStop(t, wallet).value, h, t.config)
  {
    if wallet in t.records {
      var r := RecordOf(h);
      RecordIsExact(h);
      if h != [] { RecordAverages(h); }
      StopReason(t, wallet);
      ReasonExplains(r.winRate, r.winningTrades, r.water.worst, h, t.config);
    }
  }

  /** Both tests and both reasons, for a record's figures. */
  lemma {:induction false} ReasonExplains(rate: real, wins: nat, worst: real, h: seq<real>, config: AutoStopConfig)
    requires wins == Count(h, x => x > 0.0)
    requires rate == if h == [] then 0.0 else WinRate(wins, |h|)
    requires IsWorstDrop(EquityCurve(h), worst)
    ensures rate < config.minWinRatePercent <==> WinsTooSeldom(h, config)
    ensures worst > config.maxDrawdownUsd <==> FallsTooFar(h, config)
    ensures rate < config.minWinRatePercent ==> Explains(LowWinRate(rate, config.minWinRatePercent), h, config)
    ensures rate >= config.minWinRatePercent ==> Explains(MaxDrawdown(worst, config.maxDrawdownUsd), h, config)
  {
    RateBelowExactly(rate, wins, h, config);
    WorstBeyondExactly(h, worst, config);
  }

  lemma StopReason(t: Tracker, wallet: string)
    requires wallet in t.records
    ensures var r := t.records[wallet];
            var seldom, far := r.winRate < t.config.minWinRatePercent, r.water.worst > t.config.maxDrawdownUsd;
            CheckAutoStop(t, wallet)
            == if !t.config.enabled || r.totalTrades < t.config.minTradesBeforeStop || (!seldom && !far) then None
               else if seldom then Some(LowWinRate(r.winRate, t.config.minWinRatePercent))
               else Some(MaxDrawdown(r.water.worst, t.config.maxDrawdownUsd))
  {
  }

  lemma {:induction false} RateBelowExactly(rate: real, wins: nat, h: seq<real>, config: AutoStopConfig)
    requires wins == Count(h, x => x > 0.0)
    requires rate == if h == [] then 0.0 else WinRate(wins, |h|)
    ensures rate < config.minWinRatePercent <==> WinsTooSeldom(h, config)
    ensures IsWinRate(rate, h)
  {
    if h != [] {
      RateTimesTrades(wins, |h|, config.minWinRatePercent);
    }
  }

  lemma RateTimesTrades(wins: nat, trades: nat, limit: real)
    requires trades >= 1
    ensures WinRate(wins, trades) * trades as real == 100.0 * wins as real
    ensures WinRate(wins, trades) < limit <==> 100.0 * wins as real < limit * trades as real
  {
    var n, share := trades as real, wins as real / trades as real;
    assert share * n == wins as real;
    assert WinRate(wins, trades) * n == 100.0 * (share * n);
    var gap := limit - WinRate(wins, trades);
    assert gap * n == limit * n - 100.0 * wins as real;
    if gap > 0.0 { assert gap * n > 0.0; } else { assert gap * n <= 0.0; }
  }

  lemma {:induction false} WorstBeyondExactly(h: seq<real>, worst: real, config: AutoStopConfig)
    requires IsWorstDrop(EquityCurve(h), worst)
    ensures worst > config.maxDrawdownUsd <==> FallsTooFar(h, config)
  {
  }
}
