/**
 * The engine's shared state and its critical sections. Each is proved to be the machine's step of the same name, taken
 * from any state: what the fill task carries in between is passed in and out as a phase.
 */
module EngineState {
  import opened Types
  import opened Rounding
  import opened Signals
  import opened Execution
  import opened Performance
  import opened EngineModel
  import Dedupe
  import EngineOrders
  import Reconciliation

  class EngineState {
    var settings: RuntimeSettings
    var dailyNotionalUsd: real
    var openPositionsCount: U32
    var marketExposureUsd: map<string, real>
    var currentTradingDay: int
    const dedupeCache: Dedupe.DedupeCache
    const performanceTracker: PerformanceTracker

    ghost predicate Valid()
      reads this, dedupeCache, performanceTracker
    {
      dedupeCache.Valid() && performanceTracker.Valid()
    }

    ghost function View(): Engine
      reads this, dedupeCache, performanceTracker, performanceTracker.performances.Values
    {
      Engine(settings, dailyNotionalUsd, openPositionsCount, marketExposureUsd, dedupeCache.queue,
             performanceTracker.View(), currentTradingDay)
    }

    /** The machine in this state, with the fill task in the given phase. */
    ghost function At(phase: Phase): Machine
      reads this, dedupeCache, performanceTracker, performanceTracker.performances.Values
    {
      Machine(View(), phase)
    }

    constructor (settings: RuntimeSettings, dedupeSize: nat, today: int)
      ensures Valid() && dedupeCache.maxSize == dedupeSize
      ensures View() == Engine(settings, 0.0, 0, map[], [], Tracker(map[], settings.autoStopConfig, {}), today)
    {
      this.settings, dailyNotionalUsd, openPositionsCount := settings, 0.0, 0;
      marketExposureUsd, currentTradingDay := map[], today;
      dedupeCache := new Dedupe.DedupeCache(dedupeSize);
      performanceTracker := new PerformanceTracker(settings.autoStopConfig);
    }

    // -------------------------------------------------------------------------------------------
    // The fill task
    // -------------------------------------------------------------------------------------------

    /** The first critical section of `process_fill_event`. */
    method TakeSnapshot(config: EngineConfig, fill: SourceFillEvent) returns (snap: Snapshot)
      requires Valid() && dedupeCache.maxSize == config.dedupeSize
      modifies dedupeCache
      ensures Valid() && At(Snapshotted(fill, snap)) == Next(config, old(At(Idle)), EngineModel.TakeSnapshot(fill))
    {
      var isNew := dedupeCache.Add(fill.executionId);
      assert performanceTracker.View() == old(performanceTracker.View());
      var reason := performanceTracker.Check(fill.sourceWallet);
      var exposure := if fill.marketSlug in marketExposureUsd then marketExposureUsd[fill.marketSlug] else 0.0;
      snap := Snapshot(settings, exposure, dailyNotionalUsd, openPositionsCount, !isNew, reason);
      assert (View(), snap) == Snap(old(View()), config, fill);
    }

    /** The second critical section of `process_fill_event`. */
    method Commit(ghost config: EngineConfig, carried: Phase)
      requires Valid() && carried.Executed?
      modifies this, performanceTracker, performanceTracker.performances.Values
      ensures Valid() && At(Idle) == Next(config, old(At(carried)), EngineModel.Commit)
      ensures View() == CommitFill(old(View()), carried.signal, EstimatedPnl(carried.signal, carried.result))
      ensures forall p :: p in performanceTracker.performances.Values ==>
                p in old(performanceTracker.performances.Values) || fresh(p)
    {
      var signal := carried.signal;
      ghost var before := View();
      dailyNotionalUsd := dailyNotionalUsd + signal.copyNotionalUsd;
      assert performanceTracker.View() == before.tracker;
      performanceTracker.RecordTrade(signal.sourceWallet, EstimatedPnl(signal, carried.result));
      BookCopy(signal);
      assert View() == CommitFill(before, signal, EstimatedPnl(signal, carried.result));
    }

    /** The market's exposure and the position count after a copied trade. */
    method BookCopy(signal: CopySignal)
      modifies this`marketExposureUsd, this`openPositionsCount
      ensures openPositionsCount == PositionsAfter(old(openPositionsCount), signal.side)
      ensures var found := if signal.marketSlug in old(marketExposureUsd) then old(marketExposureUsd)[signal.marketSlug]
                           else 0.0;
              marketExposureUsd == old(marketExposureUsd)[signal.marketSlug :=
                                     ExposureAfter(found, signal.side, signal.copyNotionalUsd)]
    {
      var exposure := if signal.marketSlug in marketExposureUsd then marketExposureUsd[signal.marketSlug] else 0.0;
      match signal.side {
        case Buy =>
          marketExposureUsd := marketExposureUsd[signal.marketSlug := exposure + signal.copyNotionalUsd];
          openPositionsCount := SaturatingIncrement(openPositionsCount);
        case Sell =>
          marketExposureUsd := marketExposureUsd[signal.marketSlug := Max(exposure - signal.copyNotionalUsd, 0.0)];
          openPositionsCount := SaturatingDecrement(openPositionsCount);
      }
    }

    /** The critical section that remembers an automatic stop. */
    method MarkStopped(ghost config: EngineConfig, carried: Phase)
      requires Valid() && carried.Stopping?
      modifies performanceTracker`stoppedWallets
      ensures Valid() && At(Idle) == Next(config, old(At(carried)), EngineModel.MarkStopped)
      ensures View() == WithStopped(old(View()), carried.fill.sourceWallet)
    {
      performanceTracker.MarkStopped(carried.fill.sourceWallet);
    }

    /** `process_fill_event` when nothing interrupts it; the orders it sent to the venue come with it. */
    method ProcessFillEvent(config: EngineConfig, fill: SourceFillEvent, replies: seq<VenueReply>)
      returns (submitted: seq<real>)
      requires Valid() && dedupeCache.maxSize == config.dedupeSize
      modifies this, dedupeCache, performanceTracker, performanceTracker.performances.Values
      ensures Valid() && View() == Processed(config, old(View()), fill, replies)
    {
      var snap := TakeSnapshot(config, fill);
      submitted := Settle(config, fill, snap, replies);
    }

    /** What follows the snapshot. */
    method Settle(config: EngineConfig, fill: SourceFillEvent, snap: Snapshot, replies: seq<VenueReply>)
      returns (submitted: seq<real>)
      requires Valid()
      modifies this, performanceTracker, performanceTracker.performances.Values
      ensures Valid() && View() == Settled(config, old(View()), fill, snap, replies)
    {
      submitted := [];
      match DecideFill(config, fill, snap)
      case Ignore =>
      case StopWallet =>
        MarkStopped(config, Stopping(fill));
      case Order(signal, intent) =>
        var result;
        result, submitted := ExecuteIntent(snap.settings.mode, config.hasExecutionApi, config.allowLiveSimulation,
                                           snap.settings, intent, replies);
        if result.success {
          Commit(config, Executed(fill, snap, signal, result));
        }
    }

    method MaybeResetDailyNotional(ghost config: EngineConfig, today: int)
      requires Valid()
      modifies this`dailyNotionalUsd, this`currentTradingDay
      ensures Valid() && At(Idle) == Next(config, old(At(Idle)), ResetDaily(today))
    {
      if today != currentTradingDay {
        dailyNotionalUsd := 0.0;
        currentTradingDay := today;
      }
    }

    method ApplyUserFill(ghost config: EngineConfig, market: string, side: TradeSide, size: real, price: real)
      requires Valid()
      modifies this`marketExposureUsd
      ensures Valid() && At(Idle) == Next(config, old(At(Idle)), UserFill(market, side, size, price))
    {
      var exposure := if market in marketExposureUsd then marketExposureUsd[market] else 0.0;
      match side {
        case Buy => marketExposureUsd := marketExposureUsd[market := exposure + size * price];
        case Sell => marketExposureUsd := marketExposureUsd[market := Max(exposure - size * price, 0.0)];
      }
    }

    // -------------------------------------------------------------------------------------------
    // The other tasks
    // -------------------------------------------------------------------------------------------

    method SetCaps(params: CapsParams) returns (ok: bool)
      requires Valid()
      modifies this`settings
      ensures Valid() && StepsTo(old(View()), View(), EngineModel.SetCaps(params))
      ensures ok <==> FirstBad(params) == 4
    {
      ok := WriteCaps(params);
    }

    /** Writes field by field; a bad value leaves the fields before it written. */
    method WriteCaps(params: CapsParams) returns (ok: bool)
      modifies this`settings
      ensures settings == old(settings).(caps := CapsAfter(old(settings).caps, params).0)
      ensures ok == CapsAfter(old(settings).caps, params).1
    {
      if params.maxCopyNotionalPerTrade.Some? {
        if params.maxCopyNotionalPerTrade.value <= 0.0 {
          return false;
        }
        var caps := settings.caps.(maxCopyNotionalPerTrade := params.maxCopyNotionalPerTrade.value);
        settings := settings.(caps := caps);
      }
      if params.maxMarketExposureUsd.Some? {
        if params.maxMarketExposureUsd.value <= 0.0 {
          return false;
        }
        settings := settings.(caps := settings.caps.(maxMarketExposureUsd := params.maxMarketExposureUsd.value));
      }
      if params.maxDailyNotionalUsd.Some? {
        if params.maxDailyNotionalUsd.value <= 0.0 {
          return false;
        }
        settings := settings.(caps := settings.caps.(maxDailyNotionalUsd := params.maxDailyNotionalUsd.value));
      }
      if params.maxOpenPositions.Some? {
        if params.maxOpenPositions.value == 0 {
          return false;
        }
        settings := settings.(caps := settings.caps.(maxOpenPositions := params.maxOpenPositions.value));
      }
      return true;
    }

    method SetMode(mode: EngineMode)
      requires Valid()
      modifies this`settings
      ensures Valid() && StepsTo(old(View()), View(), EngineModel.SetMode(mode))
    {
      settings := settings.(mode := mode);
    }

    method SetRiskProfile(profile: RiskProfile)
      requires Valid()
      modifies this`settings
      ensures Valid() && StepsTo(old(View()), View(), EngineModel.SetRiskProfile(profile))
    {
      settings := settings.(riskProfile := profile);
    }

    method SetMultiplier(multiplier: real) returns (ok: bool)
      requires Valid()
      modifies this`settings
      ensures Valid() && StepsTo(old(View()), View(), EngineModel.SetMultiplier(multiplier))
      ensures ok <==> multiplier > 0.0
    {
      if multiplier <= 0.0 {
        return false;
      }
      settings := settings.(multiplier := multiplier);
      return true;
    }

    method SetFollowerEquity(equity: real) returns (ok: bool)
      requires Valid()
      modifies this`settings
      ensures Valid() && StepsTo(old(View()), View(), EngineModel.SetFollowerEquity(equity))
      ensures ok <==> equity > 0.0
    {
      if equity <= 0.0 {
        return false;
      }
      settings := settings.(followerEquityUsd := equity);
      return true;
    }

    method SetCopySells(copySells: bool)
      requires Valid()
      modifies this`settings
      ensures Valid() && StepsTo(old(View()), View(), EngineModel.SetCopySells(copySells))
    {
      settings := settings.(copySells := copySells);
    }

    method PauseTrading()
      requires Valid()
      modifies this`settings
      ensures Valid() && StepsTo(old(View()), View(), EngineModel.PauseTrading)
    {
      settings := settings.(paused := true);
    }

    method ResumeTrading()
      requires Valid()
      modifies this`settings
      ensures Valid() && StepsTo(old(View()), View(), EngineModel.ResumeTrading)
    {
      settings := settings.(paused := false);
    }

    method PanicClose()
      requires Valid()
      modifies this`settings
      ensures Valid() && StepsTo(old(View()), View(), EngineModel.PanicClose)
    {
      settings := settings.(paused := true);
    }

    /** The reconciliation loop's pause, when it is configured to pause and a finding is critical. */
    method PauseOnCritical()
      requires Valid()
      modifies this`settings
      ensures Valid() && StepsTo(old(View()), View(), EngineModel.CriticalPause)
    {
      settings := settings.(paused := true);
    }

    /** The auto-correct step: the map is cleared and refilled in list order, and the count truncated to 32 bits. */
    method CorrectPositions(positions: seq<Reconciliation.ExchangePosition>)
      requires Valid()
      modifies this`marketExposureUsd, this`openPositionsCount
      ensures Valid() && StepsTo(old(View()), View(), AutoCorrect(positions))
    {
      RefillExposure(positions);
      openPositionsCount := |positions| % (U32_MAX + 1);
    }

    method RefillExposure(positions: seq<Reconciliation.ExchangePosition>)
      modifies this`marketExposureUsd
      ensures marketExposureUsd == Reconciliation.Corrected(positions)
    {
      marketExposureUsd := map[];
      for i := 0 to |positions|
        invariant marketExposureUsd == Reconciliation.Corrected(positions[..i])
      {
        var pos := positions[i];
        Reconciliation.CorrectedGrows(positions, i);
        marketExposureUsd := marketExposureUsd[pos.marketSlug := Reconciliation.DollarValue(pos)];
      }
      assert positions[..|positions|] == positions;
    }

    method SetAutoStopParams(params: AutoStopParams)
      requires Valid()
      modifies this`settings, performanceTracker`autoStopConfig
      ensures Valid() && StepsTo(old(View()), View(), SetAutoStop(params))
    {
      var config := performanceTracker.autoStopConfig;
      if params.enabled.Some? { config := config.(enabled := params.enabled.value); }
      if params.minWinRatePercent.Some? { config := config.(minWinRatePercent := params.minWinRatePercent.value); }
      if params.maxDrawdownUsd.Some? { config := config.(maxDrawdownUsd := params.maxDrawdownUsd.value); }
      if params.minTradesBeforeStop.Some? {
        config := config.(minTradesBeforeStop := params.minTradesBeforeStop.value);
      }
      assert config == StopConfigAfter(performanceTracker.autoStopConfig, params);
      performanceTracker.SetAutoStopConfig(config);
      settings := settings.(autoStopConfig := config);
    }

    method ResumeCopying(wallet: string) returns (wasStopped: bool)
      requires Valid()
      modifies performanceTracker`stoppedWallets
      ensures Valid() && StepsTo(old(View()), View(), ResumeWallet(wallet))
      ensures wasStopped <==> wallet in old(performanceTracker.stoppedWallets)
    {
      wasStopped := performanceTracker.ResumeWallet(wallet);
    }
  }

  /** The step takes the engine from one state to the other, whatever the fill task is carrying. */
  ghost predicate StepsTo(before: Engine, after: Engine, step: Step) {
    forall config, phase :: Machine(after, phase) == Next(config, Machine(before, phase), step)
  }

  /** What follows a fill's snapshot when no other task interrupts. */
  function Settled(config: EngineConfig, e: Engine, fill: SourceFillEvent, snap: Snapshot, replies: seq<VenueReply>)
    : Engine
  {
    match DecideFill(config, fill, snap)
    case Ignore => e
    case StopWallet => WithStopped(e, fill.sourceWallet)
    case Order(signal, intent) =>
      var result := ExecuteOrder(config, snap, intent, replies).result;
      if result.success then CommitFill(e, signal, EstimatedPnl(signal, result)) else e
  }

  /** What one fill does to the engine when no other task interrupts. */
  function Processed(config: EngineConfig, e: Engine, fill: SourceFillEvent, replies: seq<VenueReply>): Engine {
    var (taken, snap) := Snap(e, config, fill);
    Settled(config, taken, fill, snap, replies)
  }

  /**
   * A fill that is not to be copied leaves everything as it was but the remembered ids and, if it is new and the check
   * fires, the stopped wallets. One that is, is ordered for its notional; a successful order moves what a commit
   * should, and a failed one nothing.
   */
  lemma ProcessedExactly(config: EngineConfig, e: Engine, fill: SourceFillEvent, replies: seq<VenueReply>)
    ensures var after, snap := Processed(config, e, fill, replies), Snap(e, config, fill).1;
            var d := DecideFill(config, fill, snap);
            var stops := fill.executionId !in e.recentIds && CheckAutoStop(e.tracker, fill.sourceWallet).Some?;
            && (!EngineOrders.ToCopy(config, e, fill) ==>
                after == e.(recentIds := after.recentIds,
                            tracker := e.tracker.(stopped := if stops then e.tracker.stopped + {fill.sourceWallet}
                                                             else e.tracker.stopped)))
            && (EngineOrders.ToCopy(config, e, fill) ==>
                && d.Order?
                && Copies(d.signal, fill,
                          EngineOrders.CopyNotional(fill, e.settings, config.sourceEquityFallbackUsd,
                                                    ExposureOf(e, fill.marketSlug), e.dailyNotionalUsd))
                && if ExecuteOrder(config, snap, d.intent, replies).result.success
                   then EngineOrders.Moves(d.signal, e.(recentIds := after.recentIds), after)
                   else after == e.(recentIds := after.recentIds))
  {
    var (taken, snap) := Snap(e, config, fill);
    var d := DecideFill(config, fill, snap);
    EngineOrders.OrderedExactly(config, fill, snap);
    if d.Order? {
      EngineOrders.CommitMoves(taken, d.signal,
                               EstimatedPnl(d.signal, ExecuteOrder(config, snap, d.intent, replies).result));
    }
  }

  /** It is the run of the fill task's steps with nothing in between; steps that do not apply are skipped. */
  lemma {:induction false} ProcessedIsRun(config: EngineConfig, e: Engine, fill: SourceFillEvent,
                                          replies: seq<VenueReply>)
    ensures Run(config, Machine(e, Idle), [TakeSnapshot(fill), Decide, MarkStopped, Execute(replies), Commit])
         == Machine(Processed(config, e, fill, replies), Idle)
  {
    var s1 := [Decide, MarkStopped, Execute(replies), Commit];
    var s2 := [MarkStopped, Execute(replies), Commit];
    var s3: seq<Step> := [Execute(replies), Commit];
    var m1 := Next(config, Machine(e, Idle), TakeSnapshot(fill));
    var m2 := Next(config, m1, Decide);
    var m3 := Next(config, m2, MarkStopped);
    RunCons(config, Machine(e, Idle), TakeSnapshot(fill), s1);
    RunCons(config, m1, Decide, s2);
    RunCons(config, m2, MarkStopped, s3);
    RunCons(config, m3, Execute(replies), [Commit]);
    RunCons(config, Next(config, m3, Execute(replies)), Commit, []);
    assert [TakeSnapshot(fill)] + s1 == [TakeSnapshot(fill), Decide, MarkStopped, Execute(replies), Commit];
    assert [Decide] + s2 == s1 && [MarkStopped] + s3 == s2 && [Execute(replies)] + [Commit] == s3;
    assert [Commit] + [] == [Commit];
  }
}
