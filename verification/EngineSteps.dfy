/** What each step other than the fill task's own does to the engine, field by field. */
module EngineSteps {
  import opened Types
  import opened Performance
  import opened EngineModel
  import Reconciliation

  /** One step's settings: only the step that names one changes it, and a rejected value does not. */
  predicate Sets(s: RuntimeSettings, t: RuntimeSettings, step: Step) {
    && t.mode == (if step.SetMode? then step.mode else s.mode)
    && t.riskProfile == (if step.SetRiskProfile? then step.profile else s.riskProfile)
    && t.multiplier == (if step.SetMultiplier? && step.multiplier > 0.0 then step.multiplier else s.multiplier)
    && t.followerEquityUsd
       == (if step.SetFollowerEquity? && step.equity > 0.0 then step.equity else s.followerEquityUsd)
    && t.copySells == (if step.SetCopySells? then step.copySells else s.copySells)
    && t.paused == (if step.PauseTrading? || step.PanicClose? || step.CriticalPause? then true
                    else if step.ResumeTrading? then false else s.paused)
    && t.feeBps == s.feeBps && t.slippageBps == s.slippageBps && t.limitPriceOffset == s.limitPriceOffset
    && (!step.SetCaps? ==> t.caps == s.caps)
    && (!step.SetAutoStop? ==> t.autoStopConfig == s.autoStopConfig)
  }

  lemma SettingsAfter(config: EngineConfig, m: Machine, step: Step)
    ensures Sets(m.engine.settings, Next(config, m, step).engine.settings, step)
  {
    InterferenceSets(m.engine, step);
    FillTaskKeepsSettings(config, m, step);
  }

  lemma InterferenceSets(e: Engine, step: Step)
    ensures Sets(e.settings, Interfere(e, step).settings, step)
  {
  }

  lemma FillTaskKeepsSettings(config: EngineConfig, m: Machine, step: Step)
    ensures Next(config, m, step).engine.settings == Interfere(m.engine, step).settings
  {
  }

  /** What the last step to give a value gave, or the initial one. */
  function LastGiven<T>(steps: seq<Step>, given: Step -> Option<T>, initial: T): T {
    if steps == [] then initial
    else
      match given(steps[|steps| - 1])
      case Some(v) => v
      case None => LastGiven(steps[..|steps| - 1], given, initial)
  }

  function GivenMode(step: Step): Option<EngineMode> { if step.SetMode? then Some(step.mode) else None }

  function GivenProfile(step: Step): Option<RiskProfile> { if step.SetRiskProfile? then Some(step.profile) else None }

  function GivenMultiplier(step: Step): Option<real> {
    if step.SetMultiplier? && step.multiplier > 0.0 then Some(step.multiplier) else None
  }

  function GivenEquity(step: Step): Option<real> {
    if step.SetFollowerEquity? && step.equity > 0.0 then Some(step.equity) else None
  }

  function GivenCopySells(step: Step): Option<bool> { if step.SetCopySells? then Some(step.copySells) else None }

  function GivenPaused(step: Step): Option<bool> {
    if step.PauseTrading? || step.PanicClose? || step.CriticalPause? then Some(true)
    else if step.ResumeTrading? then Some(false)
    else None
  }

  predicate LastValues(s: RuntimeSettings, t: RuntimeSettings, steps: seq<Step>) {
    && t.mode == LastGiven(steps, GivenMode, s.mode)
    && t.riskProfile == LastGiven(steps, GivenProfile, s.riskProfile)
    && t.multiplier == LastGiven(steps, GivenMultiplier, s.multiplier)
    && t.followerEquityUsd == LastGiven(steps, GivenEquity, s.followerEquityUsd)
    && t.copySells == LastGiven(steps, GivenCopySells, s.copySells)
    && t.paused == LastGiven(steps, GivenPaused, s.paused)
    && t.feeBps == s.feeBps && t.slippageBps == s.slippageBps && t.limitPriceOffset == s.limitPriceOffset
  }

  lemma {:induction false} LastValuesStep(s: RuntimeSettings, mid: RuntimeSettings, t: RuntimeSettings,
                                          steps: seq<Step>)
    requires steps != [] && LastValues(s, mid, steps[..|steps| - 1]) && Sets(mid, t, steps[|steps| - 1])
    ensures LastValues(s, t, steps)
  {
  }

  /** After every run each of these settings is the last acceptable value any step gave it, whatever came between. */
  lemma {:induction false} SettingsOfRun(config: EngineConfig, m: Machine, steps: seq<Step>)
    ensures LastValues(m.engine.settings, Run(config, m, steps).engine.settings, steps)
    decreases |steps|
  {
    if steps != [] {
      var init, last := steps[..|steps| - 1], steps[|steps| - 1];
      assert steps == init + [last];
      SettingsOfRun(config, m, init);
      RunSnoc(config, m, init, last);
      SettingsAfter(config, Run(config, m, init), last);
      LastValuesStep(m.engine.settings, Run(config, m, init).engine.settings, Run(config, m, steps).engine.settings,
                     steps);
    }
  }

  /** The stop configuration takes the given fields and keeps the others, in the tracker and in the settings alike. */
  lemma StopConfigIs(config: EngineConfig, m: Machine, p: AutoStopParams)
    ensures var c, e := m.engine.tracker.config, Next(config, m, SetAutoStop(p)).engine;
            && e.settings.autoStopConfig == e.tracker.config
            && e.tracker.config.enabled == (match p.enabled case Some(v) => v case None => c.enabled)
            && e.tracker.config.minWinRatePercent
               == (match p.minWinRatePercent case Some(v) => v case None => c.minWinRatePercent)
            && e.tracker.config.maxDrawdownUsd
               == (match p.maxDrawdownUsd case Some(v) => v case None => c.maxDrawdownUsd)
            && e.tracker.config.minTradesBeforeStop
               == (match p.minTradesBeforeStop case Some(v) => v case None => c.minTradesBeforeStop)
  {
  }

  /** A new trading day starts at zero; the same day changes nothing. */
  lemma DayStarts(config: EngineConfig, m: Machine, today: int)
    requires m.phase.Idle?
    ensures var e := Next(config, m, ResetDaily(today)).engine;
            && e.tradingDay == today
            && e.dailyNotionalUsd == (if today == m.engine.tradingDay then m.engine.dailyNotionalUsd else 0.0)
            && e == m.engine.(tradingDay := e.tradingDay, dailyNotionalUsd := e.dailyNotionalUsd)
  {
  }

  /** The bot's own fill moves its market's exposure by its dollar value, down to zero at most, and nothing else. */
  lemma OwnFillMoves(config: EngineConfig, m: Machine, market: string, side: TradeSide, size: real, price: real)
    requires m.phase.Idle?
    ensures var before := if market in m.engine.marketExposureUsd then m.engine.marketExposureUsd[market] else 0.0;
            var e := Next(config, m, UserFill(market, side, size, price)).engine;
            && market in e.marketExposureUsd
            && (side.Buy? ==> e.marketExposureUsd[market] == before + size * price)
            && (side.Sell? && before >= size * price ==> e.marketExposureUsd[market] == before - size * price)
            && (side.Sell? && before < size * price ==> e.marketExposureUsd[market] == 0.0)
            && e.marketExposureUsd - {market} == m.engine.marketExposureUsd - {market}
            && e == m.engine.(marketExposureUsd := e.marketExposureUsd)
  {
  }

  /** The market's last entry in the list. */
  predicate IsLastEntry(positions: seq<Reconciliation.ExchangePosition>, i: nat, market: string) {
    && i < |positions| && positions[i].marketSlug == market
    && forall j :: i < j < |positions| ==> positions[j].marketSlug != market
  }

  /** After auto-correct the exposures are the listed markets', each at its last entry's value, and the list counted. */
  lemma CorrectionSets(config: EngineConfig, m: Machine, positions: seq<Reconciliation.ExchangePosition>,
                       market: string, i: nat)
    ensures var e := Next(config, m, AutoCorrect(positions)).engine;
            && (market in e.marketExposureUsd <==> exists p :: p in positions && p.marketSlug == market)
            && (IsLastEntry(positions, i, market) ==>
                market in e.marketExposureUsd
                && e.marketExposureUsd[market] == positions[i].size * positions[i].currentPrice)
            && (|positions| <= U32_MAX ==> e.openPositionsCount == |positions|)
            && e == m.engine.(marketExposureUsd := e.marketExposureUsd, openPositionsCount := e.openPositionsCount)
  {
    Reconciliation.CorrectedKeys(positions);
    if IsLastEntry(positions, i, market) { LastEntryValue(positions, i, market); }
  }

  lemma {:induction false} LastEntryValue(positions: seq<Reconciliation.ExchangePosition>, i: nat, market: string)
    requires IsLastEntry(positions, i, market)
    ensures market in Reconciliation.Corrected(positions)
    ensures Reconciliation.Corrected(positions)[market] == Reconciliation.DollarValue(positions[i])
  {
    var last := |positions| - 1;
    if i < last {
      LastEntryValue(positions[..last], i, market);
    }
  }

  /** The set of stopped wallets gains the one being stopped and loses the one resumed. */
  lemma StoppedWallets(config: EngineConfig, m: Machine, step: Step)
    ensures Next(config, m, step).engine.tracker.stopped
         == if step.MarkStopped? && m.phase.Stopping? then m.engine.tracker.stopped + {m.phase.fill.sourceWallet}
            else if step.ResumeWallet? then m.engine.tracker.stopped - {step.wallet}
            else m.engine.tracker.stopped
  {
  }
}
