/** The engine's state driven through any interleaving, and what the theorems about runs say of it. */
module EngineRun {
  import opened Types
  import opened Execution
  import opened EngineModel
  import opened EngineCaps
  import S = EngineState

  /** A step of the fill task, or a step of another task. */
  predicate OfFillTask(step: Step) {
    step.TakeSnapshot? || step.Decide? || step.MarkStopped? || step.Execute? || step.Commit? || step.ResetDaily?
    || step.UserFill?
  }

  /** Lets the fill task take a step; it does nothing unless it is the next one to come. */
  method FillStep(engine: S.EngineState, config: EngineConfig, phase: Phase, step: Step) returns (next: Phase)
    requires engine.Valid() && engine.dedupeCache.maxSize == config.dedupeSize && OfFillTask(step)
    modifies engine, engine.dedupeCache, engine.performanceTracker, engine.performanceTracker.performances.Values
    ensures engine.Valid() && engine.At(next) == Next(config, old(engine.At(phase)), step)
    ensures forall p :: p in engine.performanceTracker.performances.Values ==>
              p in old(engine.performanceTracker.performances.Values) || fresh(p)
  {
    next := phase;
    match step
    case TakeSnapshot(fill) =>
      if phase.Idle? {
        var snap := engine.TakeSnapshot(config, fill);
        next := Snapshotted(fill, snap);
      }
    case Decide =>
      next := AfterDecision(config, phase);
    case Execute(replies) =>
      if phase.Ordering? {
        var settings := phase.snap.settings;
        var result, _ := ExecuteIntent(settings.mode, config.hasExecutionApi, config.allowLiveSimulation, settings,
                                       phase.intent, replies);
        next := if result.success then Executed(phase.fill, phase.snap, phase.signal, result) else Idle;
      }
    case MarkStopped =>
      if phase.Stopping? {
        engine.MarkStopped(config, phase);
        next := Idle;
      }
    case Commit =>
      if phase.Executed? {
        engine.Commit(config, phase);
        next := Idle;
      }
    case ResetDaily(today) =>
      if phase.Idle? {
        engine.MaybeResetDailyNotional(config, today);
      }
    case UserFill(market, side, size, price) =>
      if phase.Idle? {
        engine.ApplyUserFill(config, market, side, size, price);
      }
  }

  /** Lets another task take a step. */
  method OtherStep(engine: S.EngineState, step: Step)
    requires engine.Valid() && !OfFillTask(step)
    modifies engine, engine.performanceTracker
    ensures engine.Valid() && S.StepsTo(old(engine.View()), engine.View(), step)
    ensures engine.performanceTracker.performances == old(engine.performanceTracker.performances)
  {
    match step
    case SetCaps(params) => var _ := engine.SetCaps(params);
    case SetMode(mode) => engine.SetMode(mode);
    case SetRiskProfile(profile) => engine.SetRiskProfile(profile);
    case SetMultiplier(multiplier) => var _ := engine.SetMultiplier(multiplier);
    case SetFollowerEquity(equity) => var _ := engine.SetFollowerEquity(equity);
    case SetCopySells(copySells) => engine.SetCopySells(copySells);
    case PauseTrading => engine.PauseTrading();
    case ResumeTrading => engine.ResumeTrading();
    case PanicClose => engine.PanicClose();
    case CriticalPause => engine.PauseOnCritical();
    case AutoCorrect(positions) => engine.CorrectPositions(positions);
    case SetAutoStop(params) => engine.SetAutoStopParams(params);
    case ResumeWallet(wallet) => var _ := engine.ResumeCopying(wallet);
  }

  /**
   * Any interleaving, from the start of a fill. The state ends where the machine's run does, so the theorems about runs
   * hold of it: every commit is within its snapshot's daily cap, and the counter within the largest one snapshotted.
   */
  method Drive(engine: S.EngineState, config: EngineConfig, steps: seq<Step>) returns (phase: Phase)
    requires engine.Valid() && engine.dedupeCache.maxSize == config.dedupeSize
    modifies engine, engine.dedupeCache, engine.performanceTracker, engine.performanceTracker.performances.Values
    ensures engine.Valid() && engine.At(phase) == Run(config, old(engine.At(Idle)), steps)
    ensures old(engine.dailyNotionalUsd) >= 0.0 ==>
              forall o :: o in Log(config, old(engine.At(Idle)), steps) ==> DailyWithinCap(o)
    ensures forall bound: Caps ::
              (&& bound.maxMarketExposureUsd >= 0.0
               && 0.0 <= old(engine.dailyNotionalUsd) <= bound.maxDailyNotionalUsd
               && SnapshotsWithin(Log(config, old(engine.At(Idle)), steps), bound)) ==>
                engine.dailyNotionalUsd <= bound.maxDailyNotionalUsd
  {
    ghost var start := engine.At(Idle);
    phase := Idle;
    assert steps[..0] == [];
    for i := 0 to |steps|
      invariant engine.Valid() && engine.At(phase) == Run(config, start, steps[..i])
      invariant forall p :: p in engine.performanceTracker.performances.Values ==>
                  p in old(engine.performanceTracker.performances.Values) || fresh(p)
    {
      assert steps[..i + 1] == steps[..i] + [steps[i]];
      RunSnoc(config, start, steps[..i], steps[i]);
      if OfFillTask(steps[i]) {
        phase := FillStep(engine, config, phase, steps[i]);
      } else {
        OtherStep(engine, steps[i]);
      }
    }
    assert steps[..|steps|] == steps;
    if start.engine.dailyNotionalUsd >= 0.0 {
      EveryCommitWithinCaps(config, start, steps);
      forall bound: Caps | bound.maxMarketExposureUsd >= 0.0
                           && start.engine.dailyNotionalUsd <= bound.maxDailyNotionalUsd
                           && SnapshotsWithin(Log(config, start, steps), bound)
        ensures Run(config, start, steps).engine.dailyNotionalUsd <= bound.maxDailyNotionalUsd
      {
        CapsBoundEveryRun(config, start, steps, bound);
      }
    }
  }
}
