/** Caps over every interleaving of the fill task with the other tasks. */
module EngineCaps {
  import opened Types
  import opened Signals
  import opened Execution
  import opened Performance
  import opened EngineModel
  import Reconciliation

  /** Only the fill task moves the daily counter, so an in-flight snapshot of it is still current. */
  ghost predicate DailyCurrent(config: EngineConfig, m: Machine) {
    && Decided(config, m)
    && m.engine.dailyNotionalUsd >= 0.0
    && (InFlight(m.phase) ==> m.phase.snap.dailyNotional == m.engine.dailyNotionalUsd)
  }

  /** So are the snapshot's exposure and position count, as long as no auto-correct has run since. */
  ghost predicate ExposureCurrent(m: Machine) {
    InFlight(m.phase) ==>
      && m.phase.snap.marketExposure == ExposureOf(m.engine, m.phase.fill.marketSlug)
      && m.phase.snap.openPositions == m.engine.openPositionsCount
  }

  /** No auto-correct runs while a fill is in flight. */
  predicate NoCorrectionInFlight(config: EngineConfig, m: Machine, steps: seq<Step>)
    decreases |steps|
  {
    steps == [] ||
    (&& !(steps[0].AutoCorrect? && InFlight(m.phase))
     && NoCorrectionInFlight(config, Next(config, m, steps[0]), steps[1..]))
  }

  ghost predicate DailyWithinCap(o: Observation) {
    o.FillCommitted? ==>
      && o.after.dailyNotionalUsd == o.before.dailyNotionalUsd + o.signal.copyNotionalUsd
      && o.signal.copyNotionalUsd > 0.0
      && o.after.dailyNotionalUsd <= o.snap.settings.caps.maxDailyNotionalUsd
  }

  ghost predicate ExposureWithinCap(o: Observation) {
    o.FillCommitted? ==>
      && ExposureOf(o.after, o.signal.marketSlug) <= o.snap.settings.caps.maxMarketExposureUsd
      && o.after.openPositionsCount <= o.snap.settings.caps.maxOpenPositions
  }

  lemma DailyStep(config: EngineConfig, m: Machine, step: Step)
    requires DailyCurrent(config, m)
    ensures DailyCurrent(config, Next(config, m, step))
    ensures forall o :: o in Observe(config, m, step) ==> DailyWithinCap(o)
  {
    NextDecided(config, m, step);
    if Commits(m, step) {
      OrderedSignal(config, m.phase.fill, m.phase.snap);
    } else {
      DailyUntouched(config, m, step);
    }
  }

  lemma ExposureStep(config: EngineConfig, m: Machine, step: Step)
    requires ExposureCurrent(m) && !(step.AutoCorrect? && InFlight(m.phase))
    ensures ExposureCurrent(Next(config, m, step))
  {
  }

  lemma ExposureObservation(config: EngineConfig, m: Machine, step: Step)
    requires Decided(config, m) && ExposureCurrent(m)
    ensures forall o :: o in Observe(config, m, step) ==> ExposureWithinCap(o)
  {
    if m.phase.Executed? {
      OrderedSignal(config, m.phase.fill, m.phase.snap);
    }
  }

  /**
   * In every interleaving, from any state that is consistent, each commit leaves the daily notional within the cap of
   * its own snapshot; and, unless an auto-correct ran while the fill was in flight, its market's exposure and the
   * number of open positions too.
   */
  lemma {:induction false} EveryCommitWithinCaps(config: EngineConfig, m: Machine, steps: seq<Step>)
    requires DailyCurrent(config, m)
    ensures DailyCurrent(config, Run(config, m, steps))
    ensures forall o :: o in Log(config, m, steps) ==> DailyWithinCap(o)
    ensures ExposureCurrent(m) && NoCorrectionInFlight(config, m, steps) ==>
              forall o :: o in Log(config, m, steps) ==> ExposureWithinCap(o)
    decreases |steps|
  {
    if steps != [] {
      DailyStep(config, m, steps[0]);
      EveryCommitWithinCaps(config, Next(config, m, steps[0]), steps[1..]);
      if ExposureCurrent(m) && NoCorrectionInFlight(config, m, steps) {
        ExposureStep(config, m, steps[0]);
        ExposureObservation(config, m, steps[0]);
      }
    }
  }

  // ---------------------------------------------------------------------------------------------
  // Bounds that hold at every moment of a run
  // ---------------------------------------------------------------------------------------------

  /** Every snapshot taken in the log saw caps within the bound. */
  ghost predicate SnapshotsWithin(log: seq<Observation>, bound: Caps) {
    forall o :: o in log && o.SnapshotTaken? ==> CapsWithin(o.snap.settings.caps, bound)
  }

  predicate CapsWithin(caps: Caps, bound: Caps) {
    && caps.maxDailyNotionalUsd <= bound.maxDailyNotionalUsd
    && caps.maxMarketExposureUsd <= bound.maxMarketExposureUsd
    && caps.maxOpenPositions <= bound.maxOpenPositions
  }

  /** No step writes the exposure map except commits. */
  predicate Quiet(steps: seq<Step>) {
    forall i :: 0 <= i < |steps| ==> !steps[i].AutoCorrect? && !steps[i].UserFill?
  }

  ghost predicate InBounds(e: Engine, bound: Caps) {
    && (forall k :: k in e.marketExposureUsd ==> 0.0 <= e.marketExposureUsd[k] <= bound.maxMarketExposureUsd)
    && e.openPositionsCount <= bound.maxOpenPositions
  }

  ghost predicate Carried(m: Machine, bound: Caps) {
    InFlight(m.phase) ==> CapsWithin(m.phase.snap.settings.caps, bound)
  }

  lemma CarriedStep(config: EngineConfig, m: Machine, step: Step, bound: Caps)
    requires Carried(m, bound) && SnapshotsWithin(Observe(config, m, step), bound)
    ensures Carried(Next(config, m, step), bound)
  {
    if step.TakeSnapshot? && m.phase.Idle? {
      assert Observe(config, m, step)[0] in Observe(config, m, step);
    }
  }

  lemma DailyBoundStep(config: EngineConfig, m: Machine, step: Step, bound: Caps)
    requires DailyCurrent(config, m) && Carried(m, bound)
    requires 0.0 <= m.engine.dailyNotionalUsd <= bound.maxDailyNotionalUsd
    ensures 0.0 <= Next(config, m, step).engine.dailyNotionalUsd <= bound.maxDailyNotionalUsd
  {
    if Commits(m, step) {
      OrderedSignal(config, m.phase.fill, m.phase.snap);
    } else {
      DailyUntouched(config, m, step);
    }
  }

  lemma InBoundsStep(config: EngineConfig, m: Machine, step: Step, bound: Caps)
    requires Decided(config, m) && Carried(m, bound) && ExposureCurrent(m) && InBounds(m.engine, bound)
    requires !step.AutoCorrect? && !step.UserFill? && bound.maxMarketExposureUsd >= 0.0
    ensures InBounds(Next(config, m, step).engine, bound)
  {
    if Commits(m, step) {
      InBoundsCommit(config, m, bound);
    } else {
      ExposureUntouched(config, m, step);
    }
  }

  lemma InBoundsCommit(config: EngineConfig, m: Machine, bound: Caps)
    requires Decided(config, m) && Carried(m, bound) && ExposureCurrent(m) && InBounds(m.engine, bound)
    requires m.phase.Executed? && bound.maxMarketExposureUsd >= 0.0
    ensures InBounds(Next(config, m, Commit).engine, bound)
  {
    OrderedSignal(config, m.phase.fill, m.phase.snap);
  }

  /**
   * At every point of every run the daily notional is at most the largest daily cap ever snapshotted; and without
   * auto-corrects and user fills every market's exposure is never negative and within the largest exposure cap, and
   * the open positions within the largest position cap.
   */
  lemma {:induction false} CapsBoundEveryRun(config: EngineConfig, m: Machine, steps: seq<Step>, bound: Caps)
    requires DailyCurrent(config, m) && Carried(m, bound) && bound.maxMarketExposureUsd >= 0.0
    requires m.engine.dailyNotionalUsd <= bound.maxDailyNotionalUsd
    requires SnapshotsWithin(Log(config, m, steps), bound)
    ensures 0.0 <= Run(config, m, steps).engine.dailyNotionalUsd <= bound.maxDailyNotionalUsd
    ensures ExposureCurrent(m) && InBounds(m.engine, bound) && Quiet(steps) ==>
              InBounds(Run(config, m, steps).engine, bound)
    decreases |steps|
  {
    if steps != [] {
      var step, rest := steps[0], Log(config, Next(config, m, steps[0]), steps[1..]);
      assert forall o :: o in Observe(config, m, step) ==> o in Log(config, m, steps);
      assert forall o :: o in rest ==> o in Log(config, m, steps);
      DailyStep(config, m, step);
      CarriedStep(config, m, step, bound);
      DailyBoundStep(config, m, step, bound);
      if ExposureCurrent(m) && InBounds(m.engine, bound) && Quiet(steps) {
        InBoundsStep(config, m, step, bound);
        ExposureStep(config, m, step);
        assert Quiet(steps[1..]);
      }
      CapsBoundEveryRun(config, Next(config, m, step), steps[1..], bound);
    }
  }

  // ---------------------------------------------------------------------------------------------
  // Conservation
  // ---------------------------------------------------------------------------------------------

  function CommittedNotional(log: seq<Observation>): real {
    if log == [] then 0.0
    else (if log[0].FillCommitted? then log[0].signal.copyNotionalUsd else 0.0) + CommittedNotional(log[1..])
  }

  predicate NeverReset(steps: seq<Step>) {
    forall i :: 0 <= i < |steps| ==> !steps[i].ResetDaily?
  }

  lemma DailyOfStep(config: EngineConfig, m: Machine, step: Step)
    requires !step.ResetDaily?
    ensures Next(config, m, step).engine.dailyNotionalUsd
         == m.engine.dailyNotionalUsd + if Commits(m, step) then m.phase.signal.copyNotionalUsd else 0.0
  {
    if !Commits(m, step) {
      DailyUntouched(config, m, step);
    }
  }

  lemma {:induction false} CommittedOfStep(config: EngineConfig, m: Machine, step: Step, rest: seq<Observation>)
    ensures CommittedNotional(Observe(config, m, step) + rest)
         == CommittedNotional(rest)
            + (if Commits(m, step) then m.phase.signal.copyNotionalUsd else 0.0)
  {
    var now := Observe(config, m, step);
    if now == [] {
      assert now + rest == rest;
    } else {
      assert (now + rest)[1..] == rest;
    }
  }

  /**
   * Between resets the daily counter is exactly the sum of the committed notionals, whatever else happens. Only the
   * REST loop resets it: with the WebSocket task there is never a `ResetDaily` step, so the counter only grows.
   */
  lemma {:induction false} DailyIsSumOfCommits(config: EngineConfig, m: Machine, steps: seq<Step>)
    requires NeverReset(steps)
    ensures Run(config, m, steps).engine.dailyNotionalUsd
         == m.engine.dailyNotionalUsd + CommittedNotional(Log(config, m, steps))
    decreases |steps|
  {
    if steps != [] {
      assert NeverReset(steps[1..]);
      DailyOfStep(config, m, steps[0]);
      DailyIsSumOfCommits(config, Next(config, m, steps[0]), steps[1..]);
      CommittedOfStep(config, m, steps[0], Log(config, Next(config, m, steps[0]), steps[1..]));
    }
  }

  /**
   * So over a whole run without a reset, everything committed together fits the largest daily cap ever snapshotted,
   * however many days the run lasts.
   */
  lemma {:induction false} AllCommitsShareOneCap(config: EngineConfig, m: Machine, steps: seq<Step>, bound: Caps)
    requires DailyCurrent(config, m) && Carried(m, bound) && bound.maxMarketExposureUsd >= 0.0
    requires m.engine.dailyNotionalUsd <= bound.maxDailyNotionalUsd
    requires SnapshotsWithin(Log(config, m, steps), bound) && NeverReset(steps)
    ensures m.engine.dailyNotionalUsd + CommittedNotional(Log(config, m, steps)) <= bound.maxDailyNotionalUsd
  {
    CapsBoundEveryRun(config, m, steps, bound);
    DailyIsSumOfCommits(config, m, steps);
  }

  // ---------------------------------------------------------------------------------------------
  // Auto-corrects in flight: which runs exceed a cap
  // ---------------------------------------------------------------------------------------------

  /** The fill under way is carried on by every one of these steps. */
  predicate StaysInFlight(config: EngineConfig, m: Machine, steps: seq<Step>)
    decreases |steps|
  {
    steps == [] ||
    (InFlight(Next(config, m, steps[0]).phase) && StaysInFlight(config, Next(config, m, steps[0]), steps[1..]))
  }

  function CorrectedExposure(positions: seq<Reconciliation.ExchangePosition>, market: string): real {
    var corrected := Reconciliation.Corrected(positions);
    if market in corrected then corrected[market] else 0.0
  }

  /** The exposure a commit finds: what its snapshot saw, or what the last auto-correct since then left. */
  function FoundExposure(steps: seq<Step>, market: string, seen: real): real {
    if steps == [] then seen
    else if steps[|steps| - 1].AutoCorrect? then CorrectedExposure(steps[|steps| - 1].positions, market)
    else FoundExposure(steps[..|steps| - 1], market, seen)
  }

  /** The position count a commit finds. */
  function FoundCount(steps: seq<Step>, seen: U32): U32 {
    if steps == [] then seen
    else if steps[|steps| - 1].AutoCorrect? then |steps[|steps| - 1].positions| % (U32_MAX + 1)
    else FoundCount(steps[..|steps| - 1], seen)
  }

  /** The same fill is carried, and its exposure and count are as the auto-corrects left them. */
  ghost predicate CarriedOn(m: Machine, before: Machine, exposure: real, count: U32)
    requires InFlight(before.phase)
  {
    && InFlight(m.phase) && m.phase.fill == before.phase.fill && m.phase.snap == before.phase.snap
    && ExposureOf(m.engine, m.phase.fill.marketSlug) == exposure
    && m.engine.openPositionsCount == count
  }

  lemma KeepsFill(config: EngineConfig, m: Machine, step: Step)
    requires InFlight(m.phase) && InFlight(Next(config, m, step).phase)
    ensures Next(config, m, step).phase.fill == m.phase.fill && Next(config, m, step).phase.snap == m.phase.snap
    ensures !Commits(m, step)
  {
  }

  lemma CarriedOnStep(config: EngineConfig, m: Machine, step: Step)
    requires InFlight(m.phase) && InFlight(Next(config, m, step).phase)
    ensures CarriedOn(Next(config, m, step), m,
                      if step.AutoCorrect? then CorrectedExposure(step.positions, m.phase.fill.marketSlug)
                      else ExposureOf(m.engine, m.phase.fill.marketSlug),
                      if step.AutoCorrect? then |step.positions| % (U32_MAX + 1) else m.engine.openPositionsCount)
  {
    KeepsFill(config, m, step);
    if !step.AutoCorrect? {
      ExposureUntouched(config, m, step);
    }
  }

  lemma {:induction false} FoundExposureFront(step: Step, rest: seq<Step>, market: string, seen: real)
    ensures FoundExposure([step] + rest, market, seen)
         == FoundExposure(rest, market, if step.AutoCorrect? then CorrectedExposure(step.positions, market) else seen)
  {
    var steps := [step] + rest;
    if rest != [] {
      assert steps[|steps| - 1] == rest[|rest| - 1];
      assert steps[..|steps| - 1] == [step] + rest[..|rest| - 1];
      FoundExposureFront(step, rest[..|rest| - 1], market, seen);
    } else {
      assert steps == [step] && steps[..0] == [];
    }
  }

  lemma {:induction false} FoundCountFront(step: Step, rest: seq<Step>, seen: U32)
    ensures FoundCount([step] + rest, seen)
         == FoundCount(rest, if step.AutoCorrect? then |step.positions| % (U32_MAX + 1) else seen)
  {
    var steps := [step] + rest;
    if rest != [] {
      assert steps[|steps| - 1] == rest[|rest| - 1];
      assert steps[..|steps| - 1] == [step] + rest[..|rest| - 1];
      FoundCountFront(step, rest[..|rest| - 1], seen);
    } else {
      assert steps == [step] && steps[..0] == [];
    }
  }

  /** While a fill stays in flight, only auto-corrects move what its commit will find. */
  lemma {:induction false} FoundAtCommit(config: EngineConfig, m: Machine, steps: seq<Step>)
    requires InFlight(m.phase) && StaysInFlight(config, m, steps)
    ensures CarriedOn(Run(config, m, steps), m,
                      FoundExposure(steps, m.phase.fill.marketSlug, ExposureOf(m.engine, m.phase.fill.marketSlug)),
                      FoundCount(steps, m.engine.openPositionsCount))
    decreases |steps|
  {
    if steps != [] {
      var market := m.phase.fill.marketSlug;
      CarriedOnStep(config, m, steps[0]);
      FoundAtCommit(config, Next(config, m, steps[0]), steps[1..]);
      assert [steps[0]] + steps[1..] == steps;
      FoundExposureFront(steps[0], steps[1..], market, ExposureOf(m.engine, market));
      FoundCountFront(steps[0], steps[1..], m.engine.openPositionsCount);
    }
  }

  /**
   * Which runs exceed a cap. A fill is snapshotted from any idle machine, and whatever steps follow until its commit:
   * what the commit finds is what the snapshot saw or what the last auto-correct left, and it ends up above its
   * snapshot's exposure cap exactly if that, with the decided notional added or taken off, is above it. The count of
   * open positions ends up above its cap exactly if a buy finds it full, or a sell finds it more than one above.
   */
  lemma {:induction false} CapsExceededExactly(config: EngineConfig, m: Machine, fill: SourceFillEvent,
                                               steps: seq<Step>)
    requires m.phase.Idle?
    requires StaysInFlight(config, Next(config, m, TakeSnapshot(fill)), steps)
    requires Run(config, Next(config, m, TakeSnapshot(fill)), steps).phase.Executed?
    ensures var snap := Snap(m.engine, config, fill).1;
            var after := Next(config, Run(config, Next(config, m, TakeSnapshot(fill)), steps), Commit).engine;
            var caps, decision := snap.settings.caps, DecideFill(config, fill, snap);
            var found := FoundExposure(steps, fill.marketSlug, ExposureOf(m.engine, fill.marketSlug));
            var count := FoundCount(steps, m.engine.openPositionsCount);
            && decision.Order?
            && (ExposureOf(after, fill.marketSlug) > caps.maxMarketExposureUsd <==>
                  (if fill.side.Buy? then found + decision.signal.copyNotionalUsd
                   else found - decision.signal.copyNotionalUsd) > caps.maxMarketExposureUsd)
            && (after.openPositionsCount > caps.maxOpenPositions <==>
                  if fill.side.Buy? then caps.maxOpenPositions <= count && caps.maxOpenPositions < U32_MAX
                  else count > caps.maxOpenPositions + 1)
  {
    var taken := Next(config, m, TakeSnapshot(fill));
    var ready := Run(config, taken, steps);
    FoundAtCommit(config, taken, steps);
    RunDecided(config, taken, steps);
    CommitAgainstCaps(config, ready);
  }

  lemma {:induction false} RunDecided(config: EngineConfig, m: Machine, steps: seq<Step>)
    requires Decided(config, m)
    ensures Decided(config, Run(config, m, steps))
    decreases |steps|
  {
    if steps != [] {
      NextDecided(config, m, steps[0]);
      RunDecided(config, Next(config, m, steps[0]), steps[1..]);
    }
  }

  /** One commit against its snapshot's caps. */
  lemma CommitAgainstCaps(config: EngineConfig, m: Machine)
    requires Decided(config, m) && m.phase.Executed?
    ensures var after, caps := Next(config, m, Commit).engine, m.phase.snap.settings.caps;
            var decision := DecideFill(config, m.phase.fill, m.phase.snap);
            var market, found := m.phase.fill.marketSlug, ExposureOf(m.engine, m.phase.fill.marketSlug);
            && decision.Order?
            && (ExposureOf(after, market) > caps.maxMarketExposureUsd <==>
                  (if m.phase.fill.side.Buy? then found + decision.signal.copyNotionalUsd
                   else found - decision.signal.copyNotionalUsd) > caps.maxMarketExposureUsd)
            && (after.openPositionsCount > caps.maxOpenPositions <==>
                  if m.phase.fill.side.Buy? then
                    caps.maxOpenPositions <= m.engine.openPositionsCount && caps.maxOpenPositions < U32_MAX
                  else m.engine.openPositionsCount > caps.maxOpenPositions + 1)
  {
    OrderedSignal(config, m.phase.fill, m.phase.snap);
  }

  const SAMPLE_SETTINGS := RuntimeSettings(
    DryRun, Aggressive, 1.0, Caps(1500.0, 100.0, 45000.0, 1), false, 1000.0, 0.0, 0.0, 0.01, true,
    AutoStopConfig(true, 40.0, 1000.0, 5))

  const SAMPLE_FILL := SourceFillEvent("e", "w", "m", Buy, 60.0, 0.5, 1000.0, 100.0)

  const SAMPLE_SNAPSHOT := Snapshot(SAMPLE_SETTINGS, 0.0, 0.0, 0, false, None)

  const SAMPLE_START := Machine(
    Engine(SAMPLE_SETTINGS, 0.0, 0, map[], [], Tracker(map[], SAMPLE_SETTINGS.autoStopConfig, {}), 0), Idle)

  const SAMPLE_CORRECTION := AutoCorrect([Reconciliation.ExchangePosition("m", Reconciliation.Yes, 100.0, 1.0)])

  const SAMPLE_STEPS := [Decide, SAMPLE_CORRECTION, Execute([])]

  /** An auto-correct between a fill's snapshot and its commit lets the commit exceed both caps. */
  lemma {:induction false} CorrectionInFlightBreaksCaps(config: EngineConfig)
    ensures var taken := Next(config, SAMPLE_START, TakeSnapshot(SAMPLE_FILL));
            var after := Next(config, Run(config, taken, SAMPLE_STEPS), Commit).engine;
            && StaysInFlight(config, taken, SAMPLE_STEPS)
            && ExposureOf(after, "m") > SAMPLE_SETTINGS.caps.maxMarketExposureUsd
            && after.openPositionsCount > SAMPLE_SETTINGS.caps.maxOpenPositions
  {
    var taken := Next(config, SAMPLE_START, TakeSnapshot(SAMPLE_FILL));
    assert taken.phase == Snapshotted(SAMPLE_FILL, SAMPLE_SNAPSHOT);
    SampleDecision(config);
    var decided := Next(config, taken, Decide);
    var corrected := Next(config, decided, SAMPLE_CORRECTION);
    assert SAMPLE_STEPS[1..] == [SAMPLE_CORRECTION, Execute([])] && SAMPLE_STEPS[1..][1..] == [Execute([])];
    assert SAMPLE_STEPS[1..][1..][1..] == [];
    assert Run(config, taken, SAMPLE_STEPS) == Next(config, corrected, Execute([])) by {
      assert Run(config, decided, SAMPLE_STEPS[1..]) == Run(config, corrected, [Execute([])]);
    }
    assert StaysInFlight(config, decided, SAMPLE_STEPS[1..]) by {
      assert StaysInFlight(config, corrected, [Execute([])]);
    }
    CapsExceededExactly(config, SAMPLE_START, SAMPLE_FILL, SAMPLE_STEPS);
    FoundInSample();
  }

  lemma FoundInSample()
    ensures FoundExposure(SAMPLE_STEPS, "m", 0.0) == 100.0 && FoundCount(SAMPLE_STEPS, 0) == 1
  {
    var last := SAMPLE_STEPS[..2];
    assert SAMPLE_STEPS[..|SAMPLE_STEPS| - 1] == last && last[|last| - 1] == SAMPLE_CORRECTION;
    assert FoundCount(last, 0) == 1;
    assert SAMPLE_CORRECTION.positions[..0] == [];
    assert Reconciliation.Corrected(SAMPLE_CORRECTION.positions) == map["m" := 100.0];
    assert FoundExposure(last, "m", 0.0) == 100.0;
  }

  lemma SampleDecision(config: EngineConfig)
    ensures DecideFill(config, SAMPLE_FILL, SAMPLE_SNAPSHOT).Order?
    ensures DecideFill(config, SAMPLE_FILL, SAMPLE_SNAPSHOT).signal
         == CopySignal("e", "w", "m", Buy, 0.5, 60.0, 120.0, 100.0)
  {
    assert ProportionalNotional(SAMPLE_FILL, SAMPLE_SETTINGS, config.sourceEquityFallbackUsd) == Some(60.0);
    assert (60.0 * 10000.0).Floor == 600000;
    assert (60.0 / 0.5 * 10000.0).Floor == 1200000;
  }
}
