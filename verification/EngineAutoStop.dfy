/** The automatic stop over whole runs: permanent, deaf to resuming, and in a dry run triggered for every wallet. */
module EngineAutoStop {
  import opened Types
  import opened Collections
  import opened Signals
  import opened Execution
  import opened Performance
  import opened EngineModel

  predicate ConfigFixed(steps: seq<Step>) {
    forall i :: 0 <= i < |steps| ==> !steps[i].SetAutoStop?
  }

  // ---------------------------------------------------------------------------------------------
  // Permanence
  // ---------------------------------------------------------------------------------------------

  /** The check fires for this wallet, and no fill of it that passed the check earlier is still under way. */
  ghost predicate Stopped(m: Machine, wallet: string) {
    && CheckAutoStop(m.engine.tracker, wallet).Some?
    && (m.phase.Snapshotted? && m.phase.fill.sourceWallet == wallet ==> m.phase.snap.autoStop.Some?)
    && (m.phase.Ordering? || m.phase.Executed? ==> m.phase.fill.sourceWallet != wallet)
  }

  /** A snapshot at which the check fires puts the wallet in that state. */
  lemma SnapshotStops(config: EngineConfig, m: Machine, fill: SourceFillEvent)
    requires m.phase.Idle? && CheckAutoStop(m.engine.tracker, fill.sourceWallet).Some?
    ensures Stopped(Next(config, m, TakeSnapshot(fill)), fill.sourceWallet)
  {
  }

  /** The observation executes or commits a fill of this wallet. */
  predicate Concerns(o: Observation, wallet: string) {
    || (o.OrderExecuted? && o.fill.sourceWallet == wallet)
    || (o.FillCommitted? && o.signal.sourceWallet == wallet)
  }

  lemma StoppedRecord(config: EngineConfig, m: Machine, step: Step, wallet: string)
    requires Decided(config, m) && Stopped(m, wallet) && !step.SetAutoStop?
    ensures var t := Next(config, m, step).engine.tracker;
            && wallet in t.records && t.records[wallet] == m.engine.tracker.records[wallet]
            && t.config == m.engine.tracker.config
  {
    RecordsUntouched(config, m, step);
    if Commits(m, step) {
      OrderedSignal(config, m.phase.fill, m.phase.snap);
    }
  }

  lemma StoppedStep(config: EngineConfig, m: Machine, step: Step, wallet: string)
    requires Decided(config, m) && Stopped(m, wallet) && !step.SetAutoStop?
    ensures Stopped(Next(config, m, step), wallet)
    ensures Next(config, m, step).engine.tracker.records[wallet] == m.engine.tracker.records[wallet]
  {
    StoppedRecord(config, m, step, wallet);
    if m.phase.Snapshotted? && DecideFill(config, m.phase.fill, m.phase.snap).Order? {
      OrderedSignal(config, m.phase.fill, m.phase.snap);
    }
  }

  lemma StoppedObservation(config: EngineConfig, m: Machine, step: Step, wallet: string)
    requires Decided(config, m) && Stopped(m, wallet)
    ensures forall o :: o in Observe(config, m, step) ==> !Concerns(o, wallet)
  {
    if m.phase.Executed? {
      OrderedSignal(config, m.phase.fill, m.phase.snap);
    }
  }

  /**
   * Once the check has fired at a wallet's snapshot, and as long as its configuration is not changed, no fill of that
   * wallet is ever executed or committed again and its record never changes, whatever wallets are resumed.
   */
  lemma {:induction false} StoppedForever(config: EngineConfig, m: Machine, steps: seq<Step>, wallet: string)
    requires Decided(config, m) && Stopped(m, wallet) && ConfigFixed(steps)
    ensures Stopped(Run(config, m, steps), wallet)
    ensures Run(config, m, steps).engine.tracker.records[wallet] == m.engine.tracker.records[wallet]
    ensures forall o :: o in Log(config, m, steps) ==> !Concerns(o, wallet)
    decreases |steps|
  {
    if steps != [] {
      assert !steps[0].SetAutoStop? && ConfigFixed(steps[1..]);
      StoppedStep(config, m, steps[0], wallet);
      StoppedObservation(config, m, steps[0], wallet);
      NextDecided(config, m, steps[0]);
      StoppedForever(config, Next(config, m, steps[0]), steps[1..], wallet);
    }
  }

  /** From the snapshot at which the check fires: nothing of that wallet is copied and its record stays as it was. */
  lemma {:induction false} StopIsPermanent(config: EngineConfig, m: Machine, fill: SourceFillEvent, steps: seq<Step>)
    requires Decided(config, m) && m.phase.Idle? && CheckAutoStop(m.engine.tracker, fill.sourceWallet).Some?
    requires ConfigFixed(steps)
    ensures var m' := Next(config, m, TakeSnapshot(fill));
            var after := Run(config, m', steps).engine.tracker;
            && (forall o :: o in Log(config, m', steps) ==> !Concerns(o, fill.sourceWallet))
            && fill.sourceWallet in after.records
            && after.records[fill.sourceWallet] == m.engine.tracker.records[fill.sourceWallet]
            && CheckAutoStop(after, fill.sourceWallet).Some?
  {
    SnapshotStops(config, m, fill);
    NextDecided(config, m, TakeSnapshot(fill));
    StoppedForever(config, Next(config, m, TakeSnapshot(fill)), steps, fill.sourceWallet);
  }

  // ---------------------------------------------------------------------------------------------
  // Resuming a wallet has no effect
  // ---------------------------------------------------------------------------------------------

  /** The state with the set of stopped wallets forgotten. */
  function Forget(e: Engine): Engine {
    e.(tracker := e.tracker.(stopped := {}))
  }

  function ForgetMachine(m: Machine): Machine {
    m.(engine := Forget(m.engine))
  }

  function ForgetObservation(o: Observation): Observation {
    if o.FillCommitted? then o.(before := Forget(o.before), after := Forget(o.after)) else o
  }

  function ForgetLog(log: seq<Observation>): seq<Observation> {
    if log == [] then [] else [ForgetObservation(log[0])] + ForgetLog(log[1..])
  }

  function WithoutResumes(steps: seq<Step>): seq<Step> {
    if steps == [] then []
    else if steps[0].ResumeWallet? then WithoutResumes(steps[1..])
    else [steps[0]] + WithoutResumes(steps[1..])
  }

  lemma ForgetSnap(a: Engine, b: Engine, config: EngineConfig, fill: SourceFillEvent)
    requires Forget(a) == Forget(b)
    ensures Forget(Snap(a, config, fill).0) == Forget(Snap(b, config, fill).0)
    ensures Snap(a, config, fill).1 == Snap(b, config, fill).1
  {
    SameChecks(a.tracker, b.tracker, fill.sourceWallet);
  }

  lemma SameChecks(a: Tracker, b: Tracker, wallet: string)
    requires a.(stopped := {}) == b.(stopped := {})
    ensures CheckAutoStop(a, wallet) == CheckAutoStop(b, wallet)
  {
    assert a.records == b.records && a.config == b.config;
  }

  lemma ForgetCommit(a: Engine, b: Engine, signal: CopySignal, pnl: real)
    requires Forget(a) == Forget(b)
    ensures Forget(CommitFill(a, signal, pnl)) == Forget(CommitFill(b, signal, pnl))
  {
    assert a.tracker.records == b.tracker.records && a.marketExposureUsd == b.marketExposureUsd;
  }

  lemma ForgetInterfere(a: Engine, b: Engine, step: Step)
    requires Forget(a) == Forget(b)
    ensures Forget(Interfere(a, step)) == Forget(Interfere(b, step))
  {
  }

  lemma ForgetNext(config: EngineConfig, a: Machine, b: Machine, step: Step)
    requires ForgetMachine(a) == ForgetMachine(b)
    ensures ForgetMachine(Next(config, a, step)) == ForgetMachine(Next(config, b, step))
  {
    match step
    case TakeSnapshot(fill) => ForgetSnap(a.engine, b.engine, config, fill);
    case Commit =>
      if a.phase.Executed? {
        ForgetCommit(a.engine, b.engine, a.phase.signal, EstimatedPnl(a.phase.signal, a.phase.result));
      }
    case _ => ForgetInterfere(a.engine, b.engine, step);
  }

  lemma ForgetStep(config: EngineConfig, a: Machine, b: Machine, step: Step)
    requires ForgetMachine(a) == ForgetMachine(b)
    ensures ForgetMachine(Next(config, a, step)) == ForgetMachine(Next(config, b, step))
    ensures ForgetLog(Observe(config, a, step)) == ForgetLog(Observe(config, b, step))
  {
    ForgetNext(config, a, b, step);
    if step.TakeSnapshot? {
      ForgetSnap(a.engine, b.engine, config, step.fill);
    }
  }

  lemma {:induction false} ForgetLogAppend(x: seq<Observation>, y: seq<Observation>)
    ensures ForgetLog(x + y) == ForgetLog(x) + ForgetLog(y)
  {
    if x == [] {
      assert x + y == y;
      assert ForgetLog(x) + ForgetLog(y) == ForgetLog(y);
    } else {
      ForgetLogAppend(x[1..], y);
      assert (x + y)[0] == x[0] && (x + y)[1..] == x[1..] + y;
      Associative([ForgetObservation(x[0])], ForgetLog(x[1..]), ForgetLog(y));
    }
  }

  /**
   * Erasing every `resume_wallet` from a run, and starting from any other set of stopped wallets, changes nothing but
   * that set: the same snapshots, orders and commits happen, and the same state results.
   */
  lemma {:induction false} ResumeWalletIsIrrelevant(config: EngineConfig, a: Machine, b: Machine, steps: seq<Step>)
    requires ForgetMachine(a) == ForgetMachine(b)
    ensures ForgetMachine(Run(config, a, steps)) == ForgetMachine(Run(config, b, WithoutResumes(steps)))
    ensures ForgetLog(Log(config, a, steps)) == ForgetLog(Log(config, b, WithoutResumes(steps)))
    decreases |steps|
  {
    if steps != [] {
      var step, rest := steps[0], steps[1..];
      if step.ResumeWallet? {
        ResumeWalletIsIrrelevant(config, Next(config, a, step), b, rest);
        var later := Log(config, Next(config, a, step), rest);
        assert Observe(config, a, step) + later == later;
      } else {
        var others := WithoutResumes(steps);
        assert others[1..] == WithoutResumes(rest);
        ForgetStep(config, a, b, step);
        ResumeWalletIsIrrelevant(config, Next(config, a, step), Next(config, b, step), rest);
        ForgetLogAppend(Observe(config, a, step), Log(config, Next(config, a, step), rest));
        ForgetLogAppend(Observe(config, b, step), Log(config, Next(config, b, step), others[1..]));
      }
    }
  }

  // ---------------------------------------------------------------------------------------------
  // Dry runs
  // ---------------------------------------------------------------------------------------------

  /** A dry-run fill books a gain exactly if the order's limit price beats the source's. */
  lemma DryRunGainExactly(config: EngineConfig, fill: SourceFillEvent, snap: Snapshot, replies: seq<VenueReply>)
    requires DecideFill(config, fill, snap).Order?
    requires snap.settings.mode.DryRun? && snap.settings.limitPriceOffset >= 0.0
    ensures var d := DecideFill(config, fill, snap);
            var result := ExecuteOrder(config, snap, d.intent, replies).result;
            && result.success
            && (EstimatedPnl(d.signal, result) > 0.0
                <==> LimitBeats(fill.side, fill.sourcePrice, snap.settings.limitPriceOffset))
  {
    OrderedSignal(config, fill, snap);
    var d := DecideFill(config, fill, snap);
    LimitBeatsSourceExactly(d.signal, snap.settings);
    SimulatedPnlSign(d.signal, d.intent, ExecuteOrder(config, snap, d.intent, replies).result);
  }

  lemma SimulatedPnlSign(signal: CopySignal, intent: ExecutionIntent, result: ExecutionResult)
    requires signal.copyQuantity > 0.0 && result.filledQuantity == signal.copyQuantity
    requires result.averageFillPrice == Some(intent.limitPrice)
    ensures EstimatedPnl(signal, result) > 0.0 <==>
              if signal.side.Buy? then intent.limitPrice < signal.sourcePrice
              else intent.limitPrice > signal.sourcePrice
  {
    SignOfProduct(intent.limitPrice - signal.sourcePrice, signal.copyQuantity);
  }

  lemma SignOfProduct(x: real, q: real)
    requires q > 0.0
    ensures x * q > 0.0 <==> x > 0.0
    ensures x * q < 0.0 <==> x < 0.0
  {
  }

  /** The settings of an all-dry-run engine with the automatic stop armed. */
  predicate DryArmed(settings: RuntimeSettings, stop: AutoStopConfig) {
    && settings.mode.DryRun? && settings.limitPriceOffset >= 0.0001
    && stop.enabled && stop.minWinRatePercent > 0.0
  }

  /** The run stays dry, keeps its stop configuration, and sees source prices inside the clamp. */
  predicate DrySteps(steps: seq<Step>) {
    forall i :: 0 <= i < |steps| ==>
      && !steps[i].SetAutoStop?
      && (steps[i].SetMode? ==> steps[i].mode.DryRun?)
      && (steps[i].TakeSnapshot? ==> 0.001 <= steps[i].fill.sourcePrice <= 0.999)
  }

  function MaxCopies(stop: AutoStopConfig): nat {
    if stop.minTradesBeforeStop >= 1 then stop.minTradesBeforeStop else 1
  }

  /** No wallet has ever won; and none has traded past its allowance, counting the trade under way. */
  ghost predicate Losing(t: Tracker) {
    forall w :: w in t.records ==>
      && t.records[w].winningTrades == 0 && t.records[w].winRate == 0.0
      && 1 <= t.records[w].totalTrades <= MaxCopies(t.config)
  }

  function Trades(t: Tracker, wallet: string): nat {
    if wallet in t.records then t.records[wallet].totalTrades else 0
  }

  ghost predicate DryRunning(config: EngineConfig, m: Machine) {
    && Decided(config, m)
    && DryArmed(m.engine.settings, m.engine.tracker.config)
    && Losing(m.engine.tracker)
    && (InFlight(m.phase) ==>
        && DryArmed(m.phase.snap.settings, m.engine.tracker.config)
        && 0.001 <= m.phase.fill.sourcePrice <= 0.999
        && m.phase.snap.autoStop == CheckAutoStop(m.engine.tracker, m.phase.fill.sourceWallet))
    && (m.phase.Executed? ==> EstimatedPnl(m.phase.signal, m.phase.result) <= 0.0)
  }

  /** A wallet that passed the check still has an allowance. */
  lemma PassedCheckHasRoom(t: Tracker, wallet: string)
    requires Losing(t) && t.config.enabled && t.config.minWinRatePercent > 0.0 && CheckAutoStop(t, wallet).None?
    ensures Trades(t, wallet) < MaxCopies(t.config)
  {
  }

  lemma LosingTrade(t: Tracker, wallet: string, pnl: real)
    requires Losing(t) && pnl <= 0.0 && Trades(t, wallet) < MaxCopies(t.config)
    ensures Losing(TrackerWithTrade(t, wallet, pnl))
  {
  }

  lemma DryStep(config: EngineConfig, m: Machine, step: Step)
    requires DryRunning(config, m) && DrySteps([step])
    ensures DryRunning(config, Next(config, m, step))
    ensures forall o :: o in Observe(config, m, step) && o.FillCommitted? ==> o.pnl <= 0.0
  {
    assert [step][0] == step;
    NextDecided(config, m, step);
    if m.phase.Ordering? && step.Execute? {
      OrderedSignal(config, m.phase.fill, m.phase.snap);
      DryRunGainExactly(config, m.phase.fill, m.phase.snap, step.replies);
    } else if m.phase.Executed? && step.Commit? {
      OrderedSignal(config, m.phase.fill, m.phase.snap);
      PassedCheckHasRoom(m.engine.tracker, m.phase.fill.sourceWallet);
      LosingTrade(m.engine.tracker, m.phase.fill.sourceWallet, EstimatedPnl(m.phase.signal, m.phase.result));
    }
  }

  function CopiesOf(log: seq<Observation>, wallet: string): nat {
    if log == [] then 0
    else (if log[0].FillCommitted? && log[0].signal.sourceWallet == wallet then 1 else 0) + CopiesOf(log[1..], wallet)
  }

  /** The step commits a copy of this wallet. */
  predicate Copies(m: Machine, step: Step, wallet: string) {
    Commits(m, step) && m.phase.signal.sourceWallet == wallet
  }

  lemma {:induction false} CopiesOfStep(config: EngineConfig, m: Machine, step: Step, rest: seq<Observation>,
                                        wallet: string)
    ensures CopiesOf(Observe(config, m, step) + rest, wallet)
         == CopiesOf(rest, wallet) + if Copies(m, step, wallet) then 1 else 0
  {
    var now := Observe(config, m, step);
    if now == [] {
      assert now + rest == rest;
    } else {
      assert (now + rest)[1..] == rest;
    }
  }

  lemma TradesOfStep(config: EngineConfig, m: Machine, step: Step, wallet: string)
    ensures Trades(Next(config, m, step).engine.tracker, wallet)
         == Trades(m.engine.tracker, wallet) + if Copies(m, step, wallet) then 1 else 0
  {
    RecordsUntouched(config, m, step);
  }

  /** The copies of a wallet over a run are the growth of its record. */
  lemma {:induction false} DryRun(config: EngineConfig, m: Machine, steps: seq<Step>, wallet: string)
    requires DryRunning(config, m) && DrySteps(steps)
    ensures DryRunning(config, Run(config, m, steps))
    ensures Run(config, m, steps).engine.tracker.config == m.engine.tracker.config
    ensures Trades(Run(config, m, steps).engine.tracker, wallet)
         == Trades(m.engine.tracker, wallet) + CopiesOf(Log(config, m, steps), wallet)
    ensures forall o :: o in Log(config, m, steps) && o.FillCommitted? ==> o.pnl <= 0.0
    decreases |steps|
  {
    if steps != [] {
      assert [steps[0]][0] == steps[0] && DrySteps([steps[0]]) && DrySteps(steps[1..]);
      DryStep(config, m, steps[0]);
      RecordsUntouched(config, m, steps[0]);
      TradesOfStep(config, m, steps[0], wallet);
      CopiesOfStep(config, m, steps[0], Log(config, Next(config, m, steps[0]), steps[1..]), wallet);
      DryRun(config, Next(config, m, steps[0]), steps[1..], wallet);
    }
  }

  /**
   * In a dry run with the stop armed and source prices inside the clamp, no copied trade books a gain, and so every
   * wallet is copied at most `max(1, min_trades_before_stop)` times, however long the run.
   */
  lemma {:induction false} DryRunStarves(config: EngineConfig, e: Engine, steps: seq<Step>, wallet: string)
    requires e.tracker.records == map[] && DryArmed(e.settings, e.tracker.config) && DrySteps(steps)
    ensures CopiesOf(Log(config, Machine(e, Idle), steps), wallet) <= MaxCopies(e.tracker.config)
    ensures forall o :: o in Log(config, Machine(e, Idle), steps) && o.FillCommitted? ==> o.pnl <= 0.0
  {
    DryRun(config, Machine(e, Idle), steps, wallet);
  }
}
