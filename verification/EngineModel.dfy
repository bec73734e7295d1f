/**
 * The copy engine as interleaved steps. One task handles fills: it takes a snapshot under the lock, decides and
 * executes without it, and commits under it again. Every other task's step can fall between any two of these.
 */
module EngineModel {
  import opened Types
  import opened Rounding
  import opened Signals
  import opened Execution
  import opened Performance
  import Dedupe
  import Reconciliation

  datatype EngineConfig = EngineConfig(
    sourceEquityFallbackUsd: real, hasExecutionApi: bool, allowLiveSimulation: bool, dedupeSize: nat)

  /** The shared state the fill task and the other tasks work on. */
  datatype Engine = Engine(
    settings: RuntimeSettings,
    dailyNotionalUsd: real,
    openPositionsCount: U32,
    marketExposureUsd: map<string, real>,
    recentIds: seq<string>,
    tracker: Tracker,
    tradingDay: int)

  /** What the fill task carries out of its first critical section. */
  datatype Snapshot = Snapshot(
    settings: RuntimeSettings,
    marketExposure: real,
    dailyNotional: real,
    openPositions: U32,
    duplicate: bool,
    autoStop: Option<AutoStopReason>)

  datatype Phase =
    | Idle
    | Snapshotted(fill: SourceFillEvent, snap: Snapshot)
    | Stopping(fill: SourceFillEvent)
    | Ordering(fill: SourceFillEvent, snap: Snapshot, signal: CopySignal, intent: ExecutionIntent)
    | Executed(fill: SourceFillEvent, snap: Snapshot, signal: CopySignal, result: ExecutionResult)

  datatype Machine = Machine(engine: Engine, phase: Phase)

  datatype CapsParams = CapsParams(
    maxCopyNotionalPerTrade: Option<real>,
    maxMarketExposureUsd: Option<real>,
    maxDailyNotionalUsd: Option<real>,
    maxOpenPositions: Option<U32>)

  datatype AutoStopParams = AutoStopParams(
    enabled: Option<bool>,
    minWinRatePercent: Option<real>,
    maxDrawdownUsd: Option<real>,
    minTradesBeforeStop: Option<nat>)

  datatype Step =
    // the fill task
    | TakeSnapshot(fill: SourceFillEvent)
    | Decide
    | MarkStopped
    | Execute(replies: seq<VenueReply>)
    | Commit
    | ResetDaily(today: int)
    | UserFill(market: string, side: TradeSide, size: real, price: real)
    // the other tasks
    | SetCaps(params: CapsParams)
    | SetMode(mode: EngineMode)
    | SetRiskProfile(profile: RiskProfile)
    | SetMultiplier(multiplier: real)
    | SetFollowerEquity(equity: real)
    | SetCopySells(copySells: bool)
    | PauseTrading
    | ResumeTrading
    | PanicClose
    | CriticalPause
    | AutoCorrect(positions: seq<Reconciliation.ExchangePosition>)
    | SetAutoStop(stopParams: AutoStopParams)
    | ResumeWallet(wallet: string)

  function ExposureOf(e: Engine, market: string): real {
    if market in e.marketExposureUsd then e.marketExposureUsd[market] else 0.0
  }

  // ---------------------------------------------------------------------------------------------
  // The fill task
  // ---------------------------------------------------------------------------------------------

  /** The first critical section. The id is recorded before any other check. */
  function Snap(e: Engine, config: EngineConfig, fill: SourceFillEvent): (Engine, Snapshot) {
    var (isNew, ids) := Dedupe.Admit(e.recentIds, config.dedupeSize, fill.executionId);
    (e.(recentIds := ids),
     Snapshot(e.settings, ExposureOf(e, fill.marketSlug), e.dailyNotionalUsd, e.openPositionsCount, !isNew,
              CheckAutoStop(e.tracker, fill.sourceWallet)))
  }

  datatype Decision = Ignore | StopWallet | Order(signal: CopySignal, intent: ExecutionIntent)

  /** Everything between the two critical sections except the execution, from the snapshot alone. */
  function DecideFill(config: EngineConfig, fill: SourceFillEvent, snap: Snapshot): Decision {
    if snap.duplicate then Ignore
    else if snap.autoStop.Some? then StopWallet
    else if snap.settings.paused then Ignore
    else if !snap.settings.copySells && fill.side.Sell? then Ignore
    else
      match BuildCopySignal(fill, snap.settings, config.sourceEquityFallbackUsd)
      case None => Ignore
      case Some(raw) =>
        BuiltSignalShape(fill, snap.settings, config.sourceEquityFallbackUsd);
        match EvaluateSignal(raw, snap.settings, snap.marketExposure, snap.dailyNotional, snap.openPositions)
        case Block(_, _) => Ignore
        case Allow(signal, _) => Order(signal, BuildExecutionIntent(signal, snap.settings))
  }

  function ExecuteOrder(config: EngineConfig, snap: Snapshot, intent: ExecutionIntent, replies: seq<VenueReply>)
    : Outcome
  {
    Execution.Execute(snap.settings.mode, config.hasExecutionApi, config.allowLiveSimulation, snap.settings, intent,
                      replies)
  }

  function EstimatedPnl(signal: CopySignal, result: ExecutionResult): real {
    if result.averageFillPrice.None? then 0.0
    else
      var pnl := (result.averageFillPrice.value - signal.sourcePrice) * result.filledQuantity;
      if signal.side.Buy? then -pnl else pnl
  }

  function SaturatingIncrement(n: U32): U32 { if n == U32_MAX then n else n + 1 }

  function SaturatingDecrement(n: U32): U32 { if n == 0 then n else n - 1 }

  function ExposureAfter(exposure: real, side: TradeSide, notional: real): real {
    if side.Buy? then exposure + notional else Max(exposure - notional, 0.0)
  }

  function PositionsAfter(count: U32, side: TradeSide): U32 {
    if side.Buy? then SaturatingIncrement(count) else SaturatingDecrement(count)
  }

  /** The second critical section. It books the signal's notional, not the filled quantity. */
  function CommitFill(e: Engine, signal: CopySignal, pnl: real): Engine {
    e.(dailyNotionalUsd := e.dailyNotionalUsd + signal.copyNotionalUsd,
       tracker := TrackerWithTrade(e.tracker, signal.sourceWallet, pnl),
       marketExposureUsd := e.marketExposureUsd[signal.marketSlug :=
         ExposureAfter(ExposureOf(e, signal.marketSlug), signal.side, signal.copyNotionalUsd)],
       openPositionsCount := PositionsAfter(e.openPositionsCount, signal.side))
  }

  function Reset(e: Engine, today: int): Engine {
    if today == e.tradingDay then e else e.(dailyNotionalUsd := 0.0, tradingDay := today)
  }

  function BookUserFill(e: Engine, market: string, side: TradeSide, size: real, price: real): Engine {
    e.(marketExposureUsd := e.marketExposureUsd[market := ExposureAfter(ExposureOf(e, market), side, size * price)])
  }

  // ---------------------------------------------------------------------------------------------
  // The other tasks
  // ---------------------------------------------------------------------------------------------

  function OverCap(v: Option<real>): bool { v.Some? && v.value <= 0.0 }

  /** The caps after `set_caps`, which writes field by field up to the first bad value, and whether it succeeded. */
  function CapsAfter(caps: Caps, p: CapsParams): (Caps, bool) {
    if OverCap(p.maxCopyNotionalPerTrade) then (caps, false)
    else
      var c1 := caps.(maxCopyNotionalPerTrade := GetOr(p.maxCopyNotionalPerTrade, caps.maxCopyNotionalPerTrade));
      if OverCap(p.maxMarketExposureUsd) then (c1, false)
      else
        var c2 := c1.(maxMarketExposureUsd := GetOr(p.maxMarketExposureUsd, caps.maxMarketExposureUsd));
        if OverCap(p.maxDailyNotionalUsd) then (c2, false)
        else
          var c3 := c2.(maxDailyNotionalUsd := GetOr(p.maxDailyNotionalUsd, caps.maxDailyNotionalUsd));
          if p.maxOpenPositions == Some(0) then (c3, false)
          else (c3.(maxOpenPositions := GetOr(p.maxOpenPositions, caps.maxOpenPositions)), true)
  }

  function WithCaps(e: Engine, p: CapsParams): Engine {
    e.(settings := e.settings.(caps := CapsAfter(e.settings.caps, p).0))
  }

  function WithPaused(e: Engine, paused: bool): Engine {
    e.(settings := e.settings.(paused := paused))
  }

  function Correct(e: Engine, positions: seq<Reconciliation.ExchangePosition>): Engine {
    e.(marketExposureUsd := Reconciliation.Corrected(positions),
       openPositionsCount := |positions| % (U32_MAX + 1))
  }

  function StopConfigAfter(c: AutoStopConfig, p: AutoStopParams): AutoStopConfig {
    AutoStopConfig(GetOr(p.enabled, c.enabled), GetOr(p.minWinRatePercent, c.minWinRatePercent),
                   GetOr(p.maxDrawdownUsd, c.maxDrawdownUsd), GetOr(p.minTradesBeforeStop, c.minTradesBeforeStop))
  }

  function WithAutoStop(e: Engine, p: AutoStopParams): Engine {
    var c := StopConfigAfter(e.tracker.config, p);
    e.(settings := e.settings.(autoStopConfig := c), tracker := e.tracker.(config := c))
  }

  function WithStopped(e: Engine, wallet: string): Engine {
    e.(tracker := e.tracker.(stopped := e.tracker.stopped + {wallet}))
  }

  function WithResumed(e: Engine, wallet: string): Engine {
    e.(tracker := e.tracker.(stopped := e.tracker.stopped - {wallet}))
  }

  /** A step of another task. Rejected parameters change nothing, except in `set_caps`. */
  function Interfere(e: Engine, step: Step): Engine {
    match step
    case SetCaps(p) => WithCaps(e, p)
    case SetMode(mode) => e.(settings := e.settings.(mode := mode))
    case SetRiskProfile(profile) => e.(settings := e.settings.(riskProfile := profile))
    case SetMultiplier(x) => if x <= 0.0 then e else e.(settings := e.settings.(multiplier := x))
    case SetFollowerEquity(x) => if x <= 0.0 then e else e.(settings := e.settings.(followerEquityUsd := x))
    case SetCopySells(b) => e.(settings := e.settings.(copySells := b))
    case PauseTrading => WithPaused(e, true)
    case ResumeTrading => WithPaused(e, false)
    case PanicClose => WithPaused(e, true)
    case CriticalPause => WithPaused(e, true)
    case AutoCorrect(positions) => Correct(e, positions)
    case SetAutoStop(p) => WithAutoStop(e, p)
    case ResumeWallet(w) => WithResumed(e, w)
    case _ => e
  }

  /** The fill task's two steps without the lock touch nothing but what it carries. */
  function AfterDecision(config: EngineConfig, phase: Phase): Phase {
    if !phase.Snapshotted? then phase
    else
      match DecideFill(config, phase.fill, phase.snap)
      case Ignore => Idle
      case StopWallet => Stopping(phase.fill)
      case Order(signal, intent) => Ordering(phase.fill, phase.snap, signal, intent)
  }

  function AfterExecution(config: EngineConfig, phase: Phase, replies: seq<VenueReply>): Phase {
    if !phase.Ordering? then phase
    else
      var result := ExecuteOrder(config, phase.snap, phase.intent, replies).result;
      if result.success then Executed(phase.fill, phase.snap, phase.signal, result) else Idle
  }

  /** The machine's transition; a fill-task step that is not the next one to come leaves the machine as it is. */
  function Next(config: EngineConfig, m: Machine, step: Step): Machine {
    match step
    case TakeSnapshot(fill) =>
      if !m.phase.Idle? then m
      else
        var (e, snap) := Snap(m.engine, config, fill);
        Machine(e, Snapshotted(fill, snap))
    case Decide => m.(phase := AfterDecision(config, m.phase))
    case MarkStopped =>
      if !m.phase.Stopping? then m else Machine(WithStopped(m.engine, m.phase.fill.sourceWallet), Idle)
    case Execute(replies) => m.(phase := AfterExecution(config, m.phase, replies))
    case Commit =>
      if !m.phase.Executed? then m
      else Machine(CommitFill(m.engine, m.phase.signal, EstimatedPnl(m.phase.signal, m.phase.result)), Idle)
    case ResetDaily(today) =>
      if !m.phase.Idle? then m else m.(engine := Reset(m.engine, today))
    case UserFill(market, side, size, price) =>
      if !m.phase.Idle? then m else m.(engine := BookUserFill(m.engine, market, side, size, price))
    case _ => m.(engine := Interfere(m.engine, step))
  }

  function Run(config: EngineConfig, m: Machine, steps: seq<Step>): Machine
    decreases |steps|
  {
    if steps == [] then m else Run(config, Next(config, m, steps[0]), steps[1..])
  }

  lemma {:induction false} RunCons(config: EngineConfig, m: Machine, step: Step, rest: seq<Step>)
    ensures Run(config, m, [step] + rest) == Run(config, Next(config, m, step), rest)
  {
    assert ([step] + rest)[1..] == rest;
  }

  lemma {:induction false} RunSnoc(config: EngineConfig, m: Machine, steps: seq<Step>, step: Step)
    ensures Run(config, m, steps + [step]) == Next(config, Run(config, m, steps), step)
    decreases |steps|
  {
    if steps == [] {
      assert steps + [step] == [step] + [];
    } else {
      assert (steps + [step])[1..] == steps[1..] + [step];
      RunSnoc(config, Next(config, m, steps[0]), steps[1..], step);
    }
  }

  // ---------------------------------------------------------------------------------------------
  // What an observer sees of a run
  // ---------------------------------------------------------------------------------------------

  datatype Observation =
    | SnapshotTaken(fill: SourceFillEvent, snap: Snapshot)
    | OrderExecuted(fill: SourceFillEvent, snap: Snapshot)
    | FillCommitted(snap: Snapshot, signal: CopySignal, pnl: real, before: Engine, after: Engine)

  function Observe(config: EngineConfig, m: Machine, step: Step): seq<Observation> {
    match step
    case TakeSnapshot(fill) =>
      if m.phase.Idle? then [SnapshotTaken(fill, Snap(m.engine, config, fill).1)] else []
    case Execute(_) =>
      if m.phase.Ordering? then [OrderExecuted(m.phase.fill, m.phase.snap)] else []
    case Commit =>
      if m.phase.Executed? then
        [FillCommitted(m.phase.snap, m.phase.signal, EstimatedPnl(m.phase.signal, m.phase.result), m.engine,
                       Next(config, m, step).engine)]
      else []
    case _ => []
  }

  function Log(config: EngineConfig, m: Machine, steps: seq<Step>): seq<Observation>
    decreases |steps|
  {
    if steps == [] then []
    else Observe(config, m, steps[0]) + Log(config, Next(config, m, steps[0]), steps[1..])
  }

  lemma {:induction false} LogSnoc(config: EngineConfig, m: Machine, steps: seq<Step>, step: Step)
    ensures Log(config, m, steps + [step]) == Log(config, m, steps) + Observe(config, Run(config, m, steps), step)
    decreases |steps|
  {
    if steps == [] {
      assert steps + [step] == [step] && [step][1..] == [];
    } else {
      assert (steps + [step])[1..] == steps[1..] + [step];
      LogSnoc(config, Next(config, m, steps[0]), steps[1..], step);
    }
  }

  /** The fill task carries this fill towards an order. */
  predicate InFlight(phase: Phase) {
    phase.Snapshotted? || phase.Ordering? || phase.Executed?
  }

  /** A signal about to be executed or committed is the one its own snapshot decided on. */
  ghost predicate Decided(config: EngineConfig, m: Machine) {
    && (m.phase.Ordering? ==>
        DecideFill(config, m.phase.fill, m.phase.snap) == Order(m.phase.signal, m.phase.intent))
    && (m.phase.Executed? ==>
        && DecideFill(config, m.phase.fill, m.phase.snap).Order?
        && DecideFill(config, m.phase.fill, m.phase.snap).signal == m.phase.signal)
  }

  lemma NextDecided(config: EngineConfig, m: Machine, step: Step)
    requires Decided(config, m)
    ensures Decided(config, Next(config, m, step))
  {
  }

  /** The step commits the fill under way. */
  predicate Commits(m: Machine, step: Step) {
    step.Commit? && m.phase.Executed?
  }

  /** Only commits, auto-corrects and the bot's own fills move exposures and the position count. */
  lemma ExposureUntouched(config: EngineConfig, m: Machine, step: Step)
    requires !Commits(m, step) && !step.AutoCorrect? && !(step.UserFill? && m.phase.Idle?)
    ensures Next(config, m, step).engine.marketExposureUsd == m.engine.marketExposureUsd
    ensures Next(config, m, step).engine.openPositionsCount == m.engine.openPositionsCount
  {
  }

  /** Only commits and resets move the daily notional. */
  lemma DailyUntouched(config: EngineConfig, m: Machine, step: Step)
    requires !Commits(m, step)
    ensures var daily := Next(config, m, step).engine.dailyNotionalUsd;
            daily == m.engine.dailyNotionalUsd || (step.ResetDaily? && m.phase.Idle? && daily == 0.0)
  {
  }

  /** Only commits move the wallets' records, and only `set_auto_stop` the stop configuration. */
  lemma RecordsUntouched(config: EngineConfig, m: Machine, step: Step)
    ensures !Commits(m, step) ==> Next(config, m, step).engine.tracker.records == m.engine.tracker.records
    ensures !step.SetAutoStop? ==> Next(config, m, step).engine.tracker.config == m.engine.tracker.config
  {
  }

  /** What an order's decision guarantees about its signal. */
  lemma OrderedSignal(config: EngineConfig, fill: SourceFillEvent, snap: Snapshot)
    requires DecideFill(config, fill, snap).Order?
    ensures !snap.duplicate && snap.autoStop.None? && !snap.settings.paused
    ensures var s := DecideFill(config, fill, snap).signal;
            && s.executionId == fill.executionId && s.sourceWallet == fill.sourceWallet
            && s.marketSlug == fill.marketSlug && s.side == fill.side && s.sourcePrice == fill.sourcePrice > 0.0
            && s.copyNotionalUsd > 0.0 && s.copyQuantity > 0.0
            && s.copyNotionalUsd + Max(snap.marketExposure, 0.0) <= snap.settings.caps.maxMarketExposureUsd
            && s.copyNotionalUsd + Max(snap.dailyNotional, 0.0) <= snap.settings.caps.maxDailyNotionalUsd
            && snap.openPositions < snap.settings.caps.maxOpenPositions
            && DecideFill(config, fill, snap).intent == BuildExecutionIntent(s, snap.settings)
  {
    BuiltSignalShape(fill, snap.settings, config.sourceEquityFallbackUsd);
    var raw := BuildCopySignal(fill, snap.settings, config.sourceEquityFallbackUsd).value;
    AllowedFits(raw, snap.settings, snap.marketExposure, snap.dailyNotional, snap.openPositions);
  }

  /** The position of the first bad field given to `set_caps`, in the order it looks at them; four if there is none. */
  function FirstBad(p: CapsParams): (k: nat)
    ensures k <= 4
  {
    if OverCap(p.maxCopyNotionalPerTrade) then 0
    else if OverCap(p.maxMarketExposureUsd) then 1
    else if OverCap(p.maxDailyNotionalUsd) then 2
    else if p.maxOpenPositions == Some(0) then 3
    else 4
  }

  /** The k-th field is given with another value than the caps have. */
  predicate GivesOther(caps: Caps, p: CapsParams, k: nat) {
    match k
    case 0 => GetOr(p.maxCopyNotionalPerTrade, caps.maxCopyNotionalPerTrade) != caps.maxCopyNotionalPerTrade
    case 1 => GetOr(p.maxMarketExposureUsd, caps.maxMarketExposureUsd) != caps.maxMarketExposureUsd
    case 2 => GetOr(p.maxDailyNotionalUsd, caps.maxDailyNotionalUsd) != caps.maxDailyNotionalUsd
    case 3 => GetOr(p.maxOpenPositions, caps.maxOpenPositions) != caps.maxOpenPositions
    case _ => false
  }

  /**
   * `set_caps` succeeds exactly if no field is bad; succeeding or not, it has written exactly the fields before the
   * first bad one. So a rejected call changes the caps exactly if one of these is given with another value.
   */
  lemma SetCapsWritesUpToFirstBad(caps: Caps, p: CapsParams)
    ensures var (after, ok) := CapsAfter(caps, p);
            var bad := FirstBad(p);
            && (ok <==> bad == 4)
            && (after != caps <==> exists k :: 0 <= k < bad && GivesOther(caps, p, k))
            && after.maxCopyNotionalPerTrade
               == (if bad > 0 then GetOr(p.maxCopyNotionalPerTrade, caps.maxCopyNotionalPerTrade)
                   else caps.maxCopyNotionalPerTrade)
            && after.maxMarketExposureUsd
               == (if bad > 1 then GetOr(p.maxMarketExposureUsd, caps.maxMarketExposureUsd)
                   else caps.maxMarketExposureUsd)
            && after.maxDailyNotionalUsd
               == (if bad > 2 then GetOr(p.maxDailyNotionalUsd, caps.maxDailyNotionalUsd)
                   else caps.maxDailyNotionalUsd)
            && after.maxOpenPositions
               == (if bad > 3 then GetOr(p.maxOpenPositions, caps.maxOpenPositions) else caps.maxOpenPositions)
  {
    var after := CapsAfter(caps, p).0;
    if after != caps {
      assert GivesOther(caps, p, 0) || GivesOther(caps, p, 1) || GivesOther(caps, p, 2) || GivesOther(caps, p, 3);
    }
  }

  /** A rejected call that has raised the trade cap: the second field is bad. */
  lemma RejectedCapsStillWrite()
    ensures var p := CapsParams(Some(2.0), Some(0.0), None, None);
            CapsAfter(Caps(1.0, 1.0, 1.0, 1), p) == (Caps(2.0, 1.0, 1.0, 1), false)
  {
  }

  /** Whatever `set_caps` leaves written, succeeding or not, positive caps stay positive. */
  lemma SetCapsKeepsPositive(caps: Caps, p: CapsParams)
    ensures var (after, _) := CapsAfter(caps, p);
            && (caps.maxCopyNotionalPerTrade > 0.0 ==> after.maxCopyNotionalPerTrade > 0.0)
            && (caps.maxMarketExposureUsd > 0.0 ==> after.maxMarketExposureUsd > 0.0)
            && (caps.maxDailyNotionalUsd > 0.0 ==> after.maxDailyNotionalUsd > 0.0)
            && (caps.maxOpenPositions > 0 ==> after.maxOpenPositions > 0)
  {
  }
}
