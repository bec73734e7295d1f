/** Which fills are copied, at what size and price, and what a copy does to the engine: in a fill's own fields. */
module EngineOrders {
  import opened Types
  import opened Rounding
  import opened Signals
  import opened Execution
  import opened Performance
  import opened EngineModel

  /** What a fill may be copied for: the least of its floored share and of what three caps leave. */
  function Room(share: real, settings: RuntimeSettings, exposure: real, daily: real): (room: real)
    ensures IsLeast(room, {RoundDown4(share), settings.caps.maxCopyNotionalPerTrade,
                           settings.caps.maxMarketExposureUsd - (if exposure > 0.0 then exposure else 0.0),
                           settings.caps.maxDailyNotionalUsd - (if daily > 0.0 then daily else 0.0)})
  {
    Min(Min(Min(RoundDown4(share), settings.caps.maxCopyNotionalPerTrade), MarketRemaining(settings, exposure)),
        DailyRemaining(settings, daily))
  }

  /** The notional of the copy: the floor of the room. */
  function CopyNotional(fill: SourceFillEvent, settings: RuntimeSettings, fallbackEquity: real, exposure: real,
                        daily: real): real
    requires SourceEquity(fill, fallbackEquity) > 0.0
  {
    RoundDown4(Room(Share(fill, settings, fallbackEquity), settings, exposure, daily))
  }

  /** Nothing in the settings or the engine's figures keeps this fill from being copied. */
  predicate Clear(fill: SourceFillEvent, settings: RuntimeSettings, fallbackEquity: real, exposure: real, daily: real,
                  open: U32) {
    && !settings.paused
    && (fill.side.Buy? || settings.copySells)
    && fill.sourceTradeNotionalUsd > 0.0 && fill.sourcePrice > 0.0 && SourceEquity(fill, fallbackEquity) > 0.0
    && open < settings.caps.maxOpenPositions
    && fill.expectedEdgeBps > settings.feeBps + settings.slippageBps
         + (match settings.riskProfile case Conservative => 8.0 case Balanced => 12.0 case Aggressive => 16.0)
    && CopyNotional(fill, settings, fallbackEquity, exposure, daily) >= 0.0001 * fill.sourcePrice
  }

  /**
   * A fill is ordered exactly if its snapshot finds it new, its wallet not stopped, and the way clear; then for the
   * floor of its room. A new fill of a stopped wallet is what stops the wallet, paused or not.
   */
  lemma OrderedExactly(config: EngineConfig, fill: SourceFillEvent, snap: Snapshot)
    ensures var d := DecideFill(config, fill, snap);
            var fallback := config.sourceEquityFallbackUsd;
            && (d.StopWallet? <==> !snap.duplicate && snap.autoStop.Some?)
            && (d.Order? <==>
                && !snap.duplicate && snap.autoStop.None?
                && Clear(fill, snap.settings, fallback, snap.marketExposure, snap.dailyNotional, snap.openPositions))
            && (d.Order? ==>
                && Copies(d.signal, fill, CopyNotional(fill, snap.settings, fallback, snap.marketExposure,
                                                       snap.dailyNotional))
                && d.intent == BuildExecutionIntent(d.signal, snap.settings))
  {
    ClearExactly(fill, snap.settings, config.sourceEquityFallbackUsd, snap.marketExposure, snap.dailyNotional,
                 snap.openPositions);
  }

  lemma ClearExactly(fill: SourceFillEvent, settings: RuntimeSettings, fallbackEquity: real, exposure: real,
                     daily: real, open: U32)
    ensures var built := BuildCopySignal(fill, settings, fallbackEquity);
            && (built.Some? ==> built.value.sourcePrice > 0.0)
            && (Clear(fill, settings, fallbackEquity, exposure, daily, open) <==>
                && !settings.paused && (fill.side.Buy? || settings.copySells) && built.Some?
                && EvaluateSignal(built.value, settings, exposure, daily, open).Allow?)
            && (built.Some? && EvaluateSignal(built.value, settings, exposure, daily, open).Allow? ==>
                && SourceEquity(fill, fallbackEquity) > 0.0
                && Copies(EvaluateSignal(built.value, settings, exposure, daily, open).adjusted, fill,
                          CopyNotional(fill, settings, fallbackEquity, exposure, daily)))
  {
    var built := BuildCopySignal(fill, settings, fallbackEquity);
    BuiltShare(fill, settings, fallbackEquity);
    if built.Some? {
      SizingComposition(fill, settings, fallbackEquity, exposure, daily, open);
      SizedCopies(fill, settings, built.value, open, Share(fill, settings, fallbackEquity), exposure, daily,
                  EvaluateSignal(built.value, settings, exposure, daily, open));
    } else if fill.sourcePrice > 0.0 && SourceEquity(fill, fallbackEquity) > 0.0 {
      RoomBelowShare(Share(fill, settings, fallbackEquity), settings, exposure, daily);
    }
  }

  lemma RoomBelowShare(share: real, settings: RuntimeSettings, exposure: real, daily: real)
    ensures RoundDown4(Room(share, settings, exposure, daily)) <= RoundDown4(share)
  {
  }

  /** The gate's verdict, once its least limit is known to be the room. */
  lemma SizedCopies(fill: SourceFillEvent, settings: RuntimeSettings, s: CopySignal, open: U32, share: real,
                    exposure: real, daily: real, eval: RiskEvaluation)
    requires fill.sourcePrice > 0.0 && SizedBy(s, settings, open, LeastLimit(s, settings, exposure, daily), eval)
    requires s == CopySignal(fill.executionId, fill.sourceWallet, fill.marketSlug, fill.side, fill.sourcePrice,
                             RoundDown4(share), s.copyQuantity, fill.expectedEdgeBps)
    ensures var notional := RoundDown4(Room(share, settings, exposure, daily));
            && (eval.Allow? <==>
                && open < settings.caps.maxOpenPositions
                && fill.expectedEdgeBps > settings.feeBps + settings.slippageBps
                     + (match settings.riskProfile
                        case Conservative => 8.0 case Balanced => 12.0 case Aggressive => 16.0)
                && notional >= 0.0001 * fill.sourcePrice)
            && (eval.Allow? ==> Copies(eval.adjusted, fill, notional))
  {
    assert LeastLimit(s, settings, exposure, daily) == Room(share, settings, exposure, daily);
  }

  // ---------------------------------------------------------------------------------------------
  // From the engine's own fields, and over runs
  // ---------------------------------------------------------------------------------------------

  /** This fill, met by the engine in this state, is to be copied. */
  ghost predicate ToCopy(config: EngineConfig, e: Engine, fill: SourceFillEvent) {
    && fill.executionId !in e.recentIds
    && CheckAutoStop(e.tracker, fill.sourceWallet).None?
    && Clear(fill, e.settings, config.sourceEquityFallbackUsd, ExposureOf(e, fill.marketSlug), e.dailyNotionalUsd,
             e.openPositionsCount)
  }

  /**
   * An idle engine that takes a fill and decides it with nothing in between goes on to order it exactly if it is to be
   * copied, to stop its wallet exactly if the fill is new and the check fires, and else is idle again; by then it has
   * done nothing but remember the fill's id.
   */
  lemma FillOrderedExactly(config: EngineConfig, m: Machine, fill: SourceFillEvent)
    requires m.phase.Idle?
    ensures var after := Next(config, Next(config, m, TakeSnapshot(fill)), Decide);
            var isNew := fill.executionId !in m.engine.recentIds;
            && (after.phase.Ordering? <==> ToCopy(config, m.engine, fill))
            && (after.phase.Stopping? <==> isNew && CheckAutoStop(m.engine.tracker, fill.sourceWallet).Some?)
            && (after.phase.Ordering? || after.phase.Stopping? || after.phase.Idle?)
            && after.engine == m.engine.(recentIds := after.engine.recentIds)
            && (after.engine.recentIds == m.engine.recentIds || isNew)
            && (after.phase.Ordering? ==>
                && Copies(after.phase.signal, fill,
                          CopyNotional(fill, m.engine.settings, config.sourceEquityFallbackUsd,
                                       ExposureOf(m.engine, fill.marketSlug), m.engine.dailyNotionalUsd))
                && after.phase.intent == BuildExecutionIntent(after.phase.signal, m.engine.settings))
  {
    OrderedExactly(config, fill, Snap(m.engine, config, fill).1);
  }

  /** An order was sent only for a fill that its own snapshot found new, allowed and clear of every obstacle. */
  predicate SentClear(config: EngineConfig, o: Observation) {
    o.OrderExecuted? ==>
      && !o.snap.duplicate && o.snap.autoStop.None?
      && Clear(o.fill, o.snap.settings, config.sourceEquityFallbackUsd, o.snap.marketExposure, o.snap.dailyNotional,
               o.snap.openPositions)
      && (!o.snap.settings.copySells ==> o.fill.side.Buy?)
  }

  lemma OrderIsClear(config: EngineConfig, m: Machine, step: Step)
    requires Decided(config, m)
    ensures forall o :: o in Observe(config, m, step) ==> SentClear(config, o)
  {
    if m.phase.Ordering? {
      OrderedExactly(config, m.phase.fill, m.phase.snap);
    }
  }

  /** Over every run: no order goes out for a duplicate, a stopped wallet, a disabled sell, or with a cap in the way. */
  lemma {:induction false} EveryOrderIsClear(config: EngineConfig, m: Machine, steps: seq<Step>)
    requires Decided(config, m)
    ensures forall o :: o in Log(config, m, steps) ==> SentClear(config, o)
    decreases |steps|
  {
    if steps != [] {
      OrderIsClear(config, m, steps[0]);
      NextDecided(config, m, steps[0]);
      EveryOrderIsClear(config, Next(config, m, steps[0]), steps[1..]);
    }
  }

  /** An order follows the snapshot of the same fill, and a commit the order of the fill whose signal it is. */
  predicate Follows(before: Observation, o: Observation) {
    match o
    case SnapshotTaken(_, _) => true
    case OrderExecuted(fill, snap) => before == SnapshotTaken(fill, snap)
    case FillCommitted(snap, signal, _, _, _) =>
      && before.OrderExecuted? && before.snap == snap && before.fill.executionId == signal.executionId
      && before.fill.sourceWallet == signal.sourceWallet && before.fill.side == signal.side
  }

  /** Every order comes right after its snapshot, and every commit right after its order. */
  ghost predicate InOrder(log: seq<Observation>) {
    && (log != [] ==> log[0].SnapshotTaken?)
    && forall i :: 1 <= i < |log| ==> Follows(log[i - 1], log[i])
  }

  /** What was last logged of a fill that is being carried. */
  predicate Carried(phase: Phase, o: Observation) {
    match phase
    case Snapshotted(fill, snap) => o == SnapshotTaken(fill, snap)
    case Ordering(fill, snap, _, _) => o == SnapshotTaken(fill, snap)
    case Executed(fill, snap, _, _) => o == OrderExecuted(fill, snap)
    case _ => false
  }

  ghost predicate EndsWith(log: seq<Observation>, phase: Phase) {
    InFlight(phase) ==> log != [] && Carried(phase, log[|log| - 1])
  }

  /** What a step logs follows what the fill task carried before it. */
  ghost predicate Continues(before: Phase, now: seq<Observation>, after: Phase) {
    && |now| <= 1
    && (now != [] && !now[0].SnapshotTaken? ==>
        && (before.Ordering? || before.Executed?)
        && forall o :: Carried(before, o) ==> Follows(o, now[0]))
    && (forall o :: Carried(after, o) ==> now == [o] || (now == [] && Carried(before, o)))
  }

  lemma StepContinues(config: EngineConfig, m: Machine, step: Step)
    requires Decided(config, m)
    ensures Continues(m.phase, Observe(config, m, step), Next(config, m, step).phase)
  {
    if Commits(m, step) {
      OrderedSignal(config, m.phase.fill, m.phase.snap);
    }
  }

  lemma LogGrows(log: seq<Observation>, before: Phase, now: seq<Observation>, after: Phase)
    requires InOrder(log) && EndsWith(log, before) && Continues(before, now, after)
    ensures InOrder(log + now) && EndsWith(log + now, after)
  {
    var all := log + now;
    if now == [] {
      assert all == log;
      if InFlight(after) { OneIsCarried(after); }
    } else {
      assert all[|all| - 1] == now[0];
      forall i | 1 <= i < |all| ensures Follows(all[i - 1], all[i]) {
        if i < |log| { assert Follows(log[i - 1], log[i]); }
      }
      if InFlight(after) { OneIsCarried(after); }
    }
  }

  lemma OneIsCarried(phase: Phase)
    requires InFlight(phase)
    ensures exists o :: Carried(phase, o)
  {
    assert Carried(phase, if phase.Executed? then OrderExecuted(phase.fill, phase.snap)
                          else SnapshotTaken(phase.fill, phase.snap));
  }

  /**
   * Over every run from between two fills, whatever other steps fall in between: nothing is executed without the
   * snapshot it was decided on, and nothing committed without having been executed.
   */
  lemma {:induction false} EveryCommitHasItsOrder(config: EngineConfig, e: Engine, steps: seq<Step>)
    ensures InOrder(Log(config, Machine(e, Idle), steps))
    ensures EndsWith(Log(config, Machine(e, Idle), steps), Run(config, Machine(e, Idle), steps).phase)
    ensures Decided(config, Run(config, Machine(e, Idle), steps))
    decreases |steps|
  {
    if steps != [] {
      var init, last := steps[..|steps| - 1], steps[|steps| - 1];
      assert steps == init + [last];
      EveryCommitHasItsOrder(config, e, init);
      RunSnoc(config, Machine(e, Idle), init, last);
      LogSnoc(config, Machine(e, Idle), init, last);
      var m := Run(config, Machine(e, Idle), init);
      StepContinues(config, m, last);
      LogGrows(Log(config, Machine(e, Idle), init), m.phase, Observe(config, m, last), Next(config, m, last).phase);
      NextDecided(config, m, last);
    }
  }

  // ---------------------------------------------------------------------------------------------
  // What a commit books
  // ---------------------------------------------------------------------------------------------

  /** The booked profit: what the price is better than the source's, times the quantity filled. */
  predicate Booked(side: TradeSide, sourcePrice: real, price: real, quantity: real, pnl: real) {
    match side
    case Buy => pnl == (sourcePrice - price) * quantity
    case Sell => pnl == (price - sourcePrice) * quantity
  }

  lemma EstimateIsBooked(signal: CopySignal, result: ExecutionResult)
    requires result.averageFillPrice.Some?
    ensures Booked(signal.side, signal.sourcePrice, result.averageFillPrice.value, result.filledQuantity,
                   EstimatedPnl(signal, result))
  {
    var p, q := result.averageFillPrice.value, result.filledQuantity;
    assert (signal.sourcePrice - p) * q == -((p - signal.sourcePrice) * q);
  }

  /** An order's result: live with a venue, what the venue reports; else a fill of the whole order. */
  ghost predicate ResultOf(config: EngineConfig, settings: RuntimeSettings, intent: ExecutionIntent,
                           replies: seq<VenueReply>, o: Outcome) {
    if settings.mode.Live? && config.hasExecutionApi then Reports(o, intent, replies, 0)
    else o.result.success ==>
      o.result.averageFillPrice == Some(intent.limitPrice) && o.result.filledQuantity == intent.quantity
  }

  lemma ResultIs(config: EngineConfig, snap: Snapshot, intent: ExecutionIntent, replies: seq<VenueReply>)
    ensures var o := ExecuteOrder(config, snap, intent, replies);
            ResultOf(config, snap.settings, intent, replies, o)
            && (o.result.success ==> o.result.averageFillPrice.Some?)
  {
    if snap.settings.mode.Live? && config.hasExecutionApi {
      ClimbReports(intent, Execution.Step(snap.settings), replies, 0, intent.limitPrice);
    }
  }

  /** The commit is of this fill, as its snapshot decided it and these replies filled it, and books its profit. */
  ghost predicate CommitOf(config: EngineConfig, o: Observation, fill: SourceFillEvent, replies: seq<VenueReply>)
    requires o.FillCommitted?
  {
    var d := DecideFill(config, fill, o.snap);
    && d.Order? && d.signal == o.signal
    && var out := ExecuteOrder(config, o.snap, d.intent, replies);
       && ResultOf(config, o.snap.settings, d.intent, replies, out)
       && out.result.success && out.result.averageFillPrice.Some?
       && Booked(fill.side, fill.sourcePrice, out.result.averageFillPrice.value, out.result.filledQuantity, o.pnl)
  }

  /** The commit moves its own notional, market, count and wallet, and nothing else. */
  ghost predicate Moves(s: CopySignal, before: Engine, after: Engine) {
    && after.dailyNotionalUsd == before.dailyNotionalUsd + s.copyNotionalUsd
    && (s.side.Buy? ==>
        && ExposureOf(after, s.marketSlug) == ExposureOf(before, s.marketSlug) + s.copyNotionalUsd
        && after.openPositionsCount
           == if before.openPositionsCount < U32_MAX then before.openPositionsCount + 1 else U32_MAX)
    && (s.side.Sell? ==>
        && ExposureOf(after, s.marketSlug)
           == (if ExposureOf(before, s.marketSlug) > s.copyNotionalUsd
               then ExposureOf(before, s.marketSlug) - s.copyNotionalUsd else 0.0)
        && after.openPositionsCount
           == if before.openPositionsCount > 0 then before.openPositionsCount - 1 else 0)
    && (forall market :: market != s.marketSlug ==> ExposureOf(after, market) == ExposureOf(before, market))
    && (forall w :: w != s.sourceWallet ==>
        && (w in after.tracker.records <==> w in before.tracker.records)
        && (w in before.tracker.records ==> after.tracker.records[w] == before.tracker.records[w]))
    && after.tracker == before.tracker.(records := after.tracker.records)
    && after.settings == before.settings && after.recentIds == before.recentIds
    && after.tradingDay == before.tradingDay
  }

  /** What is about to be committed came out of its execution. */
  ghost predicate Backed(config: EngineConfig, m: Machine) {
    && Decided(config, m)
    && (m.phase.Executed? ==> exists replies :: Fills(config, m.phase, replies))
  }

  ghost predicate Fills(config: EngineConfig, phase: Phase, replies: seq<VenueReply>)
    requires phase.Executed?
  {
    var d := DecideFill(config, phase.fill, phase.snap);
    d.Order? && phase.result.success && phase.result == ExecuteOrder(config, phase.snap, d.intent, replies).result
  }

  ghost predicate BookedCommit(config: EngineConfig, o: Observation) {
    o.FillCommitted? ==>
      Moves(o.signal, o.before, o.after) && exists fill, replies :: CommitOf(config, o, fill, replies)
  }

  lemma BackedStep(config: EngineConfig, m: Machine, step: Step)
    requires Backed(config, m)
    ensures Backed(config, Next(config, m, step))
  {
    NextDecided(config, m, step);
    if step.Execute? && m.phase.Ordering? && Next(config, m, step).phase.Executed? {
      assert Fills(config, Next(config, m, step).phase, step.replies);
    }
  }

  lemma CommitMoves(e: Engine, signal: CopySignal, pnl: real)
    ensures Moves(signal, e, CommitFill(e, signal, pnl))
  {
  }

  lemma CommitIsBooked(config: EngineConfig, m: Machine, step: Step)
    requires Backed(config, m)
    ensures forall o :: o in Observe(config, m, step) ==> BookedCommit(config, o)
  {
    if Commits(m, step) {
      var fill, snap, result := m.phase.fill, m.phase.snap, m.phase.result;
      var replies :| Fills(config, m.phase, replies);
      var d := DecideFill(config, fill, snap);
      OrderedSignal(config, fill, snap);
      ResultIs(config, snap, d.intent, replies);
      EstimateIsBooked(d.signal, result);
      CommitMoves(m.engine, d.signal, EstimatedPnl(d.signal, result));
      assert CommitOf(config, Observe(config, m, step)[0], fill, replies);
    }
  }

  /**
   * Over every run, each commit moves what it should and nothing else, and books the profit of a fill that its own
   * snapshot decided on: at the price and quantity the venue reports, or in a simulation at the limit and in full.
   */
  lemma {:induction false} EveryCommitIsBooked(config: EngineConfig, m: Machine, steps: seq<Step>)
    requires Backed(config, m)
    ensures forall o :: o in Log(config, m, steps) ==> BookedCommit(config, o)
    decreases |steps|
  {
    if steps != [] {
      CommitIsBooked(config, m, steps[0]);
      BackedStep(config, m, steps[0]);
      EveryCommitIsBooked(config, Next(config, m, steps[0]), steps[1..]);
    }
  }
}
