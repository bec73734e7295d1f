/** Sizing a copied trade, the risk gate, and the price of the resulting order. */
module Signals {
  import opened Types
  import opened Rounding

  datatype BlockReason =
    | MaxOpenPositions
    | MaxMarketExposure
    | MaxDailyNotional
    | NotionalReducedToZero
    | EdgeBelowCost
    | QuantityRoundedToZero

  datatype RiskEvaluation =
    | Allow(adjusted: CopySignal, totalCostBufferBps: real)
    | Block(reason: BlockReason, totalCostBufferBps: real)

  /** `source_notional * (follower_equity / source_equity) * multiplier`, when it is defined and positive. */
  function ProportionalNotional(ev: SourceFillEvent, settings: RuntimeSettings, fallbackEquity: real): Option<real> {
    if ev.sourceTradeNotionalUsd <= 0.0 || ev.sourcePrice <= 0.0 then None
    else
      var equity := if ev.sourceEquityUsd > 0.0 then ev.sourceEquityUsd else fallbackEquity;
      if equity <= 0.0 then None
      else
        var raw := Scaled(ev.sourceTradeNotionalUsd, settings.followerEquityUsd, equity, settings.multiplier);
        if raw <= 0.0 then None else Some(raw)
  }

  function Scaled(notional: real, follower: real, equity: real, multiplier: real): real
    requires equity > 0.0
  {
    notional * (follower / equity) * multiplier
  }

  function SignalOfSize(ev: SourceFillEvent, raw: real): Option<CopySignal>
    requires ev.sourcePrice > 0.0
  {
    var notional := RoundDown4(raw);
    var quantity := RoundDown4(notional / ev.sourcePrice);
    if quantity <= 0.0 then None
    else Some(CopySignal(ev.executionId, ev.sourceWallet, ev.marketSlug, ev.side, ev.sourcePrice,
                         notional, quantity, ev.expectedEdgeBps))
  }

  function BuildCopySignal(ev: SourceFillEvent, settings: RuntimeSettings, fallbackEquity: real): Option<CopySignal> {
    match ProportionalNotional(ev, settings, fallbackEquity)
    case None => None
    case Some(raw) => SignalOfSize(ev, raw)
  }

  function CostBufferBps(settings: RuntimeSettings): real {
    settings.feeBps + settings.slippageBps + settings.riskProfile.ExecutionPremiumBps()
  }

  function EvaluateSignal(signal: CopySignal, settings: RuntimeSettings, marketExposure: real,
                          dailyNotional: real, openPositions: U32): RiskEvaluation
    requires signal.sourcePrice > 0.0
  {
    var cost := CostBufferBps(settings);
    if openPositions >= settings.caps.maxOpenPositions then Block(MaxOpenPositions, cost)
    else
      var perTrade := Min(signal.copyNotionalUsd, settings.caps.maxCopyNotionalPerTrade);
      var marketRemaining := MarketRemaining(settings, marketExposure);
      if marketRemaining <= 0.0 then Block(MaxMarketExposure, cost)
      else
        var withinMarket := Min(perTrade, marketRemaining);
        var dailyRemaining := DailyRemaining(settings, dailyNotional);
        if dailyRemaining <= 0.0 then Block(MaxDailyNotional, cost)
        else
          var notional := Min(withinMarket, dailyRemaining);
          if notional <= 0.0 then Block(NotionalReducedToZero, cost)
          else if signal.expectedEdgeBps <= cost then Block(EdgeBelowCost, cost)
          else
            var n := RoundDown4(notional);
            var q := RoundDown4(n / signal.sourcePrice);
            if q <= 0.0 then Block(QuantityRoundedToZero, cost)
            else Allow(signal.(copyNotionalUsd := n, copyQuantity := q), cost)
  }

  function MarketRemaining(settings: RuntimeSettings, marketExposure: real): real {
    settings.caps.maxMarketExposureUsd - Max(marketExposure, 0.0)
  }

  function DailyRemaining(settings: RuntimeSettings, dailyNotional: real): real {
    settings.caps.maxDailyNotionalUsd - Max(dailyNotional, 0.0)
  }

  function BuildExecutionIntent(signal: CopySignal, settings: RuntimeSettings): ExecutionIntent {
    var base := match signal.side
      case Buy => Min(signal.sourcePrice + settings.limitPriceOffset, 0.999)
      case Sell => Max(signal.sourcePrice - settings.limitPriceOffset, 0.001);
    ExecutionIntent(signal.executionId, signal.marketSlug, signal.side, signal.copyQuantity, RoundDown4(base),
                    settings.riskProfile.MaxRetryAttempts(), settings.riskProfile.MaxPriceDeviationBps())
  }

  // ---------------------------------------------------------------------------------------------
  // Sizing
  // ---------------------------------------------------------------------------------------------

  /** The four limits on a trade's size, as a set: no order among them. */
  function Limits(signal: CopySignal, settings: RuntimeSettings, marketExposure: real, dailyNotional: real): set<real> {
    {signal.copyNotionalUsd, settings.caps.maxCopyNotionalPerTrade,
     MarketRemaining(settings, marketExposure), DailyRemaining(settings, dailyNotional)}
  }

  ghost predicate IsLeast(m: real, xs: set<real>) {
    m in xs && forall x :: x in xs ==> m <= x
  }

  /** The least of the four, which is what the gate's nested minimums compute. */
  function LeastLimit(signal: CopySignal, settings: RuntimeSettings, marketExposure: real, dailyNotional: real)
    : (least: real)
    ensures IsLeast(least, Limits(signal, settings, marketExposure, dailyNotional))
  {
    Min(Min(Min(signal.copyNotionalUsd, settings.caps.maxCopyNotionalPerTrade),
            MarketRemaining(settings, marketExposure)),
        DailyRemaining(settings, dailyNotional))
  }

  /** The equity a source trade is measured against. */
  function SourceEquity(ev: SourceFillEvent, fallbackEquity: real): real {
    if ev.sourceEquityUsd > 0.0 then ev.sourceEquityUsd else fallbackEquity
  }

  /** The source's trade scaled by the ratio of the equities and by the multiplier. */
  function Share(ev: SourceFillEvent, settings: RuntimeSettings, fallbackEquity: real): real
    requires SourceEquity(ev, fallbackEquity) > 0.0
  {
    ev.sourceTradeNotionalUsd * settings.followerEquityUsd * settings.multiplier / SourceEquity(ev, fallbackEquity)
  }

  /** The fill's own signal for this notional, its quantity short of it by less than one grid step. */
  predicate Copies(s: CopySignal, ev: SourceFillEvent, notional: real) {
    && s == CopySignal(ev.executionId, ev.sourceWallet, ev.marketSlug, ev.side, ev.sourcePrice, notional,
                       s.copyQuantity, ev.expectedEdgeBps)
    && 0.0 <= notional - s.copyQuantity * ev.sourcePrice < 0.0001 * ev.sourcePrice
    && RoundDown4(s.copyQuantity) == s.copyQuantity > 0.0
  }

  /** A copy has the floor of the fill's share, and there is one exactly if that buys one grid step of quantity. */
  lemma BuiltShare(ev: SourceFillEvent, settings: RuntimeSettings, fallbackEquity: real)
    ensures var built := BuildCopySignal(ev, settings, fallbackEquity);
            && (built.Some? <==>
                && ev.sourceTradeNotionalUsd > 0.0 && ev.sourcePrice > 0.0 && SourceEquity(ev, fallbackEquity) > 0.0
                && RoundDown4(Share(ev, settings, fallbackEquity)) >= 0.0001 * ev.sourcePrice)
            && (built.Some? ==> Copies(built.value, ev, RoundDown4(Share(ev, settings, fallbackEquity))))
  {
    ShareExactly(ev, settings, fallbackEquity);
    if ev.sourcePrice > 0.0 && SourceEquity(ev, fallbackEquity) > 0.0 {
      SignalOfShare(ev, Share(ev, settings, fallbackEquity));
    }
  }

  /** The notional is to the follower's equity and multiplier as the trade is to the source's, short of one step. */
  predicate InProportion(notional: real, ev: SourceFillEvent, settings: RuntimeSettings, equity: real) {
    && equity > 0.0
    && 0.0 <= ev.sourceTradeNotionalUsd * settings.followerEquityUsd * settings.multiplier - notional * equity
           < 0.0001 * equity
  }

  /** Every copy bears the same proportion to the follower's equity as the source's trade to its own. */
  lemma CopyIsProportional(ev: SourceFillEvent, settings: RuntimeSettings, fallbackEquity: real)
    requires BuildCopySignal(ev, settings, fallbackEquity).Some?
    ensures InProportion(BuildCopySignal(ev, settings, fallbackEquity).value.copyNotionalUsd, ev, settings,
                         if ev.sourceEquityUsd > 0.0 then ev.sourceEquityUsd else fallbackEquity)
  {
    BuiltShare(ev, settings, fallbackEquity);
    ShareInProportion(ev, settings, fallbackEquity);
  }

  lemma ShareInProportion(ev: SourceFillEvent, settings: RuntimeSettings, fallbackEquity: real)
    requires SourceEquity(ev, fallbackEquity) > 0.0
    ensures InProportion(RoundDown4(Share(ev, settings, fallbackEquity)), ev, settings,
                         SourceEquity(ev, fallbackEquity))
  {
    var target, equity := ev.sourceTradeNotionalUsd * settings.followerEquityUsd * settings.multiplier,
                          SourceEquity(ev, fallbackEquity);
    var share := Share(ev, settings, fallbackEquity);
    assert share * equity == target;
    ScaledGap(target, share, RoundDown4(share), 0.0001, equity);
  }

  lemma ShareExactly(ev: SourceFillEvent, settings: RuntimeSettings, fallbackEquity: real)
    ensures ProportionalNotional(ev, settings, fallbackEquity)
         == if && ev.sourceTradeNotionalUsd > 0.0 && ev.sourcePrice > 0.0 && SourceEquity(ev, fallbackEquity) > 0.0
               && Share(ev, settings, fallbackEquity) > 0.0
            then Some(Share(ev, settings, fallbackEquity)) else None
  {
    var equity := SourceEquity(ev, fallbackEquity);
    if equity > 0.0 {
      SameShare(ev.sourceTradeNotionalUsd, settings.followerEquityUsd, equity, settings.multiplier);
      var raw := Scaled(ev.sourceTradeNotionalUsd, settings.followerEquityUsd, equity, settings.multiplier);
      assert ProportionalNotional(ev, settings, fallbackEquity)
          == if ev.sourceTradeNotionalUsd > 0.0 && ev.sourcePrice > 0.0 && raw > 0.0 then Some(raw) else None;
      assert raw == Share(ev, settings, fallbackEquity);
    }
  }

  lemma SignalOfShare(ev: SourceFillEvent, share: real)
    requires ev.sourcePrice > 0.0
    ensures var built := SignalOfSize(ev, share);
            && (built.Some? <==> RoundDown4(share) >= 0.0001 * ev.sourcePrice)
            && (built.Some? ==> share > 0.0 && Copies(built.value, ev, RoundDown4(share)))
  {
    SizeOfNotional(RoundDown4(share), ev.sourcePrice);
  }

  /** Scaling by the ratio of equities first makes no difference. */
  lemma SameShare(n: real, follower: real, equity: real, multiplier: real)
    requires equity > 0.0
    ensures Scaled(n, follower, equity, multiplier) == n * follower * multiplier / equity
  {
    var ratio := follower / equity;
    assert ratio * equity == follower;
    assert n * ratio * multiplier * equity == n * follower * multiplier;
  }

  /** What a signal built from a fill looks like: both amounts on the grid, in proportion to the source's trade. */
  lemma BuiltSignalShape(ev: SourceFillEvent, settings: RuntimeSettings, fallbackEquity: real)
    requires BuildCopySignal(ev, settings, fallbackEquity).Some?
    ensures var s := BuildCopySignal(ev, settings, fallbackEquity).value;
            && s.sourcePrice > 0.0 && s.copyNotionalUsd > 0.0 && s.copyQuantity > 0.0
            && RoundDown4(s.copyNotionalUsd) == s.copyNotionalUsd
            && RoundDown4(s.copyNotionalUsd / s.sourcePrice) == s.copyQuantity
            && s.copyQuantity * s.sourcePrice <= s.copyNotionalUsd
            && InProportion(s.copyNotionalUsd, ev, settings, SourceEquity(ev, fallbackEquity))
  {
    CopyIsProportional(ev, settings, fallbackEquity);
    var raw := ProportionalNotional(ev, settings, fallbackEquity).value;
    FlooredSize(raw, ev.sourcePrice);
  }

  lemma FlooredSize(raw: real, price: real)
    requires price > 0.0
    requires RoundDown4(RoundDown4(raw) / price) > 0.0
    ensures RoundDown4(RoundDown4(raw)) == RoundDown4(raw) > 0.0
    ensures RoundDown4(RoundDown4(raw) / price) * price <= RoundDown4(raw)
  {
    RoundDownIdempotent(raw);
    FlooredQuantityResidual(RoundDown4(raw), price);
    PositiveQuotient(RoundDown4(raw), price);
  }

  lemma PositiveQuotient(n: real, price: real)
    requires price > 0.0 && RoundDown4(n / price) > 0.0
    ensures n > 0.0
  {
    var x := n / price;
    assert n == x * price;
    ScaleOrder(0.0001, x, price);
  }

  /** The gate as one inequality over the tightest limit, and the exact size it lets through. */
  lemma SizingComposition(ev: SourceFillEvent, settings: RuntimeSettings, fallbackEquity: real,
                          marketExposure: real, dailyNotional: real, openPositions: U32)
    requires BuildCopySignal(ev, settings, fallbackEquity).Some?
    ensures var s := BuildCopySignal(ev, settings, fallbackEquity).value;
            var eval := (BuiltSignalShape(ev, settings, fallbackEquity);
                         EvaluateSignal(s, settings, marketExposure, dailyNotional, openPositions));
            SizedBy(s, settings, openPositions, LeastLimit(s, settings, marketExposure, dailyNotional), eval)
  {
    BuiltSignalShape(ev, settings, fallbackEquity);
    GateSizes(BuildCopySignal(ev, settings, fallbackEquity).value, settings, marketExposure, dailyNotional,
              openPositions);
  }

  /** The same for any signal whose amounts are already floored. */
  lemma GateSizes(s: CopySignal, settings: RuntimeSettings, marketExposure: real, dailyNotional: real,
                  openPositions: U32)
    requires s.sourcePrice > 0.0
    requires RoundDown4(s.copyNotionalUsd) == s.copyNotionalUsd
    requires RoundDown4(s.copyNotionalUsd / s.sourcePrice) == s.copyQuantity
    ensures SizedBy(s, settings, openPositions, LeastLimit(s, settings, marketExposure, dailyNotional),
                    EvaluateSignal(s, settings, marketExposure, dailyNotional, openPositions))
  {
    GateOfLeast(s, settings, marketExposure, dailyNotional, openPositions);
    FlooredSizes(s, settings, openPositions, LeastLimit(s, settings, marketExposure, dailyNotional),
                 EvaluateSignal(s, settings, marketExposure, dailyNotional, openPositions));
  }

  lemma FlooredSizes(s: CopySignal, settings: RuntimeSettings, openPositions: U32, least: real, eval: RiskEvaluation)
    requires s.sourcePrice > 0.0
    requires RoundDown4(s.copyNotionalUsd) == s.copyNotionalUsd
    requires RoundDown4(s.copyNotionalUsd / s.sourcePrice) == s.copyQuantity
    requires GatedBy(s, settings, openPositions, least, eval)
    ensures SizedBy(s, settings, openPositions, least, eval)
  {
    var n := RoundDown4(least);
    SizeOfNotional(n, s.sourcePrice);
    SizedWith(s, settings, openPositions, least, n, RoundDown4(n / s.sourcePrice), eval);
  }

  lemma SizedWith(s: CopySignal, settings: RuntimeSettings, openPositions: U32, least: real, n: real, q: real,
                  eval: RiskEvaluation)
    requires n == RoundDown4(least) && (least == s.copyNotionalUsd ==> n == s.copyNotionalUsd && q == s.copyQuantity)
    requires 0.0 <= n - q * s.sourcePrice < 0.0001 * s.sourcePrice && RoundDown4(q) == q
    requires q > 0.0 <==> n >= 0.0001 * s.sourcePrice
    requires eval.Allow? <==>
               && openPositions < settings.caps.maxOpenPositions
               && s.expectedEdgeBps > CostBufferBps(settings)
               && least > 0.0 && q > 0.0
    requires eval.Allow? ==> eval.adjusted == s.(copyNotionalUsd := n, copyQuantity := q)
    ensures SizedBy(s, settings, openPositions, least, eval)
  {
  }

  /**
   * The trade is let through exactly if nothing but its size could stop it and one grid step of quantity can be bought
   * within the least limit; it then carries the floor of that limit, a floored quantity that wastes less than one grid
   * step, and is unchanged when the signal's own notional is the least limit.
   */
  predicate SizedBy(s: CopySignal, settings: RuntimeSettings, openPositions: U32, least: real, eval: RiskEvaluation) {
    && (eval.Allow? <==>
        && openPositions < settings.caps.maxOpenPositions
        && s.expectedEdgeBps > CostBufferBps(settings)
        && least > 0.0
        && RoundDown4(least) >= 0.0001 * s.sourcePrice)
    && (eval.Allow? ==>
        && var a := eval.adjusted;
        && a == s.(copyNotionalUsd := RoundDown4(least), copyQuantity := a.copyQuantity)
        && 0.0 <= a.copyNotionalUsd - a.copyQuantity * a.sourcePrice < 0.0001 * a.sourcePrice
        && RoundDown4(a.copyQuantity) == a.copyQuantity > 0.0
        && (least == s.copyNotionalUsd ==> a == s))
  }

  /** The verdict in terms of the least limit alone. */
  predicate GatedBy(s: CopySignal, settings: RuntimeSettings, openPositions: U32, least: real, eval: RiskEvaluation)
    requires s.sourcePrice > 0.0
  {
    var n := RoundDown4(least);
    var q := RoundDown4(n / s.sourcePrice);
    && (eval.Allow? <==>
        && openPositions < settings.caps.maxOpenPositions
        && s.expectedEdgeBps > CostBufferBps(settings)
        && least > 0.0 && q > 0.0)
    && (eval.Allow? ==> eval.adjusted == s.(copyNotionalUsd := n, copyQuantity := q))
  }

  /** The gate reads the four limits only through the least of them. */
  lemma GateOfLeast(s: CopySignal, settings: RuntimeSettings, marketExposure: real, dailyNotional: real,
                    openPositions: U32)
    requires s.sourcePrice > 0.0
    ensures GatedBy(s, settings, openPositions, LeastLimit(s, settings, marketExposure, dailyNotional),
                    EvaluateSignal(s, settings, marketExposure, dailyNotional, openPositions))
  {
  }

  lemma SizeOfNotional(n: real, price: real)
    requires price > 0.0
    ensures var q := RoundDown4(n / price);
            && 0.0 <= n - q * price < 0.0001 * price
            && RoundDown4(q) == q
            && (q > 0.0 <==> n >= 0.0001 * price)
  {
    FlooredQuantityResidual(n, price);
    RoundDownIdempotent(n / price);
    QuantityPositive(n, price);
  }

  lemma QuantityPositive(n: real, price: real)
    requires price > 0.0
    ensures RoundDown4(n / price) > 0.0 <==> n >= 0.0001 * price
  {
    var x := n / price;
    assert x * price == n;
    if x >= 0.0001 {
      ScaleOrder(0.0001, x, price);
    } else {
      assert (0.0001 - x) * price > 0.0;
      assert (0.0001 - x) * price == 0.0001 * price - x * price;
    }
  }

  /** Less exposure, less daily notional and fewer open positions never cost a trade or shrink it. */
  lemma GateMonotone(s: CopySignal, settings: RuntimeSettings, exposure: real, exposure': real,
                     daily: real, daily': real, open: U32, open': U32)
    requires s.sourcePrice > 0.0
    requires exposure' <= exposure && daily' <= daily && open' <= open
    requires EvaluateSignal(s, settings, exposure, daily, open).Allow?
    ensures var before := EvaluateSignal(s, settings, exposure, daily, open);
            var after := EvaluateSignal(s, settings, exposure', daily', open');
            && after.Allow?
            && before.adjusted.copyNotionalUsd <= after.adjusted.copyNotionalUsd
            && before.adjusted.copyQuantity <= after.adjusted.copyQuantity
  {
    GateOfLeast(s, settings, exposure, daily, open);
    GateOfLeast(s, settings, exposure', daily', open');
    SizesMonotone(LeastLimit(s, settings, exposure, daily), LeastLimit(s, settings, exposure', daily'), s.sourcePrice);
  }

  /** Both floors together keep the order of the notionals they start from. */
  lemma SizesMonotone(a: real, b: real, price: real)
    requires a <= b && price > 0.0
    ensures RoundDown4(a) <= RoundDown4(b)
    ensures RoundDown4(RoundDown4(a) / price) <= RoundDown4(RoundDown4(b) / price)
  {
    RoundDownMonotone(a, b);
    DivideMonotone(RoundDown4(a), RoundDown4(b), price);
    RoundDownMonotone(RoundDown4(a) / price, RoundDown4(b) / price);
  }

  /** An allowed signal differs from the raw one only in size, and fits inside both remaining budgets. */
  lemma AllowedFits(s: CopySignal, settings: RuntimeSettings, exposure: real, daily: real, open: U32)
    requires s.sourcePrice > 0.0
    requires EvaluateSignal(s, settings, exposure, daily, open).Allow?
    ensures var a := EvaluateSignal(s, settings, exposure, daily, open).adjusted;
            && a == s.(copyNotionalUsd := a.copyNotionalUsd, copyQuantity := a.copyQuantity)
            && 0.0 < a.copyNotionalUsd <= s.copyNotionalUsd
            && a.copyQuantity > 0.0
            && a.copyNotionalUsd + Max(exposure, 0.0) <= settings.caps.maxMarketExposureUsd
            && a.copyNotionalUsd + Max(daily, 0.0) <= settings.caps.maxDailyNotionalUsd
            && Max(exposure, 0.0) < settings.caps.maxMarketExposureUsd
            && open < settings.caps.maxOpenPositions
  {
    PositiveQuotient(EvaluateSignal(s, settings, exposure, daily, open).adjusted.copyNotionalUsd, s.sourcePrice);
  }

  // ---------------------------------------------------------------------------------------------
  // The limit price
  // ---------------------------------------------------------------------------------------------

  /** The order of a signal: its own trade and quantity, the profile's patience, and a price floored to the grid. */
  lemma IntentExactly(s: CopySignal, settings: RuntimeSettings)
    ensures var i := BuildExecutionIntent(s, settings);
            var wanted := match s.side
              case Buy => Min(s.sourcePrice + settings.limitPriceOffset, 0.999)
              case Sell => Max(s.sourcePrice - settings.limitPriceOffset, 0.001);
            && i.executionId == s.executionId && i.marketSlug == s.marketSlug && i.side == s.side
            && i.quantity == s.copyQuantity
            && 0.0 <= wanted - i.limitPrice < 0.0001 && RoundDown4(i.limitPrice) == i.limitPrice
            && (match settings.riskProfile
                case Conservative => i.maxAttempts == 1 && i.maxPriceDeviationBps == 20.0
                case Balanced => i.maxAttempts == 2 && i.maxPriceDeviationBps == 30.0
                case Aggressive => i.maxAttempts == 3 && i.maxPriceDeviationBps == 45.0)
  {
    RoundDownIdempotent(match s.side
      case Buy => Min(s.sourcePrice + settings.limitPriceOffset, 0.999)
      case Sell => Max(s.sourcePrice - settings.limitPriceOffset, 0.001));
  }

  /** A limit price never crosses the clamp, and fails to be positive exactly for a buy below one grid step. */
  lemma LimitPriceRange(s: CopySignal, settings: RuntimeSettings)
    ensures var p := BuildExecutionIntent(s, settings).limitPrice;
            && (s.side.Buy? ==> p <= 0.999)
            && (s.side.Sell? ==> 0.001 <= p)
            && (s.sourcePrice > 0.0 && settings.limitPriceOffset >= 0.0 ==> 0.0 <= p)
            && (p <= 0.0 <==> s.side.Buy? && s.sourcePrice + settings.limitPriceOffset < 0.0001)
  {
    if s.side.Sell? {
      RoundDownMonotone(0.001, Max(s.sourcePrice - settings.limitPriceOffset, 0.001));
      assert RoundDown4(0.001) == 0.001 by { assert 0.001 * 10000.0 == 10.0; }
    }
  }

  /** How far a price lies below the next grid point; nothing if it is on the grid. */
  function UpToGrid(v: real): (gap: real)
    ensures 0.0 <= gap < 0.0001
  {
    -RoundDown4(-v) - v
  }

  /** The price at which a limit beats the source's: beyond the clamp, or a buy floored back below it. */
  predicate LimitBeats(side: TradeSide, sourcePrice: real, offset: real) {
    match side
    case Buy => sourcePrice > 0.999 || offset < UpToGrid(sourcePrice)
    case Sell => sourcePrice < 0.001
  }

  /**
   * The limit price beats the source price exactly when the source traded beyond the clamp, or when a buy's offset does
   * not reach the next grid point, which a whole grid step of offset always does.
   */
  lemma LimitBeatsSourceExactly(s: CopySignal, settings: RuntimeSettings)
    requires settings.limitPriceOffset >= 0.0
    ensures var p := BuildExecutionIntent(s, settings).limitPrice;
            (if s.side.Buy? then p < s.sourcePrice else p > s.sourcePrice)
            <==> LimitBeats(s.side, s.sourcePrice, settings.limitPriceOffset)
  {
    assert RoundDown4(0.001) == 0.001 by { assert 0.001 * 10000.0 == 10.0; }
    assert RoundDown4(0.999) == 0.999 by { assert 0.999 * 10000.0 == 9990.0; }
    match s.side
    case Buy =>
      RoundDownMonotone(Min(s.sourcePrice + settings.limitPriceOffset, 0.999), 0.999);
      FloorReaches(s.sourcePrice, settings.limitPriceOffset);
    case Sell =>
      RoundDownMonotone(0.001, Max(s.sourcePrice - settings.limitPriceOffset, 0.001));
  }

  /** A floored sum is back at the price or above it exactly if the offset reaches the next grid point. */
  lemma FloorReaches(price: real, offset: real)
    ensures RoundDown4(price + offset) >= price <==> offset >= UpToGrid(price)
  {
    var up, n := (-price * 10000.0).Floor, ((price + offset) * 10000.0).Floor;
    assert -RoundDown4(-price) * 10000.0 == -(up as real);
    assert RoundDown4(price + offset) * 10000.0 == n as real;
    if offset >= UpToGrid(price) {
      FloorMonotone(-(up as real), (price + offset) * 10000.0);
    } else if n >= -up {
      assert n as real <= (price + offset) * 10000.0;
    } else {
      assert n as real <= -(up as real) - 1.0;
    }
  }
}
