/** Executing an intent: the simulated fills, and the live retry ladder with its price-deviation guard. */
module Execution {
  import opened Types
  import opened Rounding
  import opened Signals

  /** What the execution venue does with one submitted order; a refusal covers transport errors too. */
  datatype VenueReply =
    | Filled(quantity: Option<real>, averagePrice: Option<real>)
    | Refused

  datatype Message =
    | DryRunSimulatedFill
    | LiveModeRequiresExecutionApi
    | LiveSimulatedFill
    | MaxPriceDeviationExceeded
    | ExecutionApiFill
    | AllAttemptsFailed

  datatype ExecutionResult = ExecutionResult(
    success: bool,
    attempts: nat,
    filledQuantity: real,
    averageFillPrice: Option<real>,
    message: Message)

  /** A result together with the limit prices that were actually sent to the venue, in order. */
  datatype Outcome = Outcome(result: ExecutionResult, submitted: seq<real>)

  predicate ExceedsPriceDeviation(base: real, current: real, maxDeviationBps: real) {
    base > 0.0 && Abs(current - base) / base * 10000.0 > maxDeviationBps
  }

  function Step(settings: RuntimeSettings): (step: real)
    ensures step >= 0.001
  {
    Max(settings.limitPriceOffset / 2.0, 0.001)
  }

  function NextPrice(side: TradeSide, price: real, step: real): real {
    match side
    case Buy => Min(price + step, 0.999)
    case Sell => Max(price - step, 0.001)
  }

  /** The venue's reply to the order of the given attempt; a venue that has gone away refuses. */
  function ReplyTo(replies: seq<VenueReply>, attempt: nat): VenueReply {
    if 1 <= attempt <= |replies| then replies[attempt - 1] else Refused
  }

  function Failure(attempts: nat, message: Message): ExecutionResult {
    ExecutionResult(false, attempts, 0.0, None, message)
  }

  function ApiFill(intent: ExecutionIntent, reply: VenueReply, attempt: nat, price: real): ExecutionResult
    requires reply.Filled?
  {
    var quantity := if reply.quantity.Some? then reply.quantity.value else intent.quantity;
    var average := if reply.averagePrice.Some? then reply.averagePrice else Some(price);
    ExecutionResult(true, attempt, RoundDown4(quantity), average, ExecutionApiFill)
  }

  /** The ladder from one attempt on, at that attempt's price. */
  function Climb(intent: ExecutionIntent, step: real, replies: seq<VenueReply>, attempt: nat, price: real): Outcome
    requires 1 <= attempt
    decreases intent.maxAttempts + 1 - attempt
  {
    if attempt > intent.maxAttempts then Outcome(Failure(intent.maxAttempts, AllAttemptsFailed), [])
    else if ExceedsPriceDeviation(intent.limitPrice, price, intent.maxPriceDeviationBps) then
      Outcome(Failure(attempt, MaxPriceDeviationExceeded), [])
    else if ReplyTo(replies, attempt).Filled? then
      Outcome(ApiFill(intent, ReplyTo(replies, attempt), attempt, price), [price])
    else
      var rest := Climb(intent, step, replies, attempt + 1, NextPrice(intent.side, price, step));
      Outcome(rest.result, [price] + rest.submitted)
  }

  function SimulatedFill(intent: ExecutionIntent, message: Message): Outcome {
    Outcome(ExecutionResult(true, 1, intent.quantity, Some(intent.limitPrice), message), [])
  }

  function Execute(mode: EngineMode, hasExecutionApi: bool, allowLiveSimulation: bool, settings: RuntimeSettings,
                   intent: ExecutionIntent, replies: seq<VenueReply>): Outcome {
    if mode.DryRun? then SimulatedFill(intent, DryRunSimulatedFill)
    else if hasExecutionApi then Climb(intent, Step(settings), replies, 1, intent.limitPrice)
    else if allowLiveSimulation then SimulatedFill(intent, LiveSimulatedFill)
    else Outcome(Failure(0, LiveModeRequiresExecutionApi), [])
  }

  function Prepend(sent: seq<real>, o: Outcome): Outcome {
    Outcome(o.result, sent + o.submitted)
  }

  lemma PrependClimb(sent: seq<real>, intent: ExecutionIntent, step: real, replies: seq<VenueReply>, attempt: nat,
                     price: real)
    requires 1 <= attempt <= intent.maxAttempts
    ensures var o := Prepend(sent, Climb(intent, step, replies, attempt, price));
            if ExceedsPriceDeviation(intent.limitPrice, price, intent.maxPriceDeviationBps) then
              o == Outcome(Failure(attempt, MaxPriceDeviationExceeded), sent)
            else if ReplyTo(replies, attempt).Filled? then
              o == Outcome(ApiFill(intent, ReplyTo(replies, attempt), attempt, price), sent + [price])
            else
              o == Prepend(sent + [price],
                           Climb(intent, step, replies, attempt + 1, NextPrice(intent.side, price, step)))
  {
    var rest := Climb(intent, step, replies, attempt + 1, NextPrice(intent.side, price, step));
    assert sent + [] == sent;
    assert sent + ([price] + rest.submitted) == sent + [price] + rest.submitted;
  }

  method ExecuteIntent(mode: EngineMode, hasExecutionApi: bool, allowLiveSimulation: bool, settings: RuntimeSettings,
                       intent: ExecutionIntent, replies: seq<VenueReply>)
    returns (result: ExecutionResult, submitted: seq<real>)
    ensures Outcome(result, submitted)
         == Execute(mode, hasExecutionApi, allowLiveSimulation, settings, intent, replies)
  {
    submitted := [];
    if mode.DryRun? {
      return ExecutionResult(true, 1, intent.quantity, Some(intent.limitPrice), DryRunSimulatedFill), [];
    }
    if !hasExecutionApi {
      if !allowLiveSimulation {
        return Failure(0, LiveModeRequiresExecutionApi), [];
      }
      return ExecutionResult(true, 1, intent.quantity, Some(intent.limitPrice), LiveSimulatedFill), [];
    }
    var attemptPrice := intent.limitPrice;
    var step := Max(settings.limitPriceOffset / 2.0, 0.001);
    ghost var whole := Climb(intent, step, replies, 1, intent.limitPrice);
    for attempt := 1 to intent.maxAttempts + 1
      invariant whole == Prepend(submitted, Climb(intent, step, replies, attempt, attemptPrice))
    {
      PrependClimb(submitted, intent, step, replies, attempt, attemptPrice);
      if ExceedsPriceDeviation(intent.limitPrice, attemptPrice, intent.maxPriceDeviationBps) {
        return Failure(attempt, MaxPriceDeviationExceeded), submitted;
      }
      submitted := submitted + [attemptPrice];
      var reply := ReplyTo(replies, attempt);
      if reply.Filled? {
        return ApiFill(intent, reply, attempt, attemptPrice), submitted;
      }
      attemptPrice := NextPrice(intent.side, attemptPrice, step);
    }
    return Failure(intent.maxAttempts, AllAttemptsFailed), submitted;
  }

  // ---------------------------------------------------------------------------------------------
  // Closed form of the ladder
  // ---------------------------------------------------------------------------------------------

  /** The limit price lies on the right side of the clamp. */
  predicate Clamped(intent: ExecutionIntent) {
    && (intent.side.Buy? ==> intent.limitPrice <= 0.999)
    && (intent.side.Sell? ==> 0.001 <= intent.limitPrice)
  }

  /** How far the price can move before it meets the clamp. */
  function Headroom(intent: ExecutionIntent): (room: real)
    ensures Clamped(intent) ==> room >= 0.0
  {
    match intent.side
    case Buy => 0.999 - intent.limitPrice
    case Sell => intent.limitPrice - 0.001
  }

  /** The price of the order sent `moves` retries after the first. */
  function Rung(intent: ExecutionIntent, step: real, moves: nat): real {
    match intent.side
    case Buy => Min(intent.limitPrice + moves as real * step, 0.999)
    case Sell => Max(intent.limitPrice - moves as real * step, 0.001)
  }

  /** The price distance the guard tolerates. */
  function Tolerance(intent: ExecutionIntent): real {
    intent.limitPrice * intent.maxPriceDeviationBps / 10000.0
  }

  /** How many whole units fit in the slack. */
  function WholeSteps(slack: real, unit: real): int
    requires unit > 0.0
  {
    (slack / unit).Floor
  }

  /** Orders that fit: all of them if the room itself is within the slack, else one more than the whole steps. */
  function Budget(slack: real, room: real, unit: real, maxAttempts: nat): nat
    requires unit > 0.0
  {
    var rungs := 1 + WholeSteps(slack, unit);
    if room <= slack || rungs > maxAttempts || rungs < 0 then maxAttempts else rungs
  }

  /** The number of orders the guard lets through when the venue refuses every one. */
  function OrderBudget(intent: ExecutionIntent, step: real): nat
    requires step > 0.0
  {
    if intent.limitPrice <= 0.0 then intent.maxAttempts
    else Budget(Tolerance(intent), Headroom(intent), step, intent.maxAttempts)
  }

  /** The guard's test without the division: the distance against the tolerated part of the limit price. */
  lemma DeviationCleared(intent: ExecutionIntent, price: real)
    requires intent.limitPrice > 0.0
    ensures ExceedsPriceDeviation(intent.limitPrice, price, intent.maxPriceDeviationBps)
       <==> Abs(price - intent.limitPrice) > Tolerance(intent)
    ensures ExceedsPriceDeviation(intent.limitPrice, price, intent.maxPriceDeviationBps)
       <==> Abs(price - intent.limitPrice) * 10000.0 > intent.limitPrice * intent.maxPriceDeviationBps
  {
    var r := Abs(price - intent.limitPrice) / intent.limitPrice;
    assert r * intent.limitPrice == Abs(price - intent.limitPrice);
    CrossMultiplied(r, intent.limitPrice, intent.maxPriceDeviationBps, Abs(price - intent.limitPrice));
  }

  lemma CrossMultiplied(r: real, base: real, dev: real, distance: real)
    requires base > 0.0 && r * base == distance
    ensures r * 10000.0 > dev <==> distance > base * dev / 10000.0
  {
    var gap := r * 10000.0 - dev;
    assert gap * base == distance * 10000.0 - base * dev;
    if gap > 0.0 { assert gap * base > 0.0; } else { assert gap * base <= 0.0; }
  }

  lemma ToleranceNonNegative(intent: ExecutionIntent)
    requires intent.limitPrice >= 0.0 && intent.maxPriceDeviationBps >= 0.0
    ensures Tolerance(intent) >= 0.0
  {
  }

  lemma WholeStepsBound(slack: real, unit: real, moves: int)
    requires unit > 0.0
    ensures moves as real * unit <= slack <==> moves <= WholeSteps(slack, unit)
  {
    var x := slack / unit;
    assert x * unit == slack;
    ProductOrder(moves as real, x, unit, slack);
    FloorBound(moves, x);
  }

  lemma FloorBound(m: int, x: real)
    ensures m as real <= x <==> m <= x.Floor
  {
    if m <= x.Floor {
      assert m as real <= x.Floor as real <= x;
    } else {
      assert m as real >= (x.Floor + 1) as real > x;
    }
  }

  lemma BudgetBound(slack: real, room: real, unit: real, maxAttempts: nat, moves: nat)
    requires unit > 0.0 && slack >= 0.0 && moves < maxAttempts
    ensures moves < Budget(slack, room, unit, maxAttempts) <==> room <= slack || moves as real * unit <= slack
  {
    WholeStepsBound(slack, unit, moves);
    WholeStepsBound(slack, unit, 0);
    assert 0 as real * unit == 0.0;
  }

  lemma ProductOrder(m: real, x: real, unit: real, slack: real)
    requires unit > 0.0 && x * unit == slack
    ensures m * unit <= slack <==> m <= x
  {
    var gap := x - m;
    assert gap * unit == slack - m * unit;
    if gap >= 0.0 { assert gap * unit >= 0.0; } else { assert gap * unit < 0.0; }
  }

  /** The guard passes exactly the rungs below the budget. */
  lemma GuardPassesBudget(intent: ExecutionIntent, step: real, moves: nat)
    requires Clamped(intent) && step > 0.0 && intent.maxPriceDeviationBps >= 0.0
    requires moves < intent.maxAttempts
    ensures !ExceedsPriceDeviation(intent.limitPrice, Rung(intent, step, moves), intent.maxPriceDeviationBps)
       <==> moves < OrderBudget(intent, step)
  {
    if intent.limitPrice > 0.0 {
      ToleranceNonNegative(intent);
      RungDistance(intent, step, moves);
      DeviationCleared(intent, Rung(intent, step, moves));
      BudgetBound(Tolerance(intent), Headroom(intent), step, intent.maxAttempts, moves);
    }
  }

  lemma RungDistance(intent: ExecutionIntent, step: real, moves: nat)
    requires Clamped(intent) && step > 0.0
    ensures Abs(Rung(intent, step, moves) - intent.limitPrice) == Min(moves as real * step, Headroom(intent))
  {
    ScaleOrder(0.0, moves as real, step);
  }

  lemma RungSuccessor(intent: ExecutionIntent, step: real, moves: nat)
    requires step > 0.0
    ensures Rung(intent, step, moves + 1) == NextPrice(intent.side, Rung(intent, step, moves), step)
  {
    assert (moves + 1) as real * step == moves as real * step + step;
  }

  /**
   * The ladder from one rung on. The i-th order goes out i rungs further; a fill inside the budget ends it there, and
   * otherwise exactly the budget is sent. When the guard stops it, `attempts` counts one order that was never sent.
   */
  ghost predicate ClimbsFrom(o: Outcome, intent: ExecutionIntent, step: real, replies: seq<VenueReply>, moves: nat)
    requires step > 0.0
  {
    var sent, budget := moves + |o.submitted|, OrderBudget(intent, step);
    && (forall i :: 0 <= i < |o.submitted| ==> o.submitted[i] == Rung(intent, step, moves + i))
    && sent <= budget <= intent.maxAttempts
    && (forall k :: moves + 1 <= k < sent ==> ReplyTo(replies, k).Refused?)
    && (o.result.success ==>
        sent > moves && ReplyTo(replies, sent).Filled? && o.result.attempts == sent)
    && (!o.result.success ==>
        && (sent > moves ==> ReplyTo(replies, sent).Refused?)
        && sent == budget
        && o.result.attempts == (if budget < intent.maxAttempts then budget + 1 else budget)
        && o.result.message == (if budget < intent.maxAttempts then MaxPriceDeviationExceeded else AllAttemptsFailed))
  }

  lemma {:induction false} LadderFrom(intent: ExecutionIntent, step: real, replies: seq<VenueReply>, moves: nat)
    requires Clamped(intent) && step > 0.0 && intent.maxPriceDeviationBps >= 0.0
    requires moves <= OrderBudget(intent, step) && moves <= intent.maxAttempts
    ensures ClimbsFrom(Climb(intent, step, replies, moves + 1, Rung(intent, step, moves)), intent, step, replies, moves)
    decreases intent.maxAttempts - moves
  {
    if moves < intent.maxAttempts {
      GuardPassesBudget(intent, step, moves);
      if moves < OrderBudget(intent, step) && ReplyTo(replies, moves + 1).Refused? {
        RungSuccessor(intent, step, moves);
        LadderFrom(intent, step, replies, moves + 1);
      }
    }
  }

  /**
   * What a live execution reports, `before` orders having been refused already. After a fill, the venue's own quantity
   * floored to the grid and its own price, each replaced by the order's where the venue gives none; else nothing.
   */
  ghost predicate Reports(o: Outcome, intent: ExecutionIntent, replies: seq<VenueReply>, before: nat) {
    if o.result.success then
      var n, filled := |o.submitted|, o.result.filledQuantity;
      && 1 <= n && before + n <= |replies| && replies[before + n - 1].Filled?
      && o.result.attempts == before + n
      && var reply := replies[before + n - 1];
         && 0.0 <= GetOr(reply.quantity, intent.quantity) - filled < 0.0001
         && filled == RoundDown4(filled)
         && o.result.averageFillPrice == Some(GetOr(reply.averagePrice, o.submitted[n - 1]))
    else
      o.result.filledQuantity == 0.0 && o.result.averageFillPrice.None?
  }

  lemma {:induction false} ClimbReports(intent: ExecutionIntent, step: real, replies: seq<VenueReply>, before: nat,
                                        price: real)
    ensures Reports(Climb(intent, step, replies, before + 1, price), intent, replies, before)
    decreases intent.maxAttempts - before
  {
    if before < intent.maxAttempts && ReplyTo(replies, before + 1).Refused? {
      ClimbReports(intent, step, replies, before + 1, NextPrice(intent.side, price, step));
    } else if ReplyTo(replies, before + 1).Filled? {
      RoundDownIdempotent(GetOr(replies[before].quantity, intent.quantity));
    }
  }

  /**
   * The orders sent live. The i-th goes out i steps from the limit, up to the clamp and within the tolerated distance.
   * It succeeds exactly if the venue fills one of the orders the budget allows, and ends there; else the budget is
   * spent, and either every attempt with it or the next order would be too far off.
   */
  ghost predicate ClimbsLadder(o: Outcome, intent: ExecutionIntent, step: real, replies: seq<VenueReply>)
    requires step > 0.0
  {
    var budget, sent := OrderBudget(intent, step), |o.submitted|;
    && (forall i :: 0 <= i < sent ==> o.submitted[i] == Rung(intent, step, i))
    && (intent.limitPrice > 0.0 ==> forall i :: 0 <= i < sent ==>
        Abs(o.submitted[i] - intent.limitPrice) <= Tolerance(intent))
    && sent <= budget <= intent.maxAttempts
    && (o.result.success <==> exists k :: 0 <= k < budget && k < |replies| && replies[k].Filled?)
    && (forall k :: 0 <= k < sent - 1 && k < |replies| ==> replies[k].Refused?)
    && (!o.result.success ==>
        && sent == budget
        && o.result.attempts == (if budget < intent.maxAttempts then budget + 1 else budget)
        && o.result.message
           == (if budget < intent.maxAttempts then MaxPriceDeviationExceeded else AllAttemptsFailed))
  }

  /** An intent built by the engine and sent live climbs the ladder, and reports what the venue does. */
  lemma RetryLadder(s: CopySignal, settings: RuntimeSettings, allowLiveSimulation: bool, replies: seq<VenueReply>)
    ensures var intent := BuildExecutionIntent(s, settings);
            var o := Execute(Live, true, allowLiveSimulation, settings, intent, replies);
            && ClimbsLadder(o, intent, Max(settings.limitPriceOffset / 2.0, 0.001), replies)
            && Reports(o, intent, replies, 0)
  {
    var intent := BuildExecutionIntent(s, settings);
    var step := Step(settings);
    LimitPriceRange(s, settings);
    WholeLadder(intent, step, replies);
    ClimbReports(intent, step, replies, 0, intent.limitPrice);
  }

  lemma {:induction false} WholeLadder(intent: ExecutionIntent, step: real, replies: seq<VenueReply>)
    requires Clamped(intent) && step > 0.0 && intent.maxPriceDeviationBps >= 0.0
    ensures ClimbsLadder(Climb(intent, step, replies, 1, intent.limitPrice), intent, step, replies)
  {
    RungZero(intent, step);
    LadderFrom(intent, step, replies, 0);
    FromTheFirst(Climb(intent, step, replies, 1, intent.limitPrice), intent, step, replies);
  }

  lemma FromTheFirst(o: Outcome, intent: ExecutionIntent, step: real, replies: seq<VenueReply>)
    requires Clamped(intent) && step > 0.0 && intent.maxPriceDeviationBps >= 0.0
    requires ClimbsFrom(o, intent, step, replies, 0)
    ensures ClimbsLadder(o, intent, step, replies)
  {
    assert forall i :: 0 <= i < |o.submitted| ==> o.submitted[i] == Rung(intent, step, i);
    LadderReplies(o, replies, OrderBudget(intent, step));
    if intent.limitPrice > 0.0 { RungsWithinTolerance(intent, step, o.submitted); }
  }

  lemma RungsWithinTolerance(intent: ExecutionIntent, step: real, prices: seq<real>)
    requires Clamped(intent) && step > 0.0 && intent.maxPriceDeviationBps >= 0.0 && intent.limitPrice > 0.0
    requires |prices| <= intent.maxAttempts && |prices| <= OrderBudget(intent, step)
    requires forall i :: 0 <= i < |prices| ==> prices[i] == Rung(intent, step, i)
    ensures forall i :: 0 <= i < |prices| ==> Abs(prices[i] - intent.limitPrice) <= Tolerance(intent)
  {
    forall i | 0 <= i < |prices| ensures Abs(prices[i] - intent.limitPrice) <= Tolerance(intent) {
      RungWithinTolerance(intent, step, i);
    }
  }

  lemma LadderReplies(o: Outcome, replies: seq<VenueReply>, budget: nat)
    requires |o.submitted| <= budget && forall k :: 1 <= k < |o.submitted| ==> ReplyTo(replies, k).Refused?
    requires o.result.success ==> o.submitted != [] && ReplyTo(replies, |o.submitted|).Filled?
    requires !o.result.success ==>
               |o.submitted| == budget && (budget > 0 ==> ReplyTo(replies, budget).Refused?)
    ensures o.result.success <==> exists k :: 0 <= k < budget && k < |replies| && replies[k].Filled?
    ensures forall k :: 0 <= k < |o.submitted| - 1 && k < |replies| ==> replies[k].Refused?
  {
    assert forall k :: 0 <= k < |replies| ==> replies[k] == ReplyTo(replies, k + 1);
  }

  /** A simulated fill is the intent's own, nothing is sent, and only live trading with no venue at all fails. */
  lemma OtherModes(mode: EngineMode, hasExecutionApi: bool, allowLiveSimulation: bool, settings: RuntimeSettings,
                   intent: ExecutionIntent, replies: seq<VenueReply>)
    requires mode.DryRun? || !hasExecutionApi
    ensures var o := Execute(mode, hasExecutionApi, allowLiveSimulation, settings, intent, replies);
            && o.submitted == []
            && (o.result.success <==> mode.DryRun? || allowLiveSimulation)
            && (if o.result.success
                then o.result.attempts == 1 && o.result.filledQuantity == intent.quantity
                     && o.result.averageFillPrice == Some(intent.limitPrice)
                else o.result.attempts == 0 && o.result.filledQuantity == 0.0 && o.result.averageFillPrice.None?)
  {
  }

  lemma RungZero(intent: ExecutionIntent, step: real)
    requires Clamped(intent)
    ensures Rung(intent, step, 0) == intent.limitPrice
  {
    assert 0 as real * step == 0.0;
  }

  lemma RungWithinTolerance(intent: ExecutionIntent, step: real, moves: nat)
    requires Clamped(intent) && step > 0.0 && intent.maxPriceDeviationBps >= 0.0 && intent.limitPrice > 0.0
    requires moves < intent.maxAttempts && moves < OrderBudget(intent, step)
    ensures Abs(Rung(intent, step, moves) - intent.limitPrice) <= Tolerance(intent)
  {
    GuardPassesBudget(intent, step, moves);
    DeviationCleared(intent, Rung(intent, step, moves));
  }

  /** With no clamp in the way, the budget is the plain quotient formula. */
  lemma UnclampedBudget(intent: ExecutionIntent, step: real)
    requires Clamped(intent) && step > 0.0 && intent.limitPrice > 0.0
    requires intent.maxPriceDeviationBps >= 0.0 && intent.maxAttempts >= 1
    requires (intent.maxAttempts - 1) as real * step <= Headroom(intent)
    ensures var rungs := 1 + WholeSteps(Tolerance(intent), step);
            OrderBudget(intent, step) == if rungs <= intent.maxAttempts then rungs else intent.maxAttempts
  {
    ToleranceNonNegative(intent);
    WholeStepsBound(Tolerance(intent), step, intent.maxAttempts - 1);
    WholeStepsBound(Tolerance(intent), step, 0);
  }

  /** A second order can ever go out exactly when one step, or all the room to the clamp, is within tolerance. */
  lemma SecondOrderPossible(intent: ExecutionIntent, step: real)
    requires Clamped(intent) && step > 0.0 && intent.limitPrice > 0.0
    requires intent.maxPriceDeviationBps >= 0.0 && intent.maxAttempts >= 2
    ensures OrderBudget(intent, step) >= 2 <==> Min(step, Headroom(intent)) <= Tolerance(intent)
  {
    ToleranceNonNegative(intent);
    BudgetBound(Tolerance(intent), Headroom(intent), step, intent.maxAttempts, 1);
  }

  /** At the default offset of 0.01 no profile ever retries a buy below 0.9945 or a sell above 0.0011. */
  lemma DefaultOffsetNeverRetries(s: CopySignal, settings: RuntimeSettings)
    requires settings.limitPriceOffset == 0.01
    requires var p := BuildExecutionIntent(s, settings).limitPrice;
             match s.side case Buy => 0.0 < p <= 0.9945 case Sell => 0.0011 <= p <= 0.999
    ensures OrderBudget(BuildExecutionIntent(s, settings), Step(settings)) == 1
  {
    var intent := BuildExecutionIntent(s, settings);
    LimitPriceRange(s, settings);
    ToleranceNonNegative(intent);
    if intent.maxAttempts >= 2 {
      BudgetBound(Tolerance(intent), Headroom(intent), Step(settings), intent.maxAttempts, 1);
    }
    BudgetBound(Tolerance(intent), Headroom(intent), Step(settings), intent.maxAttempts, 0);
  }
}
