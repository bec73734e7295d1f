/** Backoff delays over 64-bit words, and the WebSocket client's give-up loop. */
module Reconnect {
  import opened Types

  const TWO_64: int := 0x1_0000_0000_0000_0000

  function Pow2(n: nat): (p: nat)
    ensures p >= 1
  {
    if n == 0 then 1 else 2 * Pow2(n - 1)
  }

  function Lesser(a: int, b: int): int { if a <= b then a else b }

  /** `2_u64.saturating_pow(n)`. */
  function SaturatingPow2(n: nat): U64 { Lesser(Pow2(n), U64_MAX) }

  /** `a.saturating_mul(b)`. */
  function SaturatingMul(a: U64, b: U64): U64 {
    SaturateProduct(a, b);
    Lesser(a * b, U64_MAX)
  }

  lemma SaturateProduct(a: U64, b: U64)
    ensures a * b >= 0
  {
  }

  /** The RPC server's backoff. */
  function ComputeBackoffDelay(baseMs: U64, maxMs: U64, attempt: nat): U64 {
    Lesser(SaturatingMul(baseMs, SaturatingPow2(attempt)), maxMs)
  }

  /** Saturating twice never shows: the delay is the exact capped exponential, for every input. */
  lemma {:induction false} BackoffIsExact(baseMs: U64, maxMs: U64, attempt: nat)
    ensures ComputeBackoffDelay(baseMs, maxMs, attempt) == Lesser(baseMs * Pow2(attempt), maxMs)
  {
    var p := Pow2(attempt);
    if p > U64_MAX && baseMs > 0 {
      GrowProduct(baseMs, p);
      GrowProduct(baseMs, U64_MAX);
    }
  }

  lemma GrowProduct(a: int, b: int)
    requires a >= 1 && b >= 0
    ensures a * b >= b
  {
    assert a * b - b == (a - 1) * b;
    assert (a - 1) * b >= 0;
  }

  /** A signed 64-bit value reinterpreted as unsigned. */
  function AsU64(j: int): U64
    requires -0x8000_0000_0000_0000 <= j < 0x8000_0000_0000_0000
  {
    if j >= 0 then j else TWO_64 + j
  }

  function JitterRange(capped: U64): (r: int)
    ensures 1 <= r <= 0x4000_0000_0000_0000
    ensures 4 * r <= capped < 4 * r + 4 || (r == 1 && capped < 4)
  {
    if capped / 4 >= 1 then capped / 4 else 1
  }

  function CappedGrowth(baseMs: U64, maxMs: U64, attempt: nat): U64 {
    Lesser(SaturatingMul(baseMs, SaturatingPow2(if attempt <= 10 then attempt else 10)), maxMs)
  }

  /**
   * The WebSocket client's delay for one random draw. When the addition overflows, a build with overflow checks panics,
   * which is `None`, and one without wraps.
   */
  function Jittered(capped: U64, draw: int, checked: bool): Option<U64>
    requires -JitterRange(capped) <= draw <= JitterRange(capped)
  {
    var jitter := AsU64(draw);
    if capped <= jitter then Some(capped)
    else if capped + jitter <= U64_MAX then Some(capped + jitter)
    else if checked then None
    else Some(capped + jitter - TWO_64)
  }

  /** The quarter above the capped delay fits in 64 bits. */
  predicate Fits(capped: U64) {
    capped + JitterRange(capped) <= U64_MAX
  }

  /**
   * The delay stays between the cap and a quarter above it for every draw exactly if that quarter fits; then, although
   * the draw is symmetric, the cast makes every negative draw a no-op.
   */
  lemma JitterBounds(capped: U64, checked: bool)
    ensures (forall draw :: -JitterRange(capped) <= draw <= JitterRange(capped) ==>
               && Jittered(capped, draw, checked).Some?
               && capped <= Jittered(capped, draw, checked).value <= capped + JitterRange(capped))
       <==> Fits(capped)
    ensures forall draw :: -JitterRange(capped) <= draw <= JitterRange(capped) ==>
              var delay := Jittered(capped, draw, checked);
              && (Fits(capped) && draw < 0 ==> delay == Some(capped))
              && (Fits(capped) && draw >= 0 ==> delay == Some(if draw < capped then capped + draw else capped))
              && (delay.None? ==> checked && !Fits(capped))
              && (delay.Some? ==> delay.value <= Lesser(capped + JitterRange(capped), U64_MAX))
  {
    if !Fits(capped) {
      var worst := Jittered(capped, JitterRange(capped), checked);
      assert worst.None? || worst.value < capped;
    }
  }

  // ---------------------------------------------------------------------------------------------
  // The connection loop
  // ---------------------------------------------------------------------------------------------

  /** How one connection ended; a failure comes with the random number its backoff will draw. */
  datatype Ending = Closed | Failed(roll: int)

  datatype Action = ReconnectAtOnce | Sleep(ms: U64) | GiveUp | Panic

  /** `checked` tells whether the build checks arithmetic for overflow. */
  datatype WsConfig = WsConfig(reconnectBaseMs: U64, reconnectMaxMs: U64, maxConsecutiveFailures: U32, checked: bool)

  /** The random draw: any number of the inclusive jitter range, as the environment supplies it. */
  function Draw(capped: U64, roll: int): (draw: int)
    ensures -JitterRange(capped) <= draw <= JitterRange(capped)
    ensures -JitterRange(capped) <= roll <= JitterRange(capped) ==> draw == roll
  {
    if -JitterRange(capped) <= roll <= JitterRange(capped) then roll else 0
  }

  function DelayAfter(config: WsConfig, failures: nat, roll: int): Option<U64> {
    var capped := CappedGrowth(config.reconnectBaseMs, config.reconnectMaxMs, failures);
    Jittered(capped, Draw(capped, roll), config.checked)
  }

  /** Failures in a row at the end of the history. */
  function Streak(endings: seq<Ending>): (n: nat)
    ensures n <= |endings|
  {
    if endings == [] || endings[|endings| - 1].Closed? then 0 else 1 + Streak(endings[..|endings| - 1])
  }

  function FailureLimit(config: WsConfig): nat {
    if config.maxConsecutiveFailures >= 1 then config.maxConsecutiveFailures else 1
  }

  function ActionAfter(config: WsConfig, endings: seq<Ending>): Action
    requires endings != []
  {
    match endings[|endings| - 1]
    case Closed => ReconnectAtOnce
    case Failed(roll) =>
      if Streak(endings) >= FailureLimit(config) then GiveUp
      else ActionOf(DelayAfter(config, Streak(endings), roll))
  }

  function ActionOf(delay: Option<U64>): Action {
    if delay.Some? then Sleep(delay.value) else Panic
  }

  /** What one more ending does to the streak, and the action it calls for. */
  lemma {:induction false} ActionAt(config: WsConfig, endings: seq<Ending>, i: nat)
    requires i < |endings|
    ensures endings[i].Closed? ==>
              Streak(endings[..i + 1]) == 0 && ActionAfter(config, endings[..i + 1]) == ReconnectAtOnce
    ensures endings[i].Failed? ==>
              var failures := Streak(endings[..i]) + 1;
              && Streak(endings[..i + 1]) == failures
              && ActionAfter(config, endings[..i + 1])
                 == if failures >= FailureLimit(config) then GiveUp
                    else ActionOf(DelayAfter(config, failures, endings[i].roll))
  {
    assert endings[..i + 1][..i] == endings[..i];
  }

  predicate Ends(action: Action) { action.GiveUp? || action.Panic? }

  /** Each connection is followed by its action, up to the first one that ends the loop. */
  predicate IsRun(config: WsConfig, endings: seq<Ending>, actions: seq<Action>) {
    && |actions| <= |endings|
    && (forall i :: 0 <= i < |actions| ==> actions[i] == ActionAfter(config, endings[..i + 1]))
    && (forall i :: 0 <= i < |actions| - 1 ==> !Ends(actions[i]))
    && (|actions| < |endings| ==> actions != [] && Ends(actions[|actions| - 1]))
  }

  /** The loop has gone on after each connection so far. */
  ghost predicate GoesOn(config: WsConfig, endings: seq<Ending>, actions: seq<Action>) {
    && |actions| <= |endings|
    && (forall k :: 0 <= k < |actions| ==> actions[k] == ActionAfter(config, endings[..k + 1]) && !Ends(actions[k]))
  }

  lemma {:induction false} OneMoreAction(config: WsConfig, endings: seq<Ending>, actions: seq<Action>, action: Action)
    requires GoesOn(config, endings, actions) && |actions| < |endings|
    requires action == ActionAfter(config, endings[..|actions| + 1])
    ensures if Ends(action) then IsRun(config, endings, actions + [action])
            else GoesOn(config, endings, actions + [action])
  {
  }

  /** The loop over a history of connections; `actions[i]` is what followed the i-th. */
  method Run(config: WsConfig, endings: seq<Ending>) returns (actions: seq<Action>)
    ensures IsRun(config, endings, actions)
  {
    actions := [];
    var consecutiveFailures := 0;
    for i := 0 to |endings|
      invariant |actions| == i && consecutiveFailures == Streak(endings[..i])
      invariant consecutiveFailures < FailureLimit(config)
      invariant GoesOn(config, endings, actions)
    {
      ghost var next := ActionAfter(config, endings[..i + 1]);
      ActionAt(config, endings, i);
      OneMoreAction(config, endings, actions, next);
      match endings[i]
      case Closed =>
        consecutiveFailures := 0;
        assert next == ReconnectAtOnce;
        actions := actions + [ReconnectAtOnce];
      case Failed(roll) =>
        consecutiveFailures := consecutiveFailures + 1;
        if consecutiveFailures >= config.maxConsecutiveFailures {
          assert next == GiveUp;
          actions := actions + [GiveUp];
          return;
        }
        var delay := DelayAfter(config, consecutiveFailures, roll);
        assert next == ActionOf(delay);
        if delay.None? {
          actions := actions + [Panic];
          return;
        }
        actions := actions + [Sleep(delay.value)];
    }
  }

  /** The longest delay: a quarter above the maximum, or the largest word. */
  function MaxDelay(config: WsConfig): nat {
    Lesser(config.reconnectMaxMs + JitterRange(config.reconnectMaxMs), U64_MAX)
  }

  /** Time slept in the failures at the end of the history. */
  function SleptInStreak(config: WsConfig, endings: seq<Ending>): nat {
    if endings == [] || endings[|endings| - 1].Closed? then 0
    else
      (match ActionAfter(config, endings) case Sleep(ms) => ms case _ => 0)
      + SleptInStreak(config, endings[..|endings| - 1])
  }

  /** The base doubled for each failure, at most ten times and up to the maximum. */
  function Doubled(config: WsConfig, failures: nat): U64 {
    NaturalProduct(config.reconnectBaseMs, Pow2(Lesser(failures, 10)));
    Lesser(config.reconnectBaseMs * Pow2(Lesser(failures, 10)), config.reconnectMaxMs)
  }

  lemma NaturalProduct(a: nat, b: nat)
    ensures a * b >= 0
  {
  }

  /**
   * After some failures in a row the delay lies between the base doubled for each of them, at most ten times and up to
   * the maximum, and a quarter above it or one millisecond if that is more, whenever the quarter fits. It exceeds the
   * longest delay in no case, and if the maximum's own quarter fits there always is one. The draw is added unless it
   * is negative or no less than the delay itself.
   */
  lemma DelayBounds(config: WsConfig, failures: nat, roll: int)
    ensures var capped := Doubled(config, failures);
            var delay := DelayAfter(config, failures, roll);
            && (delay.Some? ==> delay.value <= MaxDelay(config))
            && (Fits(config.reconnectMaxMs) ==> Fits(capped))
            && (Fits(capped) ==>
                && delay.Some? && capped <= delay.value
                && (4 * (delay.value - capped) <= capped || delay.value == capped + 1)
                && (0 <= roll <= JitterRange(capped) ==> delay.value == if roll < capped then capped + roll else capped)
                && (-JitterRange(capped) <= roll < 0 ==> delay.value == capped))
  {
    var capped := CappedGrowth(config.reconnectBaseMs, config.reconnectMaxMs, failures);
    GrowthIsDoubled(config, failures);
    JitterBounds(capped, config.checked);
    QuarterFits(capped, config.reconnectMaxMs);
  }

  lemma QuarterFits(capped: U64, max: U64)
    requires capped <= max
    ensures Fits(max) ==> Fits(capped)
  {
  }

  lemma GrowthIsDoubled(config: WsConfig, failures: nat)
    ensures CappedGrowth(config.reconnectBaseMs, config.reconnectMaxMs, failures) == Doubled(config, failures)
                                                                                  <= config.reconnectMaxMs
  {
    BackoffIsExact(config.reconnectBaseMs, config.reconnectMaxMs, Lesser(failures, 10));
  }

  lemma {:induction false} StreakExactly(endings: seq<Ending>, n: nat)
    requires n <= |endings| && forall k :: |endings| - n <= k < |endings| ==> endings[k].Failed?
    requires n < |endings| ==> endings[|endings| - n - 1].Closed?
    ensures Streak(endings) == n
    decreases n
  {
    if n > 0 {
      StreakExactly(endings[..|endings| - 1], n - 1);
    }
  }

  /**
   * What follows a connection that ended with `n` failures in a row: a reconnect at once if there are none, giving up
   * if they reach the limit, and else a sleep of the base doubled for each, at most ten times and up to the maximum,
   * and up to a quarter more.
   */
  lemma {:induction false} ActionsExactly(config: WsConfig, endings: seq<Ending>, actions: seq<Action>, i: nat, n: nat)
    requires IsRun(config, endings, actions) && i < |actions| && n <= i + 1
    requires forall k :: i + 1 - n <= k <= i ==> endings[k].Failed?
    requires n <= i ==> endings[i - n].Closed?
    ensures actions[i].ReconnectAtOnce? <==> n == 0
    ensures actions[i].GiveUp? <==> n >= 1 && n >= config.maxConsecutiveFailures
    ensures var capped := Doubled(config, n);
            1 <= n < config.maxConsecutiveFailures && Fits(capped) ==>
              && actions[i].Sleep? && capped <= actions[i].ms
              && (4 * (actions[i].ms - capped) <= capped || actions[i].ms == capped + 1)
  {
    StreakExactly(endings[..i + 1], n);
    ActionAt(config, endings, i);
    if n >= 1 { DelayBounds(config, n, endings[i].roll); }
  }

  /** The sleeps a streak is allowed: one for each failure but the one that gives up. */
  function SleepsAllowed(config: WsConfig, streak: nat): nat {
    if streak == FailureLimit(config) then streak - 1 else streak
  }

  /** Before giving up, at most one sleep fewer than the limit, each bounded; giving up itself does not sleep. */
  lemma {:induction false} StreakSleepBound(config: WsConfig, endings: seq<Ending>)
    requires forall i :: 0 < i < |endings| ==> Streak(endings[..i]) < FailureLimit(config)
    ensures Streak(endings) <= FailureLimit(config)
    ensures SleptInStreak(config, endings) <= SleepsAllowed(config, Streak(endings)) * MaxDelay(config)
  {
    if endings == [] || endings[|endings| - 1].Closed? {
      assert 0 * MaxDelay(config) == 0;
    } else {
      var init := endings[..|endings| - 1];
      assert forall i :: 0 < i < |init| ==> init[..i] == endings[..i];
      assert Streak(init) < FailureLimit(config);
      StreakSleepBound(config, init);
      LastSleep(config, endings);
      OneMoreSleep(SleptInStreak(config, init), SleptInStreak(config, endings), Streak(init), FailureLimit(config),
                   MaxDelay(config));
    }
  }

  lemma OneMoreSleep(before: nat, after: nat, n: nat, limit: nat, d: nat)
    requires n < limit && before <= n * d && after <= before + if n + 1 >= limit then 0 else d
    ensures after <= (if n + 1 == limit then n else n + 1) * d
  {
    assert (n + 1) * d == n * d + d;
  }

  lemma {:induction false} LastSleep(config: WsConfig, endings: seq<Ending>)
    requires endings != [] && endings[|endings| - 1].Failed?
    ensures SleptInStreak(config, endings)
         <= SleptInStreak(config, endings[..|endings| - 1])
            + if Streak(endings) >= FailureLimit(config) then 0 else MaxDelay(config)
  {
    DelayBounds(config, Streak(endings), endings[|endings| - 1].roll);
  }

  /**
   * The loop gives up exactly on a history with the limit's failures in a row, unless an overflow has stopped it
   * before; and then its last action is the first moment this happens. It panics only in a checked build with a maximum
   * delay whose quarter does not fit.
   */
  lemma GivesUpExactly(config: WsConfig, endings: seq<Ending>, actions: seq<Action>)
    requires IsRun(config, endings, actions)
    ensures (exists i :: 0 <= i < |actions| && actions[i].GiveUp?)
       <==> && Panic !in actions
            && (exists n :: 0 <= n <= |endings| && Streak(endings[..n]) >= FailureLimit(config))
    ensures forall i :: 0 <= i < |actions| && actions[i].GiveUp? ==>
              && i == |actions| - 1
              && Streak(endings[..i + 1]) == FailureLimit(config)
              && forall n :: 0 <= n <= i ==> Streak(endings[..n]) < FailureLimit(config)
    ensures Panic in actions ==> config.checked && !Fits(config.reconnectMaxMs)
  {
    GiveUpMeansLimit(config, endings, actions);
    forall i | 0 <= i < |actions| && actions[i].Panic? ensures config.checked && !Fits(config.reconnectMaxMs) {
      PanicsOnlyChecked(config, endings[..i + 1]);
    }
    forall i | 0 <= i < |actions| && actions[i].GiveUp?
      ensures i == |actions| - 1 && Streak(endings[..i + 1]) == FailureLimit(config)
      ensures forall n :: 0 <= n <= i ==> Streak(endings[..n]) < FailureLimit(config)
    {
      FirstGiveUp(config, endings, actions, i);
    }
    if n :| 0 <= n <= |endings| && Streak(endings[..n]) >= FailureLimit(config) {
      if n <= |actions| {
        assert actions[n - 1].GiveUp?;
      } else {
        assert Ends(actions[|actions| - 1]);
      }
    }
  }

  lemma {:induction false} GiveUpMeansLimit(config: WsConfig, endings: seq<Ending>, actions: seq<Action>)
    requires IsRun(config, endings, actions)
    ensures forall i :: 0 <= i < |actions| ==>
              (actions[i].GiveUp? <==> Streak(endings[..i + 1]) >= FailureLimit(config))
  {
    forall i | 0 <= i < |actions| ensures actions[i].GiveUp? <==> Streak(endings[..i + 1]) >= FailureLimit(config) {
      ActionAt(config, endings, i);
    }
  }

  lemma {:induction false} FirstGiveUp(config: WsConfig, endings: seq<Ending>, actions: seq<Action>, i: nat)
    requires IsRun(config, endings, actions) && i < |actions| && actions[i].GiveUp?
    ensures i == |actions| - 1 && Streak(endings[..i + 1]) == FailureLimit(config)
    ensures forall n :: 0 <= n <= i ==> Streak(endings[..n]) < FailureLimit(config)
  {
    GiveUpMeansLimit(config, endings, actions);
    assert Ends(actions[i]);
    forall n | 0 <= n <= i ensures Streak(endings[..n]) < FailureLimit(config) {
      if n > 0 { assert !Ends(actions[n - 1]); }
    }
    ActionAt(config, endings, i);
  }

  lemma PanicsOnlyChecked(config: WsConfig, endings: seq<Ending>)
    requires endings != [] && ActionAfter(config, endings).Panic?
    ensures config.checked && !Fits(config.reconnectMaxMs)
  {
    DelayBounds(config, Streak(endings), endings[|endings| - 1].roll);
    JitterBounds(CappedGrowth(config.reconnectBaseMs, config.reconnectMaxMs, Streak(endings)), config.checked);
  }
}
