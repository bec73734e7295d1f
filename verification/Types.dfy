/** Values shared by the engine's modules. Money, prices and rates are exact reals. */
module Types {

  datatype Option<+T> = None | Some(value: T)

  function GetOr<T>(o: Option<T>, default: T): T {
    if o.Some? then o.value else default
  }

  const U32_MAX: int := 0xFFFF_FFFF
  const U64_MAX: int := 0xFFFF_FFFF_FFFF_FFFF

  type U32 = x: int | 0 <= x <= U32_MAX
  type U64 = x: int | 0 <= x <= U64_MAX

  datatype EngineMode = DryRun | Live

  datatype RiskProfile = Conservative | Balanced | Aggressive {

    function ExecutionPremiumBps(): real {
      match this
      case Conservative => 8.0
      case Balanced => 12.0
      case Aggressive => 16.0
    }

    function MaxRetryAttempts(): nat {
      match this
      case Conservative => 1
      case Balanced => 2
      case Aggressive => 3
    }

    function MaxPriceDeviationBps(): real {
      match this
      case Conservative => 20.0
      case Balanced => 30.0
      case Aggressive => 45.0
    }
  }

  datatype Caps = Caps(
    maxCopyNotionalPerTrade: real,
    maxMarketExposureUsd: real,
    maxDailyNotionalUsd: real,
    maxOpenPositions: U32)

  /** `lookback_hours` is never read by the engine and is dropped. */
  datatype AutoStopConfig = AutoStopConfig(
    enabled: bool,
    minWinRatePercent: real,
    maxDrawdownUsd: real,
    minTradesBeforeStop: nat)

  datatype RuntimeSettings = RuntimeSettings(
    mode: EngineMode,
    riskProfile: RiskProfile,
    multiplier: real,
    caps: Caps,
    paused: bool,
    followerEquityUsd: real,
    feeBps: real,
    slippageBps: real,
    limitPriceOffset: real,
    copySells: bool,
    autoStopConfig: AutoStopConfig)

  datatype TradeSide = Buy | Sell

  datatype SourceFillEvent = SourceFillEvent(
    executionId: string,
    sourceWallet: string,
    marketSlug: string,
    side: TradeSide,
    sourceTradeNotionalUsd: real,
    sourcePrice: real,
    sourceEquityUsd: real,
    expectedEdgeBps: real)

  datatype CopySignal = CopySignal(
    executionId: string,
    sourceWallet: string,
    marketSlug: string,
    side: TradeSide,
    sourcePrice: real,
    copyNotionalUsd: real,
    copyQuantity: real,
    expectedEdgeBps: real)

  datatype ExecutionIntent = ExecutionIntent(
    executionId: string,
    marketSlug: string,
    side: TradeSide,
    quantity: real,
    limitPrice: real,
    maxAttempts: nat,
    maxPriceDeviationBps: real)
}
