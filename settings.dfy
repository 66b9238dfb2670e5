/** The trading configuration, fixed for the life of a bot: the settings of
    `TradingConfig` (config.py) that the risk and stop-management core reads. */
module Settings {

  datatype TradingConfig = TradingConfig(
    riskPercent: real,          // RISK_PERCENT: % of the balance risked per trade
    maxPositions: int,          // MAX_POSITIONS
    useTrailing: bool,          // USE_TRAILING
    trailStartPercent: real,    // TRAIL_START_PERCENT: profit % that activates trailing
    trailStepPercent: real,     // TRAIL_STEP_PERCENT: distance of the trailing stop, % of price
    primaryTimeframe: string,   // PRIMARY_TIMEFRAME
    symbol: string,             // SYMBOL
    minOrderSize: real,         // MIN_ORDER_SIZE
    dryRun: bool                // DRY_RUN: paper trading
  )

  /** The values config.py ships with. */
  const Default := TradingConfig(
    riskPercent := 1.0,
    maxPositions := 1,
    useTrailing := true,
    trailStartPercent := 1.0,
    trailStepPercent := 0.5,
    primaryTimeframe := "1h",
    symbol := "BTC/USD",
    minOrderSize := 0.001,
    dryRun := true
  )
}
