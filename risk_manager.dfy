/** `RiskManager` of risk_manager.py: position sizing, trade validation, the
    risk/reward ratio and the trailing-stop candidate. Every operation is a pure
    calculation over its arguments and the configuration. */
module RiskManager {
  import opened Common
  import opened Settings

  function Abs(x: real): (a: real)
    ensures a >= 0.0 && (a == x || a == -x)
  {
    if x < 0.0 then -x else x
  }

  /** The money put at risk by one trade: RISK_PERCENT of the balance. */
  function RiskAmount(cfg: TradingConfig, balance: real): real {
    balance * (cfg.riskPercent / 100.0)
  }

  /** The position size before rounding: risk amount over stop distance, times leverage. */
  function RawPositionSize(cfg: TradingConfig, balance: real, entryPrice: real, stopLoss: real, leverage: real): real
    requires entryPrice != stopLoss
  {
    (RiskAmount(cfg, balance) / Abs(entryPrice - stopLoss)) * leverage
  }

  /** `calculate_position_size`: fixed-fractional sizing, rounded to 6 decimals, with
      MIN_ORDER_SIZE both as the fallback for a zero stop distance and as a floor. */
  function PositionSize(cfg: TradingConfig, balance: real, entryPrice: real, stopLoss: real, leverage: real): (size: real)
    ensures size >= cfg.minOrderSize
    ensures entryPrice == stopLoss ==> size == cfg.minOrderSize
    ensures entryPrice != stopLoss ==>
      var rounded := Round(RawPositionSize(cfg, balance, entryPrice, stopLoss, leverage), 6);
      (rounded >= cfg.minOrderSize ==> size == rounded) && (rounded < cfg.minOrderSize ==> size == cfg.minOrderSize)
  {
    var distance := Abs(entryPrice - stopLoss);
    if distance == 0.0 then
      cfg.minOrderSize
    else
      var size := Round(RawPositionSize(cfg, balance, entryPrice, stopLoss, leverage), 6);
      if size < cfg.minOrderSize then cfg.minOrderSize else size
  }

  /** When the minimum does not clamp it, the size loses at the stop exactly the nominal
      risk (times leverage), up to the 6-decimal rounding of the size. */
  lemma PositionSizeCarriesNominalRisk(cfg: TradingConfig, balance: real, entryPrice: real, stopLoss: real, leverage: real)
    requires entryPrice != stopLoss
    requires Round(RawPositionSize(cfg, balance, entryPrice, stopLoss, leverage), 6) >= cfg.minOrderSize
    ensures var distance := Abs(entryPrice - stopLoss);
      Abs(PositionSize(cfg, balance, entryPrice, stopLoss, leverage) * distance - RiskAmount(cfg, balance) * leverage)
        <= distance * HalfUnit(6)
  {
    var distance := Abs(entryPrice - stopLoss);
    var raw := RawPositionSize(cfg, balance, entryPrice, stopLoss, leverage);
    var size := PositionSize(cfg, balance, entryPrice, stopLoss, leverage);
    RawSizeCarriesRisk(cfg, balance, entryPrice, stopLoss, leverage);
    ScaledError(size, raw, distance, RiskAmount(cfg, balance) * leverage, HalfUnit(6));
  }

  /** Whatever the clamp does, the size never risks less than the nominal amount by more
      than the rounding; the clamp can only raise the risk. */
  lemma PositionSizeNeverUnderRisks(cfg: TradingConfig, balance: real, entryPrice: real, stopLoss: real, leverage: real)
    requires entryPrice != stopLoss
    ensures var distance := Abs(entryPrice - stopLoss);
      PositionSize(cfg, balance, entryPrice, stopLoss, leverage) * distance
        >= RiskAmount(cfg, balance) * leverage - distance * HalfUnit(6)
  {
    var distance := Abs(entryPrice - stopLoss);
    var raw := RawPositionSize(cfg, balance, entryPrice, stopLoss, leverage);
    var size := PositionSize(cfg, balance, entryPrice, stopLoss, leverage);
    RawSizeCarriesRisk(cfg, balance, entryPrice, stopLoss, leverage);
    ScaledLowerError(size, raw, distance, RiskAmount(cfg, balance) * leverage, HalfUnit(6));
  }

  /** Before rounding, the size loses exactly the risk amount (times leverage) at the stop. */
  lemma RawSizeCarriesRisk(cfg: TradingConfig, balance: real, entryPrice: real, stopLoss: real, leverage: real)
    requires entryPrice != stopLoss
    ensures RawPositionSize(cfg, balance, entryPrice, stopLoss, leverage) * Abs(entryPrice - stopLoss)
         == RiskAmount(cfg, balance) * leverage
  {
  }

  /** A size within `h` of one that loses `risk` over `d` loses `risk` up to `d * h`. */
  lemma ScaledError(size: real, raw: real, d: real, risk: real, h: real)
    requires d >= 0.0 && raw * d == risk && -h <= size - raw <= h
    ensures Abs(size * d - risk) <= d * h
  {
    assert size * d - risk == (size - raw) * d;
    if size >= raw {
      assert (size - raw) * d <= h * d;
    } else {
      assert (raw - size) * d <= h * d;
    }
  }

  /** A size at least `raw - h` loses at least `risk - d * h` over `d`. */
  lemma ScaledLowerError(size: real, raw: real, d: real, risk: real, h: real)
    requires d >= 0.0 && raw * d == risk && size - raw >= -h
    ensures size * d >= risk - d * h
  {
    assert size * d - risk == (size - raw) * d;
    assert (size - raw + h) * d >= 0.0;
  }

  /** `calculate_position_value`. */
  function PositionValue(positionSize: real, price: real): (value: real)
    ensures positionSize >= 0.0 && price >= 0.0 ==> value >= 0.0
    ensures price != 0.0 ==> value / price == positionSize
    ensures price == 0.0 ==> value == 0.0
  {
    positionSize * price
  }

  /** The message of a failed validation, with the figures the source puts into it. */
  datatype TradeVerdict =
    | Passed
    | ExceedsMaximum(positionValue: real, maxPositionValue: real)
    | BelowMinimum(positionSize: real, minOrderSize: real)
    | TooHighRelativeToBalance
  {
    predicate IsValid() { Passed? }
  }

  /** `validate_trade`: three rules checked in order, the first that fails decides the
      reason. The risk amount the source computes on the way is never used. */
  function ValidateTrade(cfg: TradingConfig, balance: real, positionSize: real, entryPrice: real, leverage: real): (v: TradeVerdict)
    ensures var value := PositionValue(positionSize, entryPrice);
      (v.IsValid() <==> value <= balance * leverage && positionSize >= cfg.minOrderSize && value <= balance * 0.5)
      && (v.ExceedsMaximum? <==> value > balance * leverage)
      && (v.BelowMinimum? <==> value <= balance * leverage && positionSize < cfg.minOrderSize)
      && (v.TooHighRelativeToBalance? <==>
            value <= balance * leverage && positionSize >= cfg.minOrderSize && value > balance * 0.5)
    ensures v.ExceedsMaximum? ==> v.positionValue == positionSize * entryPrice && v.maxPositionValue == balance * leverage
    ensures v.BelowMinimum? ==> v.positionSize == positionSize && v.minOrderSize == cfg.minOrderSize
  {
    var positionValue := PositionValue(positionSize, entryPrice);
    var maxPositionValue := balance * leverage;
    if positionValue > maxPositionValue then
      ExceedsMaximum(positionValue, maxPositionValue)
    else if positionSize < cfg.minOrderSize then
      BelowMinimum(positionSize, cfg.minOrderSize)
    else if positionValue > balance * 0.5 then
      TooHighRelativeToBalance
    else
      Passed
  }

  /** At the leverage the bot uses (1), and at any leverage of at least one half, the margin
      rule is implied by the 50% ceiling: a trade passes exactly when it meets the minimum
      size and stays within half the balance. */
  lemma ValidationAtModestLeverage(cfg: TradingConfig, balance: real, positionSize: real, entryPrice: real, leverage: real)
    requires balance >= 0.0 && leverage >= 0.5
    ensures ValidateTrade(cfg, balance, positionSize, entryPrice, leverage).IsValid()
        <==> positionSize >= cfg.minOrderSize && positionSize * entryPrice <= balance * 0.5
  {
    assert balance * 0.5 <= balance * leverage;
  }

  /** RISK_PERCENT plays no part in validation. */
  lemma ValidationIgnoresRiskPercent(cfg: TradingConfig, riskPercent: real, balance: real, positionSize: real, entryPrice: real, leverage: real)
    ensures ValidateTrade(cfg.(riskPercent := riskPercent), balance, positionSize, entryPrice, leverage)
         == ValidateTrade(cfg, balance, positionSize, entryPrice, leverage)
  {
  }

  /** A size produced by `PositionSize` is never refused for being below the minimum. */
  lemma SizedTradeMeetsMinimum(cfg: TradingConfig, balance: real, entryPrice: real, stopLoss: real, leverage: real)
    ensures !ValidateTrade(cfg, balance, PositionSize(cfg, balance, entryPrice, stopLoss, leverage), entryPrice, leverage).BelowMinimum?
  {
  }

  /** 0.1 BTC at 50000 on a balance of 1000 is worth 5000, over the 1000 allowed. */
  lemma ValidationExample()
    ensures ValidateTrade(Default, 1000.0, 0.1, 50000.0, 1.0) == ExceedsMaximum(5000.0, 1000.0)
  {
  }

  /** `calculate_risk_reward_ratio`: reward distance over risk distance, 0 when there is no risk. */
  function RiskRewardRatio(entryPrice: real, stopLoss: real, takeProfit: real): (ratio: real)
    ensures ratio >= 0.0
    ensures entryPrice == stopLoss ==> ratio == 0.0
    ensures entryPrice != stopLoss ==> ratio * Abs(entryPrice - stopLoss) == Abs(takeProfit - entryPrice)
  {
    var risk := Abs(entryPrice - stopLoss);
    var reward := Abs(takeProfit - entryPrice);
    if risk == 0.0 then 0.0 else reward / risk
  }

  /** `should_trail_stop`. */
  function ShouldTrailStop(cfg: TradingConfig, currentProfitPct: real): (trail: bool)
    ensures trail <==> currentProfitPct >= cfg.trailStartPercent
  {
    currentProfitPct >= cfg.trailStartPercent
  }

  /** How far the trailing stop sits from the price: TRAIL_STEP_PERCENT of it. */
  function TrailDistance(cfg: TradingConfig, currentPrice: real): real {
    currentPrice * (cfg.trailStepPercent / 100.0)
  }

  /** The candidate stop before rounding: one trail distance behind the price. */
  function RawTrailingStop(cfg: TradingConfig, currentPrice: real, side: Side): real {
    if side == Buy then currentPrice - TrailDistance(cfg, currentPrice)
    else currentPrice + TrailDistance(cfg, currentPrice)
  }

  /** `calculate_trailing_stop`: a new stop one trail distance behind the price, offered only
      when the UNROUNDED candidate is tighter than the current stop (for a sell, also when no
      stop is set), and returned rounded to 2 decimals. */
  function TrailingStopCandidate(cfg: TradingConfig, entryPrice: real, currentPrice: real, currentStop: real, positionType: string): (r: Option<real>)
    ensures SideOf(positionType) == Unrecognized ==> r == None
    ensures SideOf(positionType) == Buy ==>
      (r.Some? <==> RawTrailingStop(cfg, currentPrice, Buy) > currentStop)
    ensures SideOf(positionType) == Sell ==>
      (r.Some? <==> RawTrailingStop(cfg, currentPrice, Sell) < currentStop || currentStop == 0.0)
    ensures r.Some? ==> r.value == Round(RawTrailingStop(cfg, currentPrice, SideOf(positionType)), 2)
    ensures r.Some? ==>
      Abs(r.value - RawTrailingStop(cfg, currentPrice, SideOf(positionType))) <= HalfUnit(2)
    ensures r.Some? && SideOf(positionType) == Buy ==> r.value > currentStop - HalfUnit(2)
    ensures r.Some? && SideOf(positionType) == Sell && currentStop != 0.0 ==> r.value < currentStop + HalfUnit(2)
  {
    var trailDistance := TrailDistance(cfg, currentPrice);
    match SideOf(positionType)
    case Buy =>
      var newStop := currentPrice - trailDistance;
      if newStop > currentStop then Some(Round(newStop, 2)) else None
    case Sell =>
      var newStop := currentPrice + trailDistance;
      if newStop < currentStop || currentStop == 0.0 then Some(Round(newStop, 2)) else None
    case Unrecognized => None
  }

  /** The candidate of a buy is compared before it is rounded, so it can be offered and yet
      not lie above the current stop: at a price whose trail sits at 99.004 over a stop of
      99, the offered stop is 99. */
  lemma BuyCandidateMayNotTighten()
    ensures var price := 99.004 / 0.995;
      TrailingStopCandidate(Default, 100.0, price, 99.0, "buy") == Some(99.0)
  {
    var price := 99.004 / 0.995;
    assert RawTrailingStop(Default, price, Buy) == 99.004;
    assert (99.004 * 100.0).Floor == 9900;
    assert Round(99.004, 2) == 99.0;
  }
}
