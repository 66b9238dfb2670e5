/** `BTCSmartBot` of btc_smartbot.py, reduced to its decisions: detecting a new bar of the
    primary timeframe, gating and registering a trade, the per-cycle management of open
    positions, and the choice of entry price. The exchange, the clock and the indicator
    library are collaborators whose answers arrive as parameters. */
module SmartBot {
  import opened Common
  import opened Settings
  import opened Clock
  import opened RiskManager
  import opened PositionTracking
  import opened TrailingStop

  /** `tf_map` of `is_new_bar`: the length of a bar of each known timeframe, in minutes. */
  const TimeframeTable: map<string, int> :=
    map["1m" := 1, "5m" := 5, "15m" := 15, "1h" := 60, "4h" := 240, "1d" := 1440]

  /** `tf_map.get(PRIMARY_TIMEFRAME, 60)`. */
  function TimeframeMinutes(timeframe: string): (minutes: int)
    ensures minutes in TimeframeTable.Values
    ensures timeframe in TimeframeTable ==> minutes == TimeframeTable[timeframe]
    ensures timeframe !in TimeframeTable ==> minutes == 60
  {
    assert TimeframeTable["1h"] == 60;
    if timeframe in TimeframeTable then TimeframeTable[timeframe] else 60
  }

  lemma TimeframeMinutesPositive(timeframe: string)
    ensures TimeframeMinutes(timeframe) > 0
  {
    var m := TimeframeMinutes(timeframe);
    var k :| k in TimeframeTable && TimeframeTable[k] == m;
  }

  /** The bar a timestamp falls in, as `is_new_bar` computes it: the minute floored to a
      multiple of the timeframe, seconds and microseconds cleared, the hour left alone. */
  function BarTime(t: DateTime, tfMinutes: int): (bar: DateTime)
    requires tfMinutes > 0
    ensures bar == t.(minute := bar.minute, second := 0, microsecond := 0)
    ensures bar.minute == (t.minute / tfMinutes) * tfMinutes
    ensures t.Valid() ==> bar.Valid() && !Before(t, bar) && 0 <= t.minute - bar.minute < tfMinutes
  {
    var bar := t.(minute := (t.minute / tfMinutes) * tfMinutes, second := 0, microsecond := 0);
    if t.Valid() then BarNotAfterTime(t, bar); bar else bar
  }

  lemma BarNotAfterTime(t: DateTime, bar: DateTime)
    requires t.Valid() && bar == t.(minute := bar.minute, second := 0, microsecond := 0)
    requires 0 <= bar.minute <= t.minute
    ensures !Before(t, bar)
  {
    var f, g := t.Fields(), bar.Fields();
    assert f[..4] == g[..4];
    LexLessPastCommonPrefix(f, g, 4);
    var f4, g4 := f[4..], g[4..];
    assert f4 == [t.minute, t.second, t.microsecond] && g4 == [bar.minute, 0, 0];
    assert f4[1..] == [t.second, t.microsecond] && g4[1..] == [0, 0];
    assert f4[1..][1..] == [t.microsecond] && g4[1..][1..] == [0];
    assert !LexLess(f4[1..][1..][1..], g4[1..][1..][1..]);
    assert !LexLess(f4[1..][1..], g4[1..][1..]);
    assert !LexLess(f4[1..], g4[1..]);
    assert !LexLess(f4, g4);
  }

  /** With a timeframe of an hour or more the floored minute is always 0: a "4h" or "1d"
      primary timeframe starts a new bar every hour. */
  lemma LongTimeframesFloorToTheHour(t: DateTime, tfMinutes: int)
    requires t.Valid() && tfMinutes >= 60
    ensures BarTime(t, tfMinutes).minute == 0
  {
  }

  /** The answer of one `is_new_bar` call and the `last_bar_time` it leaves. */
  datatype BarCheck = BarCheck(isNew: bool, lastBarTime: Option<DateTime>)

  /** One call of `is_new_bar`: a bar is new when none was seen yet or it lies after the
      last one, and then it becomes the last one. */
  function NewBarStep(lastBarTime: Option<DateTime>, currentTime: DateTime, tfMinutes: int): (c: BarCheck)
    requires tfMinutes > 0
    ensures lastBarTime.None? ==> c.isNew && c.lastBarTime == Some(BarTime(currentTime, tfMinutes))
    ensures lastBarTime.Some? && !Before(lastBarTime.value, BarTime(currentTime, tfMinutes)) ==>
      !c.isNew && c.lastBarTime == lastBarTime
    ensures c.isNew <==> lastBarTime.None? || Before(lastBarTime.value, BarTime(currentTime, tfMinutes))
    ensures c.isNew ==> c.lastBarTime == Some(BarTime(currentTime, tfMinutes))
    ensures c.lastBarTime.Some?
    ensures lastBarTime.Some? ==> !Before(c.lastBarTime.value, lastBarTime.value)
  {
    var barTime := BarTime(currentTime, tfMinutes);
    if lastBarTime.None? || Before(lastBarTime.value, barTime) then
      (if lastBarTime.Some? then BeforeIsStrictTotalOrder(lastBarTime.value, barTime, lastBarTime.value); BarCheck(true, Some(barTime))
       else BarCheck(true, Some(barTime)))
    else
      (BeforeIsStrictTotalOrder(lastBarTime.value, lastBarTime.value, lastBarTime.value);
       BarCheck(false, lastBarTime))
  }

  /** The `last_bar_time` after each of a sequence of `is_new_bar` calls. */
  function BarTimes(lastBarTime: Option<DateTime>, times: seq<DateTime>, tfMinutes: int): (states: seq<Option<DateTime>>)
    requires tfMinutes > 0
    ensures |states| == |times|
    decreases |times|
  {
    if times == [] then []
    else
      var c := NewBarStep(lastBarTime, times[0], tfMinutes);
      [c.lastBarTime] + BarTimes(c.lastBarTime, times[1..], tfMinutes)
  }

  /** Over any sequence of calls `last_bar_time` is set from the first call on and never
      moves back, whatever the clock readings are. */
  lemma {:induction false} LastBarTimeNeverDecreases(lastBarTime: Option<DateTime>, times: seq<DateTime>, tfMinutes: int)
    requires tfMinutes > 0
    ensures forall i :: 0 <= i < |times| ==> BarTimes(lastBarTime, times, tfMinutes)[i].Some?
    ensures lastBarTime.Some? ==>
      forall i :: 0 <= i < |times| ==> !Before(BarTimes(lastBarTime, times, tfMinutes)[i].value, lastBarTime.value)
    ensures forall i, j :: 0 <= i <= j < |times| ==>
      !Before(BarTimes(lastBarTime, times, tfMinutes)[j].value, BarTimes(lastBarTime, times, tfMinutes)[i].value)
    decreases |times|
  {
    if times != [] {
      var c := NewBarStep(lastBarTime, times[0], tfMinutes);
      LastBarTimeNeverDecreases(c.lastBarTime, times[1..], tfMinutes);
      var states := BarTimes(lastBarTime, times, tfMinutes);
      var rest := BarTimes(c.lastBarTime, times[1..], tfMinutes);
      assert states == [c.lastBarTime] + rest;
      assert forall i :: 0 < i < |times| ==> states[i] == rest[i - 1];
      forall i | 0 <= i < |times| && lastBarTime.Some?
        ensures !Before(states[i].value, lastBarTime.value)
      {
        if i > 0 {
          NotBeforeTransitive(lastBarTime.value, c.lastBarTime.value, states[i].value);
        }
      }
      forall i, j | 0 <= i <= j < |times|
        ensures !Before(states[j].value, states[i].value)
      {
        if i == j {
          BeforeIsStrictTotalOrder(states[i].value, states[i].value, states[i].value);
        } else if i == 0 {
          assert states[j] == rest[j - 1];
        } else {
          assert states[i] == rest[i - 1] && states[j] == rest[j - 1];
        }
      }
    }
  }

  /** With a "4h" primary timeframe, 10:00 and 11:00 of the same day are two new bars. */
  lemma FourHourTimeframeSeesHourlyBars()
    ensures var tf := TimeframeMinutes("4h");
      var first := NewBarStep(None, DateTime(2024, 1, 1, 10, 0, 0, 0), tf);
      NewBarStep(first.lastBarTime, DateTime(2024, 1, 1, 11, 0, 0, 0), tf).isNew
  {
    assert TimeframeTable["4h"] == 240;
  }

  /** `analyze_entry_signal`, given the crossover flags and the volatility check that the
      indicator library computes: nothing on fewer than two bars or low volatility, and a
      bullish cross takes precedence over a bearish one. */
  function EntrySignal(barCount: int, bullishCross: bool, bearishCross: bool, volatilityOk: bool): (signal: Option<string>)
    ensures signal.Some? ==> SideOf(signal.value) != Unrecognized
    ensures signal.Some? <==> barCount >= 2 && volatilityOk && (bullishCross || bearishCross)
    ensures signal == Some("buy") <==> barCount >= 2 && volatilityOk && bullishCross
    ensures signal == Some("sell") <==> barCount >= 2 && volatilityOk && !bullishCross && bearishCross
  {
    RecognisedSides();
    if barCount < 2 then None
    else if !volatilityOk then None
    else if bullishCross then Some("buy")
    else if bearishCross then Some("sell")
    else None
  }

  /** The entry price `run` passes to `execute_trade`: the ask for a buy, the bid otherwise. */
  function EntryPrice(signal: string, bid: real, ask: real): (price: real)
    ensures signal == "buy" ==> price == ask
    ensures signal != "buy" ==> price == bid
    ensures bid <= ask ==> bid <= price <= ask
  {
    if signal == "buy" then ask else bid
  }

  /** What live order placement did. */
  datatype OrderOutcome = Placed(orderId: string) | OrderRaised

  /** Which way `execute_trade` ended. */
  datatype TradeOutcome =
    | SkippedMaxPositions
    | ValidationFailed(verdict: TradeVerdict)
    | OrderFailed
    | Opened(positionId: string, riskReward: real)

  /** What the bot opens for a signal: `execute_trade`'s sizing at leverage 1. */
  function TradeSize(cfg: TradingConfig, balance: real, currentPrice: real, stopLoss: real): real {
    PositionSize(cfg, balance, currentPrice, stopLoss, 1.0)
  }

  /** A position opened by the bot on a signal of `EntrySignal` always has a P&L, so it is
      always managed. */
  lemma OpenedPositionsHavePnl(signal: Option<string>, symbol: string, entryPrice: real, size: real, stopLoss: real, takeProfit: real, price: real)
    requires signal.Some? && SideOf(signal.value) != Unrecognized
    ensures PnlOf(NewPosition(symbol, signal.value, entryPrice, size, stopLoss, takeProfit), price).Some?
  {
  }

  /** Whether one round of management puts a position through the trailing manager: trailing
      is enabled and the position's type is buy or sell, so that it has a P&L. */
  predicate Trails(cfg: TradingConfig, p: Position) {
    cfg.useTrailing && SideOf(p.positionType) != Unrecognized
  }

  /** How far a round of `manage_open_positions` over the positions `start` has come, with
      the ids in `pending` still to do: the positions done are recorded at the price, the
      others untouched; a trailed position done is flagged exactly when it was flagged before
      the round or its profit reached TRAIL_START_PERCENT; no other id gains or loses a flag. */
  ghost predicate Progress(cfg: TradingConfig, profitOf: (real, real, string) -> real, price: real,
                           start: map<string, Position>, flags0: map<string, bool>, pending: set<string>,
                           now: map<string, Position>, flags: map<string, bool>)
  {
    && pending <= start.Keys && now.Keys == start.Keys
    && (forall id :: id in start ==> now[id] == if id in pending then start[id] else Recorded(start[id], price))
    && (forall id :: id in start && id !in pending && Trails(cfg, start[id]) ==>
          (IsSet(flags, id) <==>
             IsSet(flags0, id) || profitOf(start[id].entryPrice, price, start[id].positionType) >= cfg.trailStartPercent))
    && (forall id :: id !in start || id in pending || !Trails(cfg, start[id]) ==> (id in flags <==> id in flags0))
    && (!cfg.useTrailing ==> flags == flags0)
  }

  /** Managing one pending position moves the round on by that position. */
  lemma ProgressStep(cfg: TradingConfig, profitOf: (real, real, string) -> real, price: real,
                     start: map<string, Position>, flags0: map<string, bool>, pending: set<string>,
                     now: map<string, Position>, flags: map<string, bool>,
                     positionId: string, now': map<string, Position>, flags': map<string, bool>)
    requires Progress(cfg, profitOf, price, start, flags0, pending, now, flags)
    requires OnlyTrue(flags0) && OnlyTrue(flags) && positionId in pending
    requires now' == now[positionId := Recorded(now[positionId], price)]
    requires var p := now[positionId];
      && (Trails(cfg, p) ==>
            && SameElsewhere(flags, flags', positionId)
            && (IsSet(flags', positionId) <==>
                  IsSet(flags, positionId) || profitOf(p.entryPrice, price, p.positionType) >= cfg.trailStartPercent))
      && (!Trails(cfg, p) ==> flags' == flags)
    ensures Progress(cfg, profitOf, price, start, flags0, pending - {positionId}, now', flags')
  {
    assert now[positionId] == start[positionId];
    assert IsSet(flags, positionId) == IsSet(flags0, positionId);
  }

  class BTCSmartBot {
    const config: TradingConfig
    const positionTracker: PositionTracker
    const trailingManager: TrailingStopManager
    var lastBarTime: Option<DateTime>
    var balance: real

    ghost predicate Valid()
      reads this, positionTracker, trailingManager
    {
      positionTracker.Valid() && trailingManager.Valid() && trailingManager.config == config
    }

    constructor (config: TradingConfig, profitOf: (real, real, string) -> real)
      ensures Valid() && fresh(positionTracker) && fresh(trailingManager)
      ensures this.config == config && trailingManager.profitOf == profitOf
      ensures positionTracker.positions == map[] && trailingManager.trailingActive == map[]
      ensures lastBarTime == None && balance == 0.0
    {
      this.config := config;
      positionTracker := new PositionTracker();
      trailingManager := new TrailingStopManager(config, profitOf);
      lastBarTime := None;
      balance := 0.0;
    }

    /** `is_new_bar`. */
    method IsNewBar(currentTime: DateTime) returns (isNew: bool)
      requires currentTime.Valid()
      modifies this`lastBarTime
      ensures TimeframeMinutes(config.primaryTimeframe) > 0
      ensures BarCheck(isNew, lastBarTime) == NewBarStep(old(lastBarTime), currentTime, TimeframeMinutes(config.primaryTimeframe))
    {
      var tfMinutes := TimeframeMinutes(config.primaryTimeframe);
      TimeframeMinutesPositive(config.primaryTimeframe);
      var barTime := BarTime(currentTime, tfMinutes);
      if lastBarTime.None? || Before(lastBarTime.value, barTime) {
        lastBarTime := Some(barTime);
        return true;
      }
      return false;
    }

    /** `execute_trade` for a signal at a price, with the stops the indicator library gave for
        it, the id a paper trade would get from the clock, and what live order placement did. */
    method ExecuteTrade(signal: string, currentPrice: real, stopLoss: real, takeProfit: real,
                        paperId: string, order: OrderOutcome)
      returns (outcome: TradeOutcome)
      requires Valid()
      modifies positionTracker
      ensures Valid()
      ensures var size := TradeSize(config, balance, currentPrice, stopLoss);
        var verdict := ValidateTrade(config, balance, size, currentPrice, 1.0);
        var atCapacity := old(positionTracker.GetPositionCount()) >= config.maxPositions;
        && (atCapacity ==> outcome == SkippedMaxPositions)
        && (!atCapacity && !verdict.IsValid() ==> outcome == ValidationFailed(verdict))
        && (!atCapacity && verdict.IsValid() && !config.dryRun && order.OrderRaised? ==> outcome == OrderFailed)
        && (outcome.Opened? <==> !atCapacity && verdict.IsValid() && (config.dryRun || order.Placed?))
        && (outcome.Opened? ==>
              && outcome.positionId == (if config.dryRun then paperId else order.orderId)
              && outcome.riskReward == RiskRewardRatio(currentPrice, stopLoss, takeProfit)
              && positionTracker.positions == old(positionTracker.positions)[outcome.positionId :=
                   NewPosition(config.symbol, signal, currentPrice, size, stopLoss, takeProfit)])
    ensures !outcome.Opened? ==> positionTracker.positions == old(positionTracker.positions)
    ensures old(positionTracker.GetPositionCount()) <= config.maxPositions ==>
      positionTracker.GetPositionCount() <= config.maxPositions
    {
      if positionTracker.IsMaxPositionsReached(config.maxPositions) {
        return SkippedMaxPositions;
      }
      var positionSize := PositionSize(config, balance, currentPrice, stopLoss, 1.0);
      var verdict := ValidateTrade(config, balance, positionSize, currentPrice, 1.0);
      if !verdict.IsValid() {
        return ValidationFailed(verdict);
      }
      var rrRatio := RiskRewardRatio(currentPrice, stopLoss, takeProfit);
      var positionId: string;
      if config.dryRun {
        positionId := paperId;
      } else {
        match order {
          case OrderRaised => return OrderFailed;
          case Placed(orderId) => positionId := orderId;
        }
      }
      positionTracker.AddPosition(positionId, config.symbol, signal, currentPrice, positionSize, stopLoss, takeProfit);
      outcome := Opened(positionId, rrRatio);
    }

    /** The body of the loop of `manage_open_positions`, for one tracked position. */
    method ManagePosition(positionId: string, currentPrice: real)
      requires Valid() && positionId in positionTracker.positions
      modifies positionTracker, trailingManager
      ensures Valid()
      ensures var p := old(positionTracker.positions)[positionId];
        && positionTracker.positions == old(positionTracker.positions)[positionId := Recorded(p, currentPrice)]
        && (Trails(config, p) ==>
              && SameElsewhere(old(trailingManager.trailingActive), trailingManager.trailingActive, positionId)
              && (IsSet(trailingManager.trailingActive, positionId) <==>
                    IsSet(old(trailingManager.trailingActive), positionId)
                    || trailingManager.profitOf(p.entryPrice, currentPrice, p.positionType) >= config.trailStartPercent))
        && (!Trails(config, p) ==> trailingManager.trailingActive == old(trailingManager.trailingActive))
    {
      var position := positionTracker.positions[positionId];
      var pnl := positionTracker.CalculatePositionPnl(positionId, currentPrice);
      if pnl.Some? && config.useTrailing {
        var _ := trailingManager.UpdatePositionStop(positionId, position.entryPrice, currentPrice,
                                                    position.stopLoss, position.positionType, NoCallback);
        ActivationStepMeaning(config, old(trailingManager.trailingActive), positionId,
                              trailingManager.profitOf(position.entryPrice, currentPrice, position.positionType));
      }
    }

    /** `manage_open_positions` at a quote: every tracked position has its P&L recorded at the
        mid price and, with trailing enabled, goes through the trailing manager without an
        exchange callback. Each trailed position ends up flagged exactly when it was flagged
        before or its profit at the mid price reaches TRAIL_START_PERCENT, the flags of all
        other ids are left alone, and since the stop the manager accepts is never written
        back, every tracked stop is left as it was. */
    method ManageOpenPositions(bid: real, ask: real)
      requires Valid()
      modifies positionTracker, trailingManager
      ensures Valid()
      ensures positionTracker.positions ==
        map id | id in old(positionTracker.positions) :: Recorded(old(positionTracker.positions)[id], (bid + ask) / 2.0)
      ensures forall id :: id in old(positionTracker.positions) ==>
        positionTracker.positions[id].stopLoss == old(positionTracker.positions)[id].stopLoss
      ensures Progress(config, trailingManager.profitOf, (bid + ask) / 2.0, old(positionTracker.positions),
                       old(trailingManager.trailingActive), {}, positionTracker.positions, trailingManager.trailingActive)
    {
      var positions := positionTracker.GetAllPositions();
      var currentPrice := (bid + ask) / 2.0;
      if positions == map[] {
        return;
      }
      ghost var flags := trailingManager.trailingActive;
      var pending := positions.Keys;
      while pending != {}
        invariant Valid()
        invariant Progress(config, trailingManager.profitOf, currentPrice, positions, flags, pending,
                           positionTracker.positions, trailingManager.trailingActive)
        decreases pending
      {
        var positionId :| positionId in pending;
        ghost var now, before := positionTracker.positions, trailingManager.trailingActive;
        ManagePosition(positionId, currentPrice);
        ProgressStep(config, trailingManager.profitOf, currentPrice, positions, flags, pending, now, before,
                     positionId, positionTracker.positions, trailingManager.trailingActive);
        pending := pending - {positionId};
      }
    }
  }
}
