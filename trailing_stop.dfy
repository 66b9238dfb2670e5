/** trailing_stop.py: the per-position trailing-stop and breakeven state machines.
    Each manager keeps a map from position id to a flag; a flag is only ever set to true,
    and only the reset operations take it away. The profit percentage comes from
    `MarketAnalyzer.calculate_position_profit`, which each manager receives as the
    function `profitOf` and about which nothing is assumed. */
module TrailingStop {
  import opened Common
  import opened Settings
  import RiskManager
  import PositionTracking

  /** `flags.get(id, False)`. */
  predicate IsSet(flags: map<string, bool>, positionId: string) {
    positionId in flags && flags[positionId]
  }

  /** The maps of both managers only ever hold `True`. */
  predicate OnlyTrue(flags: map<string, bool>) {
    forall id :: id in flags ==> flags[id]
  }

  /** `flags` and `flags'` agree on every id but `positionId`. */
  ghost predicate SameElsewhere(flags: map<string, bool>, flags': map<string, bool>, positionId: string) {
    forall id :: id != positionId ==> (id in flags <==> id in flags') && (id in flags ==> flags[id] == flags'[id])
  }

  /** The answer of one call of a flag-keeping check and the map it leaves behind. */
  datatype FlagStep = FlagStep(fired: bool, flags: map<string, bool>)

  /** One call of `should_activate_trailing` for a position at a profit percentage. */
  function ActivationStep(cfg: TradingConfig, flags: map<string, bool>, positionId: string, profitPct: real): (s: FlagStep)
    ensures SameElsewhere(flags, s.flags, positionId)
    ensures OnlyTrue(flags) ==> OnlyTrue(s.flags)
    ensures IsSet(flags, positionId) ==> IsSet(s.flags, positionId)
  {
    if !cfg.useTrailing then FlagStep(false, flags)
    else if IsSet(flags, positionId) then FlagStep(true, flags)
    else if profitPct >= cfg.trailStartPercent then FlagStep(true, flags[positionId := true])
    else FlagStep(false, flags)
  }

  /** What one activation check does: nothing at all when trailing is disabled (even for a
      position already flagged); otherwise it reports the flag after the call, and the flag
      is set exactly when it was set before or the profit reaches TRAIL_START_PERCENT. */
  lemma ActivationStepMeaning(cfg: TradingConfig, flags: map<string, bool>, positionId: string, profitPct: real)
    ensures var s := ActivationStep(cfg, flags, positionId, profitPct);
      && (!cfg.useTrailing ==> !s.fired && s.flags == flags)
      && (cfg.useTrailing ==> (s.fired <==> IsSet(s.flags, positionId)))
      && (cfg.useTrailing ==>
            (IsSet(s.flags, positionId) <==> IsSet(flags, positionId) || RiskManager.ShouldTrailStop(cfg, profitPct)))
      && (s.flags == flags || s.flags == flags[positionId := true])
  {
  }

  /** The index of the first profit percentage that reaches `threshold`, or the length. */
  function FirstReach(pcts: seq<real>, threshold: real): (k: nat)
    ensures k <= |pcts|
    ensures forall i :: 0 <= i < k ==> pcts[i] < threshold
    ensures k < |pcts| ==> pcts[k] >= threshold
  {
    if pcts == [] then 0
    else if pcts[0] >= threshold then 0
    else 1 + FirstReach(pcts[1..], threshold)
  }

  /** The answers of successive activation checks of one position. */
  function ActivationRun(cfg: TradingConfig, flags: map<string, bool>, positionId: string, pcts: seq<real>): (run: seq<bool>)
    ensures |run| == |pcts|
    decreases |pcts|
  {
    if pcts == [] then []
    else
      var s := ActivationStep(cfg, flags, positionId, pcts[0]);
      [s.fired] + ActivationRun(cfg, s.flags, positionId, pcts[1..])
  }

  /** Over any sequence of checks with no reset, the trailing decision of a position that
      starts inactive is false up to the first profit reaching TRAIL_START_PERCENT and true
      from then on, whatever the later profits are; one that starts active answers true
      throughout; with trailing disabled every answer is false. */
  lemma {:induction false} ActivationIsOneWay(cfg: TradingConfig, flags: map<string, bool>, positionId: string, pcts: seq<real>)
    ensures !cfg.useTrailing ==>
      forall i :: 0 <= i < |pcts| ==> !ActivationRun(cfg, flags, positionId, pcts)[i]
    ensures cfg.useTrailing && IsSet(flags, positionId) ==>
      forall i :: 0 <= i < |pcts| ==> ActivationRun(cfg, flags, positionId, pcts)[i]
    ensures cfg.useTrailing && !IsSet(flags, positionId) ==>
      forall i :: 0 <= i < |pcts| ==>
        (ActivationRun(cfg, flags, positionId, pcts)[i] <==> i >= FirstReach(pcts, cfg.trailStartPercent))
    decreases |pcts|
  {
    if pcts != [] {
      var s := ActivationStep(cfg, flags, positionId, pcts[0]);
      ActivationIsOneWay(cfg, s.flags, positionId, pcts[1..]);
      var run := ActivationRun(cfg, flags, positionId, pcts);
      var rest := ActivationRun(cfg, s.flags, positionId, pcts[1..]);
      assert run == [s.fired] + rest;
      assert run[0] == s.fired;
      assert forall i :: 0 < i < |pcts| ==> run[i] == rest[i - 1];
      if !cfg.useTrailing {
        assert s == FlagStep(false, flags);
      } else if IsSet(flags, positionId) {
        assert s == FlagStep(true, flags);
      } else if pcts[0] >= cfg.trailStartPercent {
        assert s.fired && IsSet(s.flags, positionId);
        assert FirstReach(pcts, cfg.trailStartPercent) == 0;
      } else {
        assert s == FlagStep(false, flags);
        assert FirstReach(pcts, cfg.trailStartPercent) == 1 + FirstReach(pcts[1..], cfg.trailStartPercent);
      }
    }
  }

  /** `_validate_stop_update`: a buy's stop may only rise and a sell's only fall, unless no
      positive stop is set; a type that is neither is always accepted. */
  function ValidateStopUpdate(newStop: real, currentStop: real, positionType: string): (ok: bool)
    ensures SideOf(positionType) == Buy && currentStop > 0.0 ==> (ok <==> newStop > currentStop)
    ensures SideOf(positionType) == Sell && currentStop > 0.0 ==> (ok <==> newStop < currentStop)
    ensures currentStop <= 0.0 || SideOf(positionType) == Unrecognized ==> ok
  {
    match SideOf(positionType)
    case Buy => !(currentStop > 0.0 && newStop <= currentStop)
    case Sell => !(currentStop > 0.0 && newStop >= currentStop)
    case Unrecognized => true
  }

  /** What the exchange-update callback did, if one was given. */
  datatype ExchangeOutcome =
    | NoCallback              // no callback passed
    | Returned(success: bool) // the callback returned this
    | Raised                  // the callback raised an exception

  /** The result of `update_position_stop` once the candidate is known. */
  function StopUpdateResult(candidate: Option<real>, currentStop: real, positionType: string, outcome: ExchangeOutcome): (updated: bool)
    ensures updated ==> candidate.Some? && ValidateStopUpdate(candidate.value, currentStop, positionType)
    ensures outcome == Raised || outcome == Returned(false) ==> !updated
    ensures candidate.Some? && ValidateStopUpdate(candidate.value, currentStop, positionType) && outcome == NoCallback ==> updated
  {
    if candidate.None? then false
    else if !ValidateStopUpdate(candidate.value, currentStop, positionType) then false
    else match outcome
      case NoCallback => true
      case Returned(success) => success
      case Raised => false
  }

  /** An update is reported exactly when a candidate exists, it passes the monotonicity
      check, and the exchange (if asked) answered yes without raising. A reported update of a
      set stop is strictly tighter. */
  lemma StopUpdateReported(candidate: Option<real>, currentStop: real, positionType: string, outcome: ExchangeOutcome)
    ensures StopUpdateResult(candidate, currentStop, positionType, outcome) <==>
      candidate.Some? && ValidateStopUpdate(candidate.value, currentStop, positionType)
      && (outcome == NoCallback || outcome == Returned(true))
    ensures StopUpdateResult(candidate, currentStop, positionType, outcome) && currentStop > 0.0 ==>
      (SideOf(positionType) == Buy ==> candidate.value > currentStop)
      && (SideOf(positionType) == Sell ==> candidate.value < currentStop)
  {
  }

  /** The trailing candidate a manager computes for a position: none unless trailing is (or
      becomes) active in this very call. */
  function NewStop(cfg: TradingConfig, flags: map<string, bool>, positionId: string, profitPct: real,
                   entryPrice: real, currentPrice: real, currentStop: real, positionType: string): (r: Option<real>)
    ensures !cfg.useTrailing ==> r == None
    ensures r.Some? <==>
      (ActivationStep(cfg, flags, positionId, profitPct).fired
       && RiskManager.TrailingStopCandidate(cfg, entryPrice, currentPrice, currentStop, positionType).Some?)
    ensures r.Some? ==> r == RiskManager.TrailingStopCandidate(cfg, entryPrice, currentPrice, currentStop, positionType)
    ensures cfg.useTrailing && (IsSet(flags, positionId) || profitPct >= cfg.trailStartPercent) ==>
      r == RiskManager.TrailingStopCandidate(cfg, entryPrice, currentPrice, currentStop, positionType)
  {
    if ActivationStep(cfg, flags, positionId, profitPct).fired
    then RiskManager.TrailingStopCandidate(cfg, entryPrice, currentPrice, currentStop, positionType)
    else None
  }

  /** The rounding of a buy's candidate can take it to the current stop, and then the update
      is refused although a candidate was produced: this is the case the second check exists for. */
  lemma RoundedBuyCandidateRefused()
    ensures var price := 99.004 / 0.995;
      && NewStop(Default, map["p" := true], "p", 0.0, 100.0, price, 99.0, "buy") == Some(99.0)
      && !StopUpdateResult(Some(99.0), 99.0, "buy", NoCallback)
  {
    RiskManager.BuyCandidateMayNotTighten();
    RecognisedSides();
  }

  /** The stop a caller ends with when it writes back every candidate that
      `_validate_stop_update` accepts, one after another. */
  function Ratchet(stop: real, positionType: string, candidates: seq<real>): real
    decreases |candidates|
  {
    if candidates == [] then stop
    else Ratchet(if ValidateStopUpdate(candidates[0], stop, positionType) then candidates[0] else stop,
                 positionType, candidates[1..])
  }

  /** Written back through the monotonicity check, a buy's set stop never falls. */
  lemma {:induction false} RatchetNeverLowersBuyStop(stop: real, positionType: string, candidates: seq<real>)
    requires SideOf(positionType) == Buy && stop > 0.0
    ensures Ratchet(stop, positionType, candidates) >= stop
    decreases |candidates|
  {
    if candidates != [] {
      var next := if ValidateStopUpdate(candidates[0], stop, positionType) then candidates[0] else stop;
      RatchetNeverLowersBuyStop(next, positionType, candidates[1..]);
    }
  }

  /** Written back through the monotonicity check, a sell's set stop never rises while its
      candidates are positive prices. */
  lemma {:induction false} RatchetNeverRaisesSellStop(stop: real, positionType: string, candidates: seq<real>)
    requires SideOf(positionType) == Sell && stop > 0.0
    requires forall k :: 0 <= k < |candidates| ==> candidates[k] > 0.0
    ensures 0.0 < Ratchet(stop, positionType, candidates) <= stop
    decreases |candidates|
  {
    if candidates != [] {
      var next := if ValidateStopUpdate(candidates[0], stop, positionType) then candidates[0] else stop;
      assert forall k :: 0 <= k < |candidates[1..]| ==> candidates[1..][k] == candidates[k + 1];
      RatchetNeverRaisesSellStop(next, positionType, candidates[1..]);
    }
  }

  class TrailingStopManager {
    const config: TradingConfig
    const profitOf: (real, real, string) -> real
    var trailingActive: map<string, bool>

    ghost predicate Valid()
      reads this
    {
      OnlyTrue(trailingActive)
    }

    constructor (config: TradingConfig, profitOf: (real, real, string) -> real)
      ensures Valid()
      ensures this.config == config && this.profitOf == profitOf && trailingActive == map[]
    {
      this.config := config;
      this.profitOf := profitOf;
      trailingActive := map[];
    }

    /** `should_activate_trailing`. */
    method ShouldActivateTrailing(positionId: string, entryPrice: real, currentPrice: real, positionType: string) returns (active: bool)
      requires Valid()
      modifies this
      ensures Valid()
      ensures FlagStep(active, trailingActive)
           == ActivationStep(config, old(trailingActive), positionId, profitOf(entryPrice, currentPrice, positionType))
    {
      if !config.useTrailing {
        return false;
      }
      if positionId in trailingActive && trailingActive[positionId] {
        return true;
      }
      var profitPct := profitOf(entryPrice, currentPrice, positionType);
      if profitPct >= config.trailStartPercent {
        trailingActive := trailingActive[positionId := true];
        return true;
      }
      return false;
    }

    /** `calculate_new_stop`: the risk manager's trailing candidate, but only for a position
        whose trailing is (or hereby becomes) active. */
    method CalculateNewStop(positionId: string, entryPrice: real, currentPrice: real, currentStop: real, positionType: string)
      returns (newStop: Option<real>)
      requires Valid()
      modifies this
      ensures Valid()
      ensures var profitPct := profitOf(entryPrice, currentPrice, positionType);
        && trailingActive == ActivationStep(config, old(trailingActive), positionId, profitPct).flags
        && newStop == NewStop(config, old(trailingActive), positionId, profitPct, entryPrice, currentPrice, currentStop, positionType)
    {
      var active := ShouldActivateTrailing(positionId, entryPrice, currentPrice, positionType);
      if !active {
        return None;
      }
      newStop := RiskManager.TrailingStopCandidate(config, entryPrice, currentPrice, currentStop, positionType);
    }

    /** `update_position_stop`: true when a candidate exists, passes the monotonicity check
        and the exchange (if a callback is given) accepts it. An activation made on the way is
        kept whatever the outcome. */
    method UpdatePositionStop(positionId: string, entryPrice: real, currentPrice: real, currentStop: real,
                              positionType: string, outcome: ExchangeOutcome)
      returns (updated: bool)
      requires Valid()
      modifies this
      ensures Valid()
      ensures var profitPct := profitOf(entryPrice, currentPrice, positionType);
        && trailingActive == ActivationStep(config, old(trailingActive), positionId, profitPct).flags
        && updated == StopUpdateResult(
             NewStop(config, old(trailingActive), positionId, profitPct, entryPrice, currentPrice, currentStop, positionType),
             currentStop, positionType, outcome)
    {
      var newStop := CalculateNewStop(positionId, entryPrice, currentPrice, currentStop, positionType);
      if newStop.None? {
        return false;
      }
      if !ValidateStopUpdate(newStop.value, currentStop, positionType) {
        return false;
      }
      match outcome {
        case NoCallback => updated := true;
        case Returned(success) => updated := success;
        case Raised => updated := false;
      }
    }

    /** `reset_trailing`: drops the flag of one position, if it has one. */
    method ResetTrailing(positionId: string)
      requires Valid()
      modifies this
      ensures Valid()
      ensures trailingActive == old(trailingActive) - {positionId}
      ensures !GetTrailingStatus(positionId)
      ensures SameElsewhere(old(trailingActive), trailingActive, positionId)
    {
      if positionId in trailingActive {
        trailingActive := trailingActive - {positionId};
      }
    }

    /** `get_trailing_status`. */
    function GetTrailingStatus(positionId: string): (active: bool)
      reads this
      ensures active <==> positionId in trailingActive && trailingActive[positionId]
    {
      IsSet(trailingActive, positionId)
    }

    /** `get_all_trailing_positions`: a copy of the flags; as a map value it cannot alias
        the manager's own. */
    function GetAllTrailingPositions(): (all: map<string, bool>)
      reads this
      ensures all == trailingActive
    {
      trailingActive
    }
  }

  /** The defaults of `BreakevenManager` and `get_breakeven_price`. */
  const DefaultBreakevenTriggerPct: real := 0.5
  const DefaultCommissionPct: real := 0.1

  /** One call of `should_move_to_breakeven`: fires, and records it, only for a position not
      yet moved whose profit reaches the trigger. */
  function BreakevenStep(triggerPct: real, flags: map<string, bool>, positionId: string, profitPct: real): (s: FlagStep)
    ensures SameElsewhere(flags, s.flags, positionId)
    ensures OnlyTrue(flags) ==> OnlyTrue(s.flags)
    ensures s.fired ==> !IsSet(flags, positionId) && IsSet(s.flags, positionId)
    ensures IsSet(flags, positionId) ==> IsSet(s.flags, positionId)
  {
    if IsSet(flags, positionId) then FlagStep(false, flags)
    else if profitPct >= triggerPct then FlagStep(true, flags[positionId := true])
    else FlagStep(false, flags)
  }

  /** The answers of successive breakeven checks of one position. */
  function BreakevenRun(triggerPct: real, flags: map<string, bool>, positionId: string, pcts: seq<real>): (run: seq<bool>)
    ensures |run| == |pcts|
    decreases |pcts|
  {
    if pcts == [] then []
    else
      var s := BreakevenStep(triggerPct, flags, positionId, pcts[0]);
      [s.fired] + BreakevenRun(triggerPct, s.flags, positionId, pcts[1..])
  }

  /** Breakeven fires once: over any sequence of checks with no reset, a position not yet
      moved gets true exactly at the first profit reaching the trigger and false at every
      other check; one already moved never gets true. */
  lemma {:induction false} BreakevenFiresOnce(triggerPct: real, flags: map<string, bool>, positionId: string, pcts: seq<real>)
    ensures IsSet(flags, positionId) ==>
      forall i :: 0 <= i < |pcts| ==> !BreakevenRun(triggerPct, flags, positionId, pcts)[i]
    ensures !IsSet(flags, positionId) ==>
      forall i :: 0 <= i < |pcts| ==>
        (BreakevenRun(triggerPct, flags, positionId, pcts)[i] <==> i == FirstReach(pcts, triggerPct))
    decreases |pcts|
  {
    if pcts != [] {
      var s := BreakevenStep(triggerPct, flags, positionId, pcts[0]);
      BreakevenFiresOnce(triggerPct, s.flags, positionId, pcts[1..]);
      var run := BreakevenRun(triggerPct, flags, positionId, pcts);
      var rest := BreakevenRun(triggerPct, s.flags, positionId, pcts[1..]);
      assert run == [s.fired] + rest;
      assert run[0] == s.fired;
      assert forall i :: 0 < i < |pcts| ==> run[i] == rest[i - 1];
      if IsSet(flags, positionId) {
        assert s == FlagStep(false, flags);
      } else if pcts[0] >= triggerPct {
        assert s.fired && IsSet(s.flags, positionId);
        assert FirstReach(pcts, triggerPct) == 0;
      } else {
        assert s == FlagStep(false, flags);
        assert FirstReach(pcts, triggerPct) == 1 + FirstReach(pcts[1..], triggerPct);
      }
    }
  }

  /** Hence at most one check of a sequence answers true. */
  lemma AtMostOneBreakeven(triggerPct: real, flags: map<string, bool>, positionId: string, pcts: seq<real>, i: int, j: int)
    requires 0 <= i < j < |pcts|
    ensures !(BreakevenRun(triggerPct, flags, positionId, pcts)[i] && BreakevenRun(triggerPct, flags, positionId, pcts)[j])
  {
    BreakevenFiresOnce(triggerPct, flags, positionId, pcts);
  }

  class BreakevenManager {
    const breakevenTriggerPct: real
    const profitOf: (real, real, string) -> real
    var breakevenSet: map<string, bool>

    ghost predicate Valid()
      reads this
    {
      OnlyTrue(breakevenSet)
    }

    constructor (breakevenTriggerPct: real, profitOf: (real, real, string) -> real)
      ensures Valid()
      ensures this.breakevenTriggerPct == breakevenTriggerPct && this.profitOf == profitOf && breakevenSet == map[]
    {
      this.breakevenTriggerPct := breakevenTriggerPct;
      this.profitOf := profitOf;
      breakevenSet := map[];
    }

    /** `should_move_to_breakeven`. */
    method ShouldMoveToBreakeven(positionId: string, entryPrice: real, currentPrice: real, positionType: string) returns (move: bool)
      requires Valid()
      modifies this
      ensures Valid()
      ensures FlagStep(move, breakevenSet)
           == BreakevenStep(breakevenTriggerPct, old(breakevenSet), positionId, profitOf(entryPrice, currentPrice, positionType))
    {
      if positionId in breakevenSet && breakevenSet[positionId] {
        return false;
      }
      var profitPct := profitOf(entryPrice, currentPrice, positionType);
      if profitPct >= breakevenTriggerPct {
        breakevenSet := breakevenSet[positionId := true];
        return true;
      }
      return false;
    }

    /** `get_breakeven_price`: the entry plus a commission buffer, the same for either side. */
    static function GetBreakevenPrice(entryPrice: real, commissionPct: real): (price: real)
      ensures price - entryPrice == entryPrice * commissionPct / 100.0
      ensures entryPrice >= 0.0 && commissionPct >= 0.0 ==> price >= entryPrice
    {
      var buffer := entryPrice * (commissionPct / 100.0);
      entryPrice + buffer
    }

    /** `reset_breakeven`: drops the flag of one position, if it has one. */
    method ResetBreakeven(positionId: string)
      requires Valid()
      modifies this
      ensures Valid()
      ensures breakevenSet == old(breakevenSet) - {positionId}
      ensures !IsSet(breakevenSet, positionId)
      ensures SameElsewhere(old(breakevenSet), breakevenSet, positionId)
    {
      if positionId in breakevenSet {
        breakevenSet := breakevenSet - {positionId};
      }
    }
  }

  /** Because the buffer is added whatever the side, a short stopped out at its
      "breakeven" price loses the buffer instead of covering the fees. */
  lemma ShortBreakevenLoses(entryPrice: real, commissionPct: real, size: real)
    requires entryPrice > 0.0 && commissionPct > 0.0 && size > 0.0
    ensures var stop := BreakevenManager.GetBreakevenPrice(entryPrice, commissionPct);
      PositionTracking.SidePnl(Sell, entryPrice, stop, size).value < 0.0
  {
    var stop := BreakevenManager.GetBreakevenPrice(entryPrice, commissionPct);
    assert stop - entryPrice > 0.0;
    assert (entryPrice - stop) * size < 0.0;
  }
}
