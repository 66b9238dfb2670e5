/** `PositionTracker` of risk_manager.py: the in-memory registry of open positions,
    keyed by position id, with the running best and worst P&L of each, both starting from 0,
    so that the best is never below 0 and the worst never above 0. */
module PositionTracking {
  import opened Common

  /** One tracked position, the dictionary the source stores under its id. */
  datatype Position = Position(
    symbol: string,
    positionType: string,
    entryPrice: real,
    size: real,
    stopLoss: real,
    takeProfit: real,
    highestProfit: real,
    lowestProfit: real
  )

  /** A freshly added position: the given fields and both extrema at zero. */
  function NewPosition(symbol: string, positionType: string, entryPrice: real, size: real, stopLoss: real, takeProfit: real): (p: Position)
    ensures p.highestProfit == 0.0 && p.lowestProfit == 0.0
    ensures ExtremaBracketZero(p)
  {
    Position(symbol, positionType, entryPrice, size, stopLoss, takeProfit, 0.0, 0.0)
  }

  /** The invariant the extrema keep: both start at 0, so the worst is never above 0
      and the best never below. */
  predicate ExtremaBracketZero(p: Position) {
    p.lowestProfit <= 0.0 <= p.highestProfit
  }

  /** The P&L of a side entered at a price, at another price: the move in the side's
      favour times the size; no value for an unrecognised side. */
  function SidePnl(side: Side, entryPrice: real, currentPrice: real, size: real): (pnl: Option<real>)
    ensures pnl.None? <==> side == Unrecognized
    ensures side == Buy ==> pnl.Some? && pnl.value == (currentPrice - entryPrice) * size
    ensures side == Sell ==> pnl.Some? && pnl.value == (entryPrice - currentPrice) * size
  {
    match side
    case Buy => Some((currentPrice - entryPrice) * size)
    case Sell => Some((entryPrice - currentPrice) * size)
    case Unrecognized => None
  }

  /** The P&L of a position at a price; no value for a type that is neither buy nor sell. */
  function PnlOf(p: Position, currentPrice: real): (pnl: Option<real>)
    ensures pnl.None? <==> SideOf(p.positionType) == Unrecognized
    ensures SideOf(p.positionType) == Buy ==> pnl.Some? && pnl.value == (currentPrice - p.entryPrice) * p.size
    ensures SideOf(p.positionType) == Sell ==> pnl.Some? && pnl.value == (p.entryPrice - currentPrice) * p.size
  {
    SidePnl(SideOf(p.positionType), p.entryPrice, currentPrice, p.size)
  }

  /** A long and a short of the same entry and size gain exactly what the other loses,
      and neither gains anything at the entry price. */
  lemma PnlOppositeSides(p: Position, currentPrice: real)
    requires SideOf(p.positionType) == Buy
    ensures PnlOf(p, currentPrice).value + PnlOf(p.(positionType := "sell"), currentPrice).value == 0.0
    ensures PnlOf(p, p.entryPrice).value == 0.0 && PnlOf(p.(positionType := "sell"), p.entryPrice).value == 0.0
  {
    RecognisedSides();
    assert (p.entryPrice - p.entryPrice) * p.size == 0.0;
  }

  /** The extrema update of `calculate_position_pnl`. */
  function RecordExtrema(p: Position, pnl: real): (q: Position)
    ensures q.lowestProfit <= pnl <= q.highestProfit
    ensures q.highestProfit >= p.highestProfit && q.lowestProfit <= p.lowestProfit
    ensures q.highestProfit == p.highestProfit || q.highestProfit == pnl
    ensures q.lowestProfit == p.lowestProfit || q.lowestProfit == pnl
    ensures q == p.(highestProfit := q.highestProfit, lowestProfit := q.lowestProfit)
  {
    p.(highestProfit := if pnl > p.highestProfit then pnl else p.highestProfit,
       lowestProfit := if pnl < p.lowestProfit then pnl else p.lowestProfit)
  }

  /** The order in which P&L values are seen does not change the extrema. */
  lemma RecordExtremaCommutes(p: Position, a: real, b: real)
    ensures RecordExtrema(RecordExtrema(p, a), b) == RecordExtrema(RecordExtrema(p, b), a)
  {
  }

  /** The position after its P&L at a price has been computed and recorded. */
  function Recorded(p: Position, currentPrice: real): Position {
    match PnlOf(p, currentPrice)
    case Some(pnl) => RecordExtrema(p, pnl)
    case None => p
  }

  /** The position after its P&L has been computed at each price of a sequence of prices. */
  function RecordedAll(p: Position, prices: seq<real>): Position
    decreases |prices|
  {
    if prices == [] then p else RecordedAll(Recorded(p, prices[0]), prices[1..])
  }

  /** Over any sequence of price checks of a position with a recognised type, whatever its
      starting extrema, the recorded extrema bracket every P&L seen and each is either its
      start or one of those P&L values. For a fresh position both start at 0, so they are
      the best and worst P&L seen, with 0 as the starting point of both. */
  lemma {:induction false} RecordedAllBracketsEveryPnl(p: Position, prices: seq<real>)
    requires SideOf(p.positionType) != Unrecognized
    ensures var q := RecordedAll(p, prices);
      && q == p.(highestProfit := q.highestProfit, lowestProfit := q.lowestProfit)
      && p.lowestProfit >= q.lowestProfit && q.highestProfit >= p.highestProfit
      && (forall k :: 0 <= k < |prices| ==> q.lowestProfit <= PnlOf(p, prices[k]).value <= q.highestProfit)
      && (q.highestProfit == p.highestProfit || exists k :: 0 <= k < |prices| && q.highestProfit == PnlOf(p, prices[k]).value)
      && (q.lowestProfit == p.lowestProfit || exists k :: 0 <= k < |prices| && q.lowestProfit == PnlOf(p, prices[k]).value)
    decreases |prices|
  {
    if prices != [] {
      var p1 := Recorded(p, prices[0]);
      RecordedAllBracketsEveryPnl(p1, prices[1..]);
      var q := RecordedAll(p1, prices[1..]);
      assert q == RecordedAll(p, prices);
      forall k | 0 <= k < |prices|
        ensures q.lowestProfit <= PnlOf(p, prices[k]).value <= q.highestProfit
      {
        if k > 0 {
          assert prices[k] == prices[1..][k - 1];
          assert PnlOf(p1, prices[k]) == PnlOf(p, prices[k]);
        }
      }
      if q.highestProfit != p.highestProfit {
        if q.highestProfit == p1.highestProfit {
          assert q.highestProfit == PnlOf(p, prices[0]).value;
        } else {
          var k :| 0 <= k < |prices[1..]| && q.highestProfit == PnlOf(p1, prices[1..][k]).value;
          assert q.highestProfit == PnlOf(p, prices[k + 1]).value;
        }
      }
      if q.lowestProfit != p.lowestProfit {
        if q.lowestProfit == p1.lowestProfit {
          assert q.lowestProfit == PnlOf(p, prices[0]).value;
        } else {
          var k :| 0 <= k < |prices[1..]| && q.lowestProfit == PnlOf(p1, prices[1..][k]).value;
          assert q.lowestProfit == PnlOf(p, prices[k + 1]).value;
        }
      }
    }
  }

  class PositionTracker {
    var positions: map<string, Position>

    /** Every tracked position keeps its extrema around zero. */
    ghost predicate Valid()
      reads this
    {
      forall id :: id in positions ==> ExtremaBracketZero(positions[id])
    }

    constructor ()
      ensures Valid() && positions == map[]
    {
      positions := map[];
    }

    /** `add_position`: stores a fresh record under the id, replacing any record it had. */
    method AddPosition(positionId: string, symbol: string, positionType: string, entryPrice: real, size: real, stopLoss: real, takeProfit: real)
      requires Valid()
      modifies this
      ensures Valid()
      ensures positions == old(positions)[positionId := NewPosition(symbol, positionType, entryPrice, size, stopLoss, takeProfit)]
      ensures GetPosition(positionId) == Some(Position(symbol, positionType, entryPrice, size, stopLoss, takeProfit, 0.0, 0.0))
      ensures forall id :: id != positionId ==> GetPosition(id) == old(GetPosition(id))
      ensures GetPositionCount() == old(GetPositionCount()) + if positionId in old(positions) then 0 else 1
    {
      positions := positions[positionId := NewPosition(symbol, positionType, entryPrice, size, stopLoss, takeProfit)];
    }

    /** `remove_position`: forgets the id; nothing happens when it is not tracked. */
    method RemovePosition(positionId: string)
      requires Valid()
      modifies this
      ensures Valid()
      ensures positions == old(positions) - {positionId}
      ensures GetPosition(positionId) == None
      ensures forall id :: id != positionId ==> GetPosition(id) == old(GetPosition(id))
      ensures positionId !in old(positions) ==> positions == old(positions)
      ensures GetPositionCount() == old(GetPositionCount()) - if positionId in old(positions) then 1 else 0
    {
      if positionId in positions {
        positions := positions - {positionId};
      }
    }

    /** `update_position_stop`: changes the stop of a tracked position and nothing else. */
    method UpdatePositionStop(positionId: string, newStop: real)
      requires Valid()
      modifies this
      ensures Valid()
      ensures positionId in old(positions) ==> positions == old(positions)[positionId := old(positions)[positionId].(stopLoss := newStop)]
      ensures positionId !in old(positions) ==> positions == old(positions)
    {
      if positionId in positions {
        positions := positions[positionId := positions[positionId].(stopLoss := newStop)];
      }
    }

    /** `get_position`. */
    function GetPosition(positionId: string): (p: Option<Position>)
      reads this
      ensures p.Some? <==> positionId in positions
      ensures p.Some? ==> p.value == positions[positionId]
    {
      if positionId in positions then Some(positions[positionId]) else None
    }

    /** `get_all_positions`. The source hands out its own dictionary; here it is a value. */
    function GetAllPositions(): (all: map<string, Position>)
      reads this
      ensures all == positions
    {
      positions
    }

    /** `get_position_count`. */
    function GetPositionCount(): (n: nat)
      reads this
      ensures n == |positions.Keys|
    {
      |positions|
    }

    /** `is_max_positions_reached`. */
    function IsMaxPositionsReached(maxPositions: int): (reached: bool)
      reads this
      ensures reached <==> |positions| >= maxPositions
    {
      GetPositionCount() >= maxPositions
    }

    /** `calculate_position_pnl`: the P&L of a tracked position at a price, recorded into its
        extrema; nothing for an unknown id or an unrecognised type, and then nothing changes. */
    method CalculatePositionPnl(positionId: string, currentPrice: real) returns (pnl: Option<real>)
      requires Valid()
      modifies this
      ensures Valid()
      ensures positionId !in old(positions) ==> pnl == None
      ensures positionId in old(positions) ==> pnl == PnlOf(old(positions)[positionId], currentPrice)
      ensures pnl.None? ==> positions == old(positions)
      ensures pnl.Some? ==>
        positions == old(positions)[positionId := RecordExtrema(old(positions)[positionId], pnl.value)]
      ensures pnl.Some? ==>
        positions[positionId].lowestProfit <= pnl.value <= positions[positionId].highestProfit
      ensures positionId in old(positions) ==> positions == old(positions)[positionId := Recorded(old(positions)[positionId], currentPrice)]
    {
      var position := GetPosition(positionId);
      if position.None? {
        return None;
      }
      var p := position.value;
      assert p == old(positions)[positionId];
      var value: real;
      match SideOf(p.positionType) {
        case Buy => value := (currentPrice - p.entryPrice) * p.size;
        case Sell => value := (p.entryPrice - currentPrice) * p.size;
        case Unrecognized => return None;
      }
      pnl := Some(value);
      assert pnl.value == PnlOf(p, currentPrice).value;
      if pnl.value > p.highestProfit {
        p := p.(highestProfit := pnl.value);
      }
      if pnl.value < p.lowestProfit {
        p := p.(lowestProfit := pnl.value);
      }
      positions := positions[positionId := p];
    }
  }
}
