/** The position service: the collections of positions and trades, the
    operations that create, sell from and delete positions, and the
    portfolio summary computed over them. */
module Positions {
  import opened Types
  import opened Seqs
  import opened Calculation
  import Validation

  const InitialReason: string := "Initial stop-loss set at -20%"

  datatype ServiceError =
    | ValidationFailed(errors: seq<Validation.ValidationError>)
    | InvalidPrice(errors: seq<Validation.ValidationError>)
    | PositionNotFound
    | CalculationFailed(reason: CalcError)

  datatype PortfolioMetrics = PortfolioMetrics(
    totalPositions: nat,
    totalValue: real,
    totalCost: real,
    totalProfit: real,
    totalProfitPercent: real,
    realizedProfit: real,
    unrealizedProfit: real,
    positionsAtTarget: nat,
    positionsAtStopLoss: nat,
    averageReturnPercent: real,
    calculatedAt: Timestamp)

  /** The five running totals of the portfolio loop. */
  datatype Totals = Totals(value: real, cost: real, realized: real, atTarget: nat, atStop: nat)

  /** What the portfolio loop takes from one priced position. */
  datatype Figures = Figures(value: real, realized: real, atTarget: bool, atStop: bool)

  // ---------------------------------------------------------------------------
  // Lookups and projections

  function IdOf(p: Position): string
  {
    p.id
  }

  function TickerOf(p: Position): string
  {
    p.ticker
  }

  function Tickers(ps: seq<Position>): (r: seq<string>)
    ensures |r| == |ps|
    ensures forall i :: 0 <= i < |ps| ==> r[i] == ps[i].ticker
  {
    seq(|ps|, i requires 0 <= i < |ps| => ps[i].ticker)
  }

  ghost function Ids(ps: seq<Position>): set<string>
  {
    set p | p in ps :: p.id
  }

  /** The first position carrying `id`, as `find` returns it. */
  function FindById(ps: seq<Position>, id: string): (r: Option<Position>)
    ensures r.Some? <==> exists p :: p in ps && p.id == id
    ensures r.Some? ==> r.value in ps && r.value.id == id
  {
    if ps == [] then None
    else if ps[0].id == id then Some(ps[0])
    else
      assert forall p :: p in ps[1..] ==> p in ps;
      assert forall p :: p in ps && p != ps[0] ==> p in ps[1..];
      FindById(ps[1..], id)
  }

  /** With distinct ids, looking up a position's id finds that position. */
  lemma {:induction false} FindByIdFindsUnique(ps: seq<Position>, p: Position)
    requires DistinctKeys(ps, IdOf)
    requires p in ps
    ensures FindById(ps, p.id) == Some(p)
    decreases |ps|
  {
    if ps[0] != p {
      assert p in ps[1..];
      var k :| 0 <= k < |ps| && ps[k] == p;
      assert k > 0 && IdOf(ps[0]) != IdOf(ps[k]);
      assert DistinctKeys(ps[1..], IdOf) by {
        forall i, j | 0 <= i < j < |ps[1..]| ensures IdOf(ps[1..][i]) != IdOf(ps[1..][j]) {
          assert ps[1..][i] == ps[i + 1] && ps[1..][j] == ps[j + 1];
        }
      }
      FindByIdFindsUnique(ps[1..], p);
    }
  }

  /** Each position whose id is `id` replaced by `q`, the others kept. */
  function ReplaceById(ps: seq<Position>, id: string, q: Position): (r: seq<Position>)
    ensures |r| == |ps|
    ensures forall i :: 0 <= i < |ps| ==> r[i] == if ps[i].id == id then q else ps[i]
  {
    seq(|ps|, i requires 0 <= i < |ps| => if ps[i].id == id then q else ps[i])
  }

  function SharesOf(t: Trade): int
  {
    t.sharesSold
  }

  /** The shares sold so far from position `id`. */
  function SharesSold(ts: seq<Trade>, id: string): int
  {
    SumInt(TradesFor(ts, id), SharesOf)
  }

  // ---------------------------------------------------------------------------
  // The invariant the service keeps over its two collections

  predicate WellFormed(p: Position)
  {
    && p.buyPrice > 0.0
    && p.originalShares > 0
    && 0 <= p.remainingShares <= p.originalShares
    && CalculateSellTargets(p.buyPrice, p.originalShares as real) == Ok(p.sellTargets)
  }

  /** The stop-loss starts at -20% and moves to the buy price exactly when a
      target sale has been recorded, appending to its history each time. */
  ghost predicate StopLossTracksTrades(p: Position, ts: seq<Trade>)
  {
    && p.stopLoss.status != Custom
    && (p.stopLoss.status == Breakeven <==> HasTargetTrade(ts, p.id))
    && (p.stopLoss.status == Initial ==>
          p.stopLoss.price == Round2(p.buyPrice * 0.8) && |p.stopLoss.progressionHistory| == 1)
    && (p.stopLoss.status == Breakeven ==>
          p.stopLoss.price == p.buyPrice && |p.stopLoss.progressionHistory| == 2)
  }

  ghost predicate PositionConsistent(p: Position, ts: seq<Trade>)
  {
    && WellFormed(p)
    && p.remainingShares == p.originalShares - SharesSold(ts, p.id)
    && StopLossTracksTrades(p, ts)
  }

  ghost predicate Consistent(ps: seq<Position>, ts: seq<Trade>)
  {
    && DistinctKeys(ps, IdOf)
    && DistinctKeys(ps, TickerOf)
    && (forall p :: p in ps ==> PositionConsistent(p, ts))
    && (forall t :: t in ts ==> t.positionId in Ids(ps))
  }

  // ---------------------------------------------------------------------------
  // Facts about the trades of one position

  lemma TradesForAppendOther(ts: seq<Trade>, t: Trade, id: string)
    requires t.positionId != id
    ensures TradesFor(ts + [t], id) == TradesFor(ts, id)
  {
    FilterAppend(ts, [t], OwnedBy(id));
    assert Filter([t], OwnedBy(id)) == [] by {
      assert [t][..0] == [];
    }
  }

  lemma TradesForAppendOwn(ts: seq<Trade>, t: Trade)
    ensures TradesFor(ts + [t], t.positionId) == TradesFor(ts, t.positionId) + [t]
  {
    FilterAppend(ts, [t], OwnedBy(t.positionId));
    assert Filter([t], OwnedBy(t.positionId)) == [t] by {
      assert [t][..0] == [];
    }
  }

  /** Recording a sale adds its shares to its own position's tally only. */
  lemma SharesSoldAppend(ts: seq<Trade>, t: Trade, id: string)
    ensures SharesSold(ts + [t], id) == SharesSold(ts, id) + (if t.positionId == id then t.sharesSold else 0)
  {
    if t.positionId == id {
      TradesForAppendOwn(ts, t);
      SumIntSnoc(TradesFor(ts, id), t, SharesOf);
    } else {
      TradesForAppendOther(ts, t, id);
    }
  }

  lemma HasTargetTradeAppend(ts: seq<Trade>, t: Trade, id: string)
    ensures HasTargetTrade(ts + [t], id) <==> HasTargetTrade(ts, id) || (t.positionId == id && IsTargetTrade(t))
  {
    if HasTargetTrade(ts + [t], id) {
      var u :| u in ts + [t] && u.positionId == id && IsTargetTrade(u);
      if u != t {
        assert u in ts;
      }
    }
    if HasTargetTrade(ts, id) {
      var u :| u in ts && u.positionId == id && IsTargetTrade(u);
      assert u in ts + [t];
    }
    if t.positionId == id && IsTargetTrade(t) {
      assert t in ts + [t];
    }
  }

  /** A position no trade references has sold nothing and reached no target. */
  lemma NoTradesFor(ts: seq<Trade>, id: string)
    requires forall t :: t in ts ==> t.positionId != id
    ensures TradesFor(ts, id) == []
    ensures SharesSold(ts, id) == 0
    ensures !HasTargetTrade(ts, id)
  {
    FilterDropsAll(ts, OwnedBy(id));
  }

  // ---------------------------------------------------------------------------
  // createPosition at the level of values

  /** The position created from validated parameters. */
  function NewPosition(id: string, ticker: string, buyPrice: real, shares: int, now: Timestamp): (p: Position)
    requires buyPrice > 0.0 && shares > 0
    ensures WellFormed(p)
    ensures p.id == id && p.ticker == ticker && p.buyPrice == buyPrice
    ensures p.originalShares == shares && p.remainingShares == shares
    ensures p.stopLoss == StopLoss(Round2(buyPrice * 0.8), Initial,
                                   [StopLossEntry(Round2(buyPrice * 0.8), Initial, now, InitialReason)])
    ensures p.createdAt == now && p.currentPrice.None?
  {
    var targets := CalculateSellTargets(buyPrice, shares as real).value;
    var stop := CalculateInitialStopLoss(buyPrice).value;
    Position(id, ticker, buyPrice, shares, shares, targets,
             StopLoss(stop, Initial, [StopLossEntry(stop, Initial, now, InitialReason)]), now, None)
  }

  /** Adding a new position under a fresh id and an unheld ticker keeps the
      collections consistent. */
  lemma CreatePreservesConsistency(ps: seq<Position>, ts: seq<Trade>, p: Position)
    requires Consistent(ps, ts)
    requires p.id !in Ids(ps)
    requires p.ticker !in Tickers(ps)
    requires WellFormed(p) && p.remainingShares == p.originalShares
    requires p.stopLoss.status == Initial && p.stopLoss.price == Round2(p.buyPrice * 0.8)
    requires |p.stopLoss.progressionHistory| == 1
    ensures Consistent(ps + [p], ts)
  {
    assert PositionConsistent(p, ts) by {
      forall t | t in ts ensures t.positionId != p.id {
      }
      NoTradesFor(ts, p.id);
    }
    assert DistinctKeys(ps + [p], IdOf) by {
      forall i | 0 <= i < |ps| ensures IdOf(ps[i]) != IdOf(p) {
        assert ps[i] in ps;
      }
      DistinctKeysSnoc(ps, p, IdOf);
    }
    assert DistinctKeys(ps + [p], TickerOf) by {
      forall i | 0 <= i < |ps| ensures TickerOf(ps[i]) != TickerOf(p) {
        assert Tickers(ps)[i] == ps[i].ticker;
      }
      DistinctKeysSnoc(ps, p, TickerOf);
    }
    assert Ids(ps + [p]) == Ids(ps) + {p.id};
    forall q | q in ps + [p] ensures PositionConsistent(q, ts) {
      if q != p {
        assert q in ps;
      }
    }
  }

  // ---------------------------------------------------------------------------
  // recordTrade at the level of values

  /** The trade type the source infers from the sale price when the caller
      gives none: second target, then first target, then stop-loss. */
  function InferTradeType(p: Position, sellPrice: real): (r: TradeType)
    ensures r == SecondTargetTrade <==> sellPrice >= p.sellTargets.secondTarget
    ensures r == FirstTargetTrade <==> p.sellTargets.firstTarget <= sellPrice < p.sellTargets.secondTarget
    ensures r == StopLossTrade <==>
      sellPrice < p.sellTargets.firstTarget && sellPrice < p.sellTargets.secondTarget && sellPrice <= p.stopLoss.price
    ensures r == ManualTrade <==>
      sellPrice < p.sellTargets.firstTarget && sellPrice < p.sellTargets.secondTarget && sellPrice > p.stopLoss.price
  {
    if sellPrice >= p.sellTargets.secondTarget then SecondTargetTrade
    else if sellPrice >= p.sellTargets.firstTarget then FirstTargetTrade
    else if sellPrice <= p.stopLoss.price then StopLossTrade
    else ManualTrade
  }

  /** When the stop-loss lies strictly below the first target, the inferred
      trade type is the sale the level analysis recommends at that price. */
  lemma InferredTypeMatchesRecommendation(p: Position, sellPrice: real)
    requires sellPrice > 0.0
    requires p.stopLoss.price < p.sellTargets.firstTarget <= p.sellTargets.secondTarget
    ensures var action := AnalyzeTriggeredLevels(p, sellPrice).value.recommendedAction;
      && (action == SellSecondThird <==> InferTradeType(p, sellPrice) == SecondTargetTrade)
      && (action == SellFirstThird <==> InferTradeType(p, sellPrice) == FirstTargetTrade)
      && (action == TriggerStopLoss <==> InferTradeType(p, sellPrice) == StopLossTrade)
      && (action == Hold <==> InferTradeType(p, sellPrice) == ManualTrade)
  {
  }

  /** The trade record of a validated sale from `p`: proceeds, profit and
      profit percentage rounded to cents, the type given or inferred. */
  function SaleOf(p: Position, params: RecordTradeParams, tradeId: string, now: Timestamp): (t: Trade)
    requires p.buyPrice > 0.0
    requires params.sharesSold.Finite? && params.sellPrice.Finite?
    ensures t.id == tradeId && t.positionId == p.id && t.executedAt == now
    ensures t.sharesSold == params.sharesSold.value.Floor && t.sellPrice == params.sellPrice.value
    ensures params.tradeType.Some? ==> t.tradeType == params.tradeType.value
    ensures params.tradeType.None? ==> t.tradeType == InferTradeType(p, params.sellPrice.value)
    ensures t.totalValue == Round2(Gross(t.sharesSold, t.sellPrice))
    ensures t.profit == Round2(Gain(p.buyPrice, t.sellPrice, t.sharesSold))
    ensures t.profitPercent == Round2((t.sellPrice - p.buyPrice) / p.buyPrice * 100.0)
  {
    var shares := params.sharesSold.value.Floor;
    var sellPrice := params.sellPrice.value;
    var totalValue := Round2(Gross(shares, sellPrice));
    var profit := Round2(Gain(p.buyPrice, sellPrice, shares));
    var profitPercent := Round2((sellPrice - p.buyPrice) / p.buyPrice * 100.0);
    Trade(tradeId, p.id, shares, sellPrice, totalValue, profit, profitPercent, now,
          if params.tradeType.Some? then params.tradeType.value else InferTradeType(p, sellPrice))
  }

  /** Proceeds less profit is the buy cost of the shares sold, up to the
      two roundings to cents. */
  lemma SaleSplitsProceeds(p: Position, params: RecordTradeParams, tradeId: string, now: Timestamp)
    requires p.buyPrice > 0.0
    requires params.sharesSold.Finite? && params.sellPrice.Finite?
    ensures var t := SaleOf(p, params, tradeId, now);
      Gross(t.sharesSold, p.buyPrice) - 0.01 <= t.totalValue - t.profit <= Gross(t.sharesSold, p.buyPrice) + 0.01
  {
    var t := SaleOf(p, params, tradeId, now);
    var gross := Gross(t.sharesSold, t.sellPrice);
    var gain := Gain(p.buyPrice, t.sellPrice, t.sharesSold);
    assert t.totalValue == Round2(gross) && t.profit == Round2(gain);
    assert gross - gain == Gross(t.sharesSold, p.buyPrice);
    RoundedDifference(gross, gain);
  }

  /** Two roundings to cents move a difference by at most a cent. */
  lemma RoundedDifference(x: real, y: real)
    ensures x - y - 0.01 <= Round2(x) - Round2(y) <= x - y + 0.01
  {
  }

  /** A position after a sale: fewer shares, and the stop-loss progressed
      over the trades including the new one. */
  function ApplyTrade(p: Position, t: Trade, ts: seq<Trade>, now: Timestamp): (q: Position)
    ensures q.id == p.id && q.ticker == p.ticker && q.buyPrice == p.buyPrice
    ensures q.originalShares == p.originalShares && q.sellTargets == p.sellTargets
    ensures q.remainingShares == p.remainingShares - t.sharesSold
    ensures q.createdAt == p.createdAt && q.currentPrice == p.currentPrice
    ensures p.stopLoss.status != Initial || !HasTargetTrade(ts + [t], p.id) ==> q.stopLoss == p.stopLoss
    ensures p.stopLoss.status == Initial && HasTargetTrade(ts + [t], p.id) ==>
      q.stopLoss == StopLoss(p.buyPrice, Breakeven,
                             p.stopLoss.progressionHistory + [StopLossEntry(p.buyPrice, Breakeven, now, BreakevenReason)])
  {
    var sold := p.(remainingShares := p.remainingShares - t.sharesSold);
    sold.(stopLoss := CalculateProgressedStopLoss(sold, ts + [t], now))
  }

  /** A sale at a target moves an initial stop-loss to the buy price and
      records the move; a later sale leaves a breakeven stop-loss alone. */
  lemma BreakevenAfterTargetSale(p: Position, t: Trade, ts: seq<Trade>, now: Timestamp)
    requires t.positionId == p.id && IsTargetTrade(t)
    ensures p.stopLoss.status == Initial ==>
      ApplyTrade(p, t, ts, now).stopLoss ==
        StopLoss(p.buyPrice, Breakeven,
                 p.stopLoss.progressionHistory + [StopLossEntry(p.buyPrice, Breakeven, now, BreakevenReason)])
    ensures p.stopLoss.status == Breakeven ==> ApplyTrade(p, t, ts, now).stopLoss == p.stopLoss
  {
    HasTargetTradeAppend(ts, t, p.id);
  }

  /** 300 shares bought at 150; selling 100 at the first target of 225
      leaves 200 shares, moves the stop-loss to 150 and books a profit of
      7500, or 50 %. */
  lemma FirstTargetSaleScenario()
    ensures var p := NewPosition("p1", "ACME", 150.0, 300, 0);
      var params := RecordTradeParams("p1", Finite(100.0), Finite(225.0), Some(FirstTargetTrade));
      var t := SaleOf(p, params, "t1", 1);
      var q := ApplyTrade(p, t, [], 1);
      && p.sellTargets.firstTarget == 225.0
      && Validation.TradeParamsAcceptable(params, p.remainingShares)
      && q.remainingShares == 200
      && q.stopLoss.price == 150.0 && q.stopLoss.status == Breakeven
      && t.totalValue == 22500.0 && t.profit == 7500.0 && t.profitPercent == 50.0
  {
    SellTargetsExamples();
    var p := NewPosition("p1", "ACME", 150.0, 300, 0);
    var params := RecordTradeParams("p1", Finite(100.0), Finite(225.0), Some(FirstTargetTrade));
    var t := SaleOf(p, params, "t1", 1);
    assert Calculation.IsInteger(100.0) && (100.0).Floor == 100;
    assert t.sharesSold == 100 && t.sellPrice == 225.0 && p.buyPrice == 150.0;
    assert t.totalValue == Round2(22500.0) by {
      assert 100 as real * 225.0 == 22500.0;
    }
    assert t.profit == Round2(7500.0) by {
      assert (225.0 - 150.0) * 100 as real == 7500.0;
    }
    assert t.profitPercent == Round2(50.0) by {
      assert (225.0 - 150.0) / 150.0 * 100.0 == 50.0;
    }
    Round2OfCents(22500.0);
    Round2OfCents(7500.0);
    Round2OfCents(50.0);
    BreakevenAfterTargetSale(p, t, [], 1);
  }

  lemma ApplyTradeConsistent(p: Position, t: Trade, ts: seq<Trade>, now: Timestamp)
    requires PositionConsistent(p, ts)
    requires t.positionId == p.id && 0 < t.sharesSold <= p.remainingShares
    ensures PositionConsistent(ApplyTrade(p, t, ts, now), ts + [t])
  {
    var q := ApplyTrade(p, t, ts, now);
    assert WellFormed(q);
    assert q.remainingShares == q.originalShares - SharesSold(ts + [t], q.id) by {
      SharesSoldAppend(ts, t, p.id);
    }
    SaleTracksStopLoss(p, t, ts, now);
  }

  /** The stop-loss after a sale of the position's own shares still tells
      whether a target sale has happened. */
  lemma SaleTracksStopLoss(p: Position, t: Trade, ts: seq<Trade>, now: Timestamp)
    requires StopLossTracksTrades(p, ts)
    requires t.positionId == p.id
    ensures StopLossTracksTrades(ApplyTrade(p, t, ts, now), ts + [t])
  {
    var q := ApplyTrade(p, t, ts, now);
    HasTargetTradeAppend(ts, t, p.id);
    if p.stopLoss.status == Initial && IsTargetTrade(t) {
      assert HasTargetTrade(ts + [t], p.id);
      assert q.stopLoss.status == Breakeven && q.stopLoss.price == p.buyPrice;
      assert |q.stopLoss.progressionHistory| == 2;
    } else if p.stopLoss.status == Initial {
      assert !HasTargetTrade(ts + [t], p.id);
      assert q.stopLoss == p.stopLoss;
    } else {
      assert HasTargetTrade(ts + [t], p.id);
      assert q.stopLoss == p.stopLoss;
    }
  }

  lemma OtherPositionUnaffected(q: Position, t: Trade, ts: seq<Trade>)
    requires PositionConsistent(q, ts)
    requires t.positionId != q.id
    ensures PositionConsistent(q, ts + [t])
  {
    SharesSoldAppend(ts, t, q.id);
    HasTargetTradeAppend(ts, t, q.id);
  }

  /** Replacing a position by one with the same id and ticker keeps both
      keys distinct. */
  lemma ReplaceKeepsKeys(ps: seq<Position>, p: Position, q: Position)
    requires DistinctKeys(ps, IdOf) && DistinctKeys(ps, TickerOf)
    requires p in ps && q.id == p.id && q.ticker == p.ticker
    ensures DistinctKeys(ReplaceById(ps, p.id, q), IdOf)
    ensures DistinctKeys(ReplaceById(ps, p.id, q), TickerOf)
  {
    var r := ReplaceById(ps, p.id, q);
    var k :| 0 <= k < |ps| && ps[k] == p;
    forall i | 0 <= i < |ps| ensures IdOf(r[i]) == IdOf(ps[i]) && TickerOf(r[i]) == TickerOf(ps[i]) {
      if ps[i].id == p.id {
        assert IdOf(ps[i]) == IdOf(ps[k]);
      }
    }
    forall i, j | 0 <= i < j < |r| ensures IdOf(r[i]) != IdOf(r[j]) {
      assert IdOf(ps[i]) != IdOf(ps[j]);
    }
    forall i, j | 0 <= i < j < |r| ensures TickerOf(r[i]) != TickerOf(r[j]) {
      assert TickerOf(ps[i]) != TickerOf(ps[j]);
    }
  }

  /** After the sale every position, the sold one and the others, agrees
      with the trades including the new one. */
  lemma ReplacedPositionsAgree(ps: seq<Position>, ts: seq<Trade>, p: Position, t: Trade, now: Timestamp)
    requires forall x :: x in ps ==> PositionConsistent(x, ts)
    requires p in ps
    requires t.positionId == p.id && 0 < t.sharesSold <= p.remainingShares
    ensures forall x :: x in ReplaceById(ps, p.id, ApplyTrade(p, t, ts, now)) ==> PositionConsistent(x, ts + [t])
  {
    var q := ApplyTrade(p, t, ts, now);
    var r := ReplaceById(ps, p.id, q);
    assert PositionConsistent(q, ts + [t]) by {
      ApplyTradeConsistent(p, t, ts, now);
    }
    forall i | 0 <= i < |r| ensures PositionConsistent(r[i], ts + [t]) {
      if ps[i].id != p.id {
        assert PositionConsistent(ps[i], ts) by {
          assert ps[i] in ps;
        }
        OtherPositionUnaffected(ps[i], t, ts);
      }
    }
  }

  /** Replacing a position by one with the same id keeps the set of ids. */
  lemma ReplaceKeepsIds(ps: seq<Position>, p: Position, q: Position)
    requires p in ps && q.id == p.id
    ensures Ids(ReplaceById(ps, p.id, q)) == Ids(ps)
  {
    var r := ReplaceById(ps, p.id, q);
    forall id | id in Ids(ps) ensures id in Ids(r) {
      var w :| w in ps && w.id == id;
      var i :| 0 <= i < |ps| && ps[i] == w;
      assert r[i] in r && r[i].id == id;
    }
    forall id | id in Ids(r) ensures id in Ids(ps) {
      var w :| w in r && w.id == id;
      var i :| 0 <= i < |r| && r[i] == w;
      assert ps[i] in ps;
    }
  }

  /** Recording a validated sale of `p` keeps the collections consistent. */
  lemma RecordPreservesConsistency(ps: seq<Position>, ts: seq<Trade>, p: Position, t: Trade, now: Timestamp)
    requires Consistent(ps, ts)
    requires p in ps
    requires t.positionId == p.id && 0 < t.sharesSold <= p.remainingShares
    ensures Consistent(ReplaceById(ps, p.id, ApplyTrade(p, t, ts, now)), ts + [t])
  {
    var q := ApplyTrade(p, t, ts, now);
    var r := ReplaceById(ps, p.id, q);
    ReplaceKeepsKeys(ps, p, q);
    ReplacedPositionsAgree(ps, ts, p, t, now);
    ReplaceKeepsIds(ps, p, q);
    assert p.id in Ids(ps);
    assert forall u :: u in ts + [t] ==> u.positionId in Ids(r) by {
      forall u | u in ts + [t] ensures u.positionId in Ids(r) {
        if u != t {
          assert u in ts;
        }
      }
    }
  }

  // ---------------------------------------------------------------------------
  // deletePosition at the level of values

  function KeepsOtherThan(id: string): Position -> bool
  {
    (p: Position) => p.id != id
  }

  function NotOwnedBy(id: string): Trade -> bool
  {
    (t: Trade) => t.positionId != id
  }

  /** Removing a position together with its trades keeps the collections
      consistent; the other positions' trades are exactly as before. */
  lemma DeletePreservesConsistency(ps: seq<Position>, ts: seq<Trade>, id: string)
    requires Consistent(ps, ts)
    ensures Consistent(Filter(ps, KeepsOtherThan(id)), Filter(ts, NotOwnedBy(id)))
    ensures forall q :: q in Filter(ps, KeepsOtherThan(id)) ==>
      TradesFor(Filter(ts, NotOwnedBy(id)), q.id) == TradesFor(ts, q.id)
  {
    var ps' := Filter(ps, KeepsOtherThan(id));
    var ts' := Filter(ts, NotOwnedBy(id));
    FilterMembers(ps, KeepsOtherThan(id));
    FilterMembers(ts, NotOwnedBy(id));
    FilterKeepsDistinct(ps, KeepsOtherThan(id), IdOf);
    FilterKeepsDistinct(ps, KeepsOtherThan(id), TickerOf);
    forall q | q in ps' ensures TradesFor(ts', q.id) == TradesFor(ts, q.id) && PositionConsistent(q, ts') {
      FilterFilter(ts, NotOwnedBy(id), OwnedBy(q.id));
      assert HasTargetTrade(ts', q.id) <==> HasTargetTrade(ts, q.id) by {
        if HasTargetTrade(ts, q.id) {
          var u :| u in ts && u.positionId == q.id && IsTargetTrade(u);
          assert u in ts';
        }
      }
    }
    forall u | u in ts' ensures u.positionId in Ids(ps') {
      var w :| w in ps && w.id == u.positionId;
      assert w in ps';
    }
  }

  /** Deleting an id no position carries leaves both collections as they were. */
  lemma DeleteMissingChangesNothing(ps: seq<Position>, ts: seq<Trade>, id: string)
    requires Consistent(ps, ts)
    requires id !in Ids(ps)
    ensures Filter(ps, KeepsOtherThan(id)) == ps
    ensures Filter(ts, NotOwnedBy(id)) == ts
  {
    assert forall p :: p in ps ==> p.id in Ids(ps);
    FilterKeepsAll(ps, KeepsOtherThan(id));
    FilterKeepsAll(ts, NotOwnedBy(id));
  }

  // ---------------------------------------------------------------------------
  // Status and the portfolio summary

  /** Scaling by a positive factor preserves a comparison. */
  lemma ScaleCompare(x: real, c: real, o: real)
    requires o > 0.0
    ensures x >= c <==> x * o >= c * o
    ensures x > c <==> x * o > c * o
  {
    ProductSign(x - c, o);
    assert (x - c) * o == x * o - c * o;
  }

  /** A positive factor keeps the sign of the other. */
  lemma ProductSign(d: real, o: real)
    requires o > 0.0
    ensures d > 0.0 ==> d * o > 0.0
    ensures d == 0.0 ==> d * o == 0.0
    ensures d < 0.0 ==> d * o < 0.0
  {
  }

  /** The percentage comparisons of the status rule, in integers. */
  lemma SoldPercentageThresholds(sold: int, original: int)
    requires original > 0
    ensures var pct := sold as real / original as real * 100.0;
      && (pct >= 66.0 <==> 100 * sold >= 66 * original)
      && (pct > 0.0 <==> sold > 0)
  {
    var o := original as real;
    var q := sold as real / o;
    DivideThenScale(sold as real, o);
    ScaleCompare(q, 0.66, o);
    ScaleCompare(q, 0.0, o);
  }

  lemma DivideThenScale(x: real, o: real)
    requires o > 0.0
    ensures x / o * o == x
  {
  }

  /** Status by the share of the position already sold: closed at zero
      shares left, mostly sold from 66%, partially sold above 0%. */
  function GetPositionStatus(p: Position): (r: PositionStatus)
    requires p.originalShares > 0
    ensures r == Closed <==> p.remainingShares == 0
    ensures r == MostlySold <==>
      p.remainingShares != 0 && 100 * (p.originalShares - p.remainingShares) >= 66 * p.originalShares
    ensures r == PartiallySold <==>
      p.remainingShares != 0 && 0 < 100 * (p.originalShares - p.remainingShares) < 66 * p.originalShares
    ensures r == Active <==> p.remainingShares != 0 && p.remainingShares >= p.originalShares
  {
    var sold := (p.originalShares - p.remainingShares) as real;
    var soldPercentage := sold / p.originalShares as real * 100.0;
    SoldPercentageThresholds(p.originalShares - p.remainingShares, p.originalShares);
    if p.remainingShares == 0 then Closed
    else if soldPercentage >= 66.0 then MostlySold
    else if soldPercentage > 0.0 then PartiallySold
    else Active
  }

  /** Following the plan: one third sold is partially sold; two thirds of
      a share count divisible by three is mostly sold; all is closed. */
  lemma StatusAlongThePlan(p: Position)
    requires WellFormed(p) && p.originalShares >= 3
    ensures var t := p.sellTargets;
      && (p.remainingShares == p.originalShares - t.firstTargetShares ==> GetPositionStatus(p) == PartiallySold)
      && (p.remainingShares == t.remainingShares && p.originalShares % 3 == 0 ==> GetPositionStatus(p) == MostlySold)
  {
  }

  /** With 101 shares the two target sales leave 65 % sold: still partially sold. */
  lemma TwoThirdsOf101IsPartiallySold(p: Position)
    requires WellFormed(p) && p.originalShares == 101
    requires p.remainingShares == p.sellTargets.remainingShares
    ensures GetPositionStatus(p) == PartiallySold
  {
  }

  /** The price a position is valued at: the supplied price for its ticker
      unless missing or zero, else its own simulated price unless missing or
      zero (the source's `||`). */
  function ResolvePrice(prices: map<string, real>, p: Position): (r: Option<real>)
    ensures r.Some? ==> r.value != 0.0
    ensures r.Some? ==> r == (if p.ticker in prices && prices[p.ticker] != 0.0 then Some(prices[p.ticker]) else p.currentPrice)
    ensures r.None? <==> (p.ticker !in prices || prices[p.ticker] == 0.0) && (p.currentPrice.None? || p.currentPrice.value == 0.0)
  {
    if p.ticker in prices && prices[p.ticker] != 0.0 then Some(prices[p.ticker])
    else if p.currentPrice.Some? && p.currentPrice.value != 0.0 then p.currentPrice
    else None
  }

  /** Every position is either unpriced or priced above zero. */
  predicate PricesUsable(prices: map<string, real>, ps: seq<Position>)
  {
    forall i :: 0 <= i < |ps| ==> ResolvePrice(prices, ps[i]).None? || ResolvePrice(prices, ps[i]).value > 0.0
  }

  function CostOf(p: Position): real
  {
    p.originalShares as real * p.buyPrice
  }

  function OpenCostOf(p: Position): real
  {
    p.remainingShares as real * p.buyPrice
  }

  function SoldCostOf(ts: seq<Trade>): Position -> real
  {
    (p: Position) => Gross(SharesSold(ts, p.id), p.buyPrice)
  }

  function TotalCost(ps: seq<Position>): real
  {
    SumReal(ps, CostOf)
  }

  function RemainingCostBasis(ps: seq<Position>): real
  {
    SumReal(ps, OpenCostOf)
  }

  /** The cost of the shares already sold, at their buy price. */
  function SoldCostBasis(ps: seq<Position>, ts: seq<Trade>): real
  {
    SumReal(ps, SoldCostOf(ts))
  }

  /** What was paid for all shares, less the buy cost of the shares sold, is
      the cost basis of the shares still held. */
  lemma CostBasisSplits(ps: seq<Position>, ts: seq<Trade>)
    requires forall p :: p in ps ==> PositionConsistent(p, ts)
    ensures TotalCost(ps) - SoldCostBasis(ps, ts) == RemainingCostBasis(ps)
  {
    forall i | 0 <= i < |ps| ensures CostOf(ps[i]) - SoldCostOf(ts)(ps[i]) == OpenCostOf(ps[i]) {
      assert ps[i] in ps;
      PositionCostSplits(ps[i], ts);
    }
    SumRealDifference(ps, CostOf, SoldCostOf(ts), OpenCostOf);
  }

  lemma PositionCostSplits(p: Position, ts: seq<Trade>)
    requires p.remainingShares == p.originalShares - SharesSold(ts, p.id)
    ensures CostOf(p) - SoldCostOf(ts)(p) == OpenCostOf(p)
  {
    GrossAdds(SharesSold(ts, p.id), p.remainingShares, p.originalShares, p.buyPrice);
  }

  function ProceedsOf(t: Trade): real
  {
    Gross(t.sharesSold, t.sellPrice)
  }

  /** As written: the sale proceeds of every trade. */
  function InvestedCapitalFromTrades(ts: seq<Trade>): real
  {
    SumReal(ts, ProceedsOf)
  }

  /** The buy price of the stored position `id` (0 when there is none). */
  function BuyPriceOf(ps: seq<Position>, id: string): real
  {
    var found := FindById(ps, id);
    if found.Some? then found.value.buyPrice else 0.0
  }

  /** What the shares of a trade cost when its position bought them. */
  function BoughtCostOf(ps: seq<Position>): Trade -> real
  {
    (t: Trade) => Gross(t.sharesSold, BuyPriceOf(ps, t.positionId))
  }

  /** The exact, unrounded profit of a trade. */
  function ExactGainOf(ps: seq<Position>): Trade -> real
  {
    (t: Trade) => Gain(BuyPriceOf(ps, t.positionId), t.sellPrice, t.sharesSold)
  }

  /** What a trade adds to the sold cost of position `p`. */
  function SaleCostFor(t: Trade): Position -> real
  {
    (p: Position) => if p.id == t.positionId then Gross(t.sharesSold, p.buyPrice) else 0.0
  }

  /** One more trade raises the sold cost of a position by that trade's
      shares at the position's buy price, when the trade is its own. */
  lemma SoldCostStep(p: Position, init: seq<Trade>, t: Trade)
    ensures SoldCostOf(init + [t])(p) - SoldCostOf(init)(p) == SaleCostFor(t)(p)
  {
    var before := SharesSold(init, p.id);
    var after := SharesSold(init + [t], p.id);
    SharesSoldAppend(init, t, p.id);
    if p.id == t.positionId {
      GrossAdds(before, t.sharesSold, after, p.buyPrice);
    } else {
      assert after == before;
    }
  }

  /** The worth of a share count that grew by `added` grew by the worth of `added`. */
  lemma GrossAdds(before: int, added: int, after: int, price: real)
    requires after == before + added
    ensures Gross(after, price) - Gross(before, price) == Gross(added, price)
  {
  }

  /** The buy cost of the shares sold, summed over the positions, is the
      same sum taken over the trades. */
  lemma {:induction false} SoldCostByTrades(ps: seq<Position>, ts: seq<Trade>)
    requires DistinctKeys(ps, IdOf)
    requires forall i :: 0 <= i < |ts| ==> ts[i].positionId in Ids(ps)
    ensures SoldCostBasis(ps, ts) == SumReal(ts, BoughtCostOf(ps))
    decreases |ts|
  {
    if ts == [] {
      forall i | 0 <= i < |ps| ensures SoldCostOf(ts)(ps[i]) == 0.0 {
        NoTradesFor(ts, ps[i].id);
      }
      SumRealZero(ps, SoldCostOf(ts));
    } else {
      var init := ts[..|ts| - 1];
      var t := ts[|ts| - 1];
      assert ts == init + [t];
      SoldCostByTrades(ps, init);
      SoldCostBasisStep(ps, init, t);
      SaleCostSum(ps, t);
      assert SumReal(ts, BoughtCostOf(ps)) == SumReal(init, BoughtCostOf(ps)) + BoughtCostOf(ps)(t);
    }
  }

  /** One more trade adds its sale cost, summed over the positions, to the
      sold cost basis. */
  lemma SoldCostBasisStep(ps: seq<Position>, init: seq<Trade>, t: Trade)
    ensures SoldCostBasis(ps, init + [t]) == SoldCostBasis(ps, init) + SumReal(ps, SaleCostFor(t))
  {
    forall i | 0 <= i < |ps| ensures SoldCostOf(init + [t])(ps[i]) - SoldCostOf(init)(ps[i]) == SaleCostFor(t)(ps[i]) {
      SoldCostStep(ps[i], init, t);
    }
    SumRealDifference(ps, SoldCostOf(init + [t]), SoldCostOf(init), SaleCostFor(t));
  }

  /** Only the position a trade belongs to is charged for its shares. */
  lemma SaleCostSum(ps: seq<Position>, t: Trade)
    requires DistinctKeys(ps, IdOf)
    requires t.positionId in Ids(ps)
    ensures SumReal(ps, SaleCostFor(t)) == BoughtCostOf(ps)(t)
  {
    var w :| w in ps && w.id == t.positionId;
    var k :| 0 <= k < |ps| && ps[k] == w;
    forall i | 0 <= i < |ps| && i != k ensures SaleCostFor(t)(ps[i]) == 0.0 {
      assert ps[i].id != t.positionId by {
        assert IdOf(ps[i]) != IdOf(ps[k]);
      }
    }
    SumRealSingle(ps, SaleCostFor(t), k);
    FindByIdFindsUnique(ps, w);
  }

  /** The sale proceeds the source sums are the buy cost of the shares sold
      plus the exact profit of every trade. */
  lemma ProceedsSplit(ps: seq<Position>, ts: seq<Trade>)
    requires DistinctKeys(ps, IdOf)
    requires forall i :: 0 <= i < |ts| ==> ts[i].positionId in Ids(ps)
    ensures InvestedCapitalFromTrades(ts) == SoldCostBasis(ps, ts) + SumReal(ts, ExactGainOf(ps))
  {
    SoldCostByTrades(ps, ts);
    TradeProceedsSplit(ps, ts);
    SumRealDifference(ts, ProceedsOf, BoughtCostOf(ps), ExactGainOf(ps));
  }

  /** The proceeds of each trade less what its shares cost is its exact profit. */
  lemma TradeProceedsSplit(ps: seq<Position>, ts: seq<Trade>)
    ensures forall i :: 0 <= i < |ts| ==> ProceedsOf(ts[i]) - BoughtCostOf(ps)(ts[i]) == ExactGainOf(ps)(ts[i])
  {
    forall i | 0 <= i < |ts| ensures ProceedsOf(ts[i]) - BoughtCostOf(ps)(ts[i]) == ExactGainOf(ps)(ts[i]) {
      var b := BuyPriceOf(ps, ts[i].positionId);
      assert Gross(ts[i].sharesSold, ts[i].sellPrice) - Gain(b, ts[i].sellPrice, ts[i].sharesSold) == Gross(ts[i].sharesSold, b);
    }
  }

  /** One pass of the portfolio loop: a priced position adds its rounded
      value and realized profit and may count as at a target or at its
      stop-loss; every position adds its cost. */
  function Visit(acc: Totals, p: Position, price: Option<real>, ts: seq<Trade>): (r: Result<Totals, CalcError>)
    requires MathReady(p)
    ensures r.Ok? <==> price.None? || price.value > 0.0
    ensures r.Err? ==> r.error == CurrentPriceNotPositive
    ensures r.Ok? ==> r.value.cost == acc.cost + CostOf(p)
    ensures r.Ok? ==> acc.atTarget <= r.value.atTarget <= acc.atTarget + 1 && acc.atStop <= r.value.atStop <= acc.atStop + 1
    ensures r.Ok? && price.None? ==> r.value == acc.(cost := acc.cost + CostOf(p))
    ensures r.Ok? && price.Some? ==> r.value.value == acc.value + Round2(Gross(p.remainingShares, price.value))
    ensures r.Ok? && price.Some? ==> r.value.realized == acc.realized + Round2(RealizedProfit(ts, p.id))
    ensures r.Ok? && price.Some? ==>
      r.value.atTarget == acc.atTarget + (if price.value >= p.sellTargets.firstTarget || price.value >= p.sellTargets.secondTarget then 1 else 0)
    ensures r.Ok? && price.Some? ==> r.value.atStop == acc.atStop + (if price.value <= p.stopLoss.price then 1 else 0)
  {
    var counted := acc.(cost := acc.cost + CostOf(p));
    match price
    case None => Ok(counted)
    case Some(c) =>
      match PricedFigures(p, c, ts)
      case Err(e) => Err(e)
      case Ok(f) =>
        Ok(counted.(value := acc.value + f.value,
                    realized := acc.realized + f.realized,
                    atTarget := if f.atTarget then acc.atTarget + 1 else acc.atTarget,
                    atStop := if f.atStop then acc.atStop + 1 else acc.atStop))
  }

  /** The figures the portfolio loop takes from one priced position: the
      value and realized profit from its profit/loss, and whether it is at a
      target and at its stop-loss from its level analysis. */
  function PricedFigures(p: Position, c: real, ts: seq<Trade>): (r: Result<Figures, CalcError>)
    requires MathReady(p)
    ensures r.Ok? <==> c > 0.0
    ensures r.Err? ==> r.error == CurrentPriceNotPositive
    ensures r.Ok? ==> r.value.value == Round2(Gross(p.remainingShares, c))
    ensures r.Ok? ==> r.value.realized == Round2(RealizedProfit(ts, p.id))
    ensures r.Ok? ==> (r.value.atTarget <==> c >= p.sellTargets.firstTarget || c >= p.sellTargets.secondTarget)
    ensures r.Ok? ==> (r.value.atStop <==> c <= p.stopLoss.price)
  {
    match CalculateProfitLoss(p, c, ts)
    case Err(e) => Err(e)
    case Ok(m) =>
      var levels := AnalyzeTriggeredLevels(p, c).value;
      Ok(Figures(m.totalValue, m.realizedProfit, levels.isAtFirstTarget || levels.isAtSecondTarget, levels.isAtStopLoss))
  }

  lemma PricesUsableSnoc(prices: map<string, real>, ps: seq<Position>)
    requires ps != []
    ensures var last := ResolvePrice(prices, ps[|ps| - 1]);
      PricesUsable(prices, ps) <==> PricesUsable(prices, ps[..|ps| - 1]) && (last.None? || last.value > 0.0)
  {
    var init := ps[..|ps| - 1];
    assert forall i :: 0 <= i < |init| ==> init[i] == ps[i];
  }

  /** What one position adds to the loop's totals at the prices given:
      nothing when it is unpriced. */
  function ValueAt(prices: map<string, real>): Position -> real
  {
    (p: Position) =>
      var price := ResolvePrice(prices, p);
      if price.Some? then Round2(Gross(p.remainingShares, price.value)) else 0.0
  }

  function RealizedAt(prices: map<string, real>, ts: seq<Trade>): Position -> real
  {
    (p: Position) => if ResolvePrice(prices, p).Some? then Round2(RealizedProfit(ts, p.id)) else 0.0
  }

  function AtTargetAt(prices: map<string, real>): Position -> int
  {
    (p: Position) =>
      var price := ResolvePrice(prices, p);
      if price.Some? && (price.value >= p.sellTargets.firstTarget || price.value >= p.sellTargets.secondTarget) then 1 else 0
  }

  function AtStopAt(prices: map<string, real>): Position -> int
  {
    (p: Position) =>
      var price := ResolvePrice(prices, p);
      if price.Some? && price.value <= p.stopLoss.price then 1 else 0
  }

  /** The totals after visiting `ps` from left to right. */
  function Accumulate(ps: seq<Position>, prices: map<string, real>, ts: seq<Trade>): (r: Result<Totals, CalcError>)
    requires forall p :: p in ps ==> MathReady(p)
    ensures r.Ok? <==> PricesUsable(prices, ps)
    ensures r.Err? ==> r.error == CurrentPriceNotPositive
    ensures r.Ok? ==> r.value.cost == TotalCost(ps)
    ensures r.Ok? ==> r.value.atTarget <= |ps| && r.value.atStop <= |ps|
    ensures r.Ok? ==> r.value.value == SumReal(ps, ValueAt(prices))
    ensures r.Ok? ==> r.value.realized == SumReal(ps, RealizedAt(prices, ts))
    ensures r.Ok? ==> r.value.atTarget == SumInt(ps, AtTargetAt(prices))
    ensures r.Ok? ==> r.value.atStop == SumInt(ps, AtStopAt(prices))
    decreases |ps|
  {
    if ps == [] then Ok(Totals(0.0, 0.0, 0.0, 0, 0))
    else
      var init := ps[..|ps| - 1];
      var last := ps[|ps| - 1];
      assert forall p :: p in init ==> p in ps;
      PricesUsableSnoc(prices, ps);
      match Accumulate(init, prices, ts)
      case Err(e) => Err(e)
      case Ok(acc) => Visit(acc, last, ResolvePrice(prices, last), ts)
  }

  lemma AccumulateStep(ps: seq<Position>, i: nat, prices: map<string, real>, ts: seq<Trade>, before: Totals)
    requires forall p :: p in ps ==> MathReady(p)
    requires i < |ps|
    requires Accumulate(ps[..i], prices, ts) == Ok(before)
    ensures Accumulate(ps[..i + 1], prices, ts) == Visit(before, ps[i], ResolvePrice(prices, ps[i]), ts)
  {
    assert ps[..i + 1][..i] == ps[..i];
    assert forall p :: p in ps[..i + 1] ==> p in ps;
  }

  /** The portfolio figures from the totals, valuing the unsold shares
      against `openCost`. */
  function Summarize(t: Totals, n: nat, openCost: real, now: Timestamp): (m: PortfolioMetrics)
    ensures m.totalPositions == n && m.calculatedAt == now
    ensures m.positionsAtTarget == t.atTarget && m.positionsAtStopLoss == t.atStop
    ensures m.totalValue == Round2(t.value) && m.totalCost == Round2(t.cost)
    ensures m.realizedProfit == Round2(t.realized)
    ensures m.unrealizedProfit == Round2(t.value - openCost)
    ensures m.totalProfit == Round2(t.realized + (t.value - openCost))
    ensures t.cost <= 0.0 ==> m.totalProfitPercent == 0.0
    ensures t.cost > 0.0 ==> m.totalProfitPercent == Round2((t.realized + (t.value - openCost)) / t.cost * 100.0)
    ensures n == 0 || t.cost <= 0.0 ==> m.averageReturnPercent == 0.0
    ensures n > 0 && t.cost > 0.0 ==>
      m.averageReturnPercent == Round2((t.realized + (t.value - openCost)) / t.cost * 100.0 / n as real)
  {
    var unrealized := t.value - openCost;
    var totalProfit := t.realized + unrealized;
    var percent := if t.cost > 0.0 then totalProfit / t.cost * 100.0 else 0.0;
    var average := if n > 0 then percent / n as real else 0.0;
    Round2OfCents(0.0);
    PortfolioMetrics(n, Round2(t.value), Round2(t.cost), Round2(totalProfit), Round2(percent),
                     Round2(t.realized), Round2(unrealized), t.atTarget, t.atStop, Round2(average), now)
  }

  /** As written: unrealized profit measured against the total cost less
      the sale proceeds of every trade. */
  function AsWrittenUnrealizedProfit(t: Totals, ts: seq<Trade>): real
  {
    t.value - (t.cost - InvestedCapitalFromTrades(ts))
  }

  /** On consistent collections the formula as written exceeds the
      unrealized profit against the open cost basis by the exact profit of
      every trade, so a portfolio total that adds the realized profit to it
      counts that profit twice. */
  lemma AsWrittenAddsTradeGains(ps: seq<Position>, ts: seq<Trade>, t: Totals)
    requires Consistent(ps, ts)
    requires t.cost == TotalCost(ps)
    ensures AsWrittenUnrealizedProfit(t, ts) == (t.value - RemainingCostBasis(ps)) + SumReal(ts, ExactGainOf(ps))
  {
    forall i | 0 <= i < |ts| ensures ts[i].positionId in Ids(ps) {
      assert ts[i] in ts;
    }
    ProceedsSplit(ps, ts);
    CostBasisSplits(ps, ts);
  }

  /** 100 shares bought at 10, half of them since sold. */
  function HalfSoldPosition(): Position
  {
    Position("p1", "ACME", 10.0, 100, 50, CalculateSellTargets(10.0, 100.0).value,
             StopLoss(8.0, Initial, [StopLossEntry(8.0, Initial, 0, InitialReason)]), 0, None)
  }

  /** The sale of those 50 shares at 20, for a profit of 500. */
  function HalfSale(): Trade
  {
    Trade("t1", "p1", 50, 20.0, 1000.0, 500.0, 100.0, 1, ManualTrade)
  }

  lemma HalfSoldFigures()
    ensures RealizedProfit([HalfSale()], "p1") == 500.0
    ensures InvestedCapitalFromTrades([HalfSale()]) == 1000.0
    ensures RemainingCostBasis([HalfSoldPosition()]) == 500.0
  {
    var p := HalfSoldPosition();
    var t := HalfSale();
    assert [t][..0] == [] && [p][..0] == [];
    assert TradesFor([t], "p1") == [t] by {
      assert Filter([t], OwnedBy("p1")) == Filter([], OwnedBy("p1")) + [t];
    }
    assert SumReal([t], ProfitOf) == SumReal([], ProfitOf) + ProfitOf(t);
    assert SumReal([t], ProceedsOf) == SumReal([], ProceedsOf) + ProceedsOf(t);
    assert SumReal([p], OpenCostOf) == SumReal([], OpenCostOf) + OpenCostOf(p);
  }

  lemma HalfSoldTotals()
    ensures CalculateProfitLoss(HalfSoldPosition(), 20.0, [HalfSale()]).value.totalProfit == 1000.0
    ensures var r := Accumulate([HalfSoldPosition()], map["ACME" := 20.0], [HalfSale()]);
      r.Ok? && r.value.value == 1000.0 && r.value.realized == 500.0 && r.value.cost == 1000.0
  {
    var p := HalfSoldPosition();
    var prices := map["ACME" := 20.0];
    HalfSoldFigures();
    Round2OfCents(500.0);
    Round2OfCents(1000.0);
    var m := CalculateProfitLoss(p, 20.0, [HalfSale()]).value;
    assert m.totalValue == 1000.0 && m.realizedProfit == 500.0;
    assert [p][..0] == [];
    assert ResolvePrice(prices, p) == Some(20.0);
    assert Accumulate([p][..0], prices, [HalfSale()]) == Ok(Totals(0.0, 0.0, 0.0, 0, 0));
  }

  /** On the half-sold position valued at 20, the position's own figures give
      a total profit of 1000; the portfolio formula as written gives 1500,
      counting the realized 500 twice; measured against the cost basis of the
      unsold shares it gives 1000. */
  lemma AsWrittenPortfolioDoubleCounts()
    ensures var r := Accumulate([HalfSoldPosition()], map["ACME" := 20.0], [HalfSale()]);
      && r.Ok?
      && r.value.realized + AsWrittenUnrealizedProfit(r.value, [HalfSale()]) == 1500.0
      && CalculateProfitLoss(HalfSoldPosition(), 20.0, [HalfSale()]).value.totalProfit == 1000.0
      && Summarize(r.value, 1, RemainingCostBasis([HalfSoldPosition()]), 2).totalProfit == 1000.0
  {
    HalfSoldFigures();
    HalfSoldTotals();
    Round2OfCents(1000.0);
  }

  // ---------------------------------------------------------------------------
  // The service

  class PositionService {
    var positions: seq<Position>
    var trades: seq<Trade>

    ghost predicate Valid()
      reads this
    {
      Consistent(positions, trades)
    }

    constructor()
      ensures Valid()
      ensures positions == [] && trades == []
    {
      positions := [];
      trades := [];
    }

    /** Validates against the tickers already held, then appends the new
        position with its targets and initial stop-loss. */
    method CreatePosition(params: CreatePositionParams, id: string, now: Timestamp)
      returns (r: Result<Position, ServiceError>)
      requires Valid()
      requires id !in Ids(positions)
      modifies this
      ensures Valid()
      ensures !Validation.CreateParamsAcceptable(params, Tickers(old(positions))) ==>
        && r == Err(ValidationFailed(Validation.CreatePositionErrors(params, Tickers(old(positions)))))
        && positions == old(positions) && trades == old(trades)
      ensures Validation.CreateParamsAcceptable(params, Tickers(old(positions))) ==>
        && r == Ok(NewPosition(id, params.ticker, params.buyPrice.value, params.originalShares.value.Floor, now))
        && positions == old(positions) + [r.value] && trades == old(trades)
    {
      var existingTickers := Tickers(positions);
      var validation := Validation.ValidateCreatePosition(params, existingTickers);
      if !validation.isValid {
        return Err(ValidationFailed(validation.errors));
      }
      Validation.AcceptedParamsCalculate(params, existingTickers);
      var position := NewPosition(id, params.ticker, params.buyPrice.value, params.originalShares.value.Floor, now);
      Round2OfCents(0.0);
      CreatePreservesConsistency(positions, trades, position);
      positions := positions + [position];
      r := Ok(position);
    }

    /** The simulated price is set on a copy; nothing is stored. */
    method UpdateCurrentPrice(positionId: string, price: Num) returns (r: Result<Position, ServiceError>)
      requires Valid()
      ensures !Validation.PriceAcceptable(price) ==>
        r == Err(InvalidPrice(Validation.Report(Validation.PriceField, Validation.PriceRule(price))))
      ensures Validation.PriceAcceptable(price) ==>
        (r.Ok? <==> exists p :: p in positions && p.id == positionId)
      ensures Validation.PriceAcceptable(price) && r.Err? ==> r.error == PositionNotFound
      ensures r.Ok? ==>
        && Validation.PriceAcceptable(price)
        && r.value.currentPrice == Some(price.value)
        && r.value.(currentPrice := None) == FindById(positions, positionId).value.(currentPrice := None)
    {
      var validation := Validation.ValidatePriceInput(price);
      if !validation.isValid {
        return Err(InvalidPrice(validation.errors));
      }
      var position := FindById(positions, positionId);
      if position.None? {
        return Err(PositionNotFound);
      }
      r := Ok(position.value.(currentPrice := Some(price.value)));
    }

    /** Looks the position up, validates the sale against it, records the
        trade and updates the position's shares and stop-loss. */
    method RecordTrade(params: RecordTradeParams, tradeId: string, now: Timestamp)
      returns (r: Result<(Position, Trade), ServiceError>)
      requires Valid()
      modifies this
      ensures Valid()
      ensures FindById(old(positions), params.positionId).None? ==>
        r == Err(PositionNotFound) && positions == old(positions) && trades == old(trades)
      ensures FindById(old(positions), params.positionId).Some? ==>
        var p := FindById(old(positions), params.positionId).value;
        !Validation.TradeParamsAcceptable(params, p.remainingShares) ==>
          && r == Err(ValidationFailed(Validation.RecordTradeErrors(params, p.remainingShares)))
          && positions == old(positions) && trades == old(trades)
      ensures FindById(old(positions), params.positionId).Some? ==>
        var p := FindById(old(positions), params.positionId).value;
        Validation.TradeParamsAcceptable(params, p.remainingShares) ==>
          var t := SaleOf(p, params, tradeId, now);
          && r == Ok((ApplyTrade(p, t, old(trades), now), t))
          && positions == ReplaceById(old(positions), p.id, r.value.0)
          && trades == old(trades) + [t]
    {
      var found := FindById(positions, params.positionId);
      if found.None? {
        return Err(PositionNotFound);
      }
      var position := found.value;

      var validation := Validation.ValidateRecordTrade(params, Some(position));
      if !validation.isValid {
        return Err(ValidationFailed(validation.errors));
      }
      Validation.AcceptedTradeLeavesShares(params, position.remainingShares);

      var trade := SaleOf(position, params, tradeId, now);
      var allTrades := trades + [trade];
      var updated := ApplyTrade(position, trade, trades, now);

      RecordPreservesConsistency(positions, trades, position, trade, now);
      positions := ReplaceById(positions, position.id, updated);
      trades := allTrades;
      r := Ok((updated, trade));
    }

    /** Removes the position and every trade that references it. */
    method DeletePosition(positionId: string)
      requires Valid()
      modifies this
      ensures Valid()
      ensures positions == Filter(old(positions), KeepsOtherThan(positionId))
      ensures trades == Filter(old(trades), NotOwnedBy(positionId))
      ensures forall p :: p in positions <==> p in old(positions) && p.id != positionId
      ensures forall t :: t in trades <==> t in old(trades) && t.positionId != positionId
    {
      DeletePreservesConsistency(positions, trades, positionId);
      FilterMembers(positions, KeepsOtherThan(positionId));
      FilterMembers(trades, NotOwnedBy(positionId));
      positions := Filter(positions, KeepsOtherThan(positionId));
      trades := Filter(trades, NotOwnedBy(positionId));
    }

    /** Profit/loss of one stored position at `currentPrice`. */
    function CalculatePositionMetrics(positionId: string, currentPrice: real): (r: Result<ProfitLossMetrics, ServiceError>)
      reads this
      requires Valid()
      ensures r.Ok? <==> (exists p :: p in positions && p.id == positionId) && currentPrice > 0.0
      ensures (forall p :: p in positions ==> p.id != positionId) ==> r == Err(PositionNotFound)
      ensures r.Err? && r.error != PositionNotFound ==> r.error == CalculationFailed(CurrentPriceNotPositive)
      ensures r.Ok? ==>
        var p := FindById(positions, positionId).value;
        && r.value.realizedProfit == Round2(RealizedProfit(trades, positionId))
        && CalculateProfitLoss(p, currentPrice, trades) == Ok(r.value)
    {
      match FindById(positions, positionId)
      case None => Err(PositionNotFound)
      case Some(p) =>
        match CalculateProfitLoss(p, currentPrice, trades)
        case Err(e) => Err(CalculationFailed(e))
        case Ok(m) => Ok(m)
    }

    /** Adds up value, cost and realized profit over all positions, counts
        those at a target or at their stop-loss, and derives the profit
        figures. */
    method CalculatePortfolioMetrics(prices: map<string, real>, now: Timestamp)
      returns (r: Result<PortfolioMetrics, ServiceError>)
      requires Valid()
      ensures r.Ok? <==> PricesUsable(prices, positions)
      ensures r.Err? ==> r.error == CalculationFailed(CurrentPriceNotPositive)
      ensures r.Ok? ==>
        && Accumulate(positions, prices, trades).Ok?
        && r.value == Summarize(Accumulate(positions, prices, trades).value, |positions|,
                                RemainingCostBasis(positions), now)
      ensures r.Ok? ==>
        && r.value.totalPositions == |positions|
        && r.value.totalCost == Round2(TotalCost(positions))
        && r.value.positionsAtTarget <= |positions|
        && r.value.positionsAtStopLoss <= |positions|
      ensures r.Ok? ==>
        && r.value.totalValue == Round2(SumReal(positions, ValueAt(prices)))
        && r.value.realizedProfit == Round2(SumReal(positions, RealizedAt(prices, trades)))
        && r.value.positionsAtTarget == SumInt(positions, AtTargetAt(prices))
        && r.value.positionsAtStopLoss == SumInt(positions, AtStopAt(prices))
    {
      var totals := Totals(0.0, 0.0, 0.0, 0, 0);

      assert forall p :: p in positions ==> MathReady(p);
      for i := 0 to |positions|
        invariant forall p :: p in positions[..i] ==> MathReady(p)
        invariant Accumulate(positions[..i], prices, trades) == Ok(totals)
      {
        var position := positions[i];
        assert position in positions;
        var step := Visit(totals, position, ResolvePrice(prices, position), trades);
        AccumulateStep(positions, i, prices, trades, totals);
        if step.Err? {
          return Err(CalculationFailed(step.error));
        }
        totals := step.value;
      }
      assert Accumulate(positions, prices, trades) == Ok(totals) by {
        assert positions[..|positions|] == positions;
      }

      // The cost basis of the shares still held: what was paid for every
      // share less the buy cost of the shares sold.
      var openCost := totals.cost - SoldCostBasis(positions, trades);
      assert openCost == RemainingCostBasis(positions) by {
        CostBasisSplits(positions, trades);
      }
      r := Ok(Summarize(totals, |positions|, openCost, now));
    }
  }
}
