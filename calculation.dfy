/** The money rules of the sell-in-thirds strategy: sell targets, the
    initial stop-loss, profit and loss, triggered levels and stop-loss
    progression. Every function is pure. */
module Calculation {
  import opened Types
  import opened Seqs

  /** The conditions under which a calculation refuses its input. */
  datatype CalcError = BuyPriceNotPositive | SharesNotPositiveInteger | CurrentPriceNotPositive

  datatype RecommendedAction = Hold | SellFirstThird | SellSecondThird | TriggerStopLoss

  datatype ProfitLossMetrics = ProfitLossMetrics(
    totalValue: real,
    totalCost: real,
    unrealizedProfit: real,
    unrealizedProfitPercent: real,
    realizedProfit: real,
    totalProfit: real,
    totalProfitPercent: real)

  datatype TriggeredLevels = TriggeredLevels(
    isAtFirstTarget: bool,
    isAtSecondTarget: bool,
    isAtStopLoss: bool,
    recommendedAction: RecommendedAction,
    firstTargetPrice: real,
    secondTargetPrice: real,
    stopLossPrice: real)

  const BreakevenReason: string := "First third sold - moved to breakeven"

  predicate IsInteger(x: real)
  {
    x.Floor as real == x
  }

  /** A whole number of cents. */
  predicate IsCents(x: real)
  {
    IsInteger(x * 100.0)
  }

  /** Rounding to two decimals, half away from zero, as fixed-point
      formatting to two places does on an exact value. */
  function Round2(x: real): (r: real)
    ensures x - 0.005 <= r <= x + 0.005
    ensures IsCents(r)
  {
    var cents := Cents(x);
    assert IsCents(cents as real / 100.0) by {
      assert cents as real / 100.0 * 100.0 == cents as real;
    }
    cents as real / 100.0
  }

  /** The number of cents `x` rounds to. */
  function Cents(x: real): (n: int)
    ensures x * 100.0 - 0.5 <= n as real <= x * 100.0 + 0.5
  {
    if x >= 0.0 then (x * 100.0 + 0.5).Floor else -((-x) * 100.0 + 0.5).Floor
  }

  lemma CentsMonotone(x: real, y: real)
    requires x <= y
    ensures Cents(x) <= Cents(y)
  {
    if x >= 0.0 {
      assert x * 100.0 + 0.5 <= y * 100.0 + 0.5;
    } else if y < 0.0 {
      assert (-y) * 100.0 + 0.5 <= (-x) * 100.0 + 0.5;
    }
  }

  lemma Round2Monotone(x: real, y: real)
    requires x <= y
    ensures Round2(x) <= Round2(y)
  {
    CentsMonotone(x, y);
  }

  /** A value already in cents is left alone, so rounding is idempotent. */
  lemma Round2OfCents(x: real)
    requires IsCents(x)
    ensures Round2(x) == x
  {
    var n := (x * 100.0).Floor;
    assert n as real == x * 100.0;
    if x >= 0.0 {
      assert (x * 100.0 + 0.5).Floor == n;
    } else {
      assert ((-x) * 100.0 + 0.5).Floor == -n;
    }
    assert Cents(x) == n;
  }

  predicate IsTargetTrade(t: Trade)
  {
    t.tradeType == FirstTargetTrade || t.tradeType == SecondTargetTrade
  }

  /** The trades that reference position `id`. */
  function OwnedBy(id: string): Trade -> bool
  {
    (t: Trade) => t.positionId == id
  }

  function TradesFor(ts: seq<Trade>, id: string): (r: seq<Trade>)
    ensures forall t :: t in r <==> t in ts && t.positionId == id
  {
    FilterMembers(ts, OwnedBy(id));
    Filter(ts, OwnedBy(id))
  }

  ghost predicate HasTargetTrade(ts: seq<Trade>, id: string)
  {
    exists t :: t in ts && t.positionId == id && IsTargetTrade(t)
  }

  function ProfitOf(t: Trade): real
  {
    t.profit
  }

  /** Realized profit of position `id`: the sum of the recorded profit of
      the trades that reference it, whatever else `ts` holds. */
  function RealizedProfit(ts: seq<Trade>, id: string): real
  {
    SumReal(TradesFor(ts, id), ProfitOf)
  }

  /** The source splits the shares into thirds rounded down and gives the
      remainder of the division by three to the last third. */
  function CalculateSellTargets(buyPrice: real, originalShares: real): (r: Result<SellTargets, CalcError>)
    ensures r.Err? <==> buyPrice <= 0.0 || originalShares <= 0.0 || !IsInteger(originalShares)
    ensures buyPrice <= 0.0 ==> r == Err(BuyPriceNotPositive)
    ensures buyPrice > 0.0 && r.Err? ==> r == Err(SharesNotPositiveInteger)
    ensures r.Ok? ==>
      var t := r.value;
      var n := originalShares.Floor;
      && t.firstTargetShares + t.secondTargetShares + t.remainingShares == n
      && t.firstTargetShares == t.secondTargetShares == n / 3
      && 0 <= t.remainingShares - t.firstTargetShares <= 2
      && t.remainingShares - t.firstTargetShares == n % 3
      && t.firstTarget == Round2(buyPrice * 1.5)
      && t.secondTarget == Round2(buyPrice * 2.0)
  {
    if buyPrice <= 0.0 then Err(BuyPriceNotPositive)
    else if originalShares <= 0.0 || !IsInteger(originalShares) then Err(SharesNotPositiveInteger)
    else
      var n := originalShares.Floor;
      var firstShares := n / 3;
      var secondShares := n / 3;
      Ok(SellTargets(Round2(buyPrice * 1.5), Round2(buyPrice * 2.0),
                     firstShares, secondShares, n - firstShares - secondShares))
  }

  function CalculateInitialStopLoss(buyPrice: real): (r: Result<real, CalcError>)
    ensures r.Err? <==> buyPrice <= 0.0
    ensures r.Err? ==> r.error == BuyPriceNotPositive
    ensures r.Ok? ==> r.value == Round2(buyPrice * 0.8)
  {
    if buyPrice <= 0.0 then Err(BuyPriceNotPositive) else Ok(Round2(buyPrice * 0.8))
  }

  /** Examples 300 -> 100/100/100 and 301 -> 100/100/101, and the prices
      for a buy price of 150. */
  lemma SellTargetsExamples()
    ensures CalculateSellTargets(150.0, 300.0) == Ok(SellTargets(225.0, 300.0, 100, 100, 100))
    ensures CalculateSellTargets(150.0, 301.0) == Ok(SellTargets(225.0, 300.0, 100, 100, 101))
    ensures CalculateInitialStopLoss(150.0) == Ok(120.0)
  {
    Round2OfCents(225.0);
    Round2OfCents(300.0);
    Round2OfCents(120.0);
  }

  /** The stop-loss never lies above the first target, nor the first target
      above the second; once the buy price exceeds two and a half cents the
      ordering is strict around the buy price. */
  lemma TargetPriceOrdering(buyPrice: real)
    requires buyPrice > 0.0
    ensures var stop := CalculateInitialStopLoss(buyPrice).value;
            var targets := CalculateSellTargets(buyPrice, 1.0).value;
            && stop <= targets.firstTarget <= targets.secondTarget
            && (buyPrice > 0.025 ==> stop < buyPrice < targets.firstTarget)
  {
    Round2Monotone(buyPrice * 0.8, buyPrice * 1.5);
    Round2Monotone(buyPrice * 1.5, buyPrice * 2.0);
  }

  /** At one cent the initial stop-loss rounds up to the buy price itself. */
  lemma PennyStopLossAtBuyPrice()
    ensures CalculateInitialStopLoss(0.01) == Ok(0.01)
  {
    assert (0.01 * 0.8 * 100.0 + 0.5).Floor == 1;
  }

  /** Shares and price checks of the profit/loss computation presuppose a
      position with a positive buy price and share count. */
  predicate MathReady(p: Position)
  {
    p.buyPrice > 0.0 && p.originalShares > 0
  }

  /** The worth of `shares` at `price`. */
  function Gross(shares: int, price: real): (r: real)
    ensures shares > 0 && price > 0.0 ==> r > 0.0
  {
    shares as real * price
  }

  /** Profit of selling `shares` bought at `buyPrice` for `sellPrice`. */
  function Gain(buyPrice: real, sellPrice: real, shares: int): real
  {
    (sellPrice - buyPrice) * shares as real
  }

  /** `part` as a percentage of `whole`. */
  function Percent(part: real, whole: real): real
    requires whole != 0.0
  {
    part / whole * 100.0
  }

  function CalculateProfitLoss(p: Position, currentPrice: real, ts: seq<Trade>): (r: Result<ProfitLossMetrics, CalcError>)
    requires MathReady(p)
    ensures r.Ok? <==> currentPrice > 0.0
    ensures r.Err? ==> r.error == CurrentPriceNotPositive
    ensures r.Ok? ==>
      var m := r.value;
      var realized := RealizedProfit(ts, p.id);
      && m.totalValue == Round2(Gross(p.remainingShares, currentPrice))
      && m.totalCost == Round2(Gross(p.originalShares, p.buyPrice))
      && m.unrealizedProfit == Round2(Gain(p.buyPrice, currentPrice, p.remainingShares))
      && m.unrealizedProfitPercent == Round2(Percent(currentPrice - p.buyPrice, p.buyPrice))
      && m.realizedProfit == Round2(realized)
      && m.totalProfit == Round2(realized + m.unrealizedProfit)
      && m.totalProfitPercent == Round2(Percent(m.totalProfit, Gross(p.originalShares, p.buyPrice)))
  {
    if currentPrice <= 0.0 then Err(CurrentPriceNotPositive)
    else
      var totalValue := Gross(p.remainingShares, currentPrice);
      var totalCost := Gross(p.originalShares, p.buyPrice);
      var unrealized := Round2(Gain(p.buyPrice, currentPrice, p.remainingShares));
      var unrealizedPercent := Round2(Percent(currentPrice - p.buyPrice, p.buyPrice));
      var realized := RealizedProfit(ts, p.id);
      var totalProfit := Round2(realized + unrealized);
      var totalProfitPercent := Round2(Percent(totalProfit, totalCost));
      Ok(ProfitLossMetrics(Round2(totalValue), Round2(totalCost), unrealized, unrealizedPercent,
                           Round2(realized), totalProfit, totalProfitPercent))
  }

  /** The caller may pass the whole trade collection or only this
      position's trades: the realized profit is the same. */
  lemma RealizedProfitPrefiltered(ts: seq<Trade>, id: string)
    ensures RealizedProfit(TradesFor(ts, id), id) == RealizedProfit(ts, id)
  {
    FilterFilter(ts, OwnedBy(id), OwnedBy(id));
  }

  /** Trades of other positions never change a position's realized profit. */
  lemma RealizedProfitIgnoresOthers(ts: seq<Trade>, others: seq<Trade>, id: string)
    requires forall t :: t in others ==> t.positionId != id
    ensures RealizedProfit(ts + others, id) == RealizedProfit(ts, id)
  {
    FilterAppend(ts, others, OwnedBy(id));
    FilterDropsAll(others, OwnedBy(id));
    assert TradesFor(ts + others, id) == TradesFor(ts, id) + [];
    assert TradesFor(ts, id) + [] == TradesFor(ts, id);
  }

  /** Recording one more trade for the position adds exactly its profit. */
  lemma RealizedProfitAppend(ts: seq<Trade>, t: Trade)
    ensures RealizedProfit(ts + [t], t.positionId) == RealizedProfit(ts, t.positionId) + t.profit
  {
    var id := t.positionId;
    FilterAppend(ts, [t], OwnedBy(id));
    assert Filter([t], OwnedBy(id)) == [t] by {
      assert [t][..0] == [];
    }
    SumRealSnoc(TradesFor(ts, id), t, ProfitOf);
  }

  /** Total profit is realized plus unrealized profit, each rounded, so the
      two differ by at most one cent. */
  lemma TotalProfitWithinRounding(p: Position, currentPrice: real, ts: seq<Trade>)
    requires MathReady(p) && currentPrice > 0.0
    ensures var m := CalculateProfitLoss(p, currentPrice, ts).value;
            var exact := RealizedProfit(ts, p.id) + Gain(p.buyPrice, currentPrice, p.remainingShares);
            exact - 0.01 <= m.totalProfit <= exact + 0.01
  {
    var m := CalculateProfitLoss(p, currentPrice, ts).value;
    var gain := Gain(p.buyPrice, currentPrice, p.remainingShares);
    assert gain - 0.005 <= m.unrealizedProfit <= gain + 0.005;
  }

  function AnalyzeTriggeredLevels(p: Position, currentPrice: real): (r: Result<TriggeredLevels, CalcError>)
    ensures r.Ok? <==> currentPrice > 0.0
    ensures r.Err? ==> r.error == CurrentPriceNotPositive
    ensures r.Ok? ==>
      var l := r.value;
      && (l.isAtFirstTarget <==> currentPrice >= p.sellTargets.firstTarget)
      && (l.isAtSecondTarget <==> currentPrice >= p.sellTargets.secondTarget)
      && (l.isAtStopLoss <==> currentPrice <= p.stopLoss.price)
      && (l.recommendedAction == TriggerStopLoss <==> l.isAtStopLoss)
      && (l.recommendedAction == SellSecondThird <==> !l.isAtStopLoss && l.isAtSecondTarget)
      && (l.recommendedAction == SellFirstThird <==> !l.isAtStopLoss && !l.isAtSecondTarget && l.isAtFirstTarget)
      && (l.recommendedAction == Hold <==> !l.isAtStopLoss && !l.isAtSecondTarget && !l.isAtFirstTarget)
      && l.firstTargetPrice == p.sellTargets.firstTarget
      && l.secondTargetPrice == p.sellTargets.secondTarget
      && l.stopLossPrice == p.stopLoss.price
  {
    if currentPrice <= 0.0 then Err(CurrentPriceNotPositive)
    else
      var atFirst := currentPrice >= p.sellTargets.firstTarget;
      var atSecond := currentPrice >= p.sellTargets.secondTarget;
      var atStop := currentPrice <= p.stopLoss.price;
      var action :=
        if atStop then TriggerStopLoss
        else if atSecond then SellSecondThird
        else if atFirst then SellFirstThird
        else Hold;
      Ok(TriggeredLevels(atFirst, atSecond, atStop, action,
                         p.sellTargets.firstTarget, p.sellTargets.secondTarget, p.stopLoss.price))
  }

  /** Rank of an action in the tie-break: the stop-loss outranks both
      targets, the second target outranks the first. */
  function Priority(a: RecommendedAction): nat
  {
    match a
    case TriggerStopLoss => 3
    case SellSecondThird => 2
    case SellFirstThird => 1
    case Hold => 0
  }

  /** The actions whose trigger condition holds at the analysed price. */
  function Signalled(l: TriggeredLevels): set<RecommendedAction>
  {
    (if l.isAtStopLoss then {TriggerStopLoss} else {})
    + (if l.isAtSecondTarget then {SellSecondThird} else {})
    + (if l.isAtFirstTarget then {SellFirstThird} else {})
  }

  /** The recommendation is the highest-ranked signalled action, and HOLD
      exactly when nothing is signalled. */
  lemma RecommendationIsHighestPriority(p: Position, currentPrice: real)
    requires currentPrice > 0.0
    ensures var l := AnalyzeTriggeredLevels(p, currentPrice).value;
            && (l.recommendedAction == Hold <==> Signalled(l) == {})
            && (Signalled(l) != {} ==> l.recommendedAction in Signalled(l))
            && (forall a :: a in Signalled(l) ==> Priority(a) <= Priority(l.recommendedAction))
  {
    var l := AnalyzeTriggeredLevels(p, currentPrice).value;
    if l.recommendedAction == Hold {
      assert Signalled(l) == {};
    } else {
      assert l.recommendedAction in Signalled(l);
    }
  }

  /** The new stop-loss after the trades in `ts`: from INITIAL, any target
      trade of the position moves it to breakeven and appends one history
      entry; otherwise it is returned unchanged. */
  function CalculateProgressedStopLoss(p: Position, ts: seq<Trade>, now: Timestamp): (r: StopLoss)
    ensures TradesFor(ts, p.id) == [] ==> r == p.stopLoss
    ensures p.stopLoss.status != Initial ==> r == p.stopLoss
    ensures !HasTargetTrade(ts, p.id) ==> r == p.stopLoss
    ensures p.stopLoss.status == Initial && HasTargetTrade(ts, p.id) ==>
      r == StopLoss(p.buyPrice, Breakeven,
                    p.stopLoss.progressionHistory + [StopLossEntry(p.buyPrice, Breakeven, now, BreakevenReason)])
  {
    var own := TradesFor(ts, p.id);
    if |own| == 0 then p.stopLoss
    else
      var targetTrades := Filter(own, IsTargetTrade);
      assert |targetTrades| > 0 <==> HasTargetTrade(ts, p.id) by {
        FilterMembers(own, IsTargetTrade);
        if |targetTrades| > 0 {
          assert targetTrades[0] in targetTrades;
        }
        if HasTargetTrade(ts, p.id) {
          var t :| t in ts && t.positionId == p.id && IsTargetTrade(t);
          assert t in targetTrades;
        }
      }
      if |targetTrades| > 0 && p.stopLoss.status == Initial then
        var entry := StopLossEntry(p.buyPrice, Breakeven, now, BreakevenReason);
        StopLoss(p.buyPrice, Breakeven, p.stopLoss.progressionHistory + [entry])
      else p.stopLoss
  }

  /** Progressing a second time with the same trades changes nothing, at
      whatever time it happens. */
  lemma ProgressionIdempotent(p: Position, ts: seq<Trade>, now: Timestamp, later: Timestamp)
    ensures var once := CalculateProgressedStopLoss(p, ts, now);
            CalculateProgressedStopLoss(p.(stopLoss := once), ts, later) == once
  {
  }

  /** The history is only ever appended to, by at most one entry, and a
      stop-loss that has left INITIAL never returns to it. */
  lemma ProgressionAppendOnly(p: Position, ts: seq<Trade>, now: Timestamp)
    ensures var s := CalculateProgressedStopLoss(p, ts, now);
            var before := p.stopLoss.progressionHistory;
            && before <= s.progressionHistory
            && |s.progressionHistory| <= |before| + 1
            && (p.stopLoss.status != Initial ==> s.status == p.stopLoss.status)
            && (s.status == Initial ==> s == p.stopLoss)
  {
  }
}
