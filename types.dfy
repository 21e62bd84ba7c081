/** Entities of the sell-in-thirds tracker: positions, their targets and
    stop-loss, and the trades recorded against them. */
module Types {

  datatype Option<T> = None | Some(value: T)

  datatype Result<T, E> = Ok(value: T) | Err(error: E)

  /** Timestamps are opaque orderable values supplied by the caller. */
  type Timestamp = int

  /** A JavaScript number as it reaches the validators: a finite value,
      NaN, or one of the two infinities. */
  datatype Num = Finite(value: real) | NaN | PosInf | NegInf

  /** Prices at +50% and +100% and the share count sold at each, plus the
      shares left after both target sales. */
  datatype SellTargets = SellTargets(
    firstTarget: real,
    secondTarget: real,
    firstTargetShares: int,
    secondTargetShares: int,
    remainingShares: int)

  datatype StopLossStatus = Initial | Breakeven | Custom

  datatype StopLossEntry = StopLossEntry(
    price: real,
    status: StopLossStatus,
    changedAt: Timestamp,
    reason: string)

  datatype StopLoss = StopLoss(
    price: real,
    status: StopLossStatus,
    progressionHistory: seq<StopLossEntry>)

  /** A holding. `currentPrice` is the transient simulated price. */
  datatype Position = Position(
    id: string,
    ticker: string,
    buyPrice: real,
    originalShares: int,
    remainingShares: int,
    sellTargets: SellTargets,
    stopLoss: StopLoss,
    createdAt: Timestamp,
    currentPrice: Option<real>)

  datatype PositionStatus = Active | PartiallySold | MostlySold | Closed

  datatype TradeType = FirstTargetTrade | SecondTargetTrade | StopLossTrade | ManualTrade

  /** A completed sale of part of a position. */
  datatype Trade = Trade(
    id: string,
    positionId: string,
    sharesSold: int,
    sellPrice: real,
    totalValue: real,
    profit: real,
    profitPercent: real,
    executedAt: Timestamp,
    tradeType: TradeType)

  datatype CreatePositionParams = CreatePositionParams(
    ticker: string,
    buyPrice: Num,
    originalShares: Num)

  /** `tradeType` is None when the caller leaves it to be inferred. */
  datatype RecordTradeParams = RecordTradeParams(
    positionId: string,
    sharesSold: Num,
    sellPrice: Num,
    tradeType: Option<TradeType>)
}
