# Sell-in-thirds position engine

This project models the service layer of a stock position tracker that
follows the "sell in thirds" strategy:

- A position is bought at some price.
- One third of its shares is sold at +50 %, and another third at +100 %.
- The last third is held.
- A stop-loss starts at -20 % of the buy price and moves up to the buy price ("breakeven") once a target sale has been recorded.

Three services are modelled:

- **Calculation** (`calculation.dfy`): pure money rules.
  - Sell targets and their share split.
  - The initial stop-loss.
  - Profit and loss of a position at a price.
  - Which levels a price triggers, and what is recommended there.
  - The stop-loss progression after trades.
- **Validation** (`validation.dfy`): the field-by-field input rules.
  - Each validator builds its error list step by step, one `if/else if` chain per field, in a fixed field order.
  - It never stops at the first failing field.
- **Positions** (`positions.dfy`): the position service.
  - It is a class holding the stored positions and trades as two sequences.
  - Its methods create, sell from and delete positions, and value single positions and the whole portfolio.
  - It also classifies a position's status.

The class invariant `Positions.PositionService.Valid` (`Consistent`) says:

- ids are distinct, and tickers are distinct;
- every position has a positive buy price and share count, and its targets are the calculated ones;
- the remaining shares are the original shares minus the shares sold in its trades;
- the stop-loss is INITIAL at -20 % with one history entry until a target trade exists for the position, and BREAKEVEN at the buy price with two entries after that;
- every trade references a stored position.

Every state-changing method keeps this invariant.

Modelling conventions:

- Money is `real`.
- `Round2` is rounding to cents, half away from zero. That is what fixed-point formatting to two places, read back as a number, does on an exact value.
- A JavaScript number reaching a validator is a `Num`: a finite value, NaN, or an infinity.
- Thrown errors become `Err` values of a `Result`.
- Operations that the source runs against storage are methods over the class's two fields.
- Generated ids and the current time are parameters.

Support files:

- `types.dfy` holds the entities.
- `seqs.dfy` holds an order-preserving filter and left-to-right sums, which stand in for `filter` and `reduce`.

## Model

| member | source | states |
|---|---|---|
| Calculation.Round2 | src/services/calculation-service.ts:92-93 | the result is a whole number of cents within half a cent of the input |
| Calculation.Round2Monotone | src/services/calculation-service.ts:144-152 | rounding to cents preserves order |
| Calculation.Round2OfCents | src/services/calculation-service.ts:148-152 | a value already in cents is unchanged, so rounding twice is rounding once |
| Calculation.TradesFor | src/services/calculation-service.ts:139-140 | the selected trades are exactly those of the collection that reference the position |
| Calculation.CalculateSellTargets | src/services/calculation-service.ts:82-107 | it fails exactly when the buy price is not positive (buy-price error first) or the share count is not a positive integer; otherwise: the three share counts add up to the original shares; the first two are each the shares divided by three, rounded down; the last third exceeds them by the remainder of division by three (0, 1 or 2); the prices are +50 % and +100 % rounded to cents |
| Calculation.CalculateInitialStopLoss | src/services/calculation-service.ts:113-119 | it fails exactly when the buy price is not positive; otherwise the result is 80 % of the buy price, rounded to cents |
| Calculation.SellTargetsExamples | src/services/calculation-service.ts:82-119 | at a buy price of 150: 300 shares split 100/100/100 and 301 split 100/100/101; the targets are 225 and 300 and the stop-loss is 120 |
| Calculation.TargetPriceOrdering | src/services/calculation-service.ts:92-118 | stop-loss ≤ first target ≤ second target for every positive buy price; stop-loss < buy price < first target once the buy price exceeds 0.025 |
| Calculation.PennyStopLossAtBuyPrice | src/services/calculation-service.ts:113-119 | at a buy price of 0.01 the initial stop-loss rounds to the buy price itself |
| Calculation.CalculateProfitLoss | src/services/calculation-service.ts:125-156 | it fails exactly when the current price is not positive; otherwise it gives the value of the remaining shares, the cost of all shares, unrealized profit and percent, realized profit (the sum of profits of this position's trades only), total profit as realized plus rounded unrealized, and total profit percent, each rounded to cents |
| Calculation.RealizedProfitPrefiltered | src/services/calculation-service.ts:139-141 | realized profit is the same whether the caller passes all trades or only this position's |
| Calculation.RealizedProfitIgnoresOthers | src/services/calculation-service.ts:139-141 | appending trades of other positions never changes a position's realized profit |
| Calculation.RealizedProfitAppend | src/services/calculation-service.ts:139-141 | appending one trade of the position adds exactly its profit |
| Calculation.TotalProfitWithinRounding | src/services/calculation-service.ts:135-144 | total profit lies within one cent of realized profit plus the exact unrealized profit (current price less buy price, times the remaining shares) |
| Calculation.AnalyzeTriggeredLevels | src/services/calculation-service.ts:162-194 | it fails exactly when the price is not positive; each flag holds exactly when the price has reached its level; the action is the stop-loss when that flag is set, else the second third, else the first third, else HOLD (each as an if-and-only-if); the trigger prices are the position's |
| Calculation.RecommendationIsHighestPriority | src/services/calculation-service.ts:171-181 | the recommendation is HOLD exactly when no level is signalled, and otherwise it is the highest-ranked signalled action |
| Calculation.CalculateProgressedStopLoss | src/services/calculation-service.ts:200-232 | the stop-loss is unchanged when no trade references the position, when its status is not INITIAL, or when no target trade exists; from INITIAL with a target trade it becomes BREAKEVEN at the buy price, with exactly one entry appended to the history |
| Calculation.ProgressionIdempotent | src/services/calculation-service.ts:200-232 | progressing again with the same trades, at any time, changes nothing |
| Calculation.ProgressionAppendOnly | src/services/calculation-service.ts:200-232 | the old history is a prefix of the new one, which is at most one entry longer; a status other than INITIAL is kept; an INITIAL result is the old stop-loss |
| Validation.IsValidNumber | src/services/validation-service.ts:246-248 | a number is valid exactly when it is neither NaN nor an infinity |
| Validation.ValidTickerFormat | src/services/validation-service.ts:239-241 | one to five upper-case letters A-Z, the pattern of line 46; a well-formed ticker is never empty |
| Validation.TickerRule | src/services/validation-service.ts:57-76 | REQUIRED exactly for the empty ticker; INVALID_FORMAT exactly for a non-empty malformed one; DUPLICATE_TICKER exactly for a well-formed ticker already held; no error exactly for a well-formed ticker not held |
| Validation.PriceRule | src/services/validation-service.ts:78-97 | REQUIRED exactly for a non-finite number; OUT_OF_RANGE exactly for a finite one outside (0, 999999.99]; no error exactly inside it (the same chain as lines 176-195 and 210-228) |
| Validation.OriginalSharesRule | src/services/validation-service.ts:99-124 | REQUIRED exactly for a non-finite number; INVALID_FORMAT exactly for a non-integer; OUT_OF_RANGE exactly for an integer ≤ 0 or > 1,000,000; no error exactly for an integer in 1..1,000,000 |
| Validation.SharesSoldRule | src/services/validation-service.ts:149-174 | REQUIRED, INVALID_FORMAT and OUT_OF_RANGE as for a share count; INSUFFICIENT_SHARES exactly for a positive integer above the remaining shares; no error exactly for an integer in 1..remaining |
| Validation.ReportsInOrder | src/services/validation-service.ts:149-195 | reports of two fields in checking order list each failing field exactly once, with its rule's code, in field order |
| Validation.ReportsInOrder3 | src/services/validation-service.ts:57-124 | reports of three fields in checking order keep the field order |
| Validation.ReportCodes3 | src/services/validation-service.ts:57-124 | reports of three different fields give each field its own rule's code, and their length is the number of failing fields |
| Validation.CreatePositionErrorsExplained | src/services/validation-service.ts:54-130 | the errors of a new position are in field order, carry each field's rule code, number one per failing field, and are empty exactly for acceptable parameters |
| Validation.RecordTradeErrorsExplained | src/services/validation-service.ts:149-201 | the errors of a sale are in field order, carry each field's rule code, number one per failing field, and are empty exactly for an acceptable sale |
| Validation.ValidateCreatePosition | src/services/validation-service.ts:54-130 | the errors are the ticker, buy price and share reports in that order; valid exactly when there are no errors, and exactly when all three fields are acceptable; at most one error per field, carrying that field's rule code |
| Validation.ValidateRecordTrade | src/services/validation-service.ts:136-201 | with no position, exactly one error (position id, REQUIRED); otherwise the shares-sold and sell-price reports in that order; valid exactly when the position exists and both fields are acceptable |
| Validation.ValidatePriceInput | src/services/validation-service.ts:207-234 | valid exactly when the price is finite and in (0, 999999.99]; otherwise the one error carries the price rule's code |
| Validation.AcceptedParamsCalculate | src/services/position-service.ts:34-41 | parameters that pass validation are accepted by the sell-target and stop-loss calculations, with a share count from 1 to 1,000,000 |
| Validation.AcceptedTradeLeavesShares | src/services/validation-service.ts:162-174 | a sale that passes validation sells a whole number of shares in 1..remaining, so the remaining count stays non-negative |
| Validation.InvalidTripleReportsEveryField | tests/services/validation-service.test.ts:152-169 | ticker "INVALID123", price -150 and zero shares give exactly three errors: ticker INVALID_FORMAT, buy price OUT_OF_RANGE, shares OUT_OF_RANGE |
| Positions.Tickers | src/services/position-service.ts:31 | the held tickers, one per position, in order |
| Positions.FindById | src/services/position-service.ts:82-85 | a position is found exactly when one carries the id, and what is found is a stored position with that id |
| Positions.FindByIdFindsUnique | src/services/position-service.ts:82-85 | with distinct ids, looking up a stored position's id finds that position |
| Positions.ReplaceById | src/services/position-service.ts:176 | same length; the positions with the id are replaced and every other position is kept in place |
| Positions.NewPosition | src/services/position-service.ts:39-62 | the new position is well formed, holds all its shares, has the calculated targets, and has an INITIAL stop-loss at -20 % with a one-entry history |
| Positions.CreatePreservesConsistency | src/services/position-service.ts:28-69 | appending a fresh, well-formed position under an unheld ticker keeps the collections consistent |
| Positions.InferTradeType | src/services/position-service.ts:135-147 | each inferred type holds exactly under its price condition: second target, then first target, then at or below the stop-loss, otherwise manual |
| Positions.InferredTypeMatchesRecommendation | src/services/position-service.ts:135-147 | when the stop-loss is below the first target, the inferred type is the sale that level analysis recommends at that price |
| Positions.SaleOf | src/services/position-service.ts:130-160 | the trade carries the given id, position, shares, price and time; proceeds, profit and profit percent are rounded to cents; a supplied type is kept, else the inferred one is used |
| Positions.SaleSplitsProceeds | src/services/position-service.ts:130-133 | proceeds less profit is the buy cost of the shares sold, within one cent |
| Positions.ApplyTrade | src/services/position-service.ts:162-172 | the remaining shares drop by exactly the shares sold; identity, buy price, targets, creation time and simulated price are unchanged; the stop-loss is kept unless it is INITIAL and some trade of the position, the new one included, is a target sale, in which case it becomes BREAKEVEN at the buy price with one entry appended |
| Positions.BreakevenAfterTargetSale | src/services/position-service.ts:162-172 | a target sale moves an INITIAL stop-loss to BREAKEVEN at the buy price with one entry appended, and leaves a BREAKEVEN stop-loss as it was |
| Positions.FirstTargetSaleScenario | tests/services/position-service.test.ts:126-159 | 300 shares at 150, selling 100 at the first target of 225: 200 shares remain; the stop-loss is 150 BREAKEVEN; proceeds 22500, profit 7500, 50 % |
| Positions.SharesSoldAppend | src/services/position-service.ts:165-170 | a recorded sale adds its shares to its own position's tally and to no other |
| Positions.ApplyTradeConsistent | src/services/position-service.ts:162-172 | selling a valid share count keeps the position consistent with the extended trade list |
| Positions.SaleTracksStopLoss | src/services/position-service.ts:162-172 | after a sale of the position's own shares the stop-loss is still BREAKEVEN exactly when some trade of the position is a target sale |
| Positions.OtherPositionUnaffected | src/services/position-service.ts:175-178 | a trade of another position keeps a position consistent |
| Positions.ReplacedPositionsAgree | src/services/position-service.ts:162-178 | after the sale, the sold position and every other stored position agree with the trades including the new one |
| Positions.ReplaceKeepsIds | src/services/position-service.ts:176 | replacing a position with one of the same id keeps the set of ids |
| Positions.ReplaceKeepsKeys | src/services/position-service.ts:176 | replacing a position with one of the same id and ticker keeps ids and tickers distinct |
| Positions.RecordPreservesConsistency | src/services/position-service.ts:117-181 | recording a valid sale keeps the collections consistent |
| Positions.DeletePreservesConsistency | src/services/position-service.ts:186-196 | removing a position with its trades keeps the collections consistent and leaves every other position's trades as they were |
| Positions.DeleteMissingChangesNothing | src/services/position-service.ts:186-196 | deleting an id that no position carries leaves both collections as they were |
| Positions.GetPositionStatus | src/services/position-service.ts:261-274 | CLOSED exactly at zero shares left; MOSTLY_SOLD exactly when shares remain and 100·sold ≥ 66·original; PARTIALLY_SOLD exactly when shares remain and 0 < 100·sold < 66·original; ACTIVE exactly when shares remain and nothing was sold |
| Positions.SoldPercentageThresholds | src/services/position-service.ts:262-270 | the sold percentage reaches 66 exactly when 100·sold ≥ 66·original, and is positive exactly when something was sold |
| Positions.StatusAlongThePlan | src/services/position-service.ts:261-274 | a well-formed position of at least three shares is PARTIALLY_SOLD when exactly its first-target shares have been sold, and MOSTLY_SOLD when only its last third remains and its share count is divisible by three |
| Positions.TwoThirdsOf101IsPartiallySold | src/services/position-service.ts:261-274 | with 101 shares, both target sales leave only 65 % sold, so the position is still partially sold |
| Positions.ResolvePrice | src/services/position-service.ts:214-215 | the supplied price for the ticker unless it is missing or zero, else the position's simulated price unless that is missing or zero, else unpriced |
| Positions.PricedFigures | src/services/position-service.ts:216-228 | it fails exactly when the price is not positive; otherwise it gives the rounded value of the remaining shares, the rounded realized profit, whether the price has reached either target, and whether it is at or below the stop-loss |
| Positions.Visit | src/services/position-service.ts:214-232 | it fails exactly for a priced position whose price is not positive; the cost always grows by what the position cost; an unpriced position adds only its cost; a priced one adds its rounded value and rounded realized profit, counts one at target exactly when the price reaches the first or second target, and one at stop-loss exactly when the price is at or below the stop-loss |
| Positions.Accumulate | src/services/position-service.ts:213-233 | the loop fails exactly when some position resolves to a non-positive price; the cost total covers every position, priced or not; value and realized profit are the sums of the rounded figures of the priced positions; the two counters count the priced positions at a target and at or below their stop-loss; each counter is at most the number of positions |
| Positions.AccumulateStep | src/services/position-service.ts:213-233 | one more position extends the totals by one visit |
| Positions.CostBasisSplits | src/services/position-service.ts:235-236 | what was paid for all shares, less the buy cost of the shares sold, is the cost basis of the shares still held |
| Positions.Summarize | src/services/position-service.ts:235-255 | the figures are the rounded totals; unrealized profit is value less the cost basis of the unsold shares; total profit percent is total profit over total cost times 100 when the cost is positive, else 0; the average return is that percent divided by the number of positions when there are any and the cost is positive, else 0 |
| Positions.ProceedsSplit | src/services/position-service.ts:292-297 | when every trade references one of the positions and ids are distinct, the summed sale proceeds are the buy cost of the shares sold plus the exact profit of every trade |
| Positions.SoldCostByTrades | src/services/position-service.ts:292-297 | with distinct ids and every trade referencing a position, the buy cost of the shares sold summed over positions equals the same cost summed over trades |
| Positions.AsWrittenAddsTradeGains | src/services/position-service.ts:236 | on consistent collections, the unrealized profit as written equals the value less the cost basis of the unsold shares plus the exact profit of every trade |
| Positions.AsWrittenPortfolioDoubleCounts | src/services/position-service.ts:235-239 | on one half-sold position, the portfolio formula as written gives a total profit of 1500, while the position's own figures and the corrected summary both give 1000 |
| Positions.PositionService.constructor | src/services/position-service.ts:18-22 | the service starts valid with no positions and no trades |
| Positions.PositionService.CreatePosition | src/services/position-service.ts:28-69 | on rejected parameters, the validation errors are returned and nothing is stored; otherwise exactly the new position is appended and returned, earlier positions and all trades are untouched, and the invariant holds |
| Positions.PositionService.UpdateCurrentPrice | src/services/position-service.ts:91-111 | an invalid price gives the price error; otherwise it succeeds exactly when the position exists and returns that position with the simulated price set; nothing is stored |
| Positions.PositionService.RecordTrade | src/services/position-service.ts:117-181 | an unknown id, or a sale that fails validation, returns the error and changes nothing; otherwise exactly one trade is appended, only that position is replaced by its updated state, and the invariant holds |
| Positions.PositionService.DeletePosition | src/services/position-service.ts:186-196 | the positions with the id and the trades that reference it are removed; everything else stays in order; the invariant holds |
| Positions.PositionService.CalculatePositionMetrics | src/services/position-service.ts:279-287 | it succeeds exactly when the position exists and the price is positive; a missing position gives not-found; the result is the position's profit/loss over the stored trades |
| Positions.PositionService.CalculatePortfolioMetrics | src/services/position-service.ts:202-256 | it succeeds exactly when every priced position has a positive price; the result summarizes the loop totals against the cost basis of the unsold shares; it counts every position, its total cost covers every position, and each counter is at most the number of positions; its value and realized profit are the rounded sums of the priced positions' rounded figures, and its counters count the priced positions at a target and at or below their stop-loss |

Three functions are specified through the rows of lemmas about them rather than rows of their own:
- `Calculation.RealizedProfit`, through `RealizedProfitPrefiltered`, `RealizedProfitIgnoresOthers` and `RealizedProfitAppend`;
- `Positions.InvestedCapitalFromTrades`, through `ProceedsSplit`;
- `Positions.AsWrittenUnrealizedProfit`, through `AsWrittenAddsTradeGains`.

## Left out

- Storage (`StorageService`, browser storage, date serialization) is not part of this model. The stored collections are the two fields of `PositionService`, so `getAllPositions` is the `positions` field itself, and `getPosition` is `FindById` on it.
- Asynchrony: each operation is one atomic method, and thrown errors are `Err` results.
- `generateId` is random and time-based, so ids are parameters. `CreatePosition` requires an id that no stored position carries, which stands in for the uniqueness of generated ids.
- Every `new Date()` is a `now` parameter.
- Error message text is not modelled: `getErrorMessage`, `getFormatErrorMessage`, `getRangeErrorMessage`, `capitalizeField` and `toLocaleString`. Errors carry their field and code.
- `validatePositiveNumber` in the calculation service is never called, so it is not modelled.
- `roundToFinancialPrecision` (src/services/calculation-service.ts:237-239) is never called either. `Round2` models the inline `Number(x.toFixed(2))` conversions instead.
- IEEE-754 binary floating point is not modelled. Money is exact `real`, and `toFixed(2)` is exact rounding half away from zero, so binary representation effects on ties are not captured.
- NaN and the infinities are modelled only where numbers enter the validators. Two prices reach the calculations without a validator, and the model takes both as finite reals:
  - the price map given to `calculatePortfolioMetrics` (src/services/position-service.ts:202, 214);
  - the current price given to `calculatePositionMetrics` (src/services/position-service.ts:279-286).
- Not captured, as a result:
  - a NaN entry in the map is falsy in `||`, so the source falls back to the position's simulated price;
  - an Infinity entry passes `if (currentPrice)` and makes the totals Infinity;
  - a NaN current price passes the `currentPrice <= 0` guard (src/services/calculation-service.ts:126), and the source returns NaN figures instead of an error.
- Calculation.CalculateProfitLoss: requires a positive buy price and share count. With those at zero the source divides by zero and yields NaN or Infinity, which this model does not represent. Every stored position meets the requirement.
- Positions.GetPositionStatus: requires a positive original share count, for the same reason. It decides thresholds on exact integers (100·sold against 66·original) rather than on a floating-point percentage.
- Positions.PositionService.CalculatePositionMetrics: requires the service invariant, which provides the positive buy price and share count that the profit/loss calculation needs.
- Calculation.TargetPriceOrdering: proves stop-loss < buy price < first target only for buy prices above 0.025. At or below it, rounding to cents can lift the stop-loss to the buy price, as `PennyStopLossAtBuyPrice` shows.
- Positions.PositionService.CalculatePortfolioMetrics: values the unsold shares against their own cost basis, not against total cost less all sale proceeds as line 236 does. See Findings. The as-written `InvestedCapitalFromTrades` is kept for the counterexample.
- Custom stop-losses: no core operation sets the CUSTOM status. Progression leaves it alone, and the invariant excludes it.
- The React hooks, components and application shell are not modelled.
- The placeholder tests in tests/services/validation-service.test.ts disagree with the validators, and the model follows the validators:
  - lines 96-118 expect OUT_OF_RANGE for NaN and Infinity buy prices, where src/services/validation-service.ts:78-97 gives REQUIRED (`PriceRule`);
  - lines 126-148 expect OUT_OF_RANGE for share counts of 1.5 and NaN, where src/services/validation-service.ts:99-124 gives INVALID_FORMAT and REQUIRED (`OriginalSharesRule`).

## Findings

| source | as written | input that shows it | evidently intended | confidence | as-written member | corrected member |
|---|---|---|---|---|---|---|
| src/services/position-service.ts:236 | unrealized profit = total value − (total cost − the sale proceeds of all trades); on any consistent collections this exceeds value less the open cost basis by the exact profit of every trade (Positions.AsWrittenAddsTradeGains), which the total then adds to the realized profit a second time | 100 shares bought at 10; 50 sold at 20 (profit 500); 50 remain, valued at 20: the portfolio total profit is 1500, while the position's own total profit is 1000 | unrealized profit = total value − cost basis of the unsold shares (total cost − buy cost of the shares sold), giving 1000 | not executed | Positions.AsWrittenPortfolioDoubleCounts | Positions.CostBasisSplits |

Both the source and the corrected summary charge an unpriced position its open cost, while only priced positions add value. A portfolio with unpriced positions therefore shows an unrealized loss of their open cost.

The status comments in src/types/position.ts:44-48 describe PARTIALLY_SOLD as "first third sold" and MOSTLY_SOLD as "first and second thirds sold". The code decides the status by a 66 % threshold instead (src/services/position-service.ts:262-270). The two agree when the share count divides by three (`StatusAlongThePlan`). With 101 shares, both target sales sell 66 shares, which is below 66 %, so the position stays PARTIALLY_SOLD (`TwoThirdsOf101IsPartiallySold`). The model follows the code.
