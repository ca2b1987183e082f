# Vertex Capital portfolio monitor — analytics and compliance core in Dafny

The portfolio monitor tracks a fixed-income-heavy investment portfolio
against its Investment Policy Statement (IPS). It has five editable pages:
1. allocation snapshot;
2. security exposure;
3. risk metrics;
4. liquidity and cash;
5. tactical adjustment log.

Two utility modules sit behind the pages:
- `calculateMetrics.ts`, the analytics;
- `loadPortfolio.ts`, the IPS compliance rules.

This project models that engine and the pages' state-changing handlers.

Module layout:

| file | module | what it holds |
|---|---|---|
| `portfolio.dfy` | `Portfolio` | the records: holdings, allocation rows, risk-table rows |
| `seqs.dfy` | `Seqs` | sums, filters, counts, maxima, the descending sort |
| `rollup.dfy` | `Rollup` | grouping holdings by asset class, sector or region, in the order keys are first met |
| `load_portfolio.dfy` | `LoadPortfolio` | deviations, the rebalancing band, allocation compliance, the security compliance report, total weight and weighted average |
| `calculate_metrics.dfy` | `CalculateMetrics` | the analytics listed below |
| `page1.dfy`–`page5.dfy` | one per page | that page's edits, tiles and state class |

`CalculateMetrics` covers:
- volatility, Sharpe and Sortino ratios;
- maximum drawdown and weighted duration;
- concentration and beta;
- risk assessment and the three exposure tables;
- the seven-row IPS risk table.

Each page module holds:
- the edit of one record as a function;
- the list update as a function;
- the page's state as a class whose handlers reassign its fields.

Where a page keeps a derived value beside its list, the class has a `Valid()` invariant. There are two such values:
- the compliance verdict on page 1;
- the compliance report on page 2.

Numbers are `real`. The square roots in volatility and downside deviation are not computed. The caller supplies them, and `IsSquareRoot` relates them to the variance they come from.

Where the documented behaviour and the code disagree, the model follows the code:
- Portfolio beta is an unnormalised sum of weight fraction times beta. It is not divided by the total weight.
- Duration is looked up by ticker in a fixed table, with 1.5 years as the default.
- The downside variance divides by the full number of returns, not by the number of returns below the risk-free rate.
- A drawdown from a running peak of 0 is `Unbounded`. It is not an error.

## Model

| member | source | states |
|---|---|---|
| LoadPortfolio.CalculateDeviation | src/utils/loadPortfolio.ts:46-48 | the deviation is what must be added to the target to reach the current weight |
| LoadPortfolio.CalculatePercentageDeviation | src/utils/loadPortfolio.ts:53-56 | 0 for a zero target; otherwise the result times the target is 100 times the deviation |
| LoadPortfolio.NeedsRebalancing | src/utils/loadPortfolio.ts:61-63 | rebalancing is needed exactly when the deviation is outside the closed band of ±3 points |
| LoadPortfolio.CheckAllocationCompliance | src/utils/loadPortfolio.ts:68-70 | compliant exactly when no row is flagged for rebalancing |
| LoadPortfolio.TotalWeightConcat | src/utils/loadPortfolio.ts:124-126 | the total weight of two lists joined is the sum of their totals |
| LoadPortfolio.CalculateWeightedAverage | src/utils/loadPortfolio.ts:131-139 | 0 when the weights sum to 0; otherwise the average times the total weight is the weighted sum |
| LoadPortfolio.WeightedSumOfConstant | src/utils/loadPortfolio.ts:131-139 | if every value is v, the weighted sum is v times the total weight |
| LoadPortfolio.WeightedAverageOfConstant | src/utils/loadPortfolio.ts:131-139 | the weighted average of values that are all v is v (for a nonzero total weight) |
| LoadPortfolio.OversizedSecurities | src/utils/loadPortfolio.ts:82-87 | lists an offender for each holding above 10%, and only for such holdings, with its ticker and weight; OversizedSecuritiesConcat and OversizedSecuritiesOne fix the holding order and the repeats |
| LoadPortfolio.OversizedSecuritiesConcat | src/utils/loadPortfolio.ts:82-87 | the offenders of two lists in turn are those of the first followed by those of the second, so offenders keep holding order and each lot is listed once |
| LoadPortfolio.OversizedSecuritiesOne | src/utils/loadPortfolio.ts:82-87 | a single holding is listed, with its ticker and weight, exactly when it is above 10% |
| LoadPortfolio.OversizedGroups | src/utils/loadPortfolio.ts:90-113 | lists exactly the keys whose total is above the limit, each with its total, in key order |
| LoadPortfolio.OversizedGroupsConcat | src/utils/loadPortfolio.ts:90-113 | the offenders of two key lists in turn are those of the first list followed by those of the second, so offenders keep the key order |
| LoadPortfolio.OversizedGroupsOne | src/utils/loadPortfolio.ts:90-113 | a single key offends, with its total, exactly when its total is above the limit |
| LoadPortfolio.CheckSecurityCompliance | src/utils/loadPortfolio.ts:75-119 | the report is the compliance specification of the list, and it is compliant exactly when there is no breach |
| LoadPortfolio.FiresIffListed | src/utils/loadPortfolio.ts:115-118 | a rule fires exactly when it has at least one listed offender |
| LoadPortfolio.MessagesOrdered | src/utils/loadPortfolio.ts:82-113 | single-security breaches come before sector breaches, and sector before regional |
| LoadPortfolio.SecurityMessageListed | src/utils/loadPortfolio.ts:82-87 | the single-security offenders read back from the report are exactly those found |
| LoadPortfolio.SectorMessageListed | src/utils/loadPortfolio.ts:90-100 | the sector offenders read back from the report are exactly those found |
| LoadPortfolio.RegionalMessageListed | src/utils/loadPortfolio.ts:103-113 | the regional offenders read back from the report are exactly those found |
| LoadPortfolio.ComplianceOfNothing | src/utils/loadPortfolio.ts:75-119 | an empty list is compliant with no breaches |
| LoadPortfolio.OversizedGroupsEmpty | src/utils/loadPortfolio.ts:90-113 | no group offends exactly when every key's total is within the limit |
| LoadPortfolio.RuleListed | src/utils/loadPortfolio.ts:75-119 | a rule fires in the report exactly when its offender list is non-empty, and the report lists those offenders |
| LoadPortfolio.SingleSecurityRuleFires | src/utils/loadPortfolio.ts:82-87 | the single-security rule fires exactly when some holding is above 10%, and each such holding is listed |
| LoadPortfolio.GroupRuleFires | src/utils/loadPortfolio.ts:90-113 | the sector or regional rule fires exactly when some group's summed weight is above its limit, and each such group is listed |
| LoadPortfolio.SingleSecurityBreachImpliesRegionalBreach | src/utils/loadPortfolio.ts:82-113 | a holding above 10% puts its region above the 10% regional limit |
| LoadPortfolio.OversizedGroupsAgree | src/utils/loadPortfolio.ts:90-113 | two weight maps that agree on the keys give the same offenders |
| LoadPortfolio.OversizedGroupsSnoc | src/utils/loadPortfolio.ts:90-113 | one more key within the limit adds no offender |
| LoadPortfolio.ZeroWeightLabelsUnchanged | src/utils/loadPortfolio.ts:90-113 | adding a holding that weighs nothing changes no group's offenders |
| LoadPortfolio.ZeroWeightHoldingChangesNothing | src/utils/loadPortfolio.ts:75-119 | adding a holding that weighs nothing leaves the whole compliance report as it was |
| Rollup.Bump | src/utils/calculateMetrics.ts:187-189 | adding a weight to a key raises that key by the weight, starting at 0 when absent, and leaves other keys alone |
| Rollup.LabelOrderMeaning | src/utils/calculateMetrics.ts:182-192 | the key order has no repeats and holds exactly the labels that occur |
| Rollup.ExposuresMeaning | src/utils/calculateMetrics.ts:182-192 | the exposure map has exactly the occurring labels as keys, each mapped to the summed weight of its holdings |
| Rollup.Accumulate | src/utils/calculateMetrics.ts:182-192 | the accumulation loop produces the exposure map and the key order |
| Rollup.ExposuresAddUp | src/utils/calculateMetrics.ts:182-192 | the group totals add up to the portfolio's total weight |
| Rollup.LabelWeightCoversMember | src/utils/calculateMetrics.ts:182-192 | a group's total is at least the weight of each of its members (for non-negative weights) |
| Rollup.LabelWeightNonNegative | src/utils/calculateMetrics.ts:182-192 | a group's total is non-negative when all weights are |
| CalculateMetrics.Mean | src/utils/calculateMetrics.ts:10 | the mean times the count is the sum of the returns |
| CalculateMetrics.PortfolioVariance | src/utils/calculateMetrics.ts:6-17 | the variance (divided by the number of returns) is non-negative, and 0 for fewer than two returns |
| CalculateMetrics.SquaredDeviationsZero | src/utils/calculateMetrics.ts:13 | the squared deviations sum to 0 exactly when every return equals the mean |
| CalculateMetrics.VarianceZeroIffConstant | src/utils/calculateMetrics.ts:6-17 | the variance is 0 exactly when all returns are equal |
| CalculateMetrics.RootZero | src/utils/calculateMetrics.ts:16 | a square root is 0 exactly when its square is 0, so the volatility is 0 exactly when the variance is |
| CalculateMetrics.SharpeRatio | src/utils/calculateMetrics.ts:23-35 | 0 for fewer than two returns; for a nonzero volatility, the ratio times the volatility is the mean excess return |
| CalculateMetrics.SharpeSign | src/utils/calculateMetrics.ts:23-35 | constant returns give a ratio of 0; otherwise the ratio has the sign of the mean excess return |
| CalculateMetrics.DownsideVariance | src/utils/calculateMetrics.ts:50-52 | non-negative; times the number of returns it is the sum of squared shortfalls |
| CalculateMetrics.DownsideSquaresZero | src/utils/calculateMetrics.ts:50-52 | the shortfalls are 0 exactly when no return is below the risk-free rate |
| CalculateMetrics.SortinoRatio | src/utils/calculateMetrics.ts:41-59 | 0 for fewer than two returns; otherwise the ratio times the downside deviation is the mean excess return |
| CalculateMetrics.SortinoDownside | src/utils/calculateMetrics.ts:41-59 | with no return below the risk-free rate the ratio is 0; with one (and two or more returns) the downside deviation is positive and the ratio times it is the mean excess return |
| CalculateMetrics.PeakIsLargest | src/utils/calculateMetrics.ts:67-73 | the running peak (which starts at the first return) is the largest return so far, and one of them |
| CalculateMetrics.CalculateDrawdown | src/utils/calculateMetrics.ts:64-81 | the loop computes the maximum drawdown of the series |
| CalculateMetrics.UnboundedIff | src/utils/calculateMetrics.ts:70-78 | the drawdown is unbounded exactly when a negative return follows a running peak of 0 |
| CalculateMetrics.StepKeepsDeepest | src/utils/calculateMetrics.ts:74-77 | a step keeps the deepest drawdown seen so far and takes the new one when it is deeper |
| CalculateMetrics.FiniteDrawdownIsDeepest | src/utils/calculateMetrics.ts:64-81 | a finite result is non-negative and at least every drawdown from a nonzero peak, and one of them or 0 |
| CalculateMetrics.PositiveStartIsFinite | src/utils/calculateMetrics.ts:64-81 | a series that starts positive has a finite drawdown |
| CalculateMetrics.NonDecreasingHasNoDrawdown | src/utils/calculateMetrics.ts:64-81 | a series that never falls has a drawdown of 0, whatever the sign of its returns (and the empty series too) |
| CalculateMetrics.NoReturnsNoDrawdown | src/utils/calculateMetrics.ts:65 | no returns give a drawdown of 0 |
| CalculateMetrics.NonDecreasingPeak | src/utils/calculateMetrics.ts:70-73 | in a series that never falls, the running peak is the current return |
| CalculateMetrics.NonDecreasingRunningDrawdown | src/utils/calculateMetrics.ts:70-78 | in a series that never falls, no turn of the loop raises the drawdown above 0 |
| CalculateMetrics.DurationOf | src/utils/calculateMetrics.ts:92-104 | the table's duration for a known ticker and 1.5 years otherwise, always between 0.25 and 3 years |
| CalculateMetrics.CalculateWeightedDuration | src/utils/calculateMetrics.ts:86-110 | the loop computes the weighted duration of the fixed-income holdings |
| CalculateMetrics.DurationIgnoresOtherHoldings | src/utils/calculateMetrics.ts:87 | holdings outside fixed income do not change the duration |
| CalculateMetrics.DurationIgnoresInsertion | src/utils/calculateMetrics.ts:87 | inserting a holding outside fixed income anywhere does not change the duration |
| CalculateMetrics.DurationBounds | src/utils/calculateMetrics.ts:86-110 | 0 when there is no positive fixed-income weight; otherwise between 0.25 and 3 years |
| CalculateMetrics.SingleHoldingDuration | src/utils/calculateMetrics.ts:86-110 | a lone positively weighted bond has its own table duration |
| CalculateMetrics.SumOfFractions | src/utils/calculateMetrics.ts:124 | the weight fractions, times 100, add up to the total weight |
| CalculateMetrics.TopCount | src/utils/calculateMetrics.ts:134 | the top slice holds ten holdings, or all of them when there are fewer |
| CalculateMetrics.CalculateConcentration | src/utils/calculateMetrics.ts:115-141 | all zero for no holdings; otherwise the largest-single-security figure is at least every weight and is the weight of some holding |
| CalculateMetrics.SumOfSquaresOfFractions | src/utils/calculateMetrics.ts:124-138 | the squared fractions, scaled by 10000, are the squared weights |
| CalculateMetrics.HerfindahlIsSumOfSquaredWeights | src/utils/calculateMetrics.ts:124-138 | the Herfindahl index is the sum of squared percentage weights |
| CalculateMetrics.SoleHoldingHerfindahl | src/utils/calculateMetrics.ts:130-138 | one holding at 100% gives the maximal index of 10000 |
| CalculateMetrics.TopTenOfFewHoldings | src/utils/calculateMetrics.ts:133-134 | with at most ten holdings, the top-ten concentration is the total weight |
| CalculateMetrics.TopTenBounds | src/utils/calculateMetrics.ts:115-141 | the largest holding is at most the top-ten sum, which is at most the total weight (for non-negative weights) |
| CalculateMetrics.CalculatePortfolioBeta | src/utils/calculateMetrics.ts:146-161 | the loop computes the beta specification |
| CalculateMetrics.CalculatePortfioBeta | src/utils/calculateMetrics.ts:294-299 | the misspelt alias computes the same beta |
| CalculateMetrics.BetaSumWithoutBenchmarks | src/utils/calculateMetrics.ts:152-158 | with no benchmark betas every beta is 1, so the sum is the total weight fraction |
| CalculateMetrics.BetaWithoutBenchmarks | src/utils/calculateMetrics.ts:146-161 | an empty portfolio has beta 1; otherwise, without benchmarks, the beta times 100 is the total weight |
| CalculateMetrics.BetaSumConcat | src/utils/calculateMetrics.ts:152-158 | beta contributions of two lists add up |
| CalculateMetrics.GenerateRiskAssessment | src/utils/calculateMetrics.ts:166-177 | Low below a score of 0.05, Medium up to 0.08, High from 0.08; the three cases partition the scores |
| CalculateMetrics.RiskAssessmentMonotone | src/utils/calculateMetrics.ts:166-177 | raising any input never lowers the assessed level |
| CalculateMetrics.ExposuresBy | src/utils/calculateMetrics.ts:182-220 | the exposure table maps each occurring label to its summed weight, the entries add up to the total weight, and the key list is exactly the labels in the order they first occur |
| CalculateMetrics.CalculateAssetClassExposures | src/utils/calculateMetrics.ts:182-192 | exposures by asset class: each class's summed weight, with the classes in the order they first occur |
| CalculateMetrics.CalculateSectorExposures | src/utils/calculateMetrics.ts:197-205 | exposures by sector: each sector's summed weight, with the sectors in the order they first occur |
| CalculateMetrics.CalculateGeographicExposures | src/utils/calculateMetrics.ts:210-220 | exposures by region: each region's summed weight, with the regions in the order they first occur |
| CalculateMetrics.SingleSecurityRow | src/utils/calculateMetrics.ts:236-245 | Breach exactly when some holding is above 10%, never Warning, with an action exactly when not compliant; the reading is the largest single weight; the limit quoted is ≤10% |
| CalculateMetrics.SectorRowAsWritten | src/utils/calculateMetrics.ts:246-252 | as written: Breach exactly when some single holding is above 25%; the reading is the largest single weight; the limit quoted is ≤25% |
| CalculateMetrics.DurationRow | src/utils/calculateMetrics.ts:260-266 | Warning exactly when the weighted duration is above 2 years, never Breach; the reading is the weighted duration in years; the limit quoted is ≤2 yrs |
| CalculateMetrics.VolatilityRow | src/utils/calculateMetrics.ts:267-273 | Compliant exactly inside 5–7%, never Breach, with an action exactly above 7%; the reading is the volatility as a percentage; the limit quoted is 5-7% ann. |
| CalculateMetrics.DrawdownRow | src/utils/calculateMetrics.ts:274-280 | Breach exactly when the drawdown is over 5% or unbounded, never Warning; the reading is the drawdown, infinite when unbounded; the limit quoted is ≤5% |
| CalculateMetrics.FixedRow | src/utils/calculateMetrics.ts:253-259 | the regional and credit rows are always Compliant with no action, quoting their row's limit and a fixed text as the reading |
| CalculateMetrics.AllRiskMetrics | src/utils/calculateMetrics.ts:225-289 | given the volatility of the returns: the seven named rows in their fixed order, with the IPS limit each row quotes, the readings of the concentration, duration, volatility and drawdown rows, the placeholder readings "Check regional exposures" and "Check credit ratings" and each status tied to its rule; the sector row as written breaches exactly when some single holding is above 25% |
| CalculateMetrics.AllRiskMetricsCorrected | src/utils/calculateMetrics.ts:246-252 | corrected table: the sector row breaches exactly when some sector's summed weight is above 25%, and every other row is as in the table as written |
| CalculateMetrics.SectorTotals | src/utils/calculateMetrics.ts:197-205 | one total per sector, in key order, each the sector's summed weight |
| CalculateMetrics.LargestSectorExposure | src/utils/calculateMetrics.ts:197-205 | 0 for an empty list |
| CalculateMetrics.LargestSectorExposureMeaning | src/utils/calculateMetrics.ts:197-205 | the largest sector total is at least every sector's total, and is one of them |
| CalculateMetrics.SectorExposureRow | src/utils/calculateMetrics.ts:246-252 | corrected: Breach exactly when some sector's summed weight is above 25% |
| CalculateMetrics.SectorExposureRowMatchesCompliance | src/utils/loadPortfolio.ts:90-100 | the corrected row breaches exactly when the compliance report's sector rule fires |
| CalculateMetrics.SectorRowMissesSectorBreach | src/utils/calculateMetrics.ts:246-252 | two 15% banking holdings break the 25% sector limit, but the row as written reads Compliant |
| AllocationSnapshotPage.EditAllocation | src/pages/Page1AllocationSnapshot.tsx:53-63 | setting `current` recomputes the deviation and the ±3 flag, so the row is reconciled; a notes edit changes only the notes |
| AllocationSnapshotPage.ChangeAllocations | src/pages/Page1AllocationSnapshot.tsx:50-67 | rows of the named class are edited and all others kept; a reconciled table stays reconciled |
| AllocationSnapshotPage.RebalancingCountZeroIffCompliant | src/pages/Page1AllocationSnapshot.tsx:114 | the rebalancing tile reads 0 exactly when the banner reads compliant |
| AllocationSnapshotPage.NotesEditKeepsTiles | src/pages/Page1AllocationSnapshot.tsx:105-115 | a notes edit moves neither the total nor the rebalancing count |
| AllocationSnapshotPage.CurrentEditMovesTotal | src/pages/Page1AllocationSnapshot.tsx:108 | when the class is unique, the total moves by exactly the change in `current` |
| AllocationSnapshotPage.Page.constructor | src/pages/Page1AllocationSnapshot.tsx:8-43 | four rows on target, reconciled, with the banner compliant |
| AllocationSnapshotPage.Page.HandleAllocationChange | src/pages/Page1AllocationSnapshot.tsx:45-67 | the rows are edited and the stored verdict is the compliance of the new rows, so the invariant holds |
| SecurityExposurePage.EditSecurity | src/pages/Page2SecurityExposure.tsx:33-40 | each edit sets exactly the named field and keeps the id; a weight edit also recomputes the deviation, and other edits leave the weights and deviation alone |
| SecurityExposurePage.ChangeSecurities | src/pages/Page2SecurityExposure.tsx:30-42 | holdings with the id are edited and all others kept |
| SecurityExposurePage.AddSecurity | src/pages/Page2SecurityExposure.tsx:49-69 | appends one blank Domestic Equities / Banking / Tanzania holding with zero weights, whose id is the largest id (0 if none) plus 1, so it is at least 1 and differs from every existing id |
| SecurityExposurePage.DeleteSecurity | src/pages/Page2SecurityExposure.tsx:71-73 | no holding with the id remains, every other holding remains, and nothing new appears |
| SecurityExposurePage.DeleteSecurityConcat | src/pages/Page2SecurityExposure.tsx:71-73 | deleting from two lists joined deletes from each in turn, so the kept holdings stay in order |
| SecurityExposurePage.DeleteSecurityOne | src/pages/Page2SecurityExposure.tsx:71-73 | a single holding is dropped exactly when it has the id |
| SecurityExposurePage.DeleteAbsentId | src/pages/Page2SecurityExposure.tsx:71-73 | deleting an id nobody has changes nothing |
| SecurityExposurePage.DeleteTwice | src/pages/Page2SecurityExposure.tsx:71-73 | deleting is idempotent |
| SecurityExposurePage.DeleteUndoesAdd | src/pages/Page2SecurityExposure.tsx:49-73 | deleting the id just added gives back the original list |
| SecurityExposurePage.AveragePosition | src/pages/Page2SecurityExposure.tsx:155 | 0 for an empty list; otherwise the average times the count is the total weight |
| SecurityExposurePage.AddKeepsTotalWeight | src/pages/Page2SecurityExposure.tsx:125 | adding a holding leaves the total weight tile as it was |
| SecurityExposurePage.Page.constructor | src/pages/Page2SecurityExposure.tsx:8-28 | the opening holding with its compliance report |
| SecurityExposurePage.Page.HandleSecurityChange | src/pages/Page2SecurityExposure.tsx:30-47 | the list is edited and the report recomputed, so the report describes the list |
| SecurityExposurePage.Page.HandleAddSecurity | src/pages/Page2SecurityExposure.tsx:49-69 | the holding is appended, and the untouched report still describes the list |
| SecurityExposurePage.Page.HandleDeleteSecurity | src/pages/Page2SecurityExposure.tsx:71-73 | as written: the list shrinks and the report is not recomputed |
| SecurityExposurePage.Page.HandleDeleteSecurityRechecked | src/pages/Page2SecurityExposure.tsx:71-73 | corrected: the list shrinks and the report describes it |
| SecurityExposurePage.StaleReportAfterDelete | src/pages/Page2SecurityExposure.tsx:28-73 | deleting the opening holding leaves an empty list under a report that still shows a breach |
| SecurityExposurePage.ReportAfterRecheckedDelete | src/pages/Page2SecurityExposure.tsx:28-73 | with the corrected delete, the same steps leave a compliant report |
| RiskMetricsPage.EditMetric | src/pages/Page3RiskMetrics.tsx:59-68 | the named text column changes; the metric, limit and status stay |
| RiskMetricsPage.ChangeMetrics | src/pages/Page3RiskMetrics.tsx:59-68 | only the row at the index is edited, and no status changes |
| RiskMetricsPage.CountsAddUp | src/pages/Page3RiskMetrics.tsx:70-72 | the breach, warning and compliant counts add up to the number of rows |
| RiskMetricsPage.BannerIffNoBreach | src/pages/Page3RiskMetrics.tsx:120-122 | "All Compliant" shows exactly when no row is in breach |
| RiskMetricsPage.Alerts | src/pages/Page3RiskMetrics.tsx:132-134 | an alert panel lists exactly the rows with its status, and as many as the tile counts |
| RiskMetricsPage.AlertsConcat | src/pages/Page3RiskMetrics.tsx:132-134 | the alerts of two tables joined are those of each in turn, so the panels keep the table's order |
| RiskMetricsPage.AlertsOne | src/pages/Page3RiskMetrics.tsx:150-152 | a single row is listed exactly when it has the panel's status |
| RiskMetricsPage.BreachPanelIffNoBanner | src/pages/Page3RiskMetrics.tsx:120-134 | the breach panel shows exactly when the banner does not read "All Compliant" |
| RiskMetricsPage.EditKeepsCounts | src/pages/Page3RiskMetrics.tsx:59-72 | an edit changes no status count |
| RiskMetricsPage.Page.constructor | src/pages/Page3RiskMetrics.tsx:7-57 | the seven opening rows |
| RiskMetricsPage.Page.HandleMetricChange | src/pages/Page3RiskMetrics.tsx:59-68 | the table is replaced by its edit |
| LiquidityCashPage.CashRule | src/pages/Page4LiquidityCash.tsx:38-48 | Adequate within 10–15% inclusive, Critical below 10%, Warning above 15% |
| LiquidityCashPage.LiquidationRule | src/pages/Page4LiquidityCash.tsx:49-57 | Adequate up to 30 days inclusive, Warning beyond |
| LiquidityCashPage.EditLiquidity | src/pages/Page4LiquidityCash.tsx:30-65 | a `current` edit applies the item's own status rule; other items just take the value; an action edit changes only the text |
| LiquidityCashPage.ChangeLiquidity | src/pages/Page4LiquidityCash.tsx:30-65 | only the item at the index is edited |
| LiquidityCashPage.ItemsWithStatus | src/pages/Page4LiquidityCash.tsx:67-68 | the critical or warning list holds exactly the items with that status |
| LiquidityCashPage.ItemsWithStatusConcat | src/pages/Page4LiquidityCash.tsx:67-68 | the lists of two tables joined are those of each in turn, so they keep the table's order |
| LiquidityCashPage.ItemsWithStatusOne | src/pages/Page4LiquidityCash.tsx:67-68 | a single item is listed exactly when it has the list's status |
| LiquidityCashPage.CashEditPlacesItem | src/pages/Page4LiquidityCash.tsx:38-68 | a cash edit puts the item on the critical list exactly below 10%, and on the warning list exactly above 15% |
| LiquidityCashPage.ActionEditKeepsCounts | src/pages/Page4LiquidityCash.tsx:30-68 | an action text edit moves no item between lists |
| LiquidityCashPage.Page.constructor | src/pages/Page4LiquidityCash.tsx:7-28 | the three opening items |
| LiquidityCashPage.Page.HandleLiquidityChange | src/pages/Page4LiquidityCash.tsx:30-65 | the items are replaced by their edit |
| TacticalLogPage.EditTactic | src/pages/Page5TacticalLog.tsx:20-29 | each edit sets exactly the named column to the value and leaves every other column, including the id, as it was |
| TacticalLogPage.ChangeTactics | src/pages/Page5TacticalLog.tsx:20-29 | records with the id are edited and all others kept |
| TacticalLogPage.AddTactic | src/pages/Page5TacticalLog.tsx:31-44 | appends one record dated today, with zero deviation and blank text, whose id is the largest id (0 if none) plus 1, so it is fresh and at least 1 |
| TacticalLogPage.DeleteTactic | src/pages/Page5TacticalLog.tsx:46-48 | no record with the id remains, every other record remains, and nothing new appears |
| TacticalLogPage.DeleteTacticConcat | src/pages/Page5TacticalLog.tsx:46-48 | deleting from two logs joined deletes from each in turn, so the kept records stay in order |
| TacticalLogPage.DeleteTacticOne | src/pages/Page5TacticalLog.tsx:46-48 | a single record is dropped exactly when it has the id |
| TacticalLogPage.TotalDeviations | src/pages/Page5TacticalLog.tsx:71 | the total of absolute deviations is non-negative |
| TacticalLogPage.MaxDeviation | src/pages/Page5TacticalLog.tsx:95 | 0 for an empty log; otherwise the largest absolute deviation, which some record attains |
| TacticalLogPage.MaxDeviationBelowTotal | src/pages/Page5TacticalLog.tsx:71-95 | the max deviation tile never exceeds the total tile |
| TacticalLogPage.AddKeepsTotal | src/pages/Page5TacticalLog.tsx:31-44 | adding a record leaves the total as it was |
| TacticalLogPage.DeleteLowersTotal | src/pages/Page5TacticalLog.tsx:46-48 | deleting never raises the total |
| TacticalLogPage.LimitTileAndPanelAgree | src/pages/Page5TacticalLog.tsx:98-115 | "Within Limit" shows exactly when the warning panel does not |
| TacticalLogPage.Page.constructor | src/pages/Page5TacticalLog.tsx:7-18 | the opening record |
| TacticalLogPage.Page.HandleTacticChange | src/pages/Page5TacticalLog.tsx:20-29 | the log is replaced by its edit |
| TacticalLogPage.Page.HandleAddTactic | src/pages/Page5TacticalLog.tsx:31-44 | the log is extended by the new record |
| TacticalLogPage.Page.HandleDeleteTactic | src/pages/Page5TacticalLog.tsx:46-48 | the log loses the records with the id |

## Left out

- Loading and saving (`loadPortfolioData`, `savePortfolioData`, `localStorage`): I/O.
- SingleSecurityRow: its action text is "Reduce largest position to below 10%". The program appends " (currently X.XX%)", the largest weight formatted with `toFixed(2)`. The model leaves out that suffix because it does not format numbers as text.
- Formatting and colours (`formatCurrency`, `formatPercentage`, `getStatusColor`, `getStatusBgColor`, `toFixed`): presentation only. Readings and breach entries are modelled as values together with the ticker or key they name, not as message text.
- Square roots: volatility and downside deviation are passed in as parameters. `IsSquareRoot` states what they must be. `AllRiskMetrics` takes the volatility as a parameter too, and requires it to be the volatility of the returns (`IsVolatilityOf`).
- IEEE floating point, rounding, NaN and Infinity: numbers are exact reals. The one exception is the division by a zero peak in the drawdown, which is modelled as `Unbounded`.
- The order in which JavaScript enumerates integer-like object keys: the exposure tables keep keys in first-met order.
- Lookups that reach inherited object members: `durationMap[sec.ticker]` (src/utils/calculateMetrics.ts:104), `benchmarkBetas[sec.ticker]` (:155) and the `exposures[...] || 0` reads (:188, :201, :216) return a prototype member such as `constructor` for a label of that name, which makes the duration or beta NaN and turns the exposure into a string. Here maps hold only the keys put into them, so such labels behave like any other.
- Beta in the risk table: `calculateAllRiskMetrics` never uses beta, so the model does not either.
- `parseInt` on ids, and ids that are not numbers: ids are natural numbers.
- `new Date()` in the tactical log's add handler: the day is a parameter, `today`.
- React itself: `useState`, `useEffect`, `useMemo`, `alert` on save, the table widgets, the `Number()` conversion in edited cells, the save buttons, the navigation and the seed data in `initialPortfolio.ts`.
- LiquidityCashPage.EditLiquidity: the contract states the status each rule assigns, but not the action text that goes with it.
- CalculateMetrics.LargestSectorExposure: its own contract states only the empty case. That the result is the largest sector total is the separate lemma `LargestSectorExposureMeaning`.
- Page 2’s select options for asset class, sector and region are free-form strings here.

## Findings

| source | as written | input that shows it | evidently intended | confidence | as-written member | corrected member |
|---|---|---|---|---|---|---|
| src/utils/calculateMetrics.ts:246-252 | the "Single Sector Exposure" row compares the largest single holding with the 25% sector limit | two Banking holdings at 15% each: the sector is at 30%, yet the row reads Compliant | compare the largest summed sector weight, as the compliance check at src/utils/loadPortfolio.ts:90-100 does | not executed | CalculateMetrics.SectorRowMissesSectorBreach | CalculateMetrics.SectorExposureRowMatchesCompliance |
| src/pages/Page2SecurityExposure.tsx:71-73 | deleting a holding does not recompute the stored compliance report | delete the opening TGB-26 holding at 25%: the list is empty, but the report still shows the single-security breach | delete re-checks compliance, as the edit handler at src/pages/Page2SecurityExposure.tsx:44 does | not executed | SecurityExposurePage.StaleReportAfterDelete | SecurityExposurePage.Page.HandleDeleteSecurityRechecked |
