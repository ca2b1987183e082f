/**
 * The records the analytics and the pages share. Weights, targets and
 * deviations are percentages held as exact reals; asset class, sector and
 * region are free-form labels held as strings.
 */
module Portfolio {

  datatype Security = Security(
    id: nat,
    name: string,
    ticker: string,
    assetClass: string,
    currentWeight: real,
    targetWeight: real,
    deviation: real,
    sector: string,
    geographicExposure: string,
    marketValue: real,
    quantity: real,
    purchasePrice: real,
    currentPrice: real,
    notes: string,
    ipsCompliant: bool)

  function CurrentWeight(s: Security): real
  {
    s.currentWeight
  }

  /** A strategic asset-class row: target, actual and the derived deviation and flag. */
  datatype Allocation = Allocation(
    assetClass: string,
    target: real,
    current: real,
    deviation: real,
    rebalancingRequired: bool,
    notes: string)

  datatype MetricStatus = Compliant | Warning | Breach

  /**
   * The `currentValue` column of a risk metric. The generator writes numbers
   * that the page shows as percentages or years (and a drawdown that divided
   * by a zero peak, which shows as an infinite percentage); a user edit
   * writes text.
   */
  datatype Reading = Percent(value: real) | Years(value: real) | InfinitePercent | Text(text: string)

  datatype RiskMetric = RiskMetric(
    metric: string,
    ipsLimit: string,
    currentValue: Reading,
    status: MetricStatus,
    actionRequired: string)
}
