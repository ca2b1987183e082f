/**
 * The Risk Metrics page: the IPS risk table, its edit handler, the three
 * status counts, the "All Compliant" banner and the breach and warning
 * alert lists.
 */
module RiskMetricsPage {
  import opened Portfolio
  import opened Seqs

  /** The editable columns: the reading and the action, both text. */
  datatype MetricEdit = SetCurrentValue(text: string) | SetActionRequired(text: string)

  /** `{ ...metric, [key]: value }`. */
  function EditMetric(m: RiskMetric, edit: MetricEdit): (r: RiskMetric)
    ensures r.metric == m.metric && r.ipsLimit == m.ipsLimit && r.status == m.status
    ensures edit.SetCurrentValue? ==> r.currentValue == Text(edit.text) && r.actionRequired == m.actionRequired
    ensures edit.SetActionRequired? ==> r.actionRequired == edit.text && r.currentValue == m.currentValue
  {
    match edit
    case SetCurrentValue(text) => m.(currentValue := Text(text))
    case SetActionRequired(text) => m.(actionRequired := text)
  }

  /** The `prev.map` of `handleMetricChange`: only the row at `index` is edited. */
  function ChangeMetrics(metrics: seq<RiskMetric>, index: nat, edit: MetricEdit): (r: seq<RiskMetric>)
    ensures |r| == |metrics|
    ensures forall i :: 0 <= i < |r| && i != index ==> r[i] == metrics[i]
    ensures index < |metrics| ==> r[index] == EditMetric(metrics[index], edit)
    ensures forall i :: 0 <= i < |r| ==> r[i].status == metrics[i].status
  {
    seq(|metrics|, i requires 0 <= i < |metrics| => if i == index then EditMetric(metrics[i], edit) else metrics[i])
  }

  predicate HasStatus(status: MetricStatus, m: RiskMetric)
  {
    m.status == status
  }

  /** `riskMetrics.filter(m => m.status === status).length`. */
  function StatusCount(metrics: seq<RiskMetric>, status: MetricStatus): nat
  {
    Count(metrics, m => HasStatus(status, m))
  }

  /** Every row is counted under exactly one of the three statuses. */
  lemma CountsAddUp(metrics: seq<RiskMetric>)
    ensures StatusCount(metrics, Breach) + StatusCount(metrics, Warning) + StatusCount(metrics, Compliant) == |metrics|
  {
    CountPartition(metrics, m => HasStatus(Breach, m), m => HasStatus(Warning, m), m => HasStatus(Compliant, m));
  }

  /** The banner reads "All Compliant" when there is no breach (warnings do not count against it). */
  predicate AllCompliantBanner(metrics: seq<RiskMetric>)
  {
    StatusCount(metrics, Breach) == 0
  }

  lemma BannerIffNoBreach(metrics: seq<RiskMetric>)
    ensures AllCompliantBanner(metrics) <==> forall i :: 0 <= i < |metrics| ==> metrics[i].status != Breach
  {
    CountZero(metrics, m => HasStatus(Breach, m));
  }

  /** The rows an alert panel lists: those with `status`, in table order. */
  function Alerts(metrics: seq<RiskMetric>, status: MetricStatus): (r: seq<RiskMetric>)
    ensures |r| == StatusCount(metrics, status)
    ensures forall i :: 0 <= i < |r| ==> r[i].status == status
    ensures forall i :: 0 <= i < |metrics| && metrics[i].status == status ==> metrics[i] in r
    ensures forall m :: m in r ==> m in metrics
  {
    var r := Filter(metrics, m => HasStatus(status, m));
    assert forall i :: 0 <= i < |r| ==> r[i] in r;
    r
  }

  /** An alert panel lists the rows of each part of the table in turn, so it keeps the table's order. */
  lemma AlertsConcat(a: seq<RiskMetric>, b: seq<RiskMetric>, status: MetricStatus)
    ensures Alerts(a + b, status) == Alerts(a, status) + Alerts(b, status)
  {
    FilterConcat(a, b, m => HasStatus(status, m));
  }

  /** A single row is listed exactly when it has the panel's status. */
  lemma AlertsOne(m: RiskMetric, status: MetricStatus)
    ensures Alerts([m], status) == if m.status == status then [m] else []
  {
    assert [m][..0] == [];
  }

  /** The breach panel shows exactly when the banner does not. */
  lemma BreachPanelIffNoBanner(metrics: seq<RiskMetric>)
    ensures |Alerts(metrics, Breach)| > 0 <==> !AllCompliantBanner(metrics)
  {
  }

  /** Status is not editable, so an edit moves no count and no alert out of its panel. */
  lemma EditKeepsCounts(metrics: seq<RiskMetric>, index: nat, edit: MetricEdit, status: MetricStatus)
    ensures StatusCount(ChangeMetrics(metrics, index, edit), status) == StatusCount(metrics, status)
  {
    CountPointwise(ChangeMetrics(metrics, index, edit), metrics, m => HasStatus(status, m));
  }

  /** The risk table the page holds. */
  class Page {
    var riskMetrics: seq<RiskMetric>

    /** The page opens with the seven IPS rows. */
    constructor ()
      ensures riskMetrics == InitialRiskMetrics()
    {
      riskMetrics := InitialRiskMetrics();
    }

    /** `handleMetricChange`. */
    method HandleMetricChange(index: nat, edit: MetricEdit)
      modifies this
      ensures riskMetrics == ChangeMetrics(old(riskMetrics), index, edit)
    {
      riskMetrics := ChangeMetrics(riskMetrics, index, edit);
    }
  }

  function InitialRiskMetrics(): seq<RiskMetric>
  {
    [
      RiskMetric("Single Security Exposure", "≤10%", Text("8.5%"), Compliant, "None - Monitor"),
      RiskMetric("Single Sector Exposure", "≤25%", Text("22.3%"), Compliant, "None - Within limit"),
      RiskMetric("Regional Allocation", "≤10%", Text("7.2%"), Compliant, "None - Within limit"),
      RiskMetric("Weighted Portfolio Duration", "≤2 yrs", Text("1.8 yrs"), Compliant, "None - Within limit"),
      RiskMetric("Portfolio Volatility", "5-7% ann.", Text("6.2% ann."), Compliant, "None - Within target range"),
      RiskMetric("Drawdown Limit", "≤5%", Text("3.1%"), Compliant, "None - Within limit"),
      RiskMetric("Credit Rating Compliance", "≥Investment Grade", Text("A-/BBB+ avg."), Compliant,
        "None - All holdings investment grade")
    ]
  }
}
