/**
 * The Security Exposure page: the list of holdings, its edit, add and
 * delete handlers, the compliance report the page keeps beside the list,
 * and the total and average-position tiles.
 */
module SecurityExposurePage {
  import opened Portfolio
  import opened Seqs
  import LoadPortfolio

  /** The editable columns; the three select columns are free-form labels here. */
  datatype SecurityEdit =
    | SetName(name: string)
    | SetTicker(ticker: string)
    | SetAssetClass(assetClass: string)
    | SetCurrentWeight(weight: real)
    | SetTargetWeight(weight: real)
    | SetSector(sector: string)
    | SetRegion(region: string)
    | SetNotes(notes: string)

  predicate ChangesWeight(edit: SecurityEdit)
  {
    edit.SetCurrentWeight? || edit.SetTargetWeight?
  }

  /** `{ ...sec, [key]: value }`, with the deviation recomputed after a weight edit. */
  function EditSecurity(s: Security, edit: SecurityEdit): (r: Security)
    ensures r.id == s.id
    ensures ChangesWeight(edit) ==> r.deviation == LoadPortfolio.CalculateDeviation(r.targetWeight, r.currentWeight)
    ensures !ChangesWeight(edit) ==> r.deviation == s.deviation
                                     && r.currentWeight == s.currentWeight && r.targetWeight == s.targetWeight
    ensures edit.SetName? ==> r == s.(name := edit.name)
    ensures edit.SetTicker? ==> r == s.(ticker := edit.ticker)
    ensures edit.SetAssetClass? ==> r == s.(assetClass := edit.assetClass)
    ensures edit.SetSector? ==> r == s.(sector := edit.sector)
    ensures edit.SetRegion? ==> r == s.(geographicExposure := edit.region)
    ensures edit.SetNotes? ==> r == s.(notes := edit.notes)
    ensures edit.SetCurrentWeight? ==> r == s.(currentWeight := edit.weight, deviation := edit.weight - s.targetWeight)
    ensures edit.SetTargetWeight? ==> r == s.(targetWeight := edit.weight, deviation := s.currentWeight - edit.weight)
  {
    match edit
    case SetName(name) => s.(name := name)
    case SetTicker(ticker) => s.(ticker := ticker)
    case SetAssetClass(assetClass) => s.(assetClass := assetClass)
    case SetCurrentWeight(weight) => s.(currentWeight := weight, deviation := weight - s.targetWeight)
    case SetTargetWeight(weight) => s.(targetWeight := weight, deviation := s.currentWeight - weight)
    case SetSector(sector) => s.(sector := sector)
    case SetRegion(region) => s.(geographicExposure := region)
    case SetNotes(notes) => s.(notes := notes)
  }

  /** The `prev.map` of `handleSecurityChange`: every security with the id is edited. */
  function ChangeSecurities(securities: seq<Security>, id: nat, edit: SecurityEdit): (r: seq<Security>)
    ensures |r| == |securities|
    ensures forall i :: 0 <= i < |r| ==> r[i].id == securities[i].id
    ensures forall i :: 0 <= i < |r| && securities[i].id != id ==> r[i] == securities[i]
    ensures forall i :: 0 <= i < |r| && securities[i].id == id ==> r[i] == EditSecurity(securities[i], edit)
  {
    seq(|securities|, i requires 0 <= i < |securities| =>
      if securities[i].id == id then EditSecurity(securities[i], edit) else securities[i])
  }

  function SecurityId(s: Security): nat
  {
    s.id
  }

  /** The row `handleAddSecurity` appends. */
  function BlankSecurity(id: nat): Security
  {
    Security(id, "", "", "Domestic Equities", 0.0, 0.0, 0.0, "Banking", "Tanzania", 0.0, 0.0, 0.0, 0.0, "", true)
  }

  /** `[...securities, newSecurity]` with `newId = Math.max(...ids, 0) + 1`. */
  function AddSecurity(securities: seq<Security>): (r: seq<Security>)
    ensures |r| == |securities| + 1 && r[..|securities|] == securities
    ensures forall i :: 0 <= i < |securities| ==> securities[i].id != r[|securities|].id
    ensures r[|securities|].id >= 1 && r[|securities|].id == MaxKey(securities, SecurityId) + 1
    ensures r[|securities|] == BlankSecurity(r[|securities|].id)
    ensures var added := r[|securities|];
            added.currentWeight == 0.0 && added.targetWeight == 0.0 && added.deviation == 0.0
  {
    securities + [BlankSecurity(NextKey(securities, SecurityId))]
  }

  predicate Keeps(id: nat, s: Security)
  {
    s.id != id
  }

  /** `prev.filter(sec => sec.id !== id)`. */
  function DeleteSecurity(securities: seq<Security>, id: nat): (r: seq<Security>)
    ensures forall i :: 0 <= i < |r| ==> r[i].id != id
    ensures forall s :: s in securities && s.id != id ==> s in r
    ensures forall s :: s in r ==> s in securities
  {
    var r := Filter(securities, s => Keeps(id, s));
    assert forall i :: 0 <= i < |r| ==> r[i] in r;
    r
  }

  /** Deleting works on each part of a list separately, so the kept holdings stay in order. */
  lemma DeleteSecurityConcat(a: seq<Security>, b: seq<Security>, id: nat)
    ensures DeleteSecurity(a + b, id) == DeleteSecurity(a, id) + DeleteSecurity(b, id)
  {
    FilterConcat(a, b, s => Keeps(id, s));
  }

  /** A single holding is dropped exactly when it carries the id. */
  lemma DeleteSecurityOne(s: Security, id: nat)
    ensures DeleteSecurity([s], id) == if s.id == id then [] else [s]
  {
    assert [s][..0] == [];
  }

  /** Deleting an id nobody has leaves the list as it was. */
  lemma DeleteAbsentId(securities: seq<Security>, id: nat)
    requires forall i :: 0 <= i < |securities| ==> securities[i].id != id
    ensures DeleteSecurity(securities, id) == securities
  {
    FilterAll(securities, s => Keeps(id, s));
  }

  /** Deleting the same id twice deletes no more than deleting it once. */
  lemma DeleteTwice(securities: seq<Security>, id: nat)
    ensures DeleteSecurity(DeleteSecurity(securities, id), id) == DeleteSecurity(securities, id)
  {
    FilterIdempotent(securities, s => Keeps(id, s));
  }

  /** A holding just added is removed again by deleting its id. */
  lemma DeleteUndoesAdd(securities: seq<Security>)
    ensures var r := AddSecurity(securities);
            DeleteSecurity(r, r[|securities|].id) == DeleteSecurity(securities, r[|securities|].id) == securities
  {
    var r := AddSecurity(securities);
    var id := r[|securities|].id;
    FilterConcat(securities, [r[|securities|]], s => Keeps(id, s));
    assert r == securities + [r[|securities|]];
    assert [r[|securities|]][..0] == [];
    DeleteAbsentId(securities, id);
  }

  /** The "Total Weight" tile. */
  function TotalWeight(securities: seq<Security>): real
  {
    LoadPortfolio.CalculateTotalWeight(securities)
  }

  /** The "Average Position" tile: the total over the count, 0 for an empty list. */
  function AveragePosition(securities: seq<Security>): (avg: real)
    ensures |securities| == 0 ==> avg == 0.0
    ensures |securities| > 0 ==> avg * (|securities| as real) == TotalWeight(securities)
  {
    if |securities| > 0 then TotalWeight(securities) / (|securities| as real) else 0.0
  }

  /** A new holding adds nothing to the total weight. */
  lemma AddKeepsTotalWeight(securities: seq<Security>)
    ensures TotalWeight(AddSecurity(securities)) == TotalWeight(securities)
  {
    SumOfSnoc(securities, BlankSecurity(NextKey(securities, SecurityId)), CurrentWeight);
  }

  /** The list and the report the page keeps beside it. */
  class Page {
    var securities: seq<Security>
    var complianceData: LoadPortfolio.ComplianceReport

    /** The report describes the list as it stands. */
    ghost predicate Valid()
      reads this
    {
      complianceData == LoadPortfolio.SecurityCompliance(securities)
    }

    /** The page opens with the 2026 government bond at 25% and its report. */
    constructor ()
      ensures Valid()
      ensures securities == [InitialHolding()]
    {
      var initial := [InitialHolding()];
      var report := LoadPortfolio.CheckSecurityCompliance(initial);
      securities := initial;
      complianceData := report;
    }

    /** `handleSecurityChange`: edits the list and re-checks it. */
    method HandleSecurityChange(id: nat, edit: SecurityEdit)
      modifies this
      ensures securities == ChangeSecurities(old(securities), id, edit)
      ensures Valid()
    {
      var updated := ChangeSecurities(securities, id, edit);
      complianceData := LoadPortfolio.CheckSecurityCompliance(updated);
      securities := updated;
    }

    /**
     * `handleAddSecurity`: appends a blank holding and leaves the report
     * alone, which stays accurate because the new holding weighs nothing.
     */
    method HandleAddSecurity()
      modifies this
      ensures securities == AddSecurity(old(securities))
      ensures complianceData == old(complianceData)
      ensures old(Valid()) ==> Valid()
    {
      LoadPortfolio.ZeroWeightHoldingChangesNothing(securities, BlankSecurity(NextKey(securities, SecurityId)));
      securities := AddSecurity(securities);
    }

    /** `handleDeleteSecurity` as written: the list shrinks and the report is left as it was. */
    method HandleDeleteSecurity(id: nat)
      modifies this
      ensures securities == DeleteSecurity(old(securities), id)
      ensures complianceData == old(complianceData)
    {
      securities := DeleteSecurity(securities, id);
    }

    /** `handleDeleteSecurity` re-checking the shortened list, as the edit handler does. */
    method HandleDeleteSecurityRechecked(id: nat)
      modifies this
      ensures securities == DeleteSecurity(old(securities), id)
      ensures Valid()
    {
      var remaining := DeleteSecurity(securities, id);
      complianceData := LoadPortfolio.CheckSecurityCompliance(remaining);
      securities := remaining;
    }
  }

  function InitialHolding(): Security
  {
    Security(1, "Tanzania Government Bond 2026", "TGB-26", "Fixed Income", 25.0, 25.0, 0.0, "Government",
      "Tanzania", 25000000.0, 250.0, 100000.0, 100000.0, "Government bond, investment grade", true)
  }

  /**
   * Deleting the page's only holding, which breaches the 10% single-security
   * limit, leaves an empty list under a report that still shows the breach.
   */
  method StaleReportAfterDelete() returns (page: Page)
    ensures page.securities == []
    ensures !page.complianceData.isCompliant
    ensures LoadPortfolio.SecurityCompliance(page.securities).isCompliant
  {
    page := new Page();
    assert LoadPortfolio.Offender("TGB-26", 25.0) in LoadPortfolio.OversizedSecurities(page.securities);
    page.HandleDeleteSecurity(1);
    LoadPortfolio.ComplianceOfNothing();
  }

  /** The corrected delete leaves the same page with an empty list and a clean report. */
  method ReportAfterRecheckedDelete() returns (page: Page)
    ensures page.securities == []
    ensures page.complianceData.isCompliant
  {
    page := new Page();
    page.HandleDeleteSecurityRechecked(1);
    LoadPortfolio.ComplianceOfNothing();
  }
}
