/**
 * The Portfolio Allocation Snapshot page: the strategic asset-class rows,
 * the edit handler that re-derives a row's deviation and rebalancing flag,
 * the compliance banner, and the total and rebalancing-count tiles.
 */
module AllocationSnapshotPage {
  import opened Portfolio
  import opened Seqs
  import LoadPortfolio

  /** The two editable columns: `current` (a number) and `notes` (text). */
  datatype AllocationEdit = SetCurrent(current: real) | SetNotes(notes: string)

  /** A row whose derived columns agree with its inputs. */
  predicate Reconciled(a: Allocation)
  {
    a.deviation == LoadPortfolio.CalculateDeviation(a.target, a.current)
    && a.rebalancingRequired == LoadPortfolio.NeedsRebalancing(a.deviation)
  }

  predicate AllReconciled(allocations: seq<Allocation>)
  {
    forall i :: 0 <= i < |allocations| ==> Reconciled(allocations[i])
  }

  /**
   * `{ ...alloc, [key]: value }`, followed, for `current`, by the
   * recomputed deviation and flag.
   */
  function EditAllocation(a: Allocation, edit: AllocationEdit): (r: Allocation)
    ensures r.assetClass == a.assetClass && r.target == a.target
    ensures edit.SetCurrent? ==> && r.current == edit.current && r.notes == a.notes
                                 && Reconciled(r)
                                 && (r.rebalancingRequired <==> r.current < r.target - 3.0 || r.target + 3.0 < r.current)
    ensures edit.SetNotes? ==> r == a.(notes := edit.notes)
    ensures Reconciled(a) ==> Reconciled(r)
  {
    match edit
    case SetCurrent(current) =>
      var deviation := current - a.target;
      a.(current := current, deviation := deviation, rebalancingRequired := LoadPortfolio.NeedsRebalancing(deviation))
    case SetNotes(notes) => a.(notes := notes)
  }

  /** The `prev.map` of `handleAllocationChange`: every row of `assetClass` is edited. */
  function ChangeAllocations(allocations: seq<Allocation>, assetClass: string, edit: AllocationEdit): (r: seq<Allocation>)
    ensures |r| == |allocations|
    ensures forall i :: 0 <= i < |r| ==> r[i].assetClass == allocations[i].assetClass
    ensures forall i :: 0 <= i < |r| && allocations[i].assetClass != assetClass ==> r[i] == allocations[i]
    ensures forall i :: 0 <= i < |r| && allocations[i].assetClass == assetClass ==> r[i] == EditAllocation(allocations[i], edit)
    ensures AllReconciled(allocations) ==> AllReconciled(r)
  {
    seq(|allocations|, i requires 0 <= i < |allocations| =>
      if allocations[i].assetClass == assetClass then EditAllocation(allocations[i], edit) else allocations[i])
  }

  function Current(a: Allocation): real
  {
    a.current
  }

  function Flagged(a: Allocation): bool
  {
    a.rebalancingRequired
  }

  /** The "Total Allocation" tile: the summed `current`. */
  function TotalAllocation(allocations: seq<Allocation>): real
  {
    SumOf(allocations, Current)
  }

  /** The "Rebalancing Required" tile: how many rows are flagged. */
  function RebalancingCount(allocations: seq<Allocation>): nat
  {
    Count(allocations, Flagged)
  }

  /** The count tile reads 0 exactly when the banner reads Compliant. */
  lemma RebalancingCountZeroIffCompliant(allocations: seq<Allocation>)
    ensures RebalancingCount(allocations) == 0 <==> LoadPortfolio.CheckAllocationCompliance(allocations)
  {
    CountZero(allocations, Flagged);
  }

  /** Editing notes moves neither tile. */
  lemma NotesEditKeepsTiles(allocations: seq<Allocation>, assetClass: string, notes: string)
    ensures var r := ChangeAllocations(allocations, assetClass, SetNotes(notes));
            TotalAllocation(r) == TotalAllocation(allocations) && RebalancingCount(r) == RebalancingCount(allocations)
  {
    var r := ChangeAllocations(allocations, assetClass, SetNotes(notes));
    SumOfPointwise(r, allocations, Current);
    CountPointwise(r, allocations, Flagged);
  }

  /** When one row carries the asset class, setting its `current` moves the total by exactly the change. */
  lemma CurrentEditMovesTotal(allocations: seq<Allocation>, i: nat, current: real)
    requires i < |allocations|
    requires forall j :: 0 <= j < |allocations| && j != i ==> allocations[j].assetClass != allocations[i].assetClass
    ensures TotalAllocation(ChangeAllocations(allocations, allocations[i].assetClass, SetCurrent(current)))
         == TotalAllocation(allocations) - allocations[i].current + current
  {
    var r := ChangeAllocations(allocations, allocations[i].assetClass, SetCurrent(current));
    assert allocations == allocations[..i] + [allocations[i]] + allocations[i + 1..];
    assert r == r[..i] + [r[i]] + r[i + 1..];
    SumOfPointwise(r[..i], allocations[..i], Current);
    SumOfPointwise(r[i + 1..], allocations[i + 1..], Current);
    SumOfConcat(allocations[..i] + [allocations[i]], allocations[i + 1..], Current);
    SumOfConcat(r[..i] + [r[i]], r[i + 1..], Current);
    SumOfSnoc(allocations[..i], allocations[i], Current);
    SumOfSnoc(r[..i], r[i], Current);
  }

  /** The page's state: the rows and the last compliance verdict the effect wrote. */
  class Page {
    var allocations: seq<Allocation>
    var isCompliant: bool

    /** Every row is reconciled, and the banner agrees with the rows. */
    ghost predicate Valid()
      reads this
    {
      AllReconciled(allocations) && isCompliant == LoadPortfolio.CheckAllocationCompliance(allocations)
    }

    /** The four strategic rows, each on target. */
    constructor ()
      ensures Valid()
      ensures |allocations| == 4 && isCompliant
      ensures forall i :: 0 <= i < |allocations| ==> allocations[i].current == allocations[i].target
    {
      allocations := [
        Allocation("Fixed Income", 50.0, 50.0, 0.0, false, "Government Bonds and T-Bills"),
        Allocation("Domestic Equities", 35.0, 35.0, 0.0, false, "DSE listed companies"),
        Allocation("Regional (EAC/SADC) Equities", 5.0, 5.0, 0.0, false, "EAC and SADC equities"),
        Allocation("Cash & Cash Equivalents", 10.0, 10.0, 0.0, false, "Money market instruments")
      ];
      isCompliant := true;
    }

    /** `handleAllocationChange`, followed by the effect that re-checks compliance. */
    method HandleAllocationChange(assetClass: string, edit: AllocationEdit)
      requires Valid()
      modifies this
      ensures allocations == ChangeAllocations(old(allocations), assetClass, edit)
      ensures isCompliant == LoadPortfolio.CheckAllocationCompliance(allocations)
      ensures Valid()
    {
      allocations := ChangeAllocations(allocations, assetClass, edit);
      isCompliant := LoadPortfolio.CheckAllocationCompliance(allocations);
    }
  }
}
