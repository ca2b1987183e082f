/**
 * The Tactical Adjustment Log page: the log of short-term deviations from
 * the strategic allocation, its edit, add and delete handlers, the
 * total and largest deviation tiles and the ±5% limit panels.
 */
module TacticalLogPage {
  import opened Seqs
  import LoadPortfolio

  datatype TacticalAdjustment = TacticalAdjustment(
    id: nat,
    date: string,
    tacticalMove: string,
    deviationPercent: real,
    marketSignal: string,
    duration: string,
    approvedBy: string,
    notes: string)

  /** Every column of a record is editable except its id. */
  datatype TacticEdit =
    | SetDate(date: string)
    | SetTacticalMove(tacticalMove: string)
    | SetDeviationPercent(deviationPercent: real)
    | SetMarketSignal(marketSignal: string)
    | SetDuration(duration: string)
    | SetApprovedBy(approvedBy: string)
    | SetNotes(notes: string)

  /** `{ ...tactic, [key]: value }`: the one field the edit names changes. */
  function EditTactic(t: TacticalAdjustment, edit: TacticEdit): (r: TacticalAdjustment)
    ensures r.id == t.id
    ensures edit.SetDeviationPercent? ==> r == t.(deviationPercent := edit.deviationPercent)
    ensures !edit.SetDeviationPercent? ==> r.deviationPercent == t.deviationPercent
    ensures edit.SetDate? ==> r == t.(date := edit.date)
    ensures edit.SetTacticalMove? ==> r == t.(tacticalMove := edit.tacticalMove)
    ensures edit.SetMarketSignal? ==> r == t.(marketSignal := edit.marketSignal)
    ensures edit.SetDuration? ==> r == t.(duration := edit.duration)
    ensures edit.SetApprovedBy? ==> r == t.(approvedBy := edit.approvedBy)
    ensures edit.SetNotes? ==> r == t.(notes := edit.notes)
  {
    match edit
    case SetDate(date) => t.(date := date)
    case SetTacticalMove(tacticalMove) => t.(tacticalMove := tacticalMove)
    case SetDeviationPercent(deviationPercent) => t.(deviationPercent := deviationPercent)
    case SetMarketSignal(marketSignal) => t.(marketSignal := marketSignal)
    case SetDuration(duration) => t.(duration := duration)
    case SetApprovedBy(approvedBy) => t.(approvedBy := approvedBy)
    case SetNotes(notes) => t.(notes := notes)
  }

  /** The `prev.map` of `handleTacticChange`: every record with the id is edited. */
  function ChangeTactics(tactics: seq<TacticalAdjustment>, id: nat, edit: TacticEdit): (r: seq<TacticalAdjustment>)
    ensures |r| == |tactics|
    ensures forall i :: 0 <= i < |r| ==> r[i].id == tactics[i].id
    ensures forall i :: 0 <= i < |r| && tactics[i].id != id ==> r[i] == tactics[i]
    ensures forall i :: 0 <= i < |r| && tactics[i].id == id ==> r[i] == EditTactic(tactics[i], edit)
  {
    seq(|tactics|, i requires 0 <= i < |tactics| => if tactics[i].id == id then EditTactic(tactics[i], edit) else tactics[i])
  }

  function TacticId(t: TacticalAdjustment): nat
  {
    t.id
  }

  /**
   * `[...tactics, newTactic]` with `newId = Math.max(...ids, 0) + 1`, dated
   * `today` (the ISO date part of the clock, which is a parameter here).
   */
  function AddTactic(tactics: seq<TacticalAdjustment>, today: string): (r: seq<TacticalAdjustment>)
    ensures |r| == |tactics| + 1 && r[..|tactics|] == tactics
    ensures forall i :: 0 <= i < |tactics| ==> tactics[i].id != r[|tactics|].id
    ensures r[|tactics|].id >= 1 && r[|tactics|].id == MaxKey(tactics, TacticId) + 1
    ensures r[|tactics|] == TacticalAdjustment(r[|tactics|].id, today, "", 0.0, "", "", "", "")
  {
    tactics + [TacticalAdjustment(NextKey(tactics, TacticId), today, "", 0.0, "", "", "", "")]
  }

  predicate Keeps(id: nat, t: TacticalAdjustment)
  {
    t.id != id
  }

  /** `prev.filter(t => t.id !== id)`. */
  function DeleteTactic(tactics: seq<TacticalAdjustment>, id: nat): (r: seq<TacticalAdjustment>)
    ensures forall i :: 0 <= i < |r| ==> r[i].id != id
    ensures forall t :: t in tactics && t.id != id ==> t in r
    ensures forall t :: t in r ==> t in tactics
  {
    var r := Filter(tactics, t => Keeps(id, t));
    assert forall i :: 0 <= i < |r| ==> r[i] in r;
    r
  }

  /** Deleting works on each part of a log separately, so the kept records stay in order. */
  lemma DeleteTacticConcat(a: seq<TacticalAdjustment>, b: seq<TacticalAdjustment>, id: nat)
    ensures DeleteTactic(a + b, id) == DeleteTactic(a, id) + DeleteTactic(b, id)
  {
    FilterConcat(a, b, t => Keeps(id, t));
  }

  /** A single record is dropped exactly when it carries the id. */
  lemma DeleteTacticOne(t: TacticalAdjustment, id: nat)
    ensures DeleteTactic([t], id) == if t.id == id then [] else [t]
  {
    assert [t][..0] == [];
  }

  function Magnitude(t: TacticalAdjustment): real
  {
    LoadPortfolio.Abs(t.deviationPercent)
  }

  /** `tactics.reduce((sum, t) => sum + Math.abs(t.deviationPercent), 0)`. */
  function TotalDeviations(tactics: seq<TacticalAdjustment>): (total: real)
    ensures total >= 0.0
  {
    SumOfPrefixBound(tactics, 0, Magnitude);
    SumOf(tactics, Magnitude)
  }

  function Magnitudes(tactics: seq<TacticalAdjustment>): (ms: seq<real>)
    ensures |ms| == |tactics|
    ensures forall i :: 0 <= i < |ms| ==> ms[i] == Magnitude(tactics[i])
  {
    seq(|tactics|, i requires 0 <= i < |tactics| => Magnitude(tactics[i]))
  }

  /** The "Max Deviation" tile: the largest magnitude, 0 for an empty log. */
  function MaxDeviation(tactics: seq<TacticalAdjustment>): (m: real)
    ensures tactics == [] ==> m == 0.0
    ensures forall i :: 0 <= i < |tactics| ==> Magnitude(tactics[i]) <= m
    ensures tactics != [] ==> exists i :: 0 <= i < |tactics| && Magnitude(tactics[i]) == m
  {
    if |tactics| > 0 then MaxOf(Magnitudes(tactics)) else 0.0
  }

  /** No single deviation exceeds the total of all of them. */
  lemma MaxDeviationBelowTotal(tactics: seq<TacticalAdjustment>)
    ensures MaxDeviation(tactics) <= TotalDeviations(tactics)
  {
    if tactics != [] {
      var i :| 0 <= i < |tactics| && Magnitude(tactics[i]) == MaxDeviation(tactics);
      TermBelowSum(tactics, i, Magnitude);
    }
  }

  /** A new record deviates by 0, so it leaves the total as it was. */
  lemma AddKeepsTotal(tactics: seq<TacticalAdjustment>, today: string)
    ensures TotalDeviations(AddTactic(tactics, today)) == TotalDeviations(tactics)
  {
    SumOfSnoc(tactics, AddTactic(tactics, today)[|tactics|], Magnitude);
    assert AddTactic(tactics, today) == tactics + [AddTactic(tactics, today)[|tactics|]];
  }

  /** Deleting records can only lower the total. */
  lemma DeleteLowersTotal(tactics: seq<TacticalAdjustment>, id: nat)
    ensures TotalDeviations(DeleteTactic(tactics, id)) <= TotalDeviations(tactics)
  {
    SumOfFilterBound(tactics, t => Keeps(id, t), Magnitude);
  }

  /** The limit tile reads "Within Limit" up to and including 5%. */
  predicate WithinLimit(tactics: seq<TacticalAdjustment>)
  {
    TotalDeviations(tactics) <= 5.0
  }

  /** The warning panel shows strictly above 5%. */
  predicate LimitWarningShown(tactics: seq<TacticalAdjustment>)
  {
    TotalDeviations(tactics) > 5.0
  }

  /** Exactly one of the tile's verdict and the warning panel applies. */
  lemma LimitTileAndPanelAgree(tactics: seq<TacticalAdjustment>)
    ensures WithinLimit(tactics) <==> !LimitWarningShown(tactics)
  {
  }

  /** The log the page holds. */
  class Page {
    var tactics: seq<TacticalAdjustment>

    /** The page opens with the January 2026 fixed-income move. */
    constructor ()
      ensures tactics == [InitialTactic()]
    {
      tactics := [InitialTactic()];
    }

    method HandleTacticChange(id: nat, edit: TacticEdit)
      modifies this
      ensures tactics == ChangeTactics(old(tactics), id, edit)
    {
      tactics := ChangeTactics(tactics, id, edit);
    }

    method HandleAddTactic(today: string)
      modifies this
      ensures tactics == AddTactic(old(tactics), today)
    {
      tactics := AddTactic(tactics, today);
    }

    method HandleDeleteTactic(id: nat)
      modifies this
      ensures tactics == DeleteTactic(old(tactics), id)
    {
      tactics := DeleteTactic(tactics, id);
    }
  }

  function InitialTactic(): TacticalAdjustment
  {
    TacticalAdjustment(1, "2026-01-15", "Increased Fixed Income by 3%", 3.0,
      "Rising interest rates expected, locking in bond yields", "2 weeks", "IC",
      "Opportunistic position based on economic forecasts")
  }
}
