/**
 * The Liquidity & Cash Management page: the liquidity items, the edit
 * handler that re-derives the status of the cash and liquidation items, and
 * the critical and warning lists.
 */
module LiquidityCashPage {
  import opened Seqs

  datatype Option<T> = None | Some(value: T)

  datatype LiquidityStatus = Adequate | Warning | Critical

  /** A liquidity row; only the cash row carries a minimum and a maximum. */
  datatype LiquidityItem = LiquidityItem(
    item: string,
    minimum: Option<real>,
    maximum: Option<real>,
    current: real,
    status: LiquidityStatus,
    actionNeeded: string)

  /** The editable columns: `current` (a number) and `actionNeeded` (text). */
  datatype LiquidityEdit = SetCurrent(value: real) | SetActionNeeded(text: string)

  const CashItem: string := "Cash & Cash Equivalents"
  const LiquidationItem: string := "Time to Liquidate 80% Portfolio"

  /** The cash band: 10% to 15% inclusive. */
  function CashRule(updated: LiquidityItem): (r: LiquidityItem)
    ensures r.item == updated.item && r.minimum == updated.minimum && r.maximum == updated.maximum
    ensures r.current == updated.current
    ensures r.status == Adequate <==> 10.0 <= updated.current <= 15.0
    ensures r.status == Critical <==> updated.current < 10.0
    ensures r.status == Warning <==> updated.current > 15.0
  {
    if updated.current >= 10.0 && updated.current <= 15.0 then
      updated.(status := Adequate, actionNeeded := "None - Within range")
    else if updated.current < 10.0 then
      updated.(status := Critical, actionNeeded := "Raise cash immediately - Below 10% minimum")
    else if updated.current > 15.0 then
      updated.(status := Warning, actionNeeded := "Excess cash - Consider deploying")
    else
      updated
  }

  /** Liquidating 80% of the portfolio within 30 days. */
  function LiquidationRule(updated: LiquidityItem): (r: LiquidityItem)
    ensures r.item == updated.item && r.minimum == updated.minimum && r.maximum == updated.maximum
    ensures r.current == updated.current
    ensures r.status == Adequate <==> updated.current <= 30.0
    ensures r.status == Warning <==> updated.current > 30.0
  {
    if updated.current <= 30.0 then
      updated.(status := Adequate, actionNeeded := "None - Within 30 days")
    else
      updated.(status := Warning, actionNeeded := "Liquidity concern - Portfolio too concentrated")
  }

  /**
   * `{ ...item, [key]: value }`, followed, for `current`, by the status
   * rule of the cash or liquidation item; no other item has a rule.
   */
  function EditLiquidity(item: LiquidityItem, edit: LiquidityEdit): (r: LiquidityItem)
    ensures r.item == item.item && r.minimum == item.minimum && r.maximum == item.maximum
    ensures edit.SetActionNeeded? ==> r == item.(actionNeeded := edit.text)
    ensures edit.SetCurrent? ==> r.current == edit.value
    ensures edit.SetCurrent? && item.item == CashItem ==>
              && (r.status == Adequate <==> 10.0 <= edit.value <= 15.0)
              && (r.status == Critical <==> edit.value < 10.0)
              && (r.status == Warning <==> edit.value > 15.0)
    ensures edit.SetCurrent? && item.item == LiquidationItem ==>
              && (r.status == Adequate <==> edit.value <= 30.0)
              && (r.status == Warning <==> edit.value > 30.0)
    ensures edit.SetCurrent? && item.item != CashItem && item.item != LiquidationItem ==>
              r == item.(current := edit.value)
  {
    match edit
    case SetActionNeeded(text) => item.(actionNeeded := text)
    case SetCurrent(value) =>
      var updated := item.(current := value);
      if item.item == CashItem then CashRule(updated)
      else if item.item == LiquidationItem then LiquidationRule(updated)
      else updated
  }

  /** The `prev.map` of `handleLiquidityChange`: only the item at `index` is edited. */
  function ChangeLiquidity(items: seq<LiquidityItem>, index: nat, edit: LiquidityEdit): (r: seq<LiquidityItem>)
    ensures |r| == |items|
    ensures forall i :: 0 <= i < |r| && i != index ==> r[i] == items[i]
    ensures index < |items| ==> r[index] == EditLiquidity(items[index], edit)
  {
    seq(|items|, i requires 0 <= i < |items| => if i == index then EditLiquidity(items[i], edit) else items[i])
  }

  predicate HasStatus(status: LiquidityStatus, i: LiquidityItem)
  {
    i.status == status
  }

  /** `liquidityItems.filter(i => i.status === status)`: the critical or warning list. */
  function ItemsWithStatus(items: seq<LiquidityItem>, status: LiquidityStatus): (r: seq<LiquidityItem>)
    ensures forall i :: 0 <= i < |r| ==> r[i].status == status
    ensures forall i :: 0 <= i < |items| && items[i].status == status ==> items[i] in r
    ensures forall x :: x in r ==> x in items
  {
    var r := Filter(items, i => HasStatus(status, i));
    assert forall i :: 0 <= i < |r| ==> r[i] in r;
    r
  }

  /** A status list takes the items of each part of the table in turn, so it keeps the table's order. */
  lemma ItemsWithStatusConcat(a: seq<LiquidityItem>, b: seq<LiquidityItem>, status: LiquidityStatus)
    ensures ItemsWithStatus(a + b, status) == ItemsWithStatus(a, status) + ItemsWithStatus(b, status)
  {
    FilterConcat(a, b, i => HasStatus(status, i));
  }

  /** A single item is listed exactly when it has the list's status. */
  lemma ItemsWithStatusOne(i: LiquidityItem, status: LiquidityStatus)
    ensures ItemsWithStatus([i], status) == if i.status == status then [i] else []
  {
    assert [i][..0] == [];
  }

  /**
   * Setting the cash item's `current` puts it on the critical list below
   * 10%, on the warning list above 15%, and on neither within the band.
   */
  lemma CashEditPlacesItem(items: seq<LiquidityItem>, index: nat, value: real)
    requires index < |items| && items[index].item == CashItem
    ensures var r := ChangeLiquidity(items, index, SetCurrent(value));
            && (r[index] in ItemsWithStatus(r, Critical) <==> value < 10.0)
            && (r[index] in ItemsWithStatus(r, Warning) <==> value > 15.0)
  {
  }

  /** Editing an action text moves no item between statuses. */
  lemma ActionEditKeepsCounts(items: seq<LiquidityItem>, index: nat, text: string, status: LiquidityStatus)
    ensures var r := ChangeLiquidity(items, index, SetActionNeeded(text));
            |ItemsWithStatus(r, status)| == |ItemsWithStatus(items, status)|
  {
    var r := ChangeLiquidity(items, index, SetActionNeeded(text));
    CountPointwise(r, items, i => HasStatus(status, i));
  }

  /** The liquidity items the page holds. */
  class Page {
    var liquidityItems: seq<LiquidityItem>

    /** The page opens with the cash, liquidation and spread items, all Adequate. */
    constructor ()
      ensures liquidityItems == InitialLiquidityItems()
    {
      liquidityItems := InitialLiquidityItems();
    }

    /** `handleLiquidityChange`. */
    method HandleLiquidityChange(index: nat, edit: LiquidityEdit)
      modifies this
      ensures liquidityItems == ChangeLiquidity(old(liquidityItems), index, edit)
    {
      liquidityItems := ChangeLiquidity(liquidityItems, index, edit);
    }
  }

  function InitialLiquidityItems(): seq<LiquidityItem>
  {
    [
      LiquidityItem(CashItem, Some(10.0), Some(15.0), 12.5, Adequate, "None - Within range"),
      LiquidityItem(LiquidationItem, None, None, 18.0, Adequate, "None - Within 30 days"),
      LiquidityItem("Bid-Ask Spread Adequacy", None, None, 95.0, Adequate, "None - Spreads acceptable")
    ]
  }
}
