/** The purchase-order list page: the status filter, the create button, each row's actions, and the query state. */
module PurchaseOrdersPage {
  import opened Wrappers
  import opened Roles
  import opened Orders
  import opened JsNumbers
  import opened QueryParams

  /** A control in the page header. */
  datatype HeaderControl = StatusFilter | NewOrder

  /** The header: the status filter, and the "New PO" button for owners and managers (`canCreate`). */
  function HeaderControls(user: Option<User>): (r: seq<HeaderControl>)
    ensures StatusFilter in r
    ensures NewOrder in r <==> CanManage(user)
  {
    [StatusFilter] + (if CanManage(user) then [NewOrder] else [])
  }

  /** A status-filter option: the value it selects and its text. */
  datatype FilterOption = FilterOption(value: string, text: string)

  /** The status filter's options, in the order shown. */
  const FilterOptions := [
    FilterOption("", "All Status"),
    FilterOption("Draft", "Draft"),
    FilterOption("Sent", "Sent"),
    FilterOption("Confirmed", "Confirmed"),
    FilterOption("Partially Received", "Partially Received"),
    FilterOption("Received", "Received"),
    FilterOption("Cancelled", "Cancelled")]

  /** The first option selects everything; after it each status appears once, in status order, named as the server spells it. */
  lemma FilterOptionsOrder(s: Status)
    ensures |FilterOptions| == 7 && FilterOptions[0].value == ""
    ensures FilterOptions[Rank(s) + 1].value == StatusName(s) && FilterOptions[Rank(s) + 1].text == StatusName(s)
  {
  }

  /** A button of an order row. */
  datatype OrderAction = ViewOrder | DeleteOrder

  /** The actions cell: always view, and delete for an owner looking at a draft. */
  function OrderRowActions(user: Option<User>, s: Status): (r: seq<OrderAction>)
    ensures ViewOrder in r
    ensures DeleteOrder in r <==> s == Draft && IsOwner(user)
  {
    [ViewOrder] + (if s == Draft && IsOwner(user) then [DeleteOrder] else [])
  }

  /** Once sent an order can no longer be deleted, and only someone who can create orders ever deletes one. */
  lemma DeleteOnlyDrafts(user: Option<User>, s: Status)
    ensures s != Draft ==> OrderRowActions(user, s) == [ViewOrder]
    ensures DeleteOrder in OrderRowActions(user, s) ==> NewOrder in HeaderControls(user)
  {
  }

  /** `{row.items.length} item(s)`: the cell reads back as the number of items. */
  function ItemsCell(order: Order): (cell: string)
    ensures ParseInt(cell) == Some(|order.items|)
  {
    ParseIntToString(|order.items|, " item(s)");
    IntToString(|order.items|) + " item(s)"
  }

  /** The page's `page` and `statusFilter` state. */
  class PurchaseOrdersPageState {
    var page: int
    var statusFilter: string

    constructor()
      ensures page == 1 && statusFilter == ""
    {
      page := 1;
      statusFilter := "";
    }

    /** The status filter's `onChange`: the chosen value, and back to the first page. */
    method SelectStatus(value: string)
      modifies this
      ensures statusFilter == value && page == 1
    {
      statusFilter := value;
      page := 1;
    }

    /** The table's `onPageChange`. */
    method ChangePage(target: int)
      modifies this
      ensures page == target && statusFilter == old(statusFilter)
    {
      page := target;
    }

    /** `fetchOrders`' `params`: the page, 15 per page, and the status when one is chosen. */
    method Query() returns (params: Params)
      ensures IsPageQuery(params, page, 15, "status", statusFilter)
    {
      params := PageQuery(page, 15, "status", statusFilter);
    }
  }
}
