/** The inventory page: the movement-type filter and its pager, and the stock-adjustment dialog's form. */
module InventoryPage {
  import opened Wrappers
  import opened Roles
  import opened JsNumbers
  import opened Catalog
  import opened QueryParams

  /** A control in the page header. */
  datatype HeaderControl = TypeFilter | AdjustStock

  /** The header: the type filter, and the "Adjust Stock" button for owners and managers (`canAdjust`). */
  function HeaderControls(user: Option<User>): (r: seq<HeaderControl>)
    ensures TypeFilter in r
    ensures AdjustStock in r <==> CanManage(user)
  {
    [TypeFilter] + (if CanManage(user) then [AdjustStock] else [])
  }

  /** The adjustment form: `type` is the movement type. */
  datatype AdjustForm = AdjustForm(productId: string, variantId: string, movementType: string, quantity: int, reference: string, note: string)

  /** The form's initial state, and the state it is reset to after a successful adjustment. */
  const InitialAdjustForm := AdjustForm("", "", "adjustment", 1, "", "")

  /** The page's state: the movement list's page and filter, and the adjustment dialog. */
  class InventoryPageState {
    var page: int
    var typeFilter: string
    var products: seq<Product>
    var form: AdjustForm
    var selected: Option<Product>
    var showAdjust: bool

    constructor()
      ensures page == 1 && typeFilter == "" && products == [] && form == InitialAdjustForm && selected.None? && !showAdjust
    {
      page := 1;
      typeFilter := "";
      products := [];
      form := InitialAdjustForm;
      selected := None;
      showAdjust := false;
    }

    /** The type filter's `onChange`: the chosen type, and back to the first page. */
    method SelectType(value: string)
      modifies this
      ensures typeFilter == value && page == 1
      ensures products == old(products) && form == old(form) && selected == old(selected) && showAdjust == old(showAdjust)
    {
      typeFilter := value;
      page := 1;
    }

    /** `fetchMovements`' `params`: the page, 25 per page, and the type when one is chosen. */
    method Query() returns (params: Params)
      ensures IsPageQuery(params, page, 25, "type", typeFilter)
    {
      params := PageQuery(page, 25, "type", typeFilter);
    }

    /** The previous button: disabled on page 1 or before, else one page back. */
    method ClickPrev()
      modifies this
      ensures page == if old(page) <= 1 then old(page) else old(page) - 1
      ensures typeFilter == old(typeFilter) && form == old(form)
      ensures products == old(products) && selected == old(selected) && showAdjust == old(showAdjust)
      ensures old(page) >= 1 ==> page >= 1
    {
      if page > 1 {
        page := page - 1;
      }
    }

    /** The next button: disabled on the last page or after, else one page on. */
    method ClickNext(pages: int)
      modifies this
      ensures page == if old(page) >= pages then old(page) else old(page) + 1
      ensures typeFilter == old(typeFilter) && form == old(form)
      ensures products == old(products) && selected == old(selected) && showAdjust == old(showAdjust)
      ensures old(page) <= pages ==> page <= pages
    {
      if page < pages {
        page := page + 1;
      }
    }

    /** `openAdjustModal` with the product list the server sent, or `None` when the request failed. */
    method OpenAdjust(loaded: Option<seq<Product>>)
      modifies this
      ensures loaded.Some? ==> products == loaded.value && showAdjust
      ensures loaded.None? ==> products == old(products) && showAdjust == old(showAdjust)
      ensures page == old(page) && typeFilter == old(typeFilter) && form == old(form) && selected == old(selected)
    {
      if loaded.Some? {
        products := loaded.value;
        showAdjust := true;
      }
    }

    /** `handleProductSelect`: remember the chosen product, set its id, and clear the variant. */
    method SelectProduct(productId: string)
      modifies this
      ensures selected == FindProduct(products, productId)
      ensures form == old(form).(productId := productId, variantId := "")
      ensures page == old(page) && typeFilter == old(typeFilter) && products == old(products) && showAdjust == old(showAdjust)
    {
      selected := FindProduct(products, productId);
      form := form.(productId := productId, variantId := "");
    }

    /** The quantity input: `parseInt(text) || 1`. */
    method EditQuantity(text: string)
      modifies this
      ensures form == old(form).(quantity := ParseIntOr(text, 1))
      ensures form.quantity != 0
      ensures page == old(page) && typeFilter == old(typeFilter) && products == old(products) && selected == old(selected) && showAdjust == old(showAdjust)
    {
      form := form.(quantity := ParseIntOr(text, 1));
    }

    /** After the adjustment request: on success the dialog closes and the form and selection reset; on failure nothing changes. */
    method FinishAdjust(succeeded: bool)
      modifies this
      ensures succeeded ==> !showAdjust && form == InitialAdjustForm && selected.None?
      ensures !succeeded ==> showAdjust == old(showAdjust) && form == old(form) && selected == old(selected)
      ensures page == old(page) && typeFilter == old(typeFilter) && products == old(products)
    {
      if succeeded {
        showAdjust := false;
        form := InitialAdjustForm;
        selected := None;
      }
    }
  }
}
