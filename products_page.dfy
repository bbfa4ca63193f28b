/** The product list page: the per-product totals and variant preview, role gating, and the query state. */
module ProductsPage {
  import opened Wrappers
  import opened Roles
  import opened JsNumbers
  import opened Helpers
  import opened Catalog
  import opened QueryParams

  /** `row.variants.reduce((s, v) => s + v.stock, 0)`, folded from the left. */
  function TotalStock(variants: seq<CatalogVariant>): (t: int)
    ensures (forall i :: 0 <= i < |variants| ==> variants[i].stock >= 0) ==> t >= 0 && forall i :: 0 <= i < |variants| ==> variants[i].stock <= t
  {
    if variants == [] then 0 else TotalStock(variants[..|variants| - 1]) + variants[|variants| - 1].stock
  }

  /** `row.variants.reduce((s, v) => s + v.stock * v.price, 0)`, in cents. */
  function InventoryValue(variants: seq<CatalogVariant>): (v: int)
    ensures (forall i :: 0 <= i < |variants| ==> variants[i].stock >= 0 && variants[i].price >= 0) ==> v >= 0
  {
    if variants == [] then 0 else InventoryValue(variants[..|variants| - 1]) + variants[|variants| - 1].stock * variants[|variants| - 1].price
  }

  /** Both totals add up over any split of the variant list, so they are sums over all variants. */
  lemma {:induction false} TotalsSplit(a: seq<CatalogVariant>, b: seq<CatalogVariant>)
    ensures TotalStock(a + b) == TotalStock(a) + TotalStock(b)
    ensures InventoryValue(a + b) == InventoryValue(a) + InventoryValue(b)
    decreases |b|
  {
    if b == [] {
      assert a + b == a;
    } else {
      var front := b[..|b| - 1];
      assert (a + b)[..|a + b| - 1] == a + front;
      assert (a + b)[|a + b| - 1] == b[|b| - 1];
      TotalsSplit(a, front);
    }
  }

  /** A single variant contributes its stock and its stock times its price. */
  lemma TotalsOfOne(v: CatalogVariant)
    ensures TotalStock([v]) == v.stock && InventoryValue([v]) == v.stock * v.price
  {
    assert [v][..0] == [];
  }

  /** With no negative stock, the value lies between 0 and the total stock at the highest price. */
  lemma {:induction false} InventoryValueBounds(variants: seq<CatalogVariant>, maxPrice: int)
    requires forall i :: 0 <= i < |variants| ==> variants[i].stock >= 0 && 0 <= variants[i].price <= maxPrice
    ensures 0 <= InventoryValue(variants) <= maxPrice * TotalStock(variants)
  {
    if variants != [] {
      var front := variants[..|variants| - 1];
      var last := variants[|variants| - 1];
      InventoryValueBounds(front, maxPrice);
      LastVariantBound(InventoryValue(front), TotalStock(front), last.stock, last.price, maxPrice);
    }
  }

  /** The step of `InventoryValueBounds`: adding one variant keeps the value under the bound. */
  lemma LastVariantBound(value: int, stock: int, s: int, p: int, maxPrice: int)
    requires value <= maxPrice * stock && s >= 0 && p <= maxPrice
    ensures value + s * p <= maxPrice * (stock + s)
  {
    assert s * p <= s * maxPrice by {
      assert s * (maxPrice - p) >= 0;
    }
  }

  /** One preview line: `{v.sku} - {variantAttributesToString(v.attributes)}`. */
  function PreviewLine(v: CatalogVariant): string
  {
    v.sku + " - " + AttributesToString(v.attributes)
  }

  /** `row.variants.slice(0, 3).map(...)`: the first three variants, in order. */
  function Preview(variants: seq<CatalogVariant>): (lines: seq<string>)
    ensures |lines| == if |variants| < 3 then |variants| else 3
    ensures forall i :: 0 <= i < |lines| ==> lines[i] == PreviewLine(variants[i])
  {
    var shown := if |variants| < 3 then variants else variants[..3];
    seq(|shown|, i requires 0 <= i < |shown| => PreviewLine(shown[i]))
  }

  /**
   * `+{row.variants.length - 3} more`, only when there are more than three variants: the
   * label appears exactly when variants are hidden, and the number it shows is how many.
   */
  function MoreLabel(variants: seq<CatalogVariant>): (r: Option<string>)
    ensures r.Some? <==> |variants| > 3
    ensures r.Some? ==> ParseInt(r.value) == Some(|variants| - 3)
    ensures r.Some? ==> |Preview(variants)| + (|variants| - 3) == |variants|
  {
    if |variants| > 3 then
      var n := |variants| - 3;
      ParsePlusNumeral(n, " more");
      assert "+" + IntToString(n) + " more" == "+" + NatToString(n) + " more";
      Some("+" + IntToString(n) + " more")
    else None
  }

  /** A control in the page header. */
  datatype HeaderControl = SearchBox | AddProduct

  /** The header: the search box, and the "Add Product" button for owners and managers (`canEdit`). */
  function HeaderControls(user: Option<User>): (r: seq<HeaderControl>)
    ensures SearchBox in r
    ensures AddProduct in r <==> CanManage(user)
  {
    [SearchBox] + (if CanManage(user) then [AddProduct] else [])
  }

  /** The keys of the columns the page gives the table. */
  const BaseColumns := ["name", "variants", "stock", "value"]

  /** `const columns = [...]; if (canEdit) columns.push({ key: 'actions', ... })`. */
  method Columns(user: Option<User>) returns (columns: seq<string>)
    ensures |columns| >= 4 && columns[..4] == BaseColumns
    ensures "actions" in columns <==> CanManage(user)
    ensures CanManage(user) ==> columns == BaseColumns + ["actions"]
    ensures !CanManage(user) ==> columns == BaseColumns
  {
    columns := BaseColumns;
    if CanManage(user) {
      columns := columns + ["actions"];
    }
  }

  /** A button of a product row's actions cell. */
  datatype RowAction = EditProduct | DeleteProduct

  /** The actions cell: nothing without the column, else edit, and delete for an owner. */
  function RowActions(user: Option<User>): (r: seq<RowAction>)
    ensures r != [] <==> CanManage(user)
    ensures EditProduct in r <==> CanManage(user)
    ensures DeleteProduct in r <==> IsOwner(user)
  {
    if !CanManage(user) then [] else [EditProduct] + (if IsOwner(user) then [DeleteProduct] else [])
  }

  /** Managers edit but never delete; owners do both. */
  lemma RowActionsByRole(name: string)
    ensures RowActions(Some(User(name, Owner))) == [EditProduct, DeleteProduct]
    ensures RowActions(Some(User(name, Manager))) == [EditProduct]
    ensures RowActions(Some(User(name, Staff))) == [] && RowActions(None) == []
  {
  }

  /** The page's `page` and `search` state. */
  class ProductsPageState {
    var page: int
    var search: string

    constructor()
      ensures page == 1 && search == ""
    {
      page := 1;
      search := "";
    }

    /** The search box's `onChange`: the new text, and back to the first page. */
    method EditSearch(text: string)
      modifies this
      ensures search == text && page == 1
    {
      search := text;
      page := 1;
    }

    /** The table's `onPageChange`. */
    method ChangePage(target: int)
      modifies this
      ensures page == target && search == old(search)
    {
      page := target;
    }

    /** `fetchProducts`' `params`: the page, 15 per page, and the search text when there is one. */
    method Query() returns (params: Params)
      ensures IsPageQuery(params, page, 15, "search", search)
    {
      params := PageQuery(page, 15, "search", search);
    }
  }
}
