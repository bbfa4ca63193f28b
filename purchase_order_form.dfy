/** The create/edit form for a purchase order: its line items, their dependent fields, and loading an existing order. */
module PurchaseOrderForm {
  import opened Wrappers
  import opened Seqs
  import opened JsNumbers
  import opened Orders
  import opened Catalog

  /** A line of the form. `unitPrice` is in integer cents. */
  datatype FormItem = FormItem(productId: string, variantId: string, variantSku: string, quantity: int, unitPrice: int)

  datatype Form = Form(supplierId: string, items: seq<FormItem>, notes: string, expectedDelivery: string)

  /** `emptyItem`. */
  const EmptyItem := FormItem("", "", "", 1, 0)

  /** The form's initial state: no supplier, one empty line, no notes, no date. */
  const InitialForm := Form("", [EmptyItem], "", "")

  /** `addItem`: one more empty line at the end. */
  function AddItem(form: Form): (r: Form)
    ensures r.supplierId == form.supplierId && r.notes == form.notes && r.expectedDelivery == form.expectedDelivery
    ensures |r.items| == |form.items| + 1 && r.items[..|form.items|] == form.items && r.items[|form.items|] == EmptyItem
  {
    form.(items := form.items + [EmptyItem])
  }

  /** `removeItem(idx)`: ignored while one line (or none) is left, else the line at `idx` is dropped. */
  function RemoveItem(form: Form, idx: int): (r: Form)
    ensures r.supplierId == form.supplierId && r.notes == form.notes && r.expectedDelivery == form.expectedDelivery
    ensures |form.items| <= 1 ==> r == form
    ensures |form.items| > 1 && 0 <= idx < |form.items| ==> r.items == form.items[..idx] + form.items[idx + 1..]
    ensures |form.items| > 1 && !(0 <= idx < |form.items|) ==> r.items == form.items
    ensures |form.items| >= 1 ==> |r.items| >= 1
  {
    if |form.items| <= 1 then form
    else
      WithoutIndexSplices(form.items, idx);
      form.(items := WithoutIndex(form.items, idx))
  }

  /** Adding a line and removing it again gives the form back. */
  lemma AddThenRemove(form: Form)
    requires form.items != []
    ensures RemoveItem(AddItem(form), |form.items|) == form
  {
    var added := AddItem(form);
    assert added.items[..|form.items|] + added.items[|form.items| + 1..] == form.items;
  }

  /**
   * The field one `onChange` sets, with its new value (`updateItem(idx, field, value)`). The
   * quantity input hands over `parseInt(text) || 1`, so its edit carries the typed text.
   */
  datatype ItemEdit = SetProduct(productId: string) | SetVariant(variantId: string) | SetQuantity(text: string) | SetUnitPrice(unitPrice: int)

  /** `{ ...item, [field]: value }`. */
  function Assign(item: FormItem, edit: ItemEdit): FormItem
  {
    match edit
    case SetProduct(p) => item.(productId := p)
    case SetVariant(v) => item.(variantId := v)
    case SetQuantity(t) => item.(quantity := ParseIntOr(t, 1))
    case SetUnitPrice(c) => item.(unitPrice := c)
  }

  /** The sku of variant `variantId` of product `productId`, when both are in the loaded catalogue. */
  function SkuOf(products: seq<Product>, productId: string, variantId: string): (r: Option<string>)
    ensures r.Some? ==> exists p, w :: p in products && w in p.variants && p.id == productId && w.id == variantId && w.sku == r.value
    ensures (forall p :: p in products ==> p.id != productId) ==> r.None?
  {
    match FindProduct(products, productId)
    case None => None
    case Some(product) =>
      match FindVariant(product.variants, variantId)
      case None => None
      case Some(variant) => Some(variant.sku)
  }

  /** With ids unique, as the server issues them, the sku found is exactly the chosen variant's. */
  lemma SkuOfChosenVariant(products: seq<Product>, p: Product, w: CatalogVariant)
    requires p in products && w in p.variants
    requires forall q :: q in products && q.id == p.id ==> q == p
    requires forall u :: u in p.variants && u.id == w.id ==> u == w
    ensures SkuOf(products, p.id, w.id) == Some(w.sku)
  {
  }

  /**
   * `updateItem(idx, field, value)`: copy the lines, replace line `idx` by a copy with the
   * field set, then clear the variant after a product change, or copy the variant's sku
   * after a variant change when the product and the variant are found.
   */
  method UpdateItem(form: Form, products: seq<Product>, idx: int, edit: ItemEdit) returns (updated: Form)
    requires 0 <= idx < |form.items|
    ensures updated.supplierId == form.supplierId && updated.notes == form.notes && updated.expectedDelivery == form.expectedDelivery
    ensures |updated.items| == |form.items|
    ensures forall j :: 0 <= j < |form.items| && j != idx ==> updated.items[j] == form.items[j]
    ensures edit.SetProduct? ==> updated.items[idx] == form.items[idx].(productId := edit.productId, variantId := "", variantSku := "")
    ensures edit.SetVariant? ==> updated.items[idx] == form.items[idx].(variantId := edit.variantId,
      variantSku := SkuOf(products, form.items[idx].productId, edit.variantId).GetOr(form.items[idx].variantSku))
    ensures edit.SetQuantity? ==> updated.items[idx] == form.items[idx].(quantity := ParseIntOr(edit.text, 1))
    ensures edit.SetUnitPrice? ==> updated.items[idx] == form.items[idx].(unitPrice := edit.unitPrice)
  {
    var items := form.items;
    items := items[idx := Assign(items[idx], edit)];
    if edit.SetProduct? {
      items := items[idx := items[idx].(variantId := "")];
      items := items[idx := items[idx].(variantSku := "")];
    }
    if edit.SetVariant? {
      var product := FindProduct(products, items[idx].productId);
      if product.Some? {
        var variant := FindVariant(product.value.variants, edit.variantId);
        if variant.Some? {
          items := items[idx := items[idx].(variantSku := variant.value.sku)];
        }
      }
    }
    updated := form.(items := items);
  }

  /** `i.productId?._id || i.productId`, and likewise for the supplier. */
  function RefId(r: IdRef): string
  {
    r.id
  }

  /** The five fields the form keeps of an order item. */
  function ItemFromOrder(i: OrderItem): (f: FormItem)
    ensures f.productId == i.product.id && f.variantId == i.variantId && f.variantSku == i.variantSku
    ensures f.quantity == i.quantity && f.unitPrice == i.unitPrice
  {
    FormItem(RefId(i.product), i.variantId, i.variantSku, i.quantity, i.unitPrice)
  }

  /** `expectedDelivery ? expectedDelivery.slice(0, 10) : ''`. */
  function DateField(expectedDelivery: Option<string>): (d: string)
    ensures |d| <= 10
    ensures expectedDelivery.None? ==> d == ""
    ensures expectedDelivery.Some? ==> d <= expectedDelivery.value && |d| == if |expectedDelivery.value| < 10 then |expectedDelivery.value| else 10
  {
    match expectedDelivery
    case None => ""
    case Some(date) => if date == "" then "" else date[..if |date| < 10 then |date| else 10]
  }

  /** The effect that loads an existing order into the form. */
  function FormFromOrder(order: Order): (f: Form)
    ensures f.supplierId == (if order.supplier.Some? then order.supplier.value.id else "")
    ensures f.notes == order.notes.GetOr("")
    ensures f.expectedDelivery == DateField(order.expectedDelivery)
    ensures |f.items| == |order.items| && forall i :: 0 <= i < |order.items| ==> f.items[i] == ItemFromOrder(order.items[i])
  {
    Form(
      match order.supplier { case None => "" case Some(r) => RefId(r) },
      seq(|order.items|, i requires 0 <= i < |order.items| => ItemFromOrder(order.items[i])),
      match order.notes { case None => "" case Some(n) => n },
      DateField(order.expectedDelivery))
  }

  /** An ISO timestamp loads as its date part: `2024-05-01T08:00:00.000Z` becomes `2024-05-01`. */
  lemma DateFieldKeepsDate(date: string, rest: string)
    requires |date| == 10
    ensures DateField(Some(date + rest)) == date
    ensures DateField(Some(date)) == date
  {
    assert (date + rest)[..10] == date;
  }

  /** The quantity input: a typed non-zero number is kept, anything else gives 1; the rest of the line is untouched. */
  lemma QuantityInput(item: FormItem, n: int, blank: string)
    requires forall i :: 0 <= i < |blank| ==> IsSpace(blank[i])
    ensures n != 0 ==> Assign(item, SetQuantity(IntToString(n))) == item.(quantity := n)
    ensures Assign(item, SetQuantity(IntToString(0))) == item.(quantity := 1)
    ensures Assign(item, SetQuantity(blank)) == item.(quantity := 1)
  {
    ParseIntOrTyped(n, blank, 1);
  }
}
