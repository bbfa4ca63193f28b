/** The toast shown for each `stock-updated` event the server pushes. */
module StockNotifications {
  import opened Wrappers
  import opened JsNumbers

  /** The fields of the event the listener reads. */
  datatype StockEvent = StockEvent(variantSku: string, movementType: string, previousStock: int, newStock: int)

  /** A toast: its text and its icon. */
  datatype Toast = Toast(message: string, icon: string)

  const SaleIcon := "\U{1F4E6}"
  const PurchaseIcon := "\U{1F4E5}"
  const OtherIcon := "\U{1F504}"

  /** `newStock > previousStock ? 'increased' : 'decreased'`. */
  function Direction(previousStock: int, newStock: int): (d: string)
    ensures d == "increased" || d == "decreased"
    ensures d == "increased" <==> newStock > previousStock
  {
    if newStock > previousStock then "increased" else "decreased"
  }

  /** `type === 'sale' ? '📦' : type === 'purchase' ? '📥' : '🔄'`. */
  function Icon(movementType: string): (i: string)
    ensures i == SaleIcon <==> movementType == "sale"
    ensures i == PurchaseIcon <==> movementType == "purchase"
    ensures i == OtherIcon <==> movementType != "sale" && movementType != "purchase"
  {
    if movementType == "sale" then SaleIcon else if movementType == "purchase" then PurchaseIcon else OtherIcon
  }

  /** The part of the message after the direction: `${variantSku} (${previousStock} → ${newStock})`. */
  function Details(e: StockEvent): string
  {
    e.variantSku + " (" + IntToString(e.previousStock) + " \U{2192} " + IntToString(e.newStock) + ")"
  }

  /**
   * The toast for one event: `Stock ${direction}: ` and the details, with the type's icon. The
   * first 17 characters name the direction; the rest does not depend on the movement type.
   */
  function Notify(e: StockEvent): (t: Toast)
    ensures t.icon == Icon(e.movementType)
    ensures |t.message| > 17
    ensures t.message[..17] == if e.newStock > e.previousStock then "Stock increased: " else "Stock decreased: "
    ensures t.message[17..] == Details(e)
  {
    var head := "Stock " + Direction(e.previousStock, e.newStock) + ": ";
    assert head == if e.newStock > e.previousStock then "Stock increased: " else "Stock decreased: ";
    SplitAtHead(head, Details(e));
    Toast(head + Details(e), Icon(e.movementType))
  }

  lemma SplitAtHead(head: string, rest: string)
    ensures (head + rest)[..|head|] == head && (head + rest)[|head|..] == rest
  {
  }

  /** The message names the direction, then the sku, then the two stock levels; the type only picks the icon. */
  lemma NotifyMessage(e: StockEvent, movementType: string)
    ensures Notify(e).message == "Stock " + Direction(e.previousStock, e.newStock) + ": " + e.variantSku
      + " (" + IntToString(e.previousStock) + " \U{2192} " + IntToString(e.newStock) + ")"
    ensures Notify(e.(movementType := movementType)).message == Notify(e).message
    ensures Notify(e).icon == Icon(e.movementType)
  {
    var d := Direction(e.previousStock, e.newStock);
    var p := IntToString(e.previousStock);
    var q := IntToString(e.newStock);
    assert "Stock " + d + ": " + Details(e) == "Stock " + d + ": " + e.variantSku + " (" + p + " \U{2192} " + q + ")";
  }

  /** The stock levels shown in the message read back as the event's numbers. */
  lemma DetailsShowLevels(e: StockEvent)
    ensures ParseInt(IntToString(e.previousStock) + " \U{2192} ") == Some(e.previousStock)
    ensures ParseInt(IntToString(e.newStock) + ")") == Some(e.newStock)
  {
    var arrow := " \U{2192} ";
    assert arrow[0] == ' ' && EndsNumber(arrow);
    assert EndsNumber(")");
    ParseIntToString(e.previousStock, arrow);
    ParseIntToString(e.newStock, ")");
  }

  /** The message opens with "Stock increased: " exactly when the stock went up; an unchanged level reads "decreased". */
  lemma NotifyDirection(e: StockEvent)
    ensures Notify(e).message[..17] == "Stock increased: " <==> e.newStock > e.previousStock
    ensures e.newStock == e.previousStock ==> Notify(e).message[..17] == "Stock decreased: "
  {
    assert "Stock decreased: "[6] != "Stock increased: "[6];
  }
}
