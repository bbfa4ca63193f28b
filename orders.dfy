/** A purchase order as the server sends it to the client. */
module Orders {
  import opened Wrappers

  /** The six order statuses. */
  datatype Status = Draft | Sent | Confirmed | PartiallyReceived | Received | Cancelled

  /** The status as the server spells it. */
  function StatusName(s: Status): string
  {
    match s
    case Draft => "Draft"
    case Sent => "Sent"
    case Confirmed => "Confirmed"
    case PartiallyReceived => "Partially Received"
    case Received => "Received"
    case Cancelled => "Cancelled"
  }

  /** The position of a status in the list page's status filter. */
  function Rank(s: Status): nat
  {
    match s
    case Draft => 0
    case Sent => 1
    case Confirmed => 2
    case PartiallyReceived => 3
    case Received => 4
    case Cancelled => 5
  }

  /** A received or cancelled order is closed. */
  predicate IsTerminal(s: Status)
  {
    s == Received || s == Cancelled
  }

  /** A reference the server may send populated (`{ _id, name }`) or as the bare id. */
  datatype IdRef = Populated(id: string, name: string) | RawId(id: string)

  datatype OrderItem = OrderItem(
    id: string,
    product: IdRef,
    variantId: string,
    variantSku: string,
    quantity: int,
    receivedQuantity: int,
    unitPrice: int)

  /** Money is in integer cents. Absent optional fields are `None`. */
  datatype Order = Order(
    id: string,
    orderNumber: string,
    supplier: Option<IdRef>,
    items: seq<OrderItem>,
    status: Status,
    notes: Option<string>,
    expectedDelivery: Option<string>,
    totalAmount: int)
}
