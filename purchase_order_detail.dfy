/**
 * The purchase-order detail page: which status changes, receipt and cancellation it offers,
 * the receive-delivery dialog's lines, the quantity typed into each, and what it submits.
 */
module PurchaseOrderDetail {
  import opened Wrappers
  import opened Roles
  import opened Orders
  import opened Seqs
  import opened JsNumbers

  /** A status-change button: its caption (`label`), the status it requests, and its colour classes. */
  datatype Action = Action(caption: string, target: Status, color: string)

  /** The `statusActions` table. Received and Cancelled have no entry. */
  const StatusActions: map<Status, seq<Action>> := map[
    Draft := [Action("Send to Supplier", Sent, "bg-blue-600 hover:bg-blue-700")],
    Sent := [Action("Mark Confirmed", Confirmed, "bg-indigo-600 hover:bg-indigo-700")],
    Confirmed := [],
    PartiallyReceived := []]

  /** `statusActions[order.status] || []`: at most one change, and only from Draft or Sent. */
  function ForwardActions(s: Status): (acts: seq<Action>)
    ensures |acts| <= 1
    ensures acts != [] ==> s == Draft || s == Sent
  {
    if s in StatusActions then StatusActions[s] else []
  }

  /** Draft offers only sending, Sent offers only confirming, and no other status offers a status change. */
  lemma ForwardActionsTable(s: Status)
    ensures s == Draft ==> |ForwardActions(s)| == 1 && ForwardActions(s)[0].target == Sent && ForwardActions(s)[0].caption == "Send to Supplier"
    ensures s == Sent ==> |ForwardActions(s)| == 1 && ForwardActions(s)[0].target == Confirmed && ForwardActions(s)[0].caption == "Mark Confirmed"
    ensures s != Draft && s != Sent ==> ForwardActions(s) == []
    ensures IsTerminal(s) ==> s !in StatusActions
  {
  }

  /** Every offered status change moves the order one step forward, never to a closed status. */
  lemma ForwardActionsAdvance(s: Status, a: Action)
    requires a in ForwardActions(s)
    ensures Rank(a.target) == Rank(s) + 1 && !IsTerminal(a.target)
  {
  }

  /** `order.status !== 'Received' && order.status !== 'Cancelled'`: exactly the open orders. */
  predicate CanCancel(s: Status)
    ensures CanCancel(s) <==> !IsTerminal(s)
  {
    s != Received && s != Cancelled
  }

  /** `['Confirmed', 'Partially Received'].includes(order.status)`: an open order past its last forward change. */
  predicate CanReceive(s: Status)
    ensures CanReceive(s) ==> CanCancel(s) && ForwardActions(s) == []
    ensures CanReceive(s) <==> Rank(Confirmed) <= Rank(s) && !IsTerminal(s)
  {
    s == Confirmed || s == PartiallyReceived
  }

  /** A button of the action bar. */
  datatype Button = Transition(action: Action) | ReceiveDelivery | CancelOrder

  /** One button per status change, in table order. */
  function Transitions(acts: seq<Action>): (r: seq<Button>)
    ensures |r| == |acts| && forall i :: 0 <= i < |acts| ==> r[i] == Transition(acts[i])
    ensures forall a :: Transition(a) in r <==> a in acts
    ensures forall b :: b in r ==> b.Transition?
  {
    if acts == [] then []
    else
      assert forall a :: a in acts <==> a == acts[0] || a in acts[1..];
      [Transition(acts[0])] + Transitions(acts[1..])
  }

  /** The action bar: nothing unless the user can manage, else the status changes, then receipt, then cancellation. */
  function ActionBar(user: Option<User>, s: Status): (bar: seq<Button>)
    ensures bar != [] ==> CanManage(user)
    ensures forall a :: Transition(a) in bar <==> CanManage(user) && a in ForwardActions(s)
    ensures ReceiveDelivery in bar <==> CanManage(user) && (s == Confirmed || s == PartiallyReceived)
    ensures CancelOrder in bar <==> CanManage(user) && s != Received && s != Cancelled
  {
    if !CanManage(user) then []
    else
      Transitions(ForwardActions(s)) + (if CanReceive(s) then [ReceiveDelivery] else []) + (if CanCancel(s) then [CancelOrder] else [])
  }

  /** A closed order shows no action at all, whoever looks at it. */
  lemma ClosedOrderOffersNothing(user: Option<User>, s: Status)
    requires IsTerminal(s)
    ensures ActionBar(user, s) == []
  {
  }

  /** Every open order can be cancelled by a manager, and receipt and a forward change are never offered together. */
  lemma OpenOrderActions(user: Option<User>, s: Status)
    requires CanManage(user) && !IsTerminal(s)
    ensures CancelOrder in ActionBar(user, s)
    ensures ReceiveDelivery in ActionBar(user, s) ==> ForwardActions(s) == []
  {
  }

  /** A line of the receive dialog: the order item, its sku, what remains to receive, and the typed quantity. */
  datatype ReceiveLine = ReceiveLine(itemId: string, sku: string, max: int, quantity: int)

  /** `i.receivedQuantity < i.quantity`. */
  predicate Outstanding(i: OrderItem)
  {
    i.receivedQuantity < i.quantity
  }

  /** The table's green mark: `item.receivedQuantity >= item.quantity`. */
  predicate IsComplete(i: OrderItem)
  {
    i.receivedQuantity >= i.quantity
  }

  function LineFor(i: OrderItem): ReceiveLine
  {
    ReceiveLine(i.id, i.variantSku, i.quantity - i.receivedQuantity, 0)
  }

  /** The lines `openReceiveModal` builds: one per outstanding item, for its remainder, starting at 0. */
  function ReceiveLines(items: seq<OrderItem>): (lines: seq<ReceiveLine>)
    ensures |lines| <= |items|
    ensures forall l :: l in lines ==> l.max > 0 && l.quantity == 0
    ensures forall l :: l in lines ==> exists i :: i in items && Outstanding(i) && l.itemId == i.id && l.sku == i.variantSku && l.max == i.quantity - i.receivedQuantity
    ensures forall i :: i in items && Outstanding(i) ==> LineFor(i) in lines
  {
    FilterMapMembers(items, Outstanding, LineFor);
    FilterMap(items, Outstanding, LineFor)
  }

  /** Lines follow item order: the lines of `a + b` are those of `a`, then those of `b`. */
  lemma ReceiveLinesOrder(a: seq<OrderItem>, b: seq<OrderItem>, i: OrderItem)
    ensures ReceiveLines(a + b) == ReceiveLines(a) + ReceiveLines(b)
    ensures ReceiveLines([i]) == if Outstanding(i) then [LineFor(i)] else []
  {
    FilterMapConcat(a, b, Outstanding, LineFor);
  }

  /** The dialog has no line exactly when the table marks every item complete. */
  lemma NoLinesIffComplete(items: seq<OrderItem>)
    ensures ReceiveLines(items) == [] <==> forall i :: i in items ==> IsComplete(i)
  {
    FilterMapMembers(items, Outstanding, LineFor);
  }

  /** `item.quantity * item.unitPrice`: never negative for a valid line, and zero only for a free or empty line. */
  function LineTotal(i: OrderItem): (t: int)
    ensures i.quantity >= 0 && i.unitPrice >= 0 ==> t >= 0
    ensures i.quantity > 0 && i.unitPrice > 0 ==> t >= i.quantity && t >= i.unitPrice
  {
    i.quantity * i.unitPrice
  }

  /** The sum of the line totals, which the server keeps as the order's `totalAmount`. */
  function ItemsTotal(items: seq<OrderItem>): int
  {
    if items == [] then 0 else LineTotal(items[0]) + ItemsTotal(items[1..])
  }

  lemma {:induction false} ItemsTotalNonNegative(items: seq<OrderItem>)
    requires forall i :: 0 <= i < |items| ==> items[i].quantity >= 0 && items[i].unitPrice >= 0
    ensures ItemsTotal(items) >= 0
  {
    if items != [] {
      ItemsTotalNonNegative(items[1..]);
    }
  }

  /**
   * While `totalAmount` is the sum of the line totals, no line total in the table exceeds the
   * total shown in the header.
   */
  lemma {:induction false} LineWithinOrderTotal(o: Order, k: int)
    requires o.totalAmount == ItemsTotal(o.items)
    requires forall i :: 0 <= i < |o.items| ==> o.items[i].quantity >= 0 && o.items[i].unitPrice >= 0
    requires 0 <= k < |o.items|
    ensures 0 <= LineTotal(o.items[k]) <= o.totalAmount
  {
    LineWithinItemsTotal(o.items, k);
  }

  lemma {:induction false} LineWithinItemsTotal(items: seq<OrderItem>, k: int)
    requires forall i :: 0 <= i < |items| ==> items[i].quantity >= 0 && items[i].unitPrice >= 0
    requires 0 <= k < |items|
    ensures LineTotal(items[k]) <= ItemsTotal(items)
  {
    ItemsTotalNonNegative(items[1..]);
    if k > 0 {
      LineWithinItemsTotal(items[1..], k - 1);
    }
  }

  /** `Math.min(parseInt(text) || 0, max)`. */
  function ClampedQuantity(text: string, max: int): (q: int)
    ensures q <= max
    ensures ParseInt(text).None? ==> q == (if 0 <= max then 0 else max)
    ensures ParseInt(text).Some? && ParseInt(text).value <= max ==> q == ParseInt(text).value
    ensures ParseInt(text).Some? && ParseInt(text).value > max ==> q == max
  {
    var typed := ParseIntOr(text, 0);
    if typed <= max then typed else max
  }

  /** Typing a number shows it when it is within the remainder, and the remainder when it is larger. */
  lemma ClampTypedNumber(n: int, max: int)
    ensures ClampedQuantity(IntToString(n), max) == if n <= max then n else max
  {
    ParseIntRoundTrip(n);
  }

  /** What is sent for one line: `{ itemId, quantity }`. */
  datatype ReceivedItem = ReceivedItem(itemId: string, quantity: int)

  predicate HasQuantity(l: ReceiveLine)
  {
    l.quantity > 0
  }

  function ToReceived(l: ReceiveLine): ReceivedItem
  {
    ReceivedItem(l.itemId, l.quantity)
  }

  const NothingToReceive := "Enter at least one quantity to receive"

  /** `receiveItems.filter((i) => i.quantity > 0).map((i) => ({ itemId, quantity }))`. */
  function ReceivedItems(lines: seq<ReceiveLine>): (r: seq<ReceivedItem>)
    ensures |r| <= |lines|
    ensures r == [] <==> forall l :: l in lines ==> l.quantity <= 0
    ensures forall x :: x in r ==> x.quantity > 0 && exists l :: l in lines && l.itemId == x.itemId && l.quantity == x.quantity
    ensures forall l :: l in lines && l.quantity > 0 ==> ReceivedItem(l.itemId, l.quantity) in r
  {
    FilterMapMembers(lines, HasQuantity, ToReceived);
    FilterMap(lines, HasQuantity, ToReceived)
  }

  /** `handleReceive`'s decision: the error toast when nothing is positive, else the payload. */
  function ReceivePayload(lines: seq<ReceiveLine>): (r: Result<seq<ReceivedItem>, string>)
    ensures r.Failure? <==> forall l :: l in lines ==> l.quantity <= 0
    ensures r.Failure? ==> r.error == NothingToReceive
    ensures r.Success? ==> forall x :: x in r.value ==> x.quantity > 0 && exists l :: l in lines && l.itemId == x.itemId && l.quantity == x.quantity
    ensures r.Success? ==> forall l :: l in lines && l.quantity > 0 ==> ReceivedItem(l.itemId, l.quantity) in r.value
    ensures r.Success? ==> r.value == ReceivedItems(lines)
  {
    var toReceive := ReceivedItems(lines);
    if toReceive == [] then Failure(NothingToReceive) else Success(toReceive)
  }

  /**
   * The payload keeps the lines' order: that of `a + b` is that of `a`, then that of `b`; a
   * single line contributes itself once when its quantity is positive and nothing otherwise.
   */
  lemma ReceivedItemsOrder(a: seq<ReceiveLine>, b: seq<ReceiveLine>, l: ReceiveLine)
    ensures ReceivedItems(a + b) == ReceivedItems(a) + ReceivedItems(b)
    ensures ReceivedItems([l]) == if l.quantity > 0 then [ToReceived(l)] else []
  {
    FilterMapConcat(a, b, HasQuantity, ToReceived);
  }

  /** While every typed quantity is within its remainder, every submitted quantity is positive and within its line's remainder. */
  lemma PayloadWithinRemaining(lines: seq<ReceiveLine>)
    requires forall l :: l in lines ==> l.quantity <= l.max
    ensures ReceivePayload(lines).Success? ==>
      forall x :: x in ReceivePayload(lines).value ==> exists l :: l in lines && l.itemId == x.itemId && 0 < x.quantity <= l.max
  {
  }

  /** A number from 1 up to the remainder typed into a line is exactly what is submitted for it. */
  lemma TypedQuantitySubmitted(lines: seq<ReceiveLine>, idx: int, n: int)
    requires 0 <= idx < |lines| && 0 < n <= lines[idx].max
    ensures ReceivePayload(lines[idx := lines[idx].(quantity := ClampedQuantity(IntToString(n), lines[idx].max))]).Success?
    ensures ReceivedItem(lines[idx].itemId, n) in ReceivePayload(lines[idx := lines[idx].(quantity := ClampedQuantity(IntToString(n), lines[idx].max))]).value
  {
    ClampTypedNumber(n, lines[idx].max);
    var edited := lines[idx := lines[idx].(quantity := n)];
    assert edited[idx] in edited;
  }

  /** The dialog's invariant: every line has something left to receive and a typed quantity within it. */
  predicate LinesWithinRemaining(lines: seq<ReceiveLine>)
  {
    forall i :: 0 <= i < |lines| ==> lines[i].max > 0 && lines[i].quantity <= lines[i].max
  }

  lemma OpenedLinesWithinRemaining(items: seq<OrderItem>)
    ensures LinesWithinRemaining(ReceiveLines(items))
  {
    var lines := ReceiveLines(items);
    assert forall i :: 0 <= i < |lines| ==> lines[i] in lines;
  }

  /**
   * The receive-delivery dialog. `lines` is the `receiveItems` state; a quantity edit writes
   * into the shared line object, so the dialog keeps the lines in one array updated by index.
   */
  class ReceiveDialog {
    var lines: array<ReceiveLine>
    var isOpen: bool

    predicate Valid()
      reads this, lines
    {
      LinesWithinRemaining(lines[..])
    }

    constructor()
      ensures lines.Length == 0 && !isOpen && Valid()
    {
      lines := new ReceiveLine[0];
      isOpen := false;
    }

    /** `openReceiveModal`: nothing without an order, else the order's outstanding lines, and the dialog opens. */
    method Open(order: Option<Order>)
      modifies this
      ensures order.None? ==> lines == old(lines) && isOpen == old(isOpen)
      ensures order.Some? ==> fresh(lines) && lines[..] == ReceiveLines(order.value.items) && isOpen
      ensures old(Valid()) ==> Valid()
    {
      if order.None? {
        return;
      }
      var ls := ReceiveLines(order.value.items);
      lines := new ReceiveLine[|ls|](i requires 0 <= i < |ls| => ls[i]);
      isOpen := true;
      assert lines[..] == ls;
      OpenedLinesWithinRemaining(order.value.items);
    }

    /** The quantity input's `onChange`: only line `idx` changes, to the clamped typed number. */
    method EditQuantity(idx: int, text: string)
      requires 0 <= idx < lines.Length
      modifies lines
      ensures lines[..] == old(lines[..])[idx := old(lines[idx]).(quantity := ClampedQuantity(text, old(lines[idx]).max))]
      ensures old(Valid()) ==> Valid()
    {
      lines[idx] := lines[idx].(quantity := ClampedQuantity(text, lines[idx].max));
    }

    /**
     * `handleReceive`: compute the payload; the dialog closes only when there was something
     * to send and the server accepted it (`accepted`).
     */
    method Confirm(accepted: bool) returns (r: Result<seq<ReceivedItem>, string>)
      modifies this
      ensures r == ReceivePayload(lines[..])
      ensures lines == old(lines)
      ensures isOpen == (old(isOpen) && !(r.Success? && accepted))
      ensures Valid() && r.Success? ==>
        forall x :: x in r.value ==> exists l :: l in lines[..] && l.itemId == x.itemId && 0 < x.quantity <= l.max
    {
      r := ReceivePayload(lines[..]);
      if Valid() {
        var ls := lines[..];
        assert forall l :: l in ls ==> l.quantity <= l.max by {
          forall l | l in ls ensures l.quantity <= l.max {
            var i :| 0 <= i < |ls| && ls[i] == l;
          }
        }
        PayloadWithinRemaining(ls);
      }
      if r.Success? && accepted {
        isOpen := false;
      }
    }
  }
}
