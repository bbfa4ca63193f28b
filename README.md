# Inventory dashboard client: decision and list-editing rules

A model, in Dafny, of the browser client of a multi-tenant inventory dashboard (React). The
stock ledger, the purchase-order state machine and tenant isolation all run on a server
that is not part of this model. What the client itself decides is modelled here:

- **Purchase-order detail page.** Which buttons an order offers: a status change from the
  status→action table, "Receive Delivery", "Cancel Order". It also builds the
  receive-delivery lines from the order's items, clamps each typed quantity to what remains,
  and decides what it submits.
- **Editable lists.** The purchase-order form's line items, and the product form's variants
  with their attribute objects: append, remove by index (never below one), update one field,
  and the dependent-field resets and copies.
- **Pure decisions.**
  - The status badge colour and the attribute text.
  - The route guard.
  - The data table's body and pager.
  - Role gating on the list pages and the query parameters they send.
  - The toast for a pushed stock change.

Modules follow the source:
- `Wrappers`, `JsNumbers`, `Seqs` and `Attributes` hold the JavaScript semantics the
  components rely on:
  - `parseInt` and `String(n)`, and `parseInt(text) || fallback`;
  - `filter`+`map`, `find`, and filtering by index;
  - a plain object as an ordered dictionary.
- `Roles`, `Orders`, `Catalog` and `QueryParams` hold the shared data.
- One module per component: `Helpers`, `ProtectedRoute`, `DataTable`, `StockNotifications`,
  `PurchaseOrderDetail`, `PurchaseOrderForm`, `VariantManager`, `ProductsPage`,
  `PurchaseOrdersPage` and `InventoryPage`.

How each source construct is modelled:
- **Pure code** (ternaries, `filter`/`map`/`reduce`, lookups) becomes functions and lemmas.
- **The receive dialog's lines.** The quantity edit writes into the line object it shares
  with the previous state (line 196 of the detail page). So the dialog is a class whose
  lines live in one `array`, updated by index.
- **Copy-then-write updates.** The form and variant updates copy the list and replace one
  element by a spread copy with the field set; the order form then overwrites the dependent
  fields of that copy (PurchaseOrderForm.jsx lines 62-70). They become methods that reassign
  a local sequence step by step.
- **Page state** (`page`, filters, the adjustment form) becomes classes whose methods are the
  `onChange`/`onClick` handlers.
- **Outside inputs.** Network answers, `prompt()` answers and the loaded product lists are
  parameters (`accepted`, `succeeded`, `loaded`, `answer`, `products`).
- **Money** is in integer cents.

## Model

| member | source | states |
|---|---|---|
| JsNumbers.ParseInt | src/modules/purchaseOrders/PurchaseOrderDetail.jsx:196 | blank text (only white space) is NaN; a number is read only when the text, after its leading white space, starts with a digit or a sign |
| JsNumbers.ParseIntOr | src/modules/purchaseOrders/PurchaseOrderForm.jsx:119 | `parseInt(text) \|\| fallback`: NaN and 0 give the fallback, any other parsed number is kept |
| JsNumbers.ParseIntOrTyped | src/modules/products/VariantManager.jsx:75-80 | a typed non-zero number reads back as itself; `0` and an empty or blank field give the fallback |
| Attributes.Delete | src/modules/products/VariantManager.jsx:36-37 | an entry survives `delete attrs[key]` exactly when it was there and has another key |
| Attributes.Put | src/modules/products/VariantManager.jsx:23 | `{ ...attrs, [key]: value }` holds the entry `key: value`; every entry it holds has `key` or was already there, and every entry with another key survives |
| Attributes.PutIsUpdate | src/modules/products/VariantManager.jsx:23 | `{ ...attrs, [key]: value }` read as a dictionary is the update of `key` to `value` |
| Attributes.PutKeepsOrder | src/modules/products/VariantManager.jsx:23 | an existing key keeps its place; a new key is appended after all others |
| Attributes.PutKeepsDistinct | src/modules/products/VariantManager.jsx:23 | setting a key never creates a duplicate key |
| Attributes.DeleteIsRemoval | src/modules/products/VariantManager.jsx:37 | deleting a key is the dictionary removal of that key, whatever the object held |
| Attributes.DeleteKeepsOrder | src/modules/products/VariantManager.jsx:36-37 | the remaining entries keep their order |
| Attributes.DeleteKeepsDistinct | src/modules/products/VariantManager.jsx:37 | deleting never creates a duplicate key |
| Helpers.StatusColor | src/utils/helpers.js:26-36 | the class is never empty, and any text that is not one of the six status names gets the grey default |
| Helpers.StatusColorOfEachStatus | src/utils/helpers.js:27-34 | each of the six statuses gets the class listed for it |
| Helpers.StatusColorsDistinct | src/utils/helpers.js:27-34 | two different statuses never share a colour |
| Helpers.UnknownStatusLooksLikeDraft | src/utils/helpers.js:35 | an unknown status looks like a draft |
| Helpers.JoinEntriesConcat | src/utils/helpers.js:41-44 | the joined text of a split list is the two halves' texts joined by `", "`, so entries appear in entry order |
| Helpers.AttributesToStringCases | src/utils/helpers.js:38-47 | falsy gives `''`; an empty object or Map gives `''`; one entry gives `k: v`; a head entry comes first, then `", "` and the rest; a Map prints like an object; a primitive prints as `String(value)` |
| Helpers.AttributesToString | src/utils/helpers.js:38-47 | for any value the helper can be handed, the text is empty exactly for a falsy value and for an object or Map without entries; otherwise the first entry is printed first |
| Catalog.FindProduct | src/modules/purchaseOrders/PurchaseOrderForm.jsx:67 | no product exactly when no product has the id; otherwise the first listed product with that id |
| Catalog.FindVariant | src/modules/purchaseOrders/PurchaseOrderForm.jsx:68 | no variant exactly when no variant has the id; otherwise the first listed variant with that id |
| QueryParams.PageQuery | src/modules/products/ProductsPage.jsx:27-28 | the params are exactly `page` and `limit`, plus the filter key exactly when its text is non-empty |
| QueryParams.PageQueryDetermines | src/modules/products/ProductsPage.jsx:27-28 | distinct page or filter states give distinct params |
| ProtectedRoute.Guard | src/components/common/ProtectedRoute.jsx:4-22 | loading shows the spinner whatever else holds. Otherwise: no user goes to `/login`; the page renders iff `roles` is absent or holds the user's role; the user goes to `/` iff a given `roles` lacks it |
| ProtectedRoute.UsersRouteOwnerOnly | src/App.jsx:69 | the users route, guarded with `['Owner']`, opens exactly for owners and sends everyone else home |
| ProtectedRoute.NoRolesAdmitsAnyUser | src/components/common/ProtectedRoute.jsx:17-21 | without `roles`, every signed-in user gets the page |
| ProtectedRoute.MoreRolesAdmitMore | src/components/common/ProtectedRoute.jsx:17 | adding roles to the list never locks out a user it admitted |
| DataTable.RowCells | src/components/common/DataTable.jsx:35-39 | one cell per column, in column order |
| DataTable.BodyFor | src/components/common/DataTable.jsx:18-42 | loading gives one spinner row spanning all columns. Otherwise empty data gives one message row, with `'No data found'` when no message is given. Data rows appear iff not loading and the data is non-empty: one row per element, in order |
| DataTable.DataCells | src/components/common/DataTable.jsx:37 | a cell shows `render(row)` when the column has one, else the row's field |
| DataTable.PrevTarget | src/components/common/DataTable.jsx:52-54 | the previous button is enabled iff `page > 1`, and asks for `page - 1` |
| DataTable.NextTarget | src/components/common/DataTable.jsx:59-61 | the next button is enabled iff `page < pages`, and asks for `page + 1` |
| DataTable.PagerStaysInRange | src/components/common/DataTable.jsx:52-61 | from a page in `[1, pages]`, an enabled button asks for another page in `[1, pages]` |
| DataTable.ShowPager | src/components/common/DataTable.jsx:46-61 | the pager needs a pagination, and when it shows on a page in range at least one of its buttons (Prev or Next) is enabled |
| StockNotifications.Direction | src/components/common/StockNotifications.jsx:13 | `increased` iff the new stock is above the previous, otherwise `decreased` |
| StockNotifications.Icon | src/components/common/StockNotifications.jsx:15 | `sale` gets 📦, `purchase` gets 📥, and every other type gets 🔄 |
| StockNotifications.Notify | src/components/common/StockNotifications.jsx:13-16 | the icon is the movement type's; the message's first 17 characters are `Stock increased: ` when the stock rose and `Stock decreased: ` otherwise, and the rest is the sku with the two levels |
| StockNotifications.NotifyMessage | src/components/common/StockNotifications.jsx:14 | the message is `Stock <direction>: <sku> (<previous> → <new>)`; the movement type changes only the icon |
| StockNotifications.DetailsShowLevels | src/components/common/StockNotifications.jsx:14 | the two stock numbers in the message read back as the event's numbers |
| StockNotifications.NotifyDirection | src/components/common/StockNotifications.jsx:13-14 | the message opens with `Stock increased: ` iff the stock went up; an unchanged level reads `decreased` |
| PurchaseOrderDetail.ForwardActions | src/modules/purchaseOrders/PurchaseOrderDetail.jsx:88-93 | `statusActions[status] \|\| []` offers at most one status change, and only to a Draft or Sent order |
| PurchaseOrderDetail.ForwardActionsTable | src/modules/purchaseOrders/PurchaseOrderDetail.jsx:88-93 | Draft offers only "Send to Supplier" (to Sent) and Sent only "Mark Confirmed" (to Confirmed). Every other status offers no change; Received and Cancelled are absent from the table and fall back to `[]` |
| PurchaseOrderDetail.ForwardActionsAdvance | src/modules/purchaseOrders/PurchaseOrderDetail.jsx:88-93 | every offered change moves the order exactly one status forward, never to a closed status |
| PurchaseOrderDetail.CanCancel | src/modules/purchaseOrders/PurchaseOrderDetail.jsx:132 | cancelling is offered exactly for the open orders, those neither Received nor Cancelled |
| PurchaseOrderDetail.CanReceive | src/modules/purchaseOrders/PurchaseOrderDetail.jsx:95 | receipt is offered exactly for open orders at Confirmed or later; those can also be cancelled and offer no status change |
| PurchaseOrderDetail.Transitions | src/modules/purchaseOrders/PurchaseOrderDetail.jsx:122-126 | exactly one status-change button per table action, in the table's order, and nothing else |
| PurchaseOrderDetail.ActionBar | src/modules/purchaseOrders/PurchaseOrderDetail.jsx:120-137 | nothing is shown unless the user is an owner or manager. Then: the table's changes; receipt iff the status is Confirmed or Partially Received; cancel iff it is neither Received nor Cancelled |
| PurchaseOrderDetail.ClosedOrderOffersNothing | src/modules/purchaseOrders/PurchaseOrderDetail.jsx:120-136 | a received or cancelled order shows no action to anyone |
| PurchaseOrderDetail.OpenOrderActions | src/modules/purchaseOrders/PurchaseOrderDetail.jsx:127-136 | a manager can cancel every open order, and receipt is never offered beside a status change |
| PurchaseOrderDetail.ReceiveLines | src/modules/purchaseOrders/PurchaseOrderDetail.jsx:47-51 | one line per item with `receivedQuantity < quantity`, for its remainder (> 0), starting at 0; every line comes from such an item, and every such item has its line |
| PurchaseOrderDetail.ReceiveLinesOrder | src/modules/purchaseOrders/PurchaseOrderDetail.jsx:48-50 | lines follow item order |
| PurchaseOrderDetail.NoLinesIffComplete | src/modules/purchaseOrders/PurchaseOrderDetail.jsx:159 | the dialog gets no line exactly when the table marks every item complete (`receivedQuantity >= quantity`) |
| PurchaseOrderDetail.LineTotal | src/modules/purchaseOrders/PurchaseOrderDetail.jsx:165 | a line with non-negative quantity and price has a non-negative total, and with both positive the total is at least each of them |
| PurchaseOrderDetail.LineWithinOrderTotal | src/modules/purchaseOrders/PurchaseOrderDetail.jsx:116-165 | while `totalAmount` is the sum of the line totals (the server's rule) and no quantity or price is negative, every line total in the table lies between 0 and the total in the header |
| PurchaseOrderDetail.ClampedQuantity | src/modules/purchaseOrders/PurchaseOrderDetail.jsx:196 | the quantity never exceeds the remainder: the parsed number when within it, the remainder when above it, 0 for NaN |
| PurchaseOrderDetail.ClampTypedNumber | src/modules/purchaseOrders/PurchaseOrderDetail.jsx:196 | typing `n` shows `min(n, max)` |
| PurchaseOrderDetail.ReceivedItems | src/modules/purchaseOrders/PurchaseOrderDetail.jsx:56-64 | no more items than lines; empty exactly when no quantity is positive; every item is a positive quantity typed for its line, and every positive line is there |
| PurchaseOrderDetail.ReceivePayload | src/modules/purchaseOrders/PurchaseOrderDetail.jsx:55-65 | when no quantity is positive, the result is the error "Enter at least one quantity to receive". Otherwise the payload is exactly the positive lines as `{itemId, quantity}`: every sent item is a positive quantity typed for its line, and every positive line is sent |
| PurchaseOrderDetail.ReceivedItemsOrder | src/modules/purchaseOrders/PurchaseOrderDetail.jsx:64 | the payload keeps the lines' order, and one line contributes itself exactly once when its quantity is positive and nothing otherwise; so each positive line is sent once, in place |
| PurchaseOrderDetail.PayloadWithinRemaining | src/modules/purchaseOrders/PurchaseOrderDetail.jsx:56 | while typed quantities are within their remainders, every sent quantity is in `(0, max]` of its line |
| PurchaseOrderDetail.TypedQuantitySubmitted | src/modules/purchaseOrders/PurchaseOrderDetail.jsx:194-197 | typing a number from 1 to the remainder into a line makes the payload succeed and carry exactly that number for that item |
| PurchaseOrderDetail.OpenedLinesWithinRemaining | src/modules/purchaseOrders/PurchaseOrderDetail.jsx:50 | freshly built lines satisfy the dialog's invariant |
| PurchaseOrderDetail.ReceiveDialog.constructor | src/modules/purchaseOrders/PurchaseOrderDetail.jsx:16-17 | closed, with no lines |
| PurchaseOrderDetail.ReceiveDialog.Open | src/modules/purchaseOrders/PurchaseOrderDetail.jsx:45-53 | without an order nothing changes; with one, the lines are the order's receive lines and the dialog opens; the invariant is kept |
| PurchaseOrderDetail.ReceiveDialog.EditQuantity | src/modules/purchaseOrders/PurchaseOrderDetail.jsx:194-198 | only line `idx` changes, and only its quantity, to the clamped typed number; the invariant is kept |
| PurchaseOrderDetail.ReceiveDialog.Confirm | src/modules/purchaseOrders/PurchaseOrderDetail.jsx:55-68 | returns the payload decision and keeps the lines; the dialog closes only when there was something to send and the server accepted it; while the dialog's invariant holds, every sent quantity is in `(0, max]` of its line |
| PurchaseOrderForm.AddItem | src/modules/purchaseOrders/PurchaseOrderForm.jsx:51 | exactly one empty line (quantity 1, price 0, empty ids) is appended; the other lines and fields are unchanged |
| PurchaseOrderForm.RemoveItem | src/modules/purchaseOrders/PurchaseOrderForm.jsx:53-56 | with one line or none it is a no-op. Otherwise exactly line `idx` is dropped and the rest keep their order, and an index out of range drops nothing. At least one line remains |
| PurchaseOrderForm.AddThenRemove | src/modules/purchaseOrders/PurchaseOrderForm.jsx:51-56 | removing the line just added restores the form |
| PurchaseOrderForm.SkuOf | src/modules/purchaseOrders/PurchaseOrderForm.jsx:66-70 | a found sku belongs to a variant with that id of a product with that id; an unknown product gives none |
| PurchaseOrderForm.SkuOfChosenVariant | src/modules/purchaseOrders/PurchaseOrderForm.jsx:67-69 | with unique ids, the sku found is the chosen variant's |
| PurchaseOrderForm.UpdateItem | src/modules/purchaseOrders/PurchaseOrderForm.jsx:58-73 | only line `idx` changes, and only the edited field. A product change clears the variant id and sku. A variant change copies the variant's sku when the product and variant are found, and otherwise keeps the old sku |
| PurchaseOrderForm.ItemFromOrder | src/modules/purchaseOrders/PurchaseOrderForm.jsx:38-44 | a loaded line keeps exactly the item's product id (populated or raw), variant id, sku, quantity and price |
| PurchaseOrderForm.DateField | src/modules/purchaseOrders/PurchaseOrderForm.jsx:46 | the date is a prefix of the order's, of length `min(10, length)`, or `''` without one |
| PurchaseOrderForm.FormFromOrder | src/modules/purchaseOrders/PurchaseOrderForm.jsx:34-49 | the supplier id comes from the populated or raw reference, or is `''`. Notes default to `''`. There is one line per item, in order |
| PurchaseOrderForm.DateFieldKeepsDate | src/modules/purchaseOrders/PurchaseOrderForm.jsx:46 | an ISO timestamp loads as its ten-character date |
| PurchaseOrderForm.QuantityInput | src/modules/purchaseOrders/PurchaseOrderForm.jsx:119 | a typed non-zero quantity is kept; `0` and an empty field give 1 |
| VariantManager.AddVariant | src/modules/products/VariantManager.jsx:6 | one blank variant (no attributes, stock 0, threshold 10) is appended; the others are unchanged |
| VariantManager.RemoveVariant | src/modules/products/VariantManager.jsx:8-11 | with one variant it is a no-op; otherwise exactly variant `idx` is dropped; at least one remains |
| VariantManager.AddThenRemoveVariant | src/modules/products/VariantManager.jsx:6-11 | removing the variant just added restores the list |
| VariantManager.UpdateVariant | src/modules/products/VariantManager.jsx:13-17 | only variant `idx` changes, and only the edited field |
| VariantManager.UpdateAttribute | src/modules/products/VariantManager.jsx:19-26 | only variant `idx` changes, and only its attributes. Read as a dictionary they are updated at `key`; the key order and distinctness are kept |
| VariantManager.AddAttribute | src/modules/products/VariantManager.jsx:28-32 | a cancelled or empty name changes nothing; otherwise only that variant's attributes change: read as a dictionary the name is set to `''`, an existing name keeps its place, a new one goes last, and distinct keys stay distinct |
| VariantManager.RemoveAttribute | src/modules/products/VariantManager.jsx:34-40 | only variant `idx` changes: its attributes are `Delete(attributes, key)`, so it loses exactly the entries with `key`, the survivors keep their order (DeleteKeepsOrder), read as a dictionary `key` is removed, and distinct keys stay distinct |
| VariantManager.AddThenRemoveAttribute | src/modules/products/VariantManager.jsx:28-40 | adding a new attribute and removing it restores the attributes |
| VariantManager.PutAppends | src/modules/products/VariantManager.jsx:23 | a new key goes after all existing entries |
| VariantManager.DeleteAbsent | src/modules/products/VariantManager.jsx:37 | deleting an absent key changes nothing |
| VariantManager.CountInputs | src/modules/products/VariantManager.jsx:75-80 | stock and threshold take a typed number, and 0 for an empty field |
| ProductsPage.TotalStock | src/modules/products/ProductsPage.jsx:100 | with no negative stock, the total is non-negative and at least each variant's stock |
| ProductsPage.InventoryValue | src/modules/products/ProductsPage.jsx:103 | with no negative stock or price, the value is non-negative |
| ProductsPage.TotalsSplit | src/modules/products/ProductsPage.jsx:100-103 | total stock and value add up over any split of the variants, so they are sums over all of them |
| ProductsPage.TotalsOfOne | src/modules/products/ProductsPage.jsx:100-103 | one variant contributes its stock, and its stock times its price |
| ProductsPage.InventoryValueBounds | src/modules/products/ProductsPage.jsx:103 | with no negative stock, the value lies between 0 and the total stock times the highest price |
| ProductsPage.Preview | src/modules/products/ProductsPage.jsx:89-95 | the first `min(3, count)` variants, in order, each as `sku - attributes` |
| ProductsPage.MoreLabel | src/modules/products/ProductsPage.jsx:96 | "+N more" appears iff there are more than 3 variants; N reads back as count − 3, and the preview plus N is the count |
| ProductsPage.HeaderControls | src/modules/products/ProductsPage.jsx:126-140 | the search box always; "Add Product" iff the user is an owner or manager |
| ProductsPage.Columns | src/modules/products/ProductsPage.jsx:80-120 | the four base columns, with the actions column appended iff the user is an owner or manager |
| ProductsPage.RowActions | src/modules/products/ProductsPage.jsx:111-117 | actions exist iff the user is an owner or manager; delete is offered iff the user is an owner |
| ProductsPage.RowActionsByRole | src/modules/products/ProductsPage.jsx:107-116 | an owner gets edit and delete, a manager only edit, staff and nobody nothing |
| ProductsPage.ProductsPageState.constructor | src/modules/products/ProductsPage.jsx:16-17 | page 1, empty search |
| ProductsPage.ProductsPageState.EditSearch | src/modules/products/ProductsPage.jsx:131 | the new search text, and page back to 1 |
| ProductsPage.ProductsPageState.ChangePage | src/modules/products/ProductsPage.jsx:144 | the requested page; the search is unchanged |
| ProductsPage.ProductsPageState.Query | src/modules/products/ProductsPage.jsx:27-28 | `page`, `limit` 15, and `search` exactly when the search is non-empty |
| PurchaseOrdersPage.HeaderControls | src/modules/purchaseOrders/PurchaseOrdersPage.jsx:124-142 | the status filter always; "New PO" iff the user is an owner or manager |
| PurchaseOrdersPage.FilterOptionsOrder | src/modules/purchaseOrders/PurchaseOrdersPage.jsx:130-136 | "All Status" selects `''`; then each status appears once, in status order, under its own name |
| PurchaseOrdersPage.OrderRowActions | src/modules/purchaseOrders/PurchaseOrdersPage.jsx:105-116 | view always; delete iff the order is a draft and the user an owner |
| PurchaseOrdersPage.DeleteOnlyDrafts | src/modules/purchaseOrders/PurchaseOrdersPage.jsx:110 | a sent or later order offers only view; whoever can delete can also create |
| PurchaseOrdersPage.ItemsCell | src/modules/purchaseOrders/PurchaseOrdersPage.jsx:81 | the "N item(s)" cell reads back as the number of items |
| PurchaseOrdersPage.PurchaseOrdersPageState.constructor | src/modules/purchaseOrders/PurchaseOrdersPage.jsx:18-19 | page 1, no status filter |
| PurchaseOrdersPage.PurchaseOrdersPageState.SelectStatus | src/modules/purchaseOrders/PurchaseOrdersPage.jsx:127 | the chosen status, and page back to 1 |
| PurchaseOrdersPage.PurchaseOrdersPageState.ChangePage | src/modules/purchaseOrders/PurchaseOrdersPage.jsx:146 | the requested page; the filter is unchanged |
| PurchaseOrdersPage.PurchaseOrdersPageState.Query | src/modules/purchaseOrders/PurchaseOrdersPage.jsx:28-29 | `page`, `limit` 15, and `status` exactly when a status is chosen |
| InventoryPage.HeaderControls | src/modules/inventory/InventoryPage.jsx:81-96 | the type filter always; "Adjust Stock" iff the user is an owner or manager |
| InventoryPage.InventoryPageState.constructor | src/modules/inventory/InventoryPage.jsx:13-21 | page 1, no filter, no products, the initial form (type adjustment, quantity 1, all else empty), nothing selected, dialog closed |
| InventoryPage.InventoryPageState.SelectType | src/modules/inventory/InventoryPage.jsx:83 | the chosen type, and page back to 1; the dialog state is unchanged |
| InventoryPage.InventoryPageState.Query | src/modules/inventory/InventoryPage.jsx:29-30 | `page`, `limit` 25, and `type` exactly when a type is chosen |
| InventoryPage.InventoryPageState.ClickPrev | src/modules/inventory/InventoryPage.jsx:106 | disabled at page ≤ 1, else one page back; never drops below 1; every other field is unchanged |
| InventoryPage.InventoryPageState.ClickNext | src/modules/inventory/InventoryPage.jsx:109 | disabled at page ≥ pages, else one page on; never passes `pages`; every other field is unchanged |
| InventoryPage.InventoryPageState.OpenAdjust | src/modules/inventory/InventoryPage.jsx:43-51 | with the loaded products the dialog opens on them; a failed load changes nothing |
| InventoryPage.InventoryPageState.SelectProduct | src/modules/inventory/InventoryPage.jsx:53-57 | the selected product is the one found by id (or none); the form gets the product id and an empty variant id, and nothing else changes |
| InventoryPage.InventoryPageState.EditQuantity | src/modules/inventory/InventoryPage.jsx:151 | the quantity is the typed number, or 1 for NaN and 0; only the quantity changes |
| InventoryPage.InventoryPageState.FinishAdjust | src/modules/inventory/InventoryPage.jsx:59-74 | on success the dialog closes, the form returns to its initial state and the selection clears; on failure nothing changes |

## Left out

- The server: the stock ledger, the order state machine, receipt atomicity, order
  numbering, tenant isolation and low-stock detection. The client only shows their results.
- Network and session I/O (requests, tokens, the 401 redirect, the socket connection and
  its listener registration). A request's outcome enters the model as a parameter:
  `Confirm(accepted)`, `FinishAdjust(succeeded)`, `OpenAdjust(loaded)`, and the `products`
  given to `UpdateItem`.
- Concurrency: parallel loading, the `submitting` flags, effect scheduling and refetching
  after a write.
- Markup, styling, toasts other than the stock toast's text and icon, navigation, modals
  closed by their close button, and the `confirm()` dialogs before a delete.
- `formatCurrency`, `formatDate` and `formatDateTime`, which wrap `Intl` and `Date`.
- Floating point.
  - Unit prices come from `parseFloat`; here they are integer cents passed directly to
    `SetUnitPrice`.
  - Variant prices stay the raw input text.
  - Stock times price is computed on integers.
- JsNumbers.ParseInt: does not model the loss of precision of numbers beyond 2^53. It also
  does not model `String(n)` switching to exponent notation from 10^21, because integers
  are unbounded here.
- Helpers.StatusColor: a status text naming an inherited object property (`constructor`,
  `toString`) would return that property in JavaScript. The model gives such text the
  default, because the server only sends the six statuses.
- Attributes: JavaScript lists integer-like keys first, in numeric order. The model keeps
  every key in insertion order. Attribute values are strings.
- PurchaseOrderForm.RefId: a populated reference is read by its `_id`. The JavaScript
  fallback to the object itself when `_id` is empty is left out, because the server always
  sends ids.
- DataTable: row keys, header cells and the "Page x of y (z items)" text are left out. A
  cell's value is its text, and a missing field shows as empty text.
- InventoryPage: the variant, type, reference and note inputs are left out. Each is a plain
  `{ ...form, field: value }` with no rule of its own.
- InventoryPage: the type filter's option list is left out. It offers the four movement types and `''`, and the model takes the chosen value as given.
- PurchaseOrderForm: the supplier, notes and date inputs are left out for the same reason.
- Indexes out of range: PurchaseOrderDetail.ReceiveDialog.EditQuantity,
  PurchaseOrderForm.UpdateItem, VariantManager.UpdateVariant, VariantManager.UpdateAttribute,
  VariantManager.AddAttribute and VariantManager.RemoveAttribute require an index in range,
  because their handlers are attached only to rendered rows.
- Role names are the three roles; a user with some other role text is not modelled.
