# DSDRoute order, stock and credit workflow in Dafny

This project models the core of DSDRoute, a distribution sales application.
Sales representatives place orders against shops. An order takes products out
of stock, may carry a payment taken on the spot, and may carry goods handed
back. Each new order reconciles the shop's credit ledger. Administrators
approve and reject orders, verify payments and decide returns. Every action is
gated by a role-to-permission table.

The model is a set of pure transitions over an immutable store (`Domain.Store`):

- Shops are a set of ids and products are a map from id to product.
- Orders, payments, returns and credit bills are append-only sequences. A row's
  id is taken to be its position plus one (see "Identity gaps" below).
- Money is an integer number of cents. Every money column is `decimal(18,2)`,
  and the workflow only adds, subtracts, compares and multiplies money by
  integer quantities (see "Sub-cent and oversized amounts" below).
- Each request is a function that returns `Result<Store, Error>`. A `Failure`
  means the store is exactly as before (`Domain.Commit`). That covers the order
  transaction's rollback as well as the early refusals.
- The signed-in user is a `Caller` with an id and role names.
  - `[RequirePermission(p)]` is `Granted(caller.roles, p)`.
  - `[Authorize(Roles = "Admin,SalesRep")]` is `AdminOrSalesRep`.
  - `[Authorize(Roles = "Admin")]` is `IsAdmin`.
- Model-state validation of entity-bound forms (payment, return) is a
  `formValid` parameter. The order form's declared ranges are modelled
  explicitly (`CreateOrderForm.ValidForm`).
- The shop, product and order foreign keys are modelled where an insert can
  violate them. An order for a missing shop fails, and so does a return for a
  missing shop, product or order. The save throws, and the request fails with
  `ReferenceMissing`. User-id keys are not checked (see "Overposted user ids"
  below).

Modules, one per file:

- `Permissions`, `PermissionExtensions` and `PermissionAuthorization` hold the
  permission table and the permission decision.
- `OrderNumber` (with the helper module `Digits`) is the proposed order number.
- `CreateOrderForm` holds the order form, its line totals, ranges and defaults.
- `CreditLedger` holds the shop balances and their reconciliation.
- `OrderCreation` is the order transaction.
- `OrderStatusFlow` holds approve, reject and deliver.
- `PaymentFlow` covers payments and `ReturnFlow` covers standalone returns.
- `Scenarios` holds worked end-to-end cases.

Behaviour the model keeps as the code has it:

- Approve and Reject accept an order in any status, so Rejected and Delivered
  are not terminal.
- Recording a payment does not look at the order's status. Only the proposal
  screen requires a delivered order.
- The payment form binds the whole `Payment` entity. The stored payment
  therefore keeps whatever `IsVerified` was submitted. A form that does not
  send the field stores an unverified payment.
- In the partial-payment branch the guard `outstanding > 0` always holds
  because the payment is below the net total. The model has no separate branch
  for it.
- The inline returns' null check on the product can never fail after the
  returns' foreign key has been satisfied. The model keeps the check anyway.

## Model

| member | source | states |
|---|---|---|
| Permissions.GetPermissionsForRole | DSDRoute/Models/Permissions.cs:61-64 | every permission returned is one of the declared constants; a role the table does not name gets the empty list |
| Permissions.AdminHoldsEveryPermission | DSDRoute/Models/Permissions.cs:43-52 | the Admin list holds exactly the 24 declared permissions |
| Permissions.UserPermissionsExactly | DSDRoute/Models/Permissions.cs:53-58 | the User list is exactly orders.create, orders.view_own, shops.add, shops.view |
| Permissions.UserWithinAdmin | DSDRoute/Models/Permissions.cs:43-58 | every User permission is an Admin permission; User lacks orders.edit and orders.view_all |
| Permissions.PermissionNamesDistinct | DSDRoute/Models/Permissions.cs:6-39 | the 24 permission strings are pairwise distinct |
| PermissionExtensions.HasPermission | DSDRoute/Services/PermissionExtensions.cs:9-23 | true exactly when some role of the user lists the permission (the scan's invariant: no earlier role lists it) |
| PermissionExtensions.HasPermissionForPrincipal | DSDRoute/Services/PermissionExtensions.cs:25-31 | false when the principal resolves to no user, otherwise the answer for that user's roles |
| PermissionExtensions.GetUserPermissions | DSDRoute/Services/PermissionExtensions.cs:33-48 | the result has no duplicates and holds a permission exactly when some role grants it, so p is in it iff HasPermission says yes |
| PermissionExtensions.AddAll | DSDRoute/Services/PermissionExtensions.cs:40-45 | adding one role's permissions into the collected set keeps it free of duplicates and leaves in it exactly the earlier permissions together with the role's |
| PermissionExtensions.GrantedIffInUnion | DSDRoute/Services/PermissionExtensions.cs:33-48 | holding a permission is membership in the union of the roles' lists |
| PermissionExtensions.AddingRoleKeepsGrants | DSDRoute/Services/PermissionExtensions.cs:13-20 | inserting a role anywhere in a user's roles never revokes a granted permission |
| PermissionExtensions.NoRolesNoPermission | DSDRoute/Services/PermissionExtensions.cs:22 | a user without roles holds no permission |
| PermissionAuthorization.HandleRequirement | DSDRoute/Services/PermissionAuthorizationHandler.cs:19-55 | unauthenticated and unresolved principals fail; otherwise the decision is Succeed iff some role lists the permission, the same condition HasPermission decides |
| OrderNumber.Generate | DSDRoute/Controllers/OrderController.cs:499-507 | "ORD", then the eight-digit date stamp that reads back as the date, then count+1 in at least three digits |
| OrderNumber.ParseGenerate | DSDRoute/Controllers/OrderController.cs:506 | every generated number parses back to the date and the day's count it was made from |
| CreateOrderForm.LineTotal | DSDRoute/Models/ViewModels/CreateOrderViewModel.cs:117 | quantity × (price − discount); equals quantity × price without a discount; a valid line never exceeds quantity × price |
| CreateOrderForm.ReasonText | DSDRoute/Controllers/OrderController.cs:234-236 | Expired and Damaged are stored by name; Other stores the custom reason when one was given and "Other" otherwise |
| CreateOrderForm.ReasonTextNamesReason | DSDRoute/Controllers/OrderController.cs:234-236 | unless a custom reason replaces it, the stored text reads back as the line's reason kind |
| CreateOrderForm.Defaults | DSDRoute/Models/ViewModels/CreateOrderViewModel.cs:53-72 | a new line has quantity 1 and is valid only once priced at 0.01 or more; a new form pays cash, has every total 0, and is valid |
| CreditLedger.SettleShop | DSDRoute/Controllers/OrderController.cs:264-274 | every bill of the shop ends settled with its other fields kept; bills of other shops are untouched |
| CreditLedger.Reconcile | DSDRoute/Controllers/OrderController.cs:254-307 | the shop's bills are settled; no bill is added when the payment covers the net total; otherwise exactly one unsettled bill for net − payment is appended |
| CreditLedger.SettleShopBalances | DSDRoute/Controllers/OrderController.cs:264-274 | after settling, the shop's unsettled sum and count are 0 and every other shop's are unchanged |
| CreditLedger.ReconcileBalances | DSDRoute/Controllers/OrderController.cs:254-307 | after reconciliation the shop has at most one unsettled bill and owes exactly 0 or net − payment; the earlier balance is not carried over; other shops unchanged |
| OrderCreation.KeptItems | DSDRoute/Controllers/OrderController.cs:170 | the kept lines are exactly the lines with positive product id and quantity |
| OrderCreation.KeptItemsCount | DSDRoute/Controllers/OrderController.cs:170 | the filter keeps every qualifying line as many times as it was posted, and no other line, so two identical lines become two order items |
| OrderCreation.KeptItemsAppend | DSDRoute/Controllers/OrderController.cs:170 | the kept lines of two runs of lines are the kept lines of the first followed by those of the second: posted order is preserved |
| OrderCreation.KeptReturnsCount | DSDRoute/Controllers/OrderController.cs:226 | each qualifying return line is kept as many times as it was posted, and no other line |
| OrderCreation.KeptReturnsAppend | DSDRoute/Controllers/OrderController.cs:226 | the return filter distributes over concatenation, preserving posted order |
| OrderCreation.ApplyItems | DSDRoute/Controllers/OrderController.cs:170-196 | succeeds iff every kept line fits the running stock; then each product's stock falls by its kept quantity and never below zero, with one item per kept line priced at the unit price; a failure names a missing product or a shortfall |
| OrderCreation.ApplyReturns | DSDRoute/Controllers/OrderController.cs:226-251 | each product's stock rises by its kept returned quantity; one approved return per kept line, linked to the new order and shop |
| OrderCreation.PaymentTypeFor | DSDRoute/Controllers/OrderController.cs:204-211 | never a credit settlement; Credit only for credit mode; Cash for cash and card |
| OrderCreation.InvoiceFor | DSDRoute/Controllers/OrderController.cs:298 | the form's order number, or "ORD" followed by the order id in plain decimal: digits that read back as the id, with no leading zero unless the id is 0 |
| OrderCreation.Submit | DSDRoute/Controllers/OrderController.cs:152-327 | succeeds iff the lines fit, the shop exists and the returns' products exist; the full stock formula; a pending order by the representative for the net total, with the form's shop, notes, tax and invoice discount and no approver, deliverer or rejection reason; a payment iff one was taken; the returns; the reconciled ledger |
| OrderCreation.CreateOrder | DSDRoute/Controllers/OrderController.cs:144-151 | refused without orders.create or with an invalid form; otherwise the transaction runs as the caller |
| OrderCreation.UnkeptLineIsInert | DSDRoute/Controllers/OrderController.cs:170 | a skipped line inserted anywhere among the lines changes nothing |
| OrderCreation.SubmitIgnoresUnkeptLine | DSDRoute/Controllers/OrderController.cs:170 | the same for the whole transaction |
| OrderCreation.CreateOrderRollsBack | DSDRoute/Controllers/OrderController.cs:173-184 | a missing product or a shortfall fails the creation and leaves the store exactly as before |
| OrderCreation.FitWithinStock | DSDRoute/Controllers/OrderController.cs:180-184 | lines that go through never ask more of a product than its stock |
| OrderCreation.StockAfterBounds | DSDRoute/Controllers/OrderController.cs:170-250 | for lines that fit, a product no kept line or return names keeps its record, and a product taken from ends at least at what its returns put back |
| OrderCreation.CreateOrderStock | DSDRoute/Controllers/OrderController.cs:170-250 | a permitted caller with a valid form whose lines fit, whose shop exists and whose returns resolve creates the order; a product no kept line or return names is then unchanged, and a product taken from never ends below what its returns put back |
| OrderCreation.CreateOrderLedger | DSDRoute/Controllers/OrderController.cs:254-307 | every bill the shop had is settled, other shops' bills untouched, and the shop owes exactly 0 or net − payment through at most one new bill |
| OrderCreation.CreateOrderPayment | DSDRoute/Controllers/OrderController.cs:202-222 | exactly one payment iff the payment taken is positive: verified, recorded by the caller, for the new order and the form's amount |
| OrderStatusFlow.Approve | DSDRoute/Controllers/OrderController.cs:353-379 | from any status, an existing order becomes Approved by the caller; only its status and approver change |
| OrderStatusFlow.Reject | DSDRoute/Controllers/OrderController.cs:383-409 | from any status, an existing order becomes Rejected with the reason; stock, items, payments, returns and bills are untouched |
| OrderStatusFlow.MarkDelivered | DSDRoute/Controllers/OrderController.cs:413-457 | changes an order iff the caller holds orders.view_all or owns it and the order is Approved; then Delivered by the caller, nothing else changed |
| OrderStatusFlow.ApproveThenDeliver | DSDRoute/Controllers/OrderController.cs:353-439 | an owner holding orders.edit can approve and then deliver an order whatever its starting status |
| OrderStatusFlow.DeliverOnce | DSDRoute/Controllers/OrderController.cs:413-457 | a caller who may edit orders delivers any approved order, and a second delivery of the same order is refused as not approved |
| OrderStatusFlow.EditImpliesViewAll | DSDRoute/Models/Permissions.cs:43-58 | with the shipped table, holding orders.edit implies holding orders.view_all, so MarkDelivered's ownership check never refuses |
| PaymentFlow.ProposePayment | DSDRoute/Controllers/PaymentController.cs:75-121 | proposes exactly the remaining balance, only for a delivered order with a positive balance that the caller may pay for |
| PaymentFlow.RecordPayment | DSDRoute/Controllers/PaymentController.cs:126-190 | stores the submitted payment, recorded by the caller, iff the caller may pay, the form is valid and the amount is within the remaining balance; otherwise nothing is added |
| PaymentFlow.RecordPaymentBalance | DSDRoute/Controllers/PaymentController.cs:148-161 | the amount is added to the order's paid total, the balance stays non-negative, paying exactly the balance clears it, other orders are unaffected |
| PaymentFlow.RecordPaymentKeepsWithinTotals | DSDRoute/Controllers/PaymentController.cs:148-161 | recording payments preserves "no order is paid beyond its total" |
| PaymentFlow.RecordIgnoresStatus | DSDRoute/Controllers/PaymentController.cs:133-161 | whether a payment is accepted does not depend on the order's status |
| PaymentFlow.VerifyPayment | DSDRoute/Controllers/PaymentController.cs:194-220 | an administrator marks an existing payment verified by themselves; that payment differs from before only in those two fields, and other payments are unchanged |
| PaymentFlow.VerifyIdempotent | DSDRoute/Controllers/PaymentController.cs:203-205 | verification changes no paid total, and verifying again gives the same store |
| ReturnFlow.CreateReturn | DSDRoute/Controllers/ReturnController.cs:114-185 | refuses another rep's order for non-admins; stores the return as Pending, processed by the caller, and raises the product's stock by the quantity |
| ReturnFlow.ApproveReturn | DSDRoute/Controllers/ReturnController.cs:189-221 | from any status, the return becomes Approved by the caller and differs from before only in those two fields; other returns and stock untouched |
| ReturnFlow.RejectReturn | DSDRoute/Controllers/ReturnController.cs:225-264 | from any status, the return becomes Rejected with the reason and the product's stock falls by the quantity, with no floor |
| ReturnFlow.CreateThenRejectRestoresStock | DSDRoute/Controllers/ReturnController.cs:139-144 | filing a return and rejecting it leaves every product as it was |
| ReturnFlow.RejectTwiceLowersTwice | DSDRoute/Controllers/ReturnController.cs:236-245 | rejecting twice takes the quantity out of stock twice |
| ReturnFlow.ApproveIdempotent | DSDRoute/Controllers/ReturnController.cs:200-202 | approving leaves stock alone and approving again changes nothing |
| Scenarios.FullPayment | DSDRoute/Controllers/OrderController.cs:156-275 | five units at 2.00 paid in full: stock 20 → 15, a pending order of 10.00, one verified payment of 10.00, no credit bill |
| Scenarios.PartialPayment | DSDRoute/Controllers/OrderController.cs:276-307 | the same order paying 4.00 leaves one unsettled bill of 6.00 |
| Scenarios.PriorBillRolledForward | DSDRoute/Controllers/OrderController.cs:276-307 | an earlier unsettled bill of 5.00 is settled and the shop owes 6.00, not 11.00 |
| Scenarios.RunningStockShortfall | DSDRoute/Controllers/OrderController.cs:170-184 | two lines of 15 and 10 against 20 in stock fail on the second, which sees only 5 |
| Scenarios.InlinePaymentUncapped | DSDRoute/Controllers/OrderController.cs:202-222 | a payment of 15.00 on a 10.00 order goes through, so the order is paid beyond its total |

## Left out

- Notifications: the SignalR messages sent after each action are fire-and-forget. They change no stored state.
- Timestamps: order, approval, delivery, payment, verification, return and settlement dates come from the clock. They are not modelled. `GenerateOrderNumber` takes the date and the day's order count as parameters.
- Credit bill notes: the free-text audit notes appended to credit bills are not modelled.
- Other unmodelled fields: delivery date, shop display fields, and `Payment.PaymentDate`.
- Concurrency: two simultaneous orders can both pass a stock check. The model is sequential.
- Stock bounds: stock is an unbounded integer. The 32-bit wrap-around of `StockQty` arithmetic is not modelled.
- Database column limits: the 50-character limit on a credit bill's invoice id and the 500-character limit on its notes are not modelled. Both are enforced by the database column, not by the code.
- Unresolved users: when the signed-in user resolves to nobody, the permission handler refuses the permission-gated actions and the payment and return creation screens return a challenge, before any modelled logic runs. The Admin-role actions (payment Verify, return Approve and Reject) never resolve the user: they write the claim's user id straight into the verifier or approver column. The model always takes the caller's id as a resolved user's id, so a claim id with no user row behind it is not modelled.
- Overposted user ids: the payment and return creation screens bind the whole posted entity. A posted `VerifiedById` on a payment, or a posted `ApprovedById` on a return, is stored as sent (`PaymentFlow.RecordPayment`, `ReturnFlow.CreateReturn`). Both are user foreign keys, so in the database an id that names no user makes the save throw. The model holds no user table and accepts any such id.
- Calendar: the order number's date stamp is formatted with the server culture's calendar. The model writes the Gregorian `Date` it is given, so a server whose default culture uses another calendar (Thai Buddhist, Hijri) would write another year.
- Identity gaps: a row's id is modelled as its position plus one. In the database, the order transaction saves the order before its later steps (OrderController.cs lines 198-199), and a later failure rolls the rows back but not the identity values consumed, so later ids skip. The model numbers rows densely.
- Sub-cent and oversized amounts: form values are taken as whole cents within range. The order form's decimal fields can carry digits below the cent and are compared before they are stored (for example `TodayPayment < NetTotal`), and a value beyond `decimal(18,2)` makes the save throw. Neither is modelled.
- Framework validation: the framework's implicit validation of non-nullable reference properties and navigation properties is left out. For the payment and return forms it is a `formValid` parameter. For the order form only the declared ranges are modelled.
- Previous credit: `totalPreviousCredit` is computed in order creation and never used. The form's previous credit, subtotal, discount, returned and outstanding totals are carried but not recomputed. The code trusts the submitted net total.
- The SalesRep role: `[Authorize(Roles = "Admin,SalesRep")]` is modelled as role membership. The seeded table names only Admin and User roles, so a plain User does not pass that gate.
- Other controllers: listing, printing and API endpoints, and the shop, product, user, account and admin controllers, are not part of this model.
- PaymentFlow.RecordPayment: does not promise an unverified payment. It keeps whatever `IsVerified` value the bound form carried, and an ordinary form leaves it false.
- OrderCreation.ApplyItems: the failure contract names the failing product and bounds the available stock it reports. It does not say which line failed first.
