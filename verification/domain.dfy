/** The persisted entities and the store that holds them.

    Money is an integer number of cents: every money column is
    `decimal(18,2)` and the workflow only adds, subtracts, compares and
    multiplies money by integer quantities. Form values with digits below
    the cent, or beyond the column's range, are not represented.

    Shops and products are created by screens outside this model, so they
    are held by id. Orders, payments, returns and credit bills are only ever
    appended by the workflow, so each table is a sequence and a row's id is
    taken to be its position + 1. The database's identity values can skip
    after a rolled-back insert; the model numbers rows densely instead. */
module Domain {
  import opened Wrappers

  type UserId = string
  type Money = int

  datatype OrderStatus = Pending | Approved | InvoiceGenerated | Delivered | Cancelled | Rejected

  datatype PaymentType = Cash | Cheque | Credit | CreditSettlement

  datatype ReturnStatus = Pending | Approved | Rejected | Processed

  datatype Product = Product(name: string, sku: string, price: Money, stockQty: int, isActive: bool)

  /** A line of an order: the product, how many, and the unit price at the
      time of sale. */
  datatype OrderItem = OrderItem(productId: int, quantity: int, price: Money)

  /** An order with the items it owns. The tax percentage is kept in
      hundredths of a percent; timestamps are not modelled. */
  datatype Order = Order(
    shopId: int,
    salesRepId: UserId,
    status: OrderStatus,
    totalAmount: Money,
    taxPercentage: int,
    invoiceDiscount: Money,
    notes: Option<string>,
    items: seq<OrderItem>,
    approvedBy: Option<UserId>,
    deliveredById: Option<UserId>,
    rejectionReason: Option<string>)

  datatype Payment = Payment(
    orderId: int,
    amount: Money,
    paymentType: PaymentType,
    chequeNumber: Option<string>,
    notes: Option<string>,
    recordedById: Option<UserId>,
    isVerified: bool,
    verifiedById: Option<UserId>)

  /** A return of goods; `orderId` is `None` for a return not linked to an
      order. */
  datatype Return = Return(
    shopId: int,
    productId: int,
    orderId: Option<int>,
    quantity: int,
    reason: string,
    processedById: Option<UserId>,
    status: ReturnStatus,
    refundAmount: Option<Money>,
    approvedById: Option<UserId>,
    rejectionReason: Option<string>)

  /** An outstanding balance of a shop. The free-text audit notes and the
      created / settled timestamps are not modelled. */
  datatype CreditBill = CreditBill(
    shopId: int,
    invoiceId: string,
    salesRepId: UserId,
    creditAmount: Money,
    isSettled: bool)

  datatype Store = Store(
    shops: set<int>,
    products: map<int, Product>,
    orders: seq<Order>,
    payments: seq<Payment>,
    returnRecords: seq<Return>,
    creditBills: seq<CreditBill>)

  /** The signed-in user a request runs as: their id and role names. */
  datatype Caller = Caller(id: UserId, roles: seq<string>)

  /** Why a request changed nothing. */
  datatype Error =
    | NotFound
    | Forbidden
    | Invalid
    | ProductNotFound(productId: int)
    | InsufficientStock(productId: int, available: int, requested: int)
    | ReferenceMissing
    | NotApproved
    | NotDelivered
    | FullyPaid
    | ExceedsBalance(remaining: Money)

  /** `IsInRoleAsync(user, role)`. */
  predicate InRole(c: Caller, role: string) {
    role in c.roles
  }

  predicate IsAdmin(c: Caller) {
    InRole(c, "Admin")
  }

  /** `[Authorize(Roles = "Admin,SalesRep")]`. */
  predicate AdminOrSalesRep(c: Caller) {
    InRole(c, "Admin") || InRole(c, "SalesRep")
  }

  /** The store once a request has finished: the request's new store when
      it succeeded, and the store it started from when it failed, since a
      failed request rolls back or never writes. */
  function Commit(s: Store, r: Result<Store, Error>): (t: Store)
    ensures r.Failure? ==> t == s
    ensures r.Success? ==> t == r.value
  {
    if r.Success? then r.value else s
  }

  predicate HasOrder(s: Store, id: int) {
    1 <= id <= |s.orders|
  }

  function OrderAt(s: Store, id: int): Order
    requires HasOrder(s, id)
  {
    s.orders[id - 1]
  }

  function WithOrder(s: Store, id: int, o: Order): (r: Store)
    requires HasOrder(s, id)
    ensures HasOrder(r, id) && OrderAt(r, id) == o
    ensures |r.orders| == |s.orders|
    ensures forall k :: HasOrder(s, k) && k != id ==> OrderAt(r, k) == OrderAt(s, k)
    ensures r.(orders := s.orders) == s
  {
    s.(orders := s.orders[id - 1 := o])
  }

  predicate HasPayment(s: Store, id: int) {
    1 <= id <= |s.payments|
  }

  predicate HasReturn(s: Store, id: int) {
    1 <= id <= |s.returnRecords|
  }

  /** The product with its stock moved by `delta`; other products and every
      other field are untouched. */
  function AdjustStock(products: map<int, Product>, id: int, delta: int): (r: map<int, Product>)
    requires id in products
    ensures r.Keys == products.Keys
    ensures r[id] == products[id].(stockQty := products[id].stockQty + delta)
    ensures forall k :: k in products && k != id ==> r[k] == products[k]
  {
    products[id := products[id].(stockQty := products[id].stockQty + delta)]
  }
}
