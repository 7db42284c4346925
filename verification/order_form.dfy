/** The order form a sales representative submits: the requested lines,
    the inline returns, the payment taken on the spot, and the totals the
    form computed. Field validation is the framework's check of the
    declared ranges, run before the order is placed. */
module CreateOrderForm {
  import opened Wrappers
  import opened Domain

  /** The largest value an `int` form field binds to. */
  const Int32Max: int := 0x7fff_ffff

  datatype PaymentMode = Cash | Credit | Card | BankTransfer

  datatype ReturnReason = Expired | Damaged | Other

  /** A requested product line. */
  datatype ItemLine = ItemLine(productId: int, quantity: int, unitPrice: Money, discountPerItem: Money)

  /** A product handed back with the order. */
  datatype ReturnLine = ReturnLine(
    productId: int,
    quantity: int,
    returnReason: ReturnReason,
    customReason: Option<string>,
    returnAmount: Money)

  /** The submitted form. `orderNumber` is `None` when the field was posted
      empty. Shop name, address and the like are display-only and omitted. */
  datatype OrderForm = OrderForm(
    orderNumber: Option<string>,
    shopId: int,
    items: seq<ItemLine>,
    returnLines: seq<ReturnLine>,
    previousCreditAmount: Money,
    subtotal: Money,
    invoiceDiscount: Money,
    totalReturned: Money,
    netTotal: Money,
    todayPayment: Money,
    paymentMode: PaymentMode,
    outstandingBalance: Money,
    notes: Option<string>,
    taxPercentage: int)

  /** The line total: quantity times unit price, less quantity times the
      per-item discount. Without a discount it is the gross amount, and a
      valid line never totals more than its gross amount. */
  function LineTotal(l: ItemLine): (r: Money)
    ensures r == l.quantity * (l.unitPrice - l.discountPerItem)
    ensures l.discountPerItem == 0 ==> r == l.quantity * l.unitPrice
    ensures ValidItemLine(l) ==> r <= l.quantity * l.unitPrice
    ensures ValidItemLine(l) && l.discountPerItem <= l.unitPrice ==> r >= 0
  {
    DiscountedTotal(l.quantity, l.unitPrice, l.discountPerItem);
    (l.quantity * l.unitPrice) - (l.quantity * l.discountPerItem)
  }

  lemma DiscountedTotal(q: int, price: int, discount: int)
    ensures q * price - q * discount == q * (price - discount)
    ensures q >= 1 && discount >= 0 ==> q * price - q * discount <= q * price
    ensures q >= 1 && 0 <= discount <= price ==> q * price - q * discount >= 0
  {
    assert q * price - q * discount == q * (price - discount);
    if q >= 1 && discount >= 0 {
      assert q * discount >= 0;
    }
    if q >= 1 && 0 <= discount <= price {
      assert q * (price - discount) >= 0;
    }
  }

  /** The declared ranges of an order line: Quantity in [1, int.MaxValue],
      UnitPrice at least 0.01, DiscountPerItem not negative. */
  predicate ValidItemLine(l: ItemLine) {
    1 <= l.quantity <= Int32Max && l.unitPrice >= 1 && l.discountPerItem >= 0
  }

  /** The declared ranges of a return line: Quantity in [1, int.MaxValue],
      ReturnAmount not negative, CustomReason at most 200 characters. */
  predicate ValidReturnLine(l: ReturnLine) {
    && 1 <= l.quantity <= Int32Max
    && l.returnAmount >= 0
    && (l.customReason.None? || |l.customReason.value| <= 200)
  }

  /** Every line and return line in range, and Notes at most 500
      characters. */
  predicate ValidForm(f: OrderForm) {
    && (forall i :: 0 <= i < |f.items| ==> ValidItemLine(f.items[i]))
    && (forall i :: 0 <= i < |f.returnLines| ==> ValidReturnLine(f.returnLines[i]))
    && (f.notes.None? || |f.notes.value| <= 500)
  }

  /** The reason stored on a return: the enum name, or for `Other` the
      custom text, "Other" when none was given. */
  function ReasonText(l: ReturnLine): (r: string)
    ensures l.returnReason.Expired? ==> r == "Expired"
    ensures l.returnReason.Damaged? ==> r == "Damaged"
    ensures l.returnReason.Other? && l.customReason.Some? ==> r == l.customReason.value
    ensures l.returnReason.Other? && l.customReason.None? ==> r == "Other"
    ensures |r| > 0 || (l.returnReason.Other? && l.customReason == Some(""))
  {
    match l.returnReason
    case Expired => "Expired"
    case Damaged => "Damaged"
    case Other => l.customReason.GetOr("Other")
  }

  /** The reason kind a stored reason text names, as `Enum.Parse` would
      read it; `None` for free text. */
  function ReasonNamed(text: string): Option<ReturnReason> {
    if text == "Expired" then Some(Expired)
    else if text == "Damaged" then Some(Damaged)
    else if text == "Other" then Some(Other)
    else None
  }

  /** The stored reason text identifies the reason kind unless a custom
      reason was given in its place. */
  lemma ReasonTextNamesReason(l: ReturnLine)
    requires !l.returnReason.Other? || l.customReason.None?
    ensures ReasonNamed(ReasonText(l)) == Some(l.returnReason)
  {
  }

  /** A new order line as the form starts it: no product, quantity 1, no
      price and no discount. */
  function NewItemLine(): ItemLine {
    ItemLine(0, 1, 0, 0)
  }

  /** A new return line as the form starts it. */
  function NewReturnLine(): ReturnLine {
    ReturnLine(0, 1, Damaged, None, 0)
  }

  /** A new form: empty lists, cash payment, every money total zero. */
  function NewForm(): OrderForm {
    OrderForm(Some(""), 0, [], [], 0, 0, 0, 0, 0, 0, PaymentMode.Cash, 0, None, 0)
  }

  /** The form's starting values: a new line has quantity 1 and passes
      validation only once it is given a unit price of at least 0.01; a new
      form pays in cash, holds zero in every total and is valid as it
      stands. */
  lemma Defaults(price: Money)
    ensures NewItemLine().quantity == 1 && NewReturnLine().quantity == 1
    ensures !ValidItemLine(NewItemLine())
    ensures ValidItemLine(NewItemLine().(unitPrice := price)) <==> price >= 1
    ensures ValidReturnLine(NewReturnLine())
    ensures NewForm().paymentMode == PaymentMode.Cash
    ensures var f := NewForm();
      f.previousCreditAmount == 0 && f.subtotal == 0 && f.invoiceDiscount == 0 && f.totalReturned == 0 &&
      f.netTotal == 0 && f.todayPayment == 0 && f.outstandingBalance == 0 && f.taxPercentage == 0
    ensures ValidForm(NewForm())
  {
  }
}
