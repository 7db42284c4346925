/** Order creation: one all-or-nothing transaction that places the order,
    takes its lines out of stock, records the payment taken on the spot,
    books the returns handed back with it, and reconciles the shop's credit
    ledger. Any failure leaves the store as it was: the result is then a
    `Failure`, and the store the caller holds is the one it passed in. */
module OrderCreation {
  import opened Wrappers
  import opened Domain
  import opened Digits
  import opened Permissions
  import opened PermissionExtensions
  import opened CreateOrderForm
  import opened CreditLedger

  /** The order lines the transaction acts on: positive product id and
      positive quantity. Other lines are skipped. */
  predicate KeptItem(l: ItemLine) {
    l.productId > 0 && l.quantity > 0
  }

  /** The return lines the transaction acts on, by the same rule. */
  predicate KeptReturn(l: ReturnLine) {
    l.productId > 0 && l.quantity > 0
  }

  /** The kept order lines, in order. */
  function KeptItems(lines: seq<ItemLine>): (r: seq<ItemLine>)
    ensures forall l :: l in r <==> l in lines && KeptItem(l)
    ensures |r| <= |lines|
  {
    if |lines| == 0 then []
    else
      var l := lines[|lines| - 1];
      KeptItems(lines[..|lines| - 1]) + (if KeptItem(l) then [l] else [])
  }

  /** The kept return lines, in order. */
  function KeptReturns(lines: seq<ReturnLine>): (r: seq<ReturnLine>)
    ensures forall l :: l in r <==> l in lines && KeptReturn(l)
    ensures |r| <= |lines|
  {
    if |lines| == 0 then []
    else
      var l := lines[|lines| - 1];
      KeptReturns(lines[..|lines| - 1]) + (if KeptReturn(l) then [l] else [])
  }

  /** One more posted line is kept, at the end, exactly when it qualifies. */
  lemma KeptItemsSnoc(lines: seq<ItemLine>, l: ItemLine)
    ensures KeptItems(lines + [l]) == KeptItems(lines) + (if KeptItem(l) then [l] else [])
  {
    assert (lines + [l])[..|lines|] == lines;
  }

  /** The filter neither drops nor duplicates a kept order line: each
      qualifying line occurs in the result exactly as often as it was
      posted, and any other line not at all. */
  lemma {:induction false} KeptItemsCount(lines: seq<ItemLine>, l: ItemLine)
    ensures multiset(KeptItems(lines))[l] == if KeptItem(l) then multiset(lines)[l] else 0
    decreases |lines|
  {
    if |lines| > 0 {
      var n := |lines| - 1;
      assert lines == lines[..n] + [lines[n]];
      KeptItemsSnoc(lines[..n], lines[n]);
      KeptItemsCount(lines[..n], l);
    }
  }

  /** Filtering distributes over concatenation: the kept lines of `a + b`
      are the kept lines of `a` followed by those of `b`, so the filter
      keeps the lines in their posted order. */
  lemma {:induction false} KeptItemsAppend(a: seq<ItemLine>, b: seq<ItemLine>)
    ensures KeptItems(a + b) == KeptItems(a) + KeptItems(b)
    decreases |b|
  {
    if |b| == 0 {
      assert a + b == a;
    } else {
      var n := |b| - 1;
      var l := b[n];
      assert a + b == (a + b[..n]) + [l];
      assert b == b[..n] + [l];
      KeptItemsSnoc(a + b[..n], l);
      KeptItemsSnoc(b[..n], l);
      KeptItemsAppend(a, b[..n]);
    }
  }

  /** One more posted return line is kept, at the end, exactly when it
      qualifies. */
  lemma KeptReturnsSnoc(lines: seq<ReturnLine>, l: ReturnLine)
    ensures KeptReturns(lines + [l]) == KeptReturns(lines) + (if KeptReturn(l) then [l] else [])
  {
    assert (lines + [l])[..|lines|] == lines;
  }

  /** The filter neither drops nor duplicates a kept return line: each
      qualifying line occurs in the result exactly as often as it was
      posted, and any other line not at all. */
  lemma {:induction false} KeptReturnsCount(lines: seq<ReturnLine>, l: ReturnLine)
    ensures multiset(KeptReturns(lines))[l] == if KeptReturn(l) then multiset(lines)[l] else 0
    decreases |lines|
  {
    if |lines| > 0 {
      var n := |lines| - 1;
      assert lines == lines[..n] + [lines[n]];
      KeptReturnsSnoc(lines[..n], lines[n]);
      KeptReturnsCount(lines[..n], l);
    }
  }

  /** The same distribution for the return lines. */
  lemma {:induction false} KeptReturnsAppend(a: seq<ReturnLine>, b: seq<ReturnLine>)
    ensures KeptReturns(a + b) == KeptReturns(a) + KeptReturns(b)
    decreases |b|
  {
    if |b| == 0 {
      assert a + b == a;
    } else {
      var n := |b| - 1;
      var l := b[n];
      assert a + b == (a + b[..n]) + [l];
      assert b == b[..n] + [l];
      KeptReturnsSnoc(a + b[..n], l);
      KeptReturnsSnoc(b[..n], l);
      KeptReturnsAppend(a, b[..n]);
    }
  }

  /** The total quantity the kept order lines ask of one product. */
  function KeptQty(lines: seq<ItemLine>, productId: int): (r: int)
    ensures r >= 0
  {
    if |lines| == 0 then 0
    else
      var l := lines[|lines| - 1];
      KeptQty(lines[..|lines| - 1], productId) + (if KeptItem(l) && l.productId == productId then l.quantity else 0)
  }

  /** The total quantity the kept return lines give back of one product. */
  function ReturnedQty(lines: seq<ReturnLine>, productId: int): (r: int)
    ensures r >= 0
  {
    if |lines| == 0 then 0
    else
      var l := lines[|lines| - 1];
      ReturnedQty(lines[..|lines| - 1], productId) + (if KeptReturn(l) && l.productId == productId then l.quantity else 0)
  }

  /** The reference condition for the order lines to go through: every kept
      line names an existing product whose stock, after the kept lines up to
      and including this one have been taken, is not negative. Each line is
      checked against the running stock, so lines naming the same product
      add up. */
  predicate LinesFit(products: map<int, Product>, lines: seq<ItemLine>) {
    forall i :: 0 <= i < |lines| && KeptItem(lines[i]) ==>
      lines[i].productId in products &&
      KeptQty(lines[..i + 1], lines[i].productId) <= products[lines[i].productId].stockQty
  }

  /** Every kept return line names an existing product; a return row for a
      missing product violates its foreign key and the save throws. */
  predicate ReturnsResolve(products: map<int, Product>, lines: seq<ReturnLine>) {
    forall i :: 0 <= i < |lines| && KeptReturn(lines[i]) ==> lines[i].productId in products
  }

  /** The order item a kept line becomes: its product, its quantity, and its
      unit price as the sale price. */
  function ToItem(l: ItemLine): OrderItem {
    OrderItem(l.productId, l.quantity, l.unitPrice)
  }

  /** The products and order items once the order lines are applied. */
  datatype Staged = Staged(products: map<int, Product>, items: seq<OrderItem>)

  /** A fit line sequence stays fit when its last line is dropped, and the
      last line fits on top of the others exactly when its product exists
      and the running total is within stock. */
  lemma LinesFitSplit(products: map<int, Product>, lines: seq<ItemLine>)
    requires |lines| > 0
    ensures var init, l := lines[..|lines| - 1], lines[|lines| - 1];
      LinesFit(products, lines) <==>
        LinesFit(products, init) &&
        (KeptItem(l) ==> l.productId in products && KeptQty(lines, l.productId) <= products[l.productId].stockQty)
  {
    var init := lines[..|lines| - 1];
    forall i | 0 <= i < |init|
      ensures lines[i] == init[i] && lines[..i + 1] == init[..i + 1]
    {
    }
    assert lines[..|lines|] == lines;
  }

  /** Applies the order lines in order, skipping lines that are not kept.
      Each kept line is looked up in the products as updated so far: a
      missing product or a shortfall against the running stock stops the
      whole transaction; otherwise the stock falls by the line's quantity
      and an order item is added. */
  function ApplyItems(products: map<int, Product>, lines: seq<ItemLine>): (r: Result<Staged, Error>)
    ensures r.Success? <==> LinesFit(products, lines)
    ensures r.Success? ==> r.value.products.Keys == products.Keys
    ensures r.Success? ==> forall k :: k in products ==>
      r.value.products[k] == products[k].(stockQty := products[k].stockQty - KeptQty(lines, k))
    ensures r.Success? ==> forall k :: k in products && KeptQty(lines, k) > 0 ==> r.value.products[k].stockQty >= 0
    ensures r.Success? ==> |r.value.items| == |KeptItems(lines)|
    ensures r.Success? ==> forall j :: 0 <= j < |r.value.items| ==> r.value.items[j] == ToItem(KeptItems(lines)[j])
    ensures r.Failure? ==>
      || (r.error.ProductNotFound? && r.error.productId !in products)
      || (r.error.InsufficientStock? && r.error.productId in products &&
          r.error.available < r.error.requested && r.error.available <= products[r.error.productId].stockQty)
  {
    if |lines| == 0 then Success(Staged(products, []))
    else
      LinesFitSplit(products, lines);
      ApplyItem(ApplyItems(products, lines[..|lines| - 1]), lines[|lines| - 1])
  }

  /** One step of the fold: a failure stays a failure, a line that is not
      kept changes nothing, and a kept line is checked against the stock as
      updated so far and then taken out of it. */
  function ApplyItem(prev: Result<Staged, Error>, l: ItemLine): Result<Staged, Error> {
    if prev.Failure? then prev
    else if !KeptItem(l) then prev
    else if l.productId !in prev.value.products then Failure(ProductNotFound(l.productId))
    else
      var stock := prev.value.products[l.productId].stockQty;
      if stock < l.quantity then Failure(InsufficientStock(l.productId, stock, l.quantity))
      else Success(Staged(AdjustStock(prev.value.products, l.productId, -l.quantity), prev.value.items + [ToItem(l)]))
  }

  /** The products and return rows once the return lines are applied. */
  datatype Restocked = Restocked(products: map<int, Product>, records: seq<Return>)

  /** The return row an inline return line becomes: approved on the spot,
      linked to the new order and its shop, processed by the representative,
      refunding the line's amount. */
  function InlineReturn(l: ReturnLine, shopId: int, orderId: int, rep: UserId): Return {
    Return(shopId, l.productId, Some(orderId), l.quantity, ReasonText(l), Some(rep),
           ReturnStatus.Approved, Some(l.returnAmount), None, None)
  }

  /** Applies the inline returns in order: each kept line adds a return row,
      and puts its quantity back into stock when its product exists. */
  function ApplyReturns(products: map<int, Product>, lines: seq<ReturnLine>, shopId: int, orderId: int, rep: UserId)
    : (r: Restocked)
    ensures r.products.Keys == products.Keys
    ensures forall k :: k in products ==>
      r.products[k] == products[k].(stockQty := products[k].stockQty + ReturnedQty(lines, k))
    ensures |r.records| == |KeptReturns(lines)|
    ensures forall j :: 0 <= j < |r.records| ==> r.records[j] == InlineReturn(KeptReturns(lines)[j], shopId, orderId, rep)
  {
    if |lines| == 0 then Restocked(products, [])
    else
      var init, l := lines[..|lines| - 1], lines[|lines| - 1];
      var prev := ApplyReturns(products, init, shopId, orderId, rep);
      if !KeptReturn(l) then prev
      else
        var records := prev.records + [InlineReturn(l, shopId, orderId, rep)];
        if l.productId in prev.products then
          Restocked(AdjustStock(prev.products, l.productId, l.quantity), records)
        else
          Restocked(prev.products, records)
  }

  /** The payment type recorded for the form's payment mode: a card counts
      as cash and a bank transfer as a cheque. */
  function PaymentTypeFor(mode: PaymentMode): (r: PaymentType)
    ensures r != PaymentType.CreditSettlement
    ensures r == PaymentType.Credit <==> mode == PaymentMode.Credit
    ensures r == PaymentType.Cash <==> mode == PaymentMode.Cash || mode == PaymentMode.Card
  {
    match mode
    case Cash => PaymentType.Cash
    case Credit => PaymentType.Credit
    case Card => PaymentType.Cash
    case BankTransfer => PaymentType.Cheque
  }

  /** The invoice a new credit bill is tagged with: the form's order number,
      or "ORD" followed by the new order's id when the form posted none,
      written in plain decimal with no leading zeros. */
  function InvoiceFor(f: OrderForm, orderId: nat): (r: string)
    ensures f.orderNumber.Some? ==> r == f.orderNumber.value
    ensures f.orderNumber.None? ==> |r| > 3 && r[..3] == "ORD" && AllDigits(r[3..]) && Value(r[3..]) == orderId
    ensures f.orderNumber.None? && r[3] == '0' ==> orderId == 0 && |r| == 4
  {
    match f.orderNumber
    case Some(n) => n
    case None =>
      var digits := Decimal(orderId);
      assert ("ORD" + digits)[3..] == digits;
      "ORD" + digits
  }

  /** The new order as created: pending, owned by the representative, for
      the form's shop and priced at its net total, carrying the form's tax
      percentage, invoice discount and notes, and not yet approved,
      delivered or rejected. */
  function NewOrder(f: OrderForm, rep: UserId, items: seq<OrderItem>): Order {
    Order(f.shopId, rep, OrderStatus.Pending, f.netTotal, f.taxPercentage, f.invoiceDiscount,
          f.notes, items, None, None, None)
  }

  /** The payment taken with the order: verified on the spot and recorded by
      the representative. */
  function InlinePayment(f: OrderForm, orderId: int, rep: UserId): Payment {
    Payment(orderId, f.todayPayment, PaymentTypeFor(f.paymentMode), None, None, Some(rep), true, None)
  }

  /** The stock of a product after a successful creation: its kept lines
      taken out, its kept returns put back. */
  function StockAfter(p: Product, f: OrderForm, productId: int): Product {
    p.(stockQty := p.stockQty - KeptQty(f.items, productId) + ReturnedQty(f.returnLines, productId))
  }

  /** The transaction body, for a validated form submitted by `rep`. The
      order lines are applied first; then the order is saved, which fails
      when the shop does not exist; then the payment, the inline returns
      and the ledger reconciliation are saved together, which fails when a
      return names a missing product. */
  function Submit(s: Store, rep: UserId, f: OrderForm): (r: Result<Store, Error>)
    ensures r.Success? <==> LinesFit(s.products, f.items) && f.shopId in s.shops && ReturnsResolve(s.products, f.returnLines)
    ensures !LinesFit(s.products, f.items) ==> r.Failure? && (r.error.ProductNotFound? || r.error.InsufficientStock?)
    ensures LinesFit(s.products, f.items) && !(f.shopId in s.shops && ReturnsResolve(s.products, f.returnLines)) ==>
      r == Failure(ReferenceMissing)
    ensures r.Success? ==> r.value.shops == s.shops && r.value.products.Keys == s.products.Keys
    ensures r.Success? ==> forall k :: k in s.products ==> r.value.products[k] == StockAfter(s.products[k], f, k)
    ensures r.Success? ==>
      var id := |s.orders| + 1;
      && |r.value.orders| == id
      && r.value.orders[..|s.orders|] == s.orders
      && OrderAt(r.value, id) == NewOrder(f, rep, OrderAt(r.value, id).items)
      && |OrderAt(r.value, id).items| == |KeptItems(f.items)|
      && (forall j :: 0 <= j < |KeptItems(f.items)| ==> OrderAt(r.value, id).items[j] == ToItem(KeptItems(f.items)[j]))
    ensures r.Success? && f.todayPayment > 0 ==>
      r.value.payments == s.payments + [InlinePayment(f, |s.orders| + 1, rep)]
    ensures r.Success? && f.todayPayment <= 0 ==> r.value.payments == s.payments
    ensures r.Success? ==>
      && |r.value.returnRecords| == |s.returnRecords| + |KeptReturns(f.returnLines)|
      && r.value.returnRecords[..|s.returnRecords|] == s.returnRecords
      && (forall j :: 0 <= j < |KeptReturns(f.returnLines)| ==>
            r.value.returnRecords[|s.returnRecords| + j] ==
            InlineReturn(KeptReturns(f.returnLines)[j], f.shopId, |s.orders| + 1, rep))
    ensures r.Success? ==>
      r.value.creditBills ==
      Reconcile(s.creditBills, f.shopId, InvoiceFor(f, |s.orders| + 1), rep, f.netTotal, f.todayPayment)
  {
    var staged := ApplyItems(s.products, f.items);
    if staged.Failure? then Failure(staged.error)
    else if f.shopId !in s.shops then Failure(ReferenceMissing)
    else if !ReturnsResolve(s.products, f.returnLines) then Failure(ReferenceMissing)
    else
      var orderId := |s.orders| + 1;
      var order := NewOrder(f, rep, staged.value.items);
      var payments := if f.todayPayment > 0 then s.payments + [InlinePayment(f, orderId, rep)] else s.payments;
      var restocked := ApplyReturns(staged.value.products, f.returnLines, f.shopId, orderId, rep);
      var bills := Reconcile(s.creditBills, f.shopId, InvoiceFor(f, orderId), rep, f.netTotal, f.todayPayment);
      Success(Store(s.shops, restocked.products, s.orders + [order], payments,
                    s.returnRecords + restocked.records, bills))
  }

  /** POST Create: callers without orders.create are refused, a form that
      fails validation is refused, and otherwise the transaction runs as the
      caller. */
  function CreateOrder(s: Store, caller: Caller, f: OrderForm): (r: Result<Store, Error>)
    ensures !Granted(caller.roles, OrdersCreate) ==> r == Failure(Forbidden)
    ensures Granted(caller.roles, OrdersCreate) && !ValidForm(f) ==> r == Failure(Invalid)
    ensures r.Success? <==>
      Granted(caller.roles, OrdersCreate) && ValidForm(f) &&
      LinesFit(s.products, f.items) && f.shopId in s.shops && ReturnsResolve(s.products, f.returnLines)
    ensures r.Success? ==> r == Submit(s, caller.id, f)
  {
    if !Granted(caller.roles, OrdersCreate) then Failure(Forbidden)
    else if !ValidForm(f) then Failure(Invalid)
    else Submit(s, caller.id, f)
  }

  lemma ApplyItemsUnfold(products: map<int, Product>, lines: seq<ItemLine>)
    requires |lines| > 0
    ensures ApplyItems(products, lines) == ApplyItem(ApplyItems(products, lines[..|lines| - 1]), lines[|lines| - 1])
  {
  }

  /** A line that is not kept, inserted anywhere among the order lines,
      changes nothing: not the outcome, not the stock, not the items. */
  lemma {:induction false} UnkeptLineIsInert(products: map<int, Product>, a: seq<ItemLine>, l: ItemLine, b: seq<ItemLine>)
    requires !KeptItem(l)
    ensures ApplyItems(products, a + [l] + b) == ApplyItems(products, a + b)
    decreases |b|
  {
    var x, y := a + [l] + b, a + b;
    if |b| == 0 {
      assert x[..|x| - 1] == a && x[|x| - 1] == l;
      assert ApplyItems(products, x) == ApplyItem(ApplyItems(products, a), l);
      assert y == a;
    } else {
      var init := b[..|b| - 1];
      UnkeptLineIsInert(products, a, l, init);
      assert x[..|x| - 1] == a + [l] + init && x[|x| - 1] == b[|b| - 1];
      assert y[..|y| - 1] == a + init && y[|y| - 1] == b[|b| - 1];
      ApplyItemsUnfold(products, x);
      ApplyItemsUnfold(products, y);
    }
  }

  /** The same holds for the whole transaction. */
  lemma SubmitIgnoresUnkeptLine(s: Store, rep: UserId, f: OrderForm, a: seq<ItemLine>, l: ItemLine, b: seq<ItemLine>)
    requires !KeptItem(l)
    ensures Submit(s, rep, f.(items := a + [l] + b)) == Submit(s, rep, f.(items := a + b))
  {
    UnkeptLineIsInert(s.products, a, l, b);
  }

  /** Full rollback: when a kept line names a missing product or asks for
      more than the running stock, creation fails and the store is exactly
      as it was; once the caller and the form pass, the failure names the
      product at fault. */
  lemma CreateOrderRollsBack(s: Store, caller: Caller, f: OrderForm)
    requires !LinesFit(s.products, f.items)
    ensures CreateOrder(s, caller, f).Failure?
    ensures Commit(s, CreateOrder(s, caller, f)) == s
    ensures Granted(caller.roles, OrdersCreate) && ValidForm(f) ==>
      var e := CreateOrder(s, caller, f).error;
      (e.ProductNotFound? && e.productId !in s.products) ||
      (e.InsufficientStock? && e.productId in s.products && e.available < e.requested)
  {
    if Granted(caller.roles, OrdersCreate) && ValidForm(f) {
      assert ApplyItems(s.products, f.items).Failure?;
    }
  }

  /** Lines that do not name a product contribute nothing to its quantity. */
  lemma {:induction false} KeptQtyAbsent(lines: seq<ItemLine>, productId: int)
    requires forall i :: 0 <= i < |lines| && KeptItem(lines[i]) ==> lines[i].productId != productId
    ensures KeptQty(lines, productId) == 0
  {
    if |lines| > 0 {
      KeptQtyAbsent(lines[..|lines| - 1], productId);
    }
  }

  lemma {:induction false} ReturnedQtyAbsent(lines: seq<ReturnLine>, productId: int)
    requires forall i :: 0 <= i < |lines| && KeptReturn(lines[i]) ==> lines[i].productId != productId
    ensures ReturnedQty(lines, productId) == 0
  {
    if |lines| > 0 {
      ReturnedQtyAbsent(lines[..|lines| - 1], productId);
    }
  }

  /** A fit line sequence never asks more of a product than its stock. */
  lemma FitWithinStock(products: map<int, Product>, lines: seq<ItemLine>, k: int)
    requires LinesFit(products, lines) && k in products
    ensures KeptQty(lines, k) == 0 || KeptQty(lines, k) <= products[k].stockQty
  {
    var staged := ApplyItems(products, lines);
    assert staged.Success?;
    assert staged.value.products[k].stockQty == products[k].stockQty - KeptQty(lines, k);
  }

  /** The stock formula applied to one product of a fit form: a product no
      kept line and no kept return names keeps its record, and a product
      taken by kept lines ends at least at what its returns put back. */
  lemma StockAfterBounds(products: map<int, Product>, f: OrderForm, k: int)
    requires LinesFit(products, f.items) && k in products
    ensures ((forall i :: 0 <= i < |f.items| && KeptItem(f.items[i]) ==> f.items[i].productId != k) &&
             (forall i :: 0 <= i < |f.returnLines| && KeptReturn(f.returnLines[i]) ==> f.returnLines[i].productId != k)
             ==> StockAfter(products[k], f, k) == products[k])
    ensures KeptQty(f.items, k) > 0 ==> StockAfter(products[k], f, k).stockQty >= ReturnedQty(f.returnLines, k) >= 0
  {
    FitWithinStock(products, f.items, k);
    if forall i :: 0 <= i < |f.items| && KeptItem(f.items[i]) ==> f.items[i].productId != k {
      KeptQtyAbsent(f.items, k);
    }
    if forall i :: 0 <= i < |f.returnLines| && KeptReturn(f.returnLines[i]) ==> f.returnLines[i].productId != k {
      ReturnedQtyAbsent(f.returnLines, k);
    }
  }

  /** Stock moves only where the form asks: when the caller may create
      orders, the form is valid and its lines fit, creation succeeds, and a
      product that no kept line and no kept return names is unchanged, and
      a product taken by kept lines never ends below what its returns put
      back, so never below zero. */
  lemma CreateOrderStock(s: Store, caller: Caller, f: OrderForm, k: int)
    requires Granted(caller.roles, OrdersCreate) && ValidForm(f)
    requires LinesFit(s.products, f.items) && f.shopId in s.shops && ReturnsResolve(s.products, f.returnLines)
    requires k in s.products
    ensures CreateOrder(s, caller, f).Success?
    ensures var t := CreateOrder(s, caller, f).value;
      && k in t.products
      && ((forall i :: 0 <= i < |f.items| && KeptItem(f.items[i]) ==> f.items[i].productId != k) &&
          (forall i :: 0 <= i < |f.returnLines| && KeptReturn(f.returnLines[i]) ==> f.returnLines[i].productId != k)
          ==> t.products[k] == s.products[k])
      && (KeptQty(f.items, k) > 0 ==> t.products[k].stockQty >= ReturnedQty(f.returnLines, k) >= 0)
  {
    var t := CreateOrder(s, caller, f).value;
    assert t.products[k] == StockAfter(s.products[k], f, k);
    StockAfterBounds(s.products, f, k);
  }

  /** The ledger after a successful creation: every bill the shop had is
      settled, other shops' bills are untouched, and the shop's balance is
      exactly what this order left unpaid (none when the payment covers the
      net total, then no bill is added; otherwise one bill for the
      difference, the earlier balance not added to it). */
  lemma CreateOrderLedger(s: Store, caller: Caller, f: OrderForm, other: int)
    requires CreateOrder(s, caller, f).Success?
    requires other != f.shopId
    ensures var bills := CreateOrder(s, caller, f).value.creditBills;
      && (forall i :: 0 <= i < |s.creditBills| && s.creditBills[i].shopId == f.shopId ==> bills[i].isSettled)
      && (forall i :: 0 <= i < |s.creditBills| && s.creditBills[i].shopId != f.shopId ==> bills[i] == s.creditBills[i])
      && (f.todayPayment >= f.netTotal ==>
            |bills| == |s.creditBills| && UnsettledCount(bills, f.shopId) == 0 && UnsettledSum(bills, f.shopId) == 0)
      && (f.todayPayment < f.netTotal ==>
            && |bills| == |s.creditBills| + 1
            && !bills[|s.creditBills|].isSettled
            && bills[|s.creditBills|].creditAmount == f.netTotal - f.todayPayment
            && UnsettledCount(bills, f.shopId) == 1
            && UnsettledSum(bills, f.shopId) == f.netTotal - f.todayPayment)
      && UnsettledSum(bills, other) == UnsettledSum(s.creditBills, other)
  {
    ReconcileBalances(s.creditBills, f.shopId, InvoiceFor(f, |s.orders| + 1), caller.id, f.netTotal, f.todayPayment, other);
  }

  /** Exactly one payment is added when the form carries a positive
      payment, none otherwise; it is verified, recorded by the caller, for
      the new order and for the form's amount. */
  lemma CreateOrderPayment(s: Store, caller: Caller, f: OrderForm)
    requires CreateOrder(s, caller, f).Success?
    ensures var t := CreateOrder(s, caller, f).value;
      && |t.payments| == |s.payments| + (if f.todayPayment > 0 then 1 else 0)
      && t.payments[..|s.payments|] == s.payments
      && (f.todayPayment > 0 ==>
            var p := t.payments[|s.payments|];
            && p.orderId == |t.orders| && p.amount == f.todayPayment && p.isVerified
            && p.recordedById == Some(caller.id) && p.paymentType == PaymentTypeFor(f.paymentMode))
  {
    var t := CreateOrder(s, caller, f).value;
    if f.todayPayment > 0 {
      assert t.payments == s.payments + [InlinePayment(f, |s.orders| + 1, caller.id)];
    } else {
      assert t.payments == s.payments;
    }
  }
}
