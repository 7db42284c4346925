/** Worked end-to-end cases of order creation on a small store: one shop,
    one product with 20 in stock at 2.00, and a representative holding the
    User role. */
module Scenarios {
  import opened Wrappers
  import opened Domain
  import opened Permissions
  import opened PermissionExtensions
  import opened CreateOrderForm
  import opened CreditLedger
  import opened OrderCreation
  import opened PaymentFlow

  const ShopId: int := 1
  const MilkId: int := 7

  function Rep(): Caller {
    Caller("rep-1", [UserRole])
  }

  function Milk(): Product {
    Product("Milk", "MLK-1", 200, 20, true)
  }

  /** The store before the order, with the given credit bills on file. */
  function Before(bills: seq<CreditBill>): Store {
    Store({ShopId}, map[MilkId := Milk()], [], [], [], bills)
  }

  /** Five milk at 2.00 each, net total 10.00, paying `pay` on the spot. */
  function FiveMilk(pay: Money): OrderForm {
    NewForm().(orderNumber := Some("ORD20250101001"), shopId := ShopId,
               items := [ItemLine(MilkId, 5, 200, 0)], subtotal := 1000, netTotal := 1000, todayPayment := pay)
  }

  lemma RepMayCreate()
    ensures Granted(Rep().roles, OrdersCreate)
  {
    assert OrdersCreate in GetPermissionsForRole(Rep().roles[0]);
  }

  /** The form passes validation and its one line fits the stock. */
  lemma FiveMilkGoesThrough(pay: Money, bills: seq<CreditBill>)
    ensures ValidForm(FiveMilk(pay))
    ensures LinesFit(Before(bills).products, FiveMilk(pay).items)
    ensures ReturnsResolve(Before(bills).products, FiveMilk(pay).returnLines)
    ensures CreateOrder(Before(bills), Rep(), FiveMilk(pay)).Success?
  {
    RepMayCreate();
    var lines := FiveMilk(pay).items;
    assert lines[..1] == lines;
    assert KeptQty(lines, MilkId) == 5;
  }

  /** Paying the full 10.00: stock falls by 5, the order is pending at
      10.00, one verified payment of 10.00 is recorded, and no credit bill
      exists for the shop. */
  lemma FullPayment()
    ensures var r := CreateOrder(Before([]), Rep(), FiveMilk(1000));
      && r.Success?
      && r.value.products[MilkId].stockQty == 15
      && |r.value.orders| == 1
      && r.value.orders[0].status == OrderStatus.Pending
      && r.value.orders[0].totalAmount == 1000
      && r.value.creditBills == []
      && |r.value.payments| == 1 && r.value.payments[0].amount == 1000 && r.value.payments[0].isVerified
  {
    FiveMilkGoesThrough(1000, []);
    var f := FiveMilk(1000);
    assert KeptQty(f.items, MilkId) == 5;
    assert ReturnedQty(f.returnLines, MilkId) == 0;
  }

  /** Paying 4.00 of 10.00 leaves one unsettled bill of 6.00 for the shop. */
  lemma PartialPayment()
    ensures var r := CreateOrder(Before([]), Rep(), FiveMilk(400));
      && r.Success?
      && |r.value.creditBills| == 1
      && r.value.creditBills[0].shopId == ShopId
      && r.value.creditBills[0].creditAmount == 600
      && !r.value.creditBills[0].isSettled
  {
    FiveMilkGoesThrough(400, []);
  }

  /** With an earlier unsettled bill of 5.00 on file, paying 4.00 of 10.00
      settles the earlier bill and leaves a balance of 6.00, not 11.00. */
  lemma PriorBillRolledForward()
    ensures var prior := CreditBill(ShopId, "ORD20241231001", "rep-1", 500, false);
      var r := CreateOrder(Before([prior]), Rep(), FiveMilk(400));
      && r.Success?
      && r.value.creditBills[0] == prior.(isSettled := true)
      && UnsettledSum(r.value.creditBills, ShopId) == 600
  {
    var prior := CreditBill(ShopId, "ORD20241231001", "rep-1", 500, false);
    FiveMilkGoesThrough(400, [prior]);
    CreateOrderLedger(Before([prior]), Rep(), FiveMilk(400), ShopId + 1);
  }

  /** Two lines of milk asking 15 and then 10 see each other's decrement:
      the second finds 5 left and the whole order is refused. */
  lemma RunningStockShortfall()
    ensures var f := FiveMilk(0).(items := [ItemLine(MilkId, 15, 200, 0), ItemLine(MilkId, 10, 200, 0)]);
      CreateOrder(Before([]), Rep(), f) == Failure(InsufficientStock(MilkId, 5, 10))
  {
    RepMayCreate();
    var f := FiveMilk(0).(items := [ItemLine(MilkId, 15, 200, 0), ItemLine(MilkId, 10, 200, 0)]);
    var products := Before([]).products;
    var first := [ItemLine(MilkId, 15, 200, 0)];
    assert f.items[..1] == first && first[..0] == [];
    assert ValidForm(f);
    ApplyItemsUnfold(products, first);
    assert ApplyItems(products, first).value.products[MilkId].stockQty == 5;
    ApplyItemsUnfold(products, f.items);
    assert ApplyItems(products, f.items) == Failure(InsufficientStock(MilkId, 5, 10));
  }

  /** The payment taken at creation is not capped by the net total: paying
      15.00 on a 10.00 order leaves the order paid beyond its total. */
  lemma InlinePaymentUncapped()
    ensures var r := CreateOrder(Before([]), Rep(), FiveMilk(1500));
      r.Success? && !PaidWithinTotals(r.value)
  {
    FiveMilkGoesThrough(1500, []);
    var r := CreateOrder(Before([]), Rep(), FiveMilk(1500));
    assert r.value.payments == [InlinePayment(FiveMilk(1500), 1, Rep().id)];
    assert r.value.payments[..0] == [];
    assert PaidFor(r.value.payments, 1) == 1500;
  }
}
