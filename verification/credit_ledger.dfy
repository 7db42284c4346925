/** The credit ledger: a shop's outstanding balance is the sum of its
    unsettled credit bills, and every new order collapses that balance
    into at most one live bill for the amount the order left unpaid. */
module CreditLedger {
  import opened Domain

  /** The outstanding balance of a shop: the sum of its unsettled bills. */
  function UnsettledSum(bills: seq<CreditBill>, shopId: int): Money {
    if |bills| == 0 then 0
    else
      var b := bills[|bills| - 1];
      UnsettledSum(bills[..|bills| - 1], shopId) + (if b.shopId == shopId && !b.isSettled then b.creditAmount else 0)
  }

  /** How many unsettled bills the shop has. */
  function UnsettledCount(bills: seq<CreditBill>, shopId: int): nat {
    if |bills| == 0 then 0
    else
      var b := bills[|bills| - 1];
      UnsettledCount(bills[..|bills| - 1], shopId) + (if b.shopId == shopId && !b.isSettled then 1 else 0)
  }

  /** Marks every unsettled bill of the shop as settled. Each bill keeps its
      place, shop, invoice, representative and amount; bills of other shops
      and bills already settled are untouched. */
  function SettleShop(bills: seq<CreditBill>, shopId: int): (r: seq<CreditBill>)
    ensures |r| == |bills|
    ensures forall i :: 0 <= i < |bills| && bills[i].shopId == shopId ==> r[i] == bills[i].(isSettled := true)
    ensures forall i :: 0 <= i < |bills| && bills[i].shopId != shopId ==> r[i] == bills[i]
  {
    if |bills| == 0 then []
    else
      var b := bills[|bills| - 1];
      SettleShop(bills[..|bills| - 1], shopId) + [if b.shopId == shopId then b.(isSettled := true) else b]
  }

  /** The ledger step of order creation. When the payment covers the net
      total, the shop's unsettled bills are settled and nothing is added;
      otherwise they are settled and one unsettled bill for the unpaid
      remainder is appended. */
  function Reconcile(bills: seq<CreditBill>, shopId: int, invoiceId: string, salesRepId: UserId,
                     netTotal: Money, todayPayment: Money): (r: seq<CreditBill>)
    ensures todayPayment >= netTotal ==> |r| == |bills|
    ensures todayPayment < netTotal ==>
      |r| == |bills| + 1 && r[|bills|] == CreditBill(shopId, invoiceId, salesRepId, netTotal - todayPayment, false)
    ensures forall i :: 0 <= i < |bills| && bills[i].shopId == shopId ==> r[i] == bills[i].(isSettled := true)
    ensures forall i :: 0 <= i < |bills| && bills[i].shopId != shopId ==> r[i] == bills[i]
  {
    if todayPayment >= netTotal then
      SettleShop(bills, shopId)
    else
      var outstanding := netTotal - todayPayment;
      SettleShop(bills, shopId) + [CreditBill(shopId, invoiceId, salesRepId, outstanding, false)]
  }

  /** Appending a bill adds its contribution to the sums. */
  lemma AppendBill(bills: seq<CreditBill>, b: CreditBill, shopId: int)
    ensures UnsettledSum(bills + [b], shopId) ==
      UnsettledSum(bills, shopId) + (if b.shopId == shopId && !b.isSettled then b.creditAmount else 0)
    ensures UnsettledCount(bills + [b], shopId) ==
      UnsettledCount(bills, shopId) + (if b.shopId == shopId && !b.isSettled then 1 else 0)
  {
    assert (bills + [b])[..|bills|] == bills;
  }

  /** After settling, the shop owes nothing and has no unsettled bill, and
      every other shop's balance is what it was. */
  lemma {:induction false} SettleShopBalances(bills: seq<CreditBill>, shopId: int, other: int)
    requires other != shopId
    ensures UnsettledSum(SettleShop(bills, shopId), shopId) == 0
    ensures UnsettledCount(SettleShop(bills, shopId), shopId) == 0
    ensures UnsettledSum(SettleShop(bills, shopId), other) == UnsettledSum(bills, other)
    ensures UnsettledCount(SettleShop(bills, shopId), other) == UnsettledCount(bills, other)
  {
    if |bills| > 0 {
      var init := bills[..|bills| - 1];
      var b := bills[|bills| - 1];
      SettleShopBalances(init, shopId, other);
      var b' := if b.shopId == shopId then b.(isSettled := true) else b;
      assert SettleShop(bills, shopId) == SettleShop(init, shopId) + [b'];
      AppendBill(SettleShop(init, shopId), b', shopId);
      AppendBill(SettleShop(init, shopId), b', other);
    }
  }

  /** Ledger consolidation: after reconciliation the shop has at most one
      unsettled bill, and its balance is exactly what this order left
      unpaid: zero when the payment covers the net total, and the net total
      less the payment otherwise. The balance the shop owed before is not
      carried into it. Every other shop's balance is unchanged. */
  lemma ReconcileBalances(bills: seq<CreditBill>, shopId: int, invoiceId: string, salesRepId: UserId,
                          netTotal: Money, todayPayment: Money, other: int)
    requires other != shopId
    ensures var r := Reconcile(bills, shopId, invoiceId, salesRepId, netTotal, todayPayment);
      && UnsettledSum(r, shopId) == (if todayPayment >= netTotal then 0 else netTotal - todayPayment)
      && UnsettledCount(r, shopId) == (if todayPayment >= netTotal then 0 else 1)
      && UnsettledSum(r, other) == UnsettledSum(bills, other)
      && UnsettledCount(r, other) == UnsettledCount(bills, other)
  {
    SettleShopBalances(bills, shopId, other);
    if todayPayment < netTotal {
      var settled := SettleShop(bills, shopId);
      var nb := CreditBill(shopId, invoiceId, salesRepId, netTotal - todayPayment, false);
      AppendBill(settled, nb, shopId);
      AppendBill(settled, nb, other);
    }
  }
}
