/** Recording payments against an order's remaining balance, and their
    verification by an administrator. */
module PaymentFlow {
  import opened Wrappers
  import opened Domain

  /** The sum of the amounts of the payments recorded for an order. */
  function PaidFor(payments: seq<Payment>, orderId: int): Money {
    if |payments| == 0 then 0
    else
      var p := payments[|payments| - 1];
      PaidFor(payments[..|payments| - 1], orderId) + (if p.orderId == orderId then p.amount else 0)
  }

  /** What is still owed on an order: its total less what has been paid. */
  function Remaining(s: Store, orderId: int): Money
    requires HasOrder(s, orderId)
  {
    OrderAt(s, orderId).totalAmount - PaidFor(s.payments, orderId)
  }

  /** No order has been paid more than its total. */
  predicate PaidWithinTotals(s: Store) {
    forall k :: 1 <= k <= |s.orders| ==> PaidFor(s.payments, k) <= s.orders[k - 1].totalAmount
  }

  /** The non-admin ownership rule shared by the payment screens. */
  predicate MayPayFor(s: Store, caller: Caller, orderId: int)
    requires HasOrder(s, orderId)
  {
    IsAdmin(caller) || OrderAt(s, orderId).salesRepId == caller.id
  }

  /** GET Create: for a delivered order of the caller's (or any order, for
      an administrator) that still has a balance, proposes a payment of
      exactly the remaining balance. */
  function ProposePayment(s: Store, caller: Caller, orderId: int): (r: Result<Money, Error>)
    ensures !AdminOrSalesRep(caller) ==> r == Failure(Forbidden)
    ensures AdminOrSalesRep(caller) && !HasOrder(s, orderId) ==> r == Failure(NotFound)
    ensures r.Success? <==>
      && AdminOrSalesRep(caller) && HasOrder(s, orderId) && MayPayFor(s, caller, orderId)
      && OrderAt(s, orderId).status == OrderStatus.Delivered
      && Remaining(s, orderId) > 0
    ensures (AdminOrSalesRep(caller) && HasOrder(s, orderId) && MayPayFor(s, caller, orderId) &&
             OrderAt(s, orderId).status != OrderStatus.Delivered) ==> r == Failure(NotDelivered)
    ensures (AdminOrSalesRep(caller) && HasOrder(s, orderId) && MayPayFor(s, caller, orderId) &&
             OrderAt(s, orderId).status == OrderStatus.Delivered && Remaining(s, orderId) <= 0) ==> r == Failure(FullyPaid)
    ensures r.Success? ==> r.value > 0 && r.value + PaidFor(s.payments, orderId) == OrderAt(s, orderId).totalAmount
  {
    if !AdminOrSalesRep(caller) then Failure(Forbidden)
    else if !HasOrder(s, orderId) then Failure(NotFound)
    else if !MayPayFor(s, caller, orderId) then Failure(Forbidden)
    else if OrderAt(s, orderId).status != OrderStatus.Delivered then Failure(NotDelivered)
    else
      var remaining := Remaining(s, orderId);
      if remaining <= 0 then Failure(FullyPaid) else Success(remaining)
  }

  /** POST Create: the submitted payment is stored, recorded by the caller,
      when the order exists, the caller may pay for it, the form is valid and
      the amount does not exceed the remaining balance. The order's status
      is not consulted. */
  function RecordPayment(s: Store, caller: Caller, submitted: Payment, formValid: bool): (r: Result<Store, Error>)
    ensures !AdminOrSalesRep(caller) ==> r == Failure(Forbidden)
    ensures AdminOrSalesRep(caller) && !HasOrder(s, submitted.orderId) ==> r == Failure(NotFound)
    ensures r.Success? <==>
      && AdminOrSalesRep(caller) && HasOrder(s, submitted.orderId) && MayPayFor(s, caller, submitted.orderId)
      && formValid && submitted.amount <= Remaining(s, submitted.orderId)
    ensures (AdminOrSalesRep(caller) && HasOrder(s, submitted.orderId) && MayPayFor(s, caller, submitted.orderId) &&
             formValid && submitted.amount > Remaining(s, submitted.orderId)) ==>
      r == Failure(ExceedsBalance(Remaining(s, submitted.orderId)))
    ensures r.Success? ==>
      && r.value.(payments := s.payments) == s
      && |r.value.payments| == |s.payments| + 1
      && r.value.payments[..|s.payments|] == s.payments
      && r.value.payments[|s.payments|].recordedById == Some(caller.id)
      && r.value.payments[|s.payments|].isVerified == submitted.isVerified
      && r.value.payments[|s.payments|].(recordedById := submitted.recordedById) == submitted
  {
    if !AdminOrSalesRep(caller) then Failure(Forbidden)
    else if !HasOrder(s, submitted.orderId) then Failure(NotFound)
    else if !MayPayFor(s, caller, submitted.orderId) then Failure(Forbidden)
    else if !formValid then Failure(Invalid)
    else
      var remaining := Remaining(s, submitted.orderId);
      if submitted.amount > remaining then Failure(ExceedsBalance(remaining))
      else Success(s.(payments := s.payments + [submitted.(recordedById := Some(caller.id))]))
  }

  /** Verify: an administrator marks an existing payment verified by
      themselves; its amount, order and everything else stay as they were. */
  function VerifyPayment(s: Store, caller: Caller, id: int): (r: Result<Store, Error>)
    ensures !IsAdmin(caller) ==> r == Failure(Forbidden)
    ensures r.Success? <==> IsAdmin(caller) && HasPayment(s, id)
    ensures r.Success? ==>
      && r.value.(payments := s.payments) == s
      && |r.value.payments| == |s.payments|
      && r.value.payments[id - 1].isVerified
      && r.value.payments[id - 1].verifiedById == Some(caller.id)
      && r.value.payments[id - 1].amount == s.payments[id - 1].amount
      && r.value.payments[id - 1].orderId == s.payments[id - 1].orderId
      && r.value.payments[id - 1] == s.payments[id - 1].(isVerified := true, verifiedById := Some(caller.id))
      && (forall k :: 0 <= k < |s.payments| && k != id - 1 ==> r.value.payments[k] == s.payments[k])
  {
    if !IsAdmin(caller) then Failure(Forbidden)
    else if !HasPayment(s, id) then Failure(NotFound)
    else
      var p := s.payments[id - 1];
      Success(s.(payments := s.payments[id - 1 := p.(isVerified := true, verifiedById := Some(caller.id))]))
  }

  /** Appending a payment adds its amount to its own order's total paid and
      to no other order's. */
  lemma PaidForAppend(payments: seq<Payment>, p: Payment, orderId: int)
    ensures PaidFor(payments + [p], orderId) == PaidFor(payments, orderId) + (if p.orderId == orderId then p.amount else 0)
  {
    assert (payments + [p])[..|payments|] == payments;
  }

  /** Replacing a payment by one with the same order and amount leaves every
      order's total paid unchanged. */
  lemma {:induction false} PaidForUpdate(payments: seq<Payment>, i: int, q: Payment, orderId: int)
    requires 0 <= i < |payments|
    requires q.orderId == payments[i].orderId && q.amount == payments[i].amount
    ensures PaidFor(payments[i := q], orderId) == PaidFor(payments, orderId)
  {
    var n := |payments| - 1;
    var updated := payments[i := q];
    if i == n {
      assert updated[..n] == payments[..n];
    } else {
      PaidForUpdate(payments[..n], i, q, orderId);
      assert updated[..n] == payments[..n][i := q];
    }
  }

  /** A recorded payment adds its amount to its order's total paid, leaves
      the order with a balance that is not negative, clears the balance when
      it pays exactly the remaining amount, and changes no other order's
      total paid. */
  lemma RecordPaymentBalance(s: Store, caller: Caller, submitted: Payment, formValid: bool, other: int)
    requires RecordPayment(s, caller, submitted, formValid).Success?
    requires other != submitted.orderId
    ensures var t := RecordPayment(s, caller, submitted, formValid).value;
      && HasOrder(t, submitted.orderId)
      && PaidFor(t.payments, submitted.orderId) == PaidFor(s.payments, submitted.orderId) + submitted.amount
      && Remaining(t, submitted.orderId) >= 0
      && (submitted.amount == Remaining(s, submitted.orderId) ==> Remaining(t, submitted.orderId) == 0)
      && PaidFor(t.payments, other) == PaidFor(s.payments, other)
  {
    var t := RecordPayment(s, caller, submitted, formValid).value;
    var stored := submitted.(recordedById := Some(caller.id));
    assert t.payments == s.payments + [stored];
    PaidForAppend(s.payments, stored, submitted.orderId);
    PaidForAppend(s.payments, stored, other);
  }

  /** Recording payments never lets an order be paid beyond its total. */
  lemma RecordPaymentKeepsWithinTotals(s: Store, caller: Caller, submitted: Payment, formValid: bool)
    requires PaidWithinTotals(s)
    requires RecordPayment(s, caller, submitted, formValid).Success?
    ensures PaidWithinTotals(RecordPayment(s, caller, submitted, formValid).value)
  {
    var t := RecordPayment(s, caller, submitted, formValid).value;
    forall k | HasOrder(t, k)
      ensures PaidFor(t.payments, k) <= OrderAt(t, k).totalAmount
    {
      if k == submitted.orderId {
        RecordPaymentBalance(s, caller, submitted, formValid, k + 1);
      } else {
        RecordPaymentBalance(s, caller, submitted, formValid, k);
      }
    }
  }

  /** Whether a payment is accepted does not depend on the order's status:
      the same submission is accepted for a pending, approved, rejected or
      delivered order alike. */
  lemma RecordIgnoresStatus(s: Store, caller: Caller, submitted: Payment, formValid: bool, status: OrderStatus)
    requires HasOrder(s, submitted.orderId)
    ensures var t := WithOrder(s, submitted.orderId, OrderAt(s, submitted.orderId).(status := status));
      RecordPayment(t, caller, submitted, formValid).Success? == RecordPayment(s, caller, submitted, formValid).Success?
  {
    var t := WithOrder(s, submitted.orderId, OrderAt(s, submitted.orderId).(status := status));
    assert t.payments == s.payments;
  }

  /** Verification changes no order's total paid, and verifying the same
      payment again gives the same store. */
  lemma VerifyIdempotent(s: Store, caller: Caller, id: int, orderId: int)
    requires VerifyPayment(s, caller, id).Success?
    ensures var t := VerifyPayment(s, caller, id).value;
      && PaidFor(t.payments, orderId) == PaidFor(s.payments, orderId)
      && VerifyPayment(t, caller, id) == Success(t)
  {
    var t := VerifyPayment(s, caller, id).value;
    PaidForUpdate(s.payments, id - 1, t.payments[id - 1], orderId);
    assert t.payments == s.payments[id - 1 := t.payments[id - 1]];
    assert t.payments[id - 1 := t.payments[id - 1]] == t.payments;
  }
}
