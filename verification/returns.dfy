/** The standalone return lifecycle: a representative records a return,
    which puts the goods back into stock at once and waits as Pending; an
    administrator then approves it, leaving stock alone, or rejects it,
    taking the goods back out of stock. */
module ReturnFlow {
  import opened Wrappers
  import opened Domain

  /** The stock of the product, or `None` when no such product exists. */
  function StockOf(s: Store, productId: int): Option<int> {
    if productId in s.products then Some(s.products[productId].stockQty) else None
  }

  /** Whether the caller may file a return against the linked order: an
      administrator may always; anyone else only for their own orders, or
      when the return names no order or an order that does not exist. */
  predicate MayLink(s: Store, caller: Caller, r: Return) {
    r.orderId.None? || !HasOrder(s, r.orderId.value) || IsAdmin(caller) ||
    OrderAt(s, r.orderId.value).salesRepId == caller.id
  }

  /** The rows a new return points at exist: its shop, its product, and its
      order when it names one. */
  predicate References(s: Store, r: Return) {
    r.shopId in s.shops && r.productId in s.products && (r.orderId.None? || HasOrder(s, r.orderId.value))
  }

  /** POST Create: the submitted return is stored as Pending, processed by
      the caller, whatever status and processor were submitted; then the
      product's stock rises by the returned quantity. */
  function CreateReturn(s: Store, caller: Caller, submitted: Return, formValid: bool): (r: Result<Store, Error>)
    ensures !AdminOrSalesRep(caller) ==> r == Failure(Forbidden)
    ensures AdminOrSalesRep(caller) && !formValid ==> r == Failure(Invalid)
    ensures AdminOrSalesRep(caller) && formValid && !MayLink(s, caller, submitted) ==> r == Failure(Forbidden)
    ensures r.Success? <==>
      AdminOrSalesRep(caller) && formValid && MayLink(s, caller, submitted) && References(s, submitted)
    ensures r.Success? ==>
      && r.value.(products := s.products, returnRecords := s.returnRecords) == s
      && |r.value.returnRecords| == |s.returnRecords| + 1
      && r.value.returnRecords[..|s.returnRecords|] == s.returnRecords
      && r.value.returnRecords[|s.returnRecords|].status == ReturnStatus.Pending
      && r.value.returnRecords[|s.returnRecords|].processedById == Some(caller.id)
      && r.value.returnRecords[|s.returnRecords|].(status := submitted.status, processedById := submitted.processedById) == submitted
      && r.value.products.Keys == s.products.Keys
      && StockOf(r.value, submitted.productId) == Some(s.products[submitted.productId].stockQty + submitted.quantity)
      && (forall k :: k in s.products && k != submitted.productId ==> r.value.products[k] == s.products[k])
  {
    if !AdminOrSalesRep(caller) then Failure(Forbidden)
    else if !formValid then Failure(Invalid)
    else if !MayLink(s, caller, submitted) then Failure(Forbidden)
    else if !References(s, submitted) then Failure(ReferenceMissing)
    else
      var stored := submitted.(processedById := Some(caller.id), status := ReturnStatus.Pending);
      var t := s.(returnRecords := s.returnRecords + [stored]);
      if submitted.productId in t.products then
        Success(t.(products := AdjustStock(t.products, submitted.productId, submitted.quantity)))
      else
        Success(t)
  }

  /** Approve: an administrator marks an existing return Approved, approved
      by themselves, in whatever status it was. Stock is not touched. */
  function ApproveReturn(s: Store, caller: Caller, id: int): (r: Result<Store, Error>)
    ensures !IsAdmin(caller) ==> r == Failure(Forbidden)
    ensures r.Success? <==> IsAdmin(caller) && HasReturn(s, id)
    ensures r.Success? ==>
      && r.value.(returnRecords := s.returnRecords) == s
      && |r.value.returnRecords| == |s.returnRecords|
      && r.value.returnRecords[id - 1].status == ReturnStatus.Approved
      && r.value.returnRecords[id - 1].approvedById == Some(caller.id)
      && r.value.returnRecords[id - 1].quantity == s.returnRecords[id - 1].quantity
      && r.value.returnRecords[id - 1] ==
         s.returnRecords[id - 1].(status := ReturnStatus.Approved, approvedById := Some(caller.id))
      && (forall k :: 0 <= k < |s.returnRecords| && k != id - 1 ==> r.value.returnRecords[k] == s.returnRecords[k])
  {
    if !IsAdmin(caller) then Failure(Forbidden)
    else if !HasReturn(s, id) then Failure(NotFound)
    else
      var ret := s.returnRecords[id - 1];
      Success(s.(returnRecords := s.returnRecords[id - 1 := ret.(status := ReturnStatus.Approved, approvedById := Some(caller.id))]))
  }

  /** Reject: an administrator marks an existing return Rejected with the
      reason, in whatever status it was, and the product's stock falls by the
      returned quantity when the product exists. There is no floor at zero. */
  function RejectReturn(s: Store, caller: Caller, id: int, reason: Option<string>): (r: Result<Store, Error>)
    ensures !IsAdmin(caller) ==> r == Failure(Forbidden)
    ensures r.Success? <==> IsAdmin(caller) && HasReturn(s, id)
    ensures r.Success? ==>
      var ret := s.returnRecords[id - 1];
      && r.value.(products := s.products, returnRecords := s.returnRecords) == s
      && |r.value.returnRecords| == |s.returnRecords|
      && r.value.returnRecords[id - 1] == ret.(status := ReturnStatus.Rejected, rejectionReason := reason)
      && (forall k :: 0 <= k < |s.returnRecords| && k != id - 1 ==> r.value.returnRecords[k] == s.returnRecords[k])
      && r.value.products.Keys == s.products.Keys
      && (ret.productId in s.products ==>
            StockOf(r.value, ret.productId) == Some(s.products[ret.productId].stockQty - ret.quantity))
      && (forall k :: k in s.products && k != ret.productId ==> r.value.products[k] == s.products[k])
  {
    if !IsAdmin(caller) then Failure(Forbidden)
    else if !HasReturn(s, id) then Failure(NotFound)
    else
      var ret := s.returnRecords[id - 1];
      var t := s.(returnRecords := s.returnRecords[id - 1 := ret.(status := ReturnStatus.Rejected, rejectionReason := reason)]);
      if ret.productId in t.products then
        Success(t.(products := AdjustStock(t.products, ret.productId, -ret.quantity)))
      else
        Success(t)
  }

  /** Filing a return and then rejecting it puts the product's stock back
      where it was, and leaves every product record as it was. */
  lemma CreateThenRejectRestoresStock(s: Store, rep: Caller, admin: Caller, submitted: Return,
                                       reason: Option<string>)
    requires CreateReturn(s, rep, submitted, true).Success?
    requires IsAdmin(admin)
    ensures var t := CreateReturn(s, rep, submitted, true).value;
      && RejectReturn(t, admin, |t.returnRecords|, reason).Success?
      && RejectReturn(t, admin, |t.returnRecords|, reason).value.products == s.products
  {
    var t := CreateReturn(s, rep, submitted, true).value;
    var u := RejectReturn(t, admin, |t.returnRecords|, reason).value;
    assert t.returnRecords[|t.returnRecords| - 1].productId == submitted.productId;
    assert u.products[submitted.productId] == s.products[submitted.productId];
  }

  /** Rejecting the same return twice takes its quantity out of stock twice:
      nothing stops a repeated rejection. */
  lemma RejectTwiceLowersTwice(s: Store, admin: Caller, id: int, reason: Option<string>)
    requires IsAdmin(admin) && HasReturn(s, id)
    requires s.returnRecords[id - 1].productId in s.products
    ensures var ret := s.returnRecords[id - 1];
      var t := RejectReturn(s, admin, id, reason).value;
      && RejectReturn(t, admin, id, reason).Success?
      && StockOf(RejectReturn(t, admin, id, reason).value, ret.productId) ==
         Some(s.products[ret.productId].stockQty - 2 * ret.quantity)
  {
  }

  /** Approving, in any order, neither moves stock nor depends on the
      current status: approving twice leaves the same record as approving
      once. */
  lemma ApproveIdempotent(s: Store, admin: Caller, id: int)
    requires IsAdmin(admin) && HasReturn(s, id)
    ensures var t := ApproveReturn(s, admin, id).value;
      && t.products == s.products
      && ApproveReturn(t, admin, id) == Success(t)
  {
    var t := ApproveReturn(s, admin, id).value;
    assert t.returnRecords[id - 1 := t.returnRecords[id - 1]] == t.returnRecords;
  }
}
