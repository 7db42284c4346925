/** The order status transitions after creation. Approve and Reject accept
    an order in any status; only MarkDelivered is guarded, by ownership and
    by the order being approved. Each changes one order and nothing else. */
module OrderStatusFlow {
  import opened Wrappers
  import opened Domain
  import opened Permissions
  import opened PermissionExtensions

  /** Approve: needs orders.edit and an existing order; whatever its status,
      the order becomes Approved, approved by the caller. */
  function Approve(s: Store, caller: Caller, id: int): (r: Result<Store, Error>)
    ensures !Granted(caller.roles, OrdersEdit) ==> r == Failure(Forbidden)
    ensures Granted(caller.roles, OrdersEdit) && !HasOrder(s, id) ==> r == Failure(NotFound)
    ensures r.Success? <==> Granted(caller.roles, OrdersEdit) && HasOrder(s, id)
    ensures r.Success? ==>
      && r.value.(orders := s.orders) == s
      && HasOrder(r.value, id) && |r.value.orders| == |s.orders|
      && OrderAt(r.value, id).status == OrderStatus.Approved
      && OrderAt(r.value, id).approvedBy == Some(caller.id)
      && OrderAt(r.value, id).(status := OrderAt(s, id).status, approvedBy := OrderAt(s, id).approvedBy) == OrderAt(s, id)
      && (forall k :: HasOrder(s, k) && k != id ==> OrderAt(r.value, k) == OrderAt(s, k))
  {
    if !Granted(caller.roles, OrdersEdit) then Failure(Forbidden)
    else if !HasOrder(s, id) then Failure(NotFound)
    else
      var o := OrderAt(s, id);
      Success(WithOrder(s, id, o.(status := OrderStatus.Approved, approvedBy := Some(caller.id))))
  }

  /** Reject: needs orders.edit and an existing order; whatever its status,
      the order becomes Rejected with the given reason. No stock, item,
      payment, return or credit bill is touched. */
  function Reject(s: Store, caller: Caller, id: int, reason: Option<string>): (r: Result<Store, Error>)
    ensures !Granted(caller.roles, OrdersEdit) ==> r == Failure(Forbidden)
    ensures Granted(caller.roles, OrdersEdit) && !HasOrder(s, id) ==> r == Failure(NotFound)
    ensures r.Success? <==> Granted(caller.roles, OrdersEdit) && HasOrder(s, id)
    ensures r.Success? ==>
      && r.value.(orders := s.orders) == s
      && HasOrder(r.value, id) && |r.value.orders| == |s.orders|
      && OrderAt(r.value, id).status == OrderStatus.Rejected
      && OrderAt(r.value, id).rejectionReason == reason
      && OrderAt(r.value, id).items == OrderAt(s, id).items
      && OrderAt(r.value, id).(status := OrderAt(s, id).status, rejectionReason := OrderAt(s, id).rejectionReason) == OrderAt(s, id)
      && (forall k :: HasOrder(s, k) && k != id ==> OrderAt(r.value, k) == OrderAt(s, k))
  {
    if !Granted(caller.roles, OrdersEdit) then Failure(Forbidden)
    else if !HasOrder(s, id) then Failure(NotFound)
    else
      var o := OrderAt(s, id);
      Success(WithOrder(s, id, o.(status := OrderStatus.Rejected, rejectionReason := reason)))
  }

  /** MarkDelivered: needs orders.edit and an existing order; a caller
      without orders.view_all may only deliver their own orders; and only an
      approved order is delivered, by the caller. */
  function MarkDelivered(s: Store, caller: Caller, id: int): (r: Result<Store, Error>)
    ensures !Granted(caller.roles, OrdersEdit) ==> r == Failure(Forbidden)
    ensures Granted(caller.roles, OrdersEdit) && !HasOrder(s, id) ==> r == Failure(NotFound)
    ensures r.Success? <==>
      && Granted(caller.roles, OrdersEdit)
      && HasOrder(s, id)
      && (Granted(caller.roles, OrdersViewAll) || OrderAt(s, id).salesRepId == caller.id)
      && OrderAt(s, id).status == OrderStatus.Approved
    ensures r.Failure? && HasOrder(s, id) && Granted(caller.roles, OrdersEdit) &&
            (Granted(caller.roles, OrdersViewAll) || OrderAt(s, id).salesRepId == caller.id) ==>
      r == Failure(NotApproved)
    ensures r.Success? ==>
      && r.value.(orders := s.orders) == s
      && HasOrder(r.value, id) && |r.value.orders| == |s.orders|
      && OrderAt(r.value, id).status == OrderStatus.Delivered
      && OrderAt(r.value, id).deliveredById == Some(caller.id)
      && OrderAt(r.value, id).(status := OrderStatus.Approved, deliveredById := OrderAt(s, id).deliveredById) == OrderAt(s, id)
      && (forall k :: HasOrder(s, k) && k != id ==> OrderAt(r.value, k) == OrderAt(s, k))
  {
    if !Granted(caller.roles, OrdersEdit) then Failure(Forbidden)
    else if !HasOrder(s, id) then Failure(NotFound)
    else
      var o := OrderAt(s, id);
      if !Granted(caller.roles, OrdersViewAll) && o.salesRepId != caller.id then Failure(Forbidden)
      else if o.status != OrderStatus.Approved then Failure(NotApproved)
      else Success(WithOrder(s, id, o.(status := OrderStatus.Delivered, deliveredById := Some(caller.id))))
  }

  /** An order that has been approved can then be delivered by its owner,
      whatever state it started in. */
  lemma ApproveThenDeliver(s: Store, caller: Caller, id: int)
    requires Granted(caller.roles, OrdersEdit) && HasOrder(s, id)
    requires OrderAt(s, id).salesRepId == caller.id
    ensures Approve(s, caller, id).Success?
    ensures MarkDelivered(Approve(s, caller, id).value, caller, id).Success?
  {
  }

  /** Delivery happens once: whoever may edit orders delivers an approved
      order, and since it is then no longer approved a second MarkDelivered
      is refused. */
  lemma DeliverOnce(s: Store, caller: Caller, id: int)
    requires Granted(caller.roles, OrdersEdit) && HasOrder(s, id)
    requires OrderAt(s, id).status == OrderStatus.Approved
    ensures MarkDelivered(s, caller, id).Success?
    ensures MarkDelivered(MarkDelivered(s, caller, id).value, caller, id) == Failure(NotApproved)
  {
    EditImpliesViewAll(caller.roles);
  }

  /** With the role table as shipped, whoever holds orders.edit also holds
      orders.view_all, so the ownership check in MarkDelivered never refuses
      a caller who passed the permission gate. */
  lemma EditImpliesViewAll(roles: seq<string>)
    requires Granted(roles, OrdersEdit)
    ensures Granted(roles, OrdersViewAll)
  {
    var i :| 0 <= i < |roles| && OrdersEdit in GetPermissionsForRole(roles[i]);
    assert roles[i] == AdminRole;
    assert OrdersViewAll in GetPermissionsForRole(roles[i]);
  }
}
