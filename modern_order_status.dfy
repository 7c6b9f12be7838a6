/** The six order statuses of the first modernised shop. */
module ModernOrderStatusEnum {
  import opened Wrappers

  datatype OrderStatus = Pending | Confirmed | Processing | Shipped | Delivered | Cancelled

  function Value(s: OrderStatus): string {
    match s
    case Pending => "pending"
    case Confirmed => "confirmed"
    case Processing => "processing"
    case Shipped => "shipped"
    case Delivered => "delivered"
    case Cancelled => "cancelled"
  }

  /** OrderStatus::from on a backing string: the inverse of Value. */
  function From(v: string): (r: Option<OrderStatus>)
    ensures r.Some? ==> Value(r.value) == v
    ensures r.None? ==> forall s :: Value(s) != v
  {
    if v == "pending" then Some(Pending)
    else if v == "confirmed" then Some(Confirmed)
    else if v == "processing" then Some(Processing)
    else if v == "shipped" then Some(Shipped)
    else if v == "delivered" then Some(Delivered)
    else if v == "cancelled" then Some(Cancelled)
    else None
  }

  /** Value is injective: each status is recovered from its backing string. */
  lemma FromValue(s: OrderStatus)
    ensures From(Value(s)) == Some(s)
  {
  }

  predicate IsModifiable(s: OrderStatus) {
    match s
    case Pending => true
    case Confirmed => true
    case _ => false
  }

  /** Pending and confirmed orders can be changed; processing, shipped, delivered and cancelled ones cannot. */
  lemma ModifiableStatuses(s: OrderStatus)
    ensures IsModifiable(s) <==> s in {Pending, Confirmed}
    ensures !IsModifiable(s) <==> s in {Processing, Shipped, Delivered, Cancelled}
  {
  }
}
