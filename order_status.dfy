/**
 * The order lifecycle of the v2 shop domain: seven statuses, which of them
 * still allow editing or deleting an order, and the allowed moves between them.
 */
module OrderStatusEnum {
  import opened Wrappers

  datatype OrderStatus = Pending | Confirmed | Paid | Processing | Shipped | Delivered | Cancelled

  /** The string each case is backed by. */
  function Value(s: OrderStatus): string {
    match s
    case Pending => "pending"
    case Confirmed => "confirmed"
    case Paid => "paid"
    case Processing => "processing"
    case Shipped => "shipped"
    case Delivered => "delivered"
    case Cancelled => "cancelled"
  }

  /** OrderStatus::tryFrom: the case backed by v, or None. */
  function TryFrom(v: string): (r: Option<OrderStatus>)
    ensures r.Some? ==> Value(r.value) == v
    ensures r.None? ==> forall s :: Value(s) != v
  {
    if v == "pending" then Some(Pending)
    else if v == "confirmed" then Some(Confirmed)
    else if v == "paid" then Some(Paid)
    else if v == "processing" then Some(Processing)
    else if v == "shipped" then Some(Shipped)
    else if v == "delivered" then Some(Delivered)
    else if v == "cancelled" then Some(Cancelled)
    else None
  }

  /** Every case is found again from its backing string, so backing strings are distinct. */
  lemma TryFromValue(s: OrderStatus)
    ensures TryFrom(Value(s)) == Some(s)
  {
  }

  lemma ValuesDistinct(s: OrderStatus, t: OrderStatus)
    ensures Value(s) == Value(t) <==> s == t
  {
    TryFromValue(s);
    TryFromValue(t);
  }

  /** Position of the case in its declaration. */
  function Ordinal(s: OrderStatus): nat {
    match s
    case Pending => 0
    case Confirmed => 1
    case Paid => 2
    case Processing => 3
    case Shipped => 4
    case Delivered => 5
    case Cancelled => 6
  }

  predicate IsModifiable(s: OrderStatus) {
    match s
    case Pending => true
    case Confirmed => true
    case _ => false
  }

  predicate IsDeletable(s: OrderStatus) {
    s == Pending
  }

  predicate CanTransitionTo(s: OrderStatus, t: OrderStatus) {
    match s
    case Pending => t == Confirmed || t == Cancelled
    case Confirmed => t == Paid || t == Cancelled
    case Paid => t == Processing
    case Processing => t == Shipped
    case Shipped => t == Delivered
    case Delivered => false
    case Cancelled => false
  }

  /** The statuses an order may still be edited in. */
  lemma ModifiableStatuses(s: OrderStatus)
    ensures IsModifiable(s) <==> s in {Pending, Confirmed}
  {
  }

  /** Only a pending order may be deleted, so every deletable order is modifiable. */
  lemma DeletableIsModifiable(s: OrderStatus)
    ensures IsDeletable(s) <==> s == Pending
    ensures IsDeletable(s) ==> IsModifiable(s)
  {
  }

  /** The allowed moves, written as a table of pairs. */
  const AllowedMoves: set<(OrderStatus, OrderStatus)> := {
    (Pending, Confirmed), (Pending, Cancelled),
    (Confirmed, Paid), (Confirmed, Cancelled),
    (Paid, Processing),
    (Processing, Shipped),
    (Shipped, Delivered)
  }

  /** canTransitionTo allows exactly the moves in the table. */
  lemma TransitionTable(s: OrderStatus, t: OrderStatus)
    ensures CanTransitionTo(s, t) <==> (s, t) in AllowedMoves
  {
  }

  /** Delivered and cancelled orders are final. */
  lemma FinalStatuses(s: OrderStatus, t: OrderStatus)
    requires s == Delivered || s == Cancelled
    ensures !CanTransitionTo(s, t)
  {
  }

  /** An order is cancelled in one step only while pending or confirmed. */
  lemma CancelSources(s: OrderStatus)
    ensures CanTransitionTo(s, Cancelled) <==> s == Pending || s == Confirmed
  {
  }

  /** Every allowed move goes to a case declared later. */
  lemma TransitionMovesForward(s: OrderStatus, t: OrderStatus)
    requires CanTransitionTo(s, t)
    ensures Ordinal(s) < Ordinal(t)
  {
  }

  /** A sequence of statuses in which each one may follow the one before. */
  predicate IsLifecycle(p: seq<OrderStatus>) {
    forall i :: 0 <= i < |p| - 1 ==> CanTransitionTo(p[i], p[i + 1])
  }

  /** Along a lifecycle the ordinal grows with every step. */
  lemma {:induction false} LifecycleOrdinals(p: seq<OrderStatus>)
    requires IsLifecycle(p) && |p| >= 1
    ensures Ordinal(p[|p| - 1]) >= Ordinal(p[0]) + |p| - 1
  {
    if |p| > 1 {
      var q := p[..|p| - 1];
      assert IsLifecycle(q) by {
        forall i | 0 <= i < |q| - 1
          ensures CanTransitionTo(q[i], q[i + 1])
        {
          assert q[i] == p[i] && q[i + 1] == p[i + 1];
        }
      }
      LifecycleOrdinals(q);
      TransitionMovesForward(p[|p| - 2], p[|p| - 1]);
    }
  }

  /** No lifecycle returns to a status it has left: there are no cycles and no self-loops. */
  lemma NoCycles(p: seq<OrderStatus>)
    requires IsLifecycle(p) && |p| >= 2
    ensures p[0] != p[|p| - 1]
  {
    LifecycleOrdinals(p);
  }

  /** An order passes through at most seven statuses, so at most six moves. */
  lemma LifecycleBound(p: seq<OrderStatus>)
    requires IsLifecycle(p) && |p| >= 1
    ensures |p| <= 7
  {
    LifecycleOrdinals(p);
  }
}
