/** A v2 order as an immutable value: its lifecycle status, customer, cart and carried totals. */
module OrderDto {
  import opened Wrappers
  import opened PhpValues
  import opened OrderStatusEnum
  import opened CartDto

  /**
   * A DateTimeImmutable: a reading of the clock, which the model takes as an
   * input, or the text a timestamp was constructed from (its parsing is not
   * modelled).
   */
  datatype DateTime = Clock(reading: int) | Parsed(text: string)

  datatype Order = Order(
    id: Option<PhpInt>,
    customerId: PhpInt,
    cart: Cart,
    status: OrderStatus,
    subtotal: Float,
    vatTotal: Float,
    discountAmount: Float,
    grandTotal: Float,
    createdAt: DateTime,
    updatedAt: Option<DateTime>)

  /** OrderDTO::create at clock reading now; the computed totals are carried as Computed. */
  function Create(customerId: PhpInt, cart: Cart, now: int): (r: Order)
    ensures r.id.None? && r.status == Pending
    ensures r.customerId == customerId && r.cart == cart
    ensures r.createdAt == Clock(now) && r.updatedAt.None?
  {
    Order(None, customerId, cart, Pending, Computed, Computed, Computed, Computed, Clock(now), None)
  }

  /** The status stored in a row: its backing string, or pending when missing or unknown. */
  function RowStatus(row: Row): (s: OrderStatus)
    ensures var text := StringCast(Coalesce(Field(row, "status"), Str("")));
      (TryFrom(text).Some? ==> s == TryFrom(text).value) &&
      (TryFrom(text).None? ==> s == Pending)
  {
    TryFrom(StringCast(Coalesce(Field(row, "status"), Str("")))).GetOr(Pending)
  }

  /**
   * OrderDTO::fromDatabaseRow at clock reading now, which a row without
   * created_at is stamped with; a timestamp the row holds is kept as its text.
   */
  function FromDatabaseRow(row: Row, cart: Cart, now: int): (r: Order)
    ensures r.id.Some? && r.cart == cart && r.status == RowStatus(row)
    ensures r.customerId == IntCast(FirstSet(row, "klant_id", "customer_id", Int(0)))
    ensures !IsSet(Field(row, "created_at")) ==> r.createdAt == Clock(now)
    ensures IsSet(Field(row, "created_at")) ==> r.createdAt == Parsed(StringCast(row["created_at"]))
    ensures r.updatedAt.Some? <==> IsSet(Field(row, "updated_at"))
    ensures r.updatedAt.Some? ==> r.updatedAt.value == Parsed(StringCast(row["updated_at"]))
  {
    Order(
      Some(IntCast(Coalesce(Field(row, "id"), Int(0)))),
      IntCast(FirstSet(row, "klant_id", "customer_id", Int(0))),
      cart,
      RowStatus(row),
      FloatOf(Coalesce(Field(row, "subtotal"), Flt("0"))),
      FloatOf(FirstSet(row, "vat_total", "btw_totaal", Flt("0"))),
      FloatOf(FirstSet(row, "discount", "korting", Flt("0"))),
      FloatOf(FirstSet(row, "grand_total", "totaal", Flt("0"))),
      if IsSet(Field(row, "created_at")) then Parsed(StringCast(row["created_at"])) else Clock(now),
      if IsSet(Field(row, "updated_at")) then Some(Parsed(StringCast(row["updated_at"]))) else None)
  }

  /** A row without a status, or with one that names no case, is read as pending; a known one is kept. */
  lemma RowStatusFallback(row: Row, s: OrderStatus)
    ensures !IsSet(Field(row, "status")) ==> RowStatus(row) == Pending
    ensures Field(row, "status") == Some(Str("shipped-ish")) ==> RowStatus(row) == Pending
    ensures Field(row, "status") == Some(Str(OrderStatusEnum.Value(s))) ==> RowStatus(row) == s
  {
    TryFromValue(s);
    assert StringCast(Str("")) == "";
  }

  /** The Dutch klant_id wins over customer_id, and a row with neither belongs to customer 0. */
  lemma CustomerIdPrecedence(row: Row, cart: Cart, now: int)
    ensures IsSet(Field(row, "klant_id")) ==> FromDatabaseRow(row, cart, now).customerId == IntCast(row["klant_id"])
    ensures !IsSet(Field(row, "klant_id")) && IsSet(Field(row, "customer_id")) ==>
      FromDatabaseRow(row, cart, now).customerId == IntCast(row["customer_id"])
    ensures !IsSet(Field(row, "klant_id")) && !IsSet(Field(row, "customer_id")) ==>
      FromDatabaseRow(row, cart, now).customerId == 0
  {
  }

  /** OrderDTO::withStatus at clock reading now. */
  function WithStatus(o: Order, s: OrderStatus, now: int): (r: Order)
    ensures r.status == s && r.updatedAt == Some(Clock(now))
    ensures r.(status := o.status, updatedAt := o.updatedAt) == o
  {
    Order(o.id, o.customerId, o.cart, s, o.subtotal, o.vatTotal, o.discountAmount, o.grandTotal, o.createdAt, Some(Clock(now)))
  }

  predicate IsPaid(o: Order) {
    o.status == Paid || o.status == Processing || o.status == Shipped || o.status == Delivered
  }

  /** Paid means paid, processing, shipped or delivered. */
  lemma PaidStatuses(o: Order)
    ensures IsPaid(o) <==> o.status in {Paid, Processing, Shipped, Delivered}
  {
  }

  /** A new order is pending, so it is not paid yet, and a paid order can no longer be modified. */
  lemma PaidAndModifiable(o: Order, customerId: PhpInt, cart: Cart, now: int)
    ensures !IsPaid(Create(customerId, cart, now)) && IsModifiable(Create(customerId, cart, now).status)
    ensures IsPaid(o) ==> !IsModifiable(o.status)
  {
  }

  /**
   * Following an allowed transition never makes a paid order unpaid, and the
   * only way to become paid is the move from confirmed to paid.
   */
  lemma TransitionsKeepPayment(o: Order, s: OrderStatus, now: int)
    requires CanTransitionTo(o.status, s)
    ensures IsPaid(o) ==> IsPaid(WithStatus(o, s, now))
    ensures !IsPaid(o) && IsPaid(WithStatus(o, s, now)) ==> o.status == Confirmed && s == Paid
  {
  }
}
