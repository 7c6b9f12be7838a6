/**
 * Validation of the create and delete order requests of the v2 shop: the
 * legacy "mandje" cart is filtered and clamped, and errors are collected per
 * field before a single ValidationException is thrown.
 */
module OrderRequestValidation {
  import opened Wrappers
  import opened PhpStrings
  import opened OrderedMaps
  import opened PhpValues

  /** The errors a ValidationException carries, field to message, in the order they were recorded. */
  type Errors = Assoc<string, string>

  /** A validated cart: product id to quantity. */
  type ValidCart = Assoc<PhpInt, PhpInt>

  datatype CreateOrderRequest = CreateOrderRequest(customerId: PhpInt, cart: ValidCart)

  datatype DeleteOrderRequest = DeleteOrderRequest(orderId: PhpInt, customerId: PhpInt)

  /** The largest quantity kept for one product. */
  const MaxQuantity: int := 999

  function Min(a: int, b: int): int {
    if a <= b then a else b
  }

  // ---------------------------------------------------------------------
  // validateCart
  // ---------------------------------------------------------------------

  /**
   * What one cart entry contributes: the product id and clamped quantity,
   * when both key and value pass FILTER_VALIDATE_INT and are positive.
   */
  function CartEntry(entry: (Key, Value)): (r: Option<(PhpInt, PhpInt)>)
    ensures r.Some? ==> r.value.0 > 0 && 1 <= r.value.1 <= MaxQuantity
    ensures r.Some? <==>
      (var pid := FilterInt(KeyValue(entry.0));
       var qty := FilterInt(entry.1);
       pid.Some? && pid.value > 0 && qty.Some? && qty.value > 0)
  {
    var pid := FilterInt(KeyValue(entry.0));
    var qty := FilterInt(entry.1);
    if pid.None? || pid.value <= 0 then None
    else if qty.None? || qty.value <= 0 then None
    else Some((pid.value, Min(qty.value, MaxQuantity)))
  }

  /** A write to the validated cart: product id and quantity, or nothing for a skipped entry. */
  type CartWrite = Option<(PhpInt, PhpInt)>

  /** The write each cart entry makes, in order. */
  function CartWrites(cart: Assoc<Key, Value>): (ws: seq<CartWrite>)
    ensures |ws| == |cart|
    ensures forall i :: 0 <= i < |cart| ==> ws[i] == CartEntry(cart[i])
  {
    seq(|cart|, i requires 0 <= i < |cart| => CartEntry(cart[i]))
  }

  /** The array built by performing the writes in order, starting from []. */
  function ApplyWrites(ws: seq<CartWrite>): ValidCart
    decreases |ws|
  {
    if ws == [] then []
    else
      var previous := ApplyWrites(ws[..|ws| - 1]);
      match ws[|ws| - 1]
      case None => previous
      case Some(e) => Put(previous, e.0, e.1)
  }

  /** The quantity of the last write for product p, if any. */
  function LastWrite(ws: seq<CartWrite>, p: PhpInt): Option<PhpInt>
    decreases |ws|
  {
    if ws == [] then None
    else
      var e := ws[|ws| - 1];
      if e.Some? && e.value.0 == p then Some(e.value.1)
      else LastWrite(ws[..|ws| - 1], p)
  }

  /** The cart validateCart returns: its entries' writes performed in input order. */
  function ValidatedCart(cart: Assoc<Key, Value>): ValidCart {
    ApplyWrites(CartWrites(cart))
  }

  /** Writes of positive ids and bounded quantities build an array of such entries without repeated keys. */
  lemma {:induction false} ApplyWritesBounds(ws: seq<CartWrite>)
    requires forall i :: 0 <= i < |ws| && ws[i].Some? ==> ws[i].value.0 > 0 && 1 <= ws[i].value.1 <= MaxQuantity
    ensures DistinctKeys(ApplyWrites(ws))
    ensures forall i :: 0 <= i < |ApplyWrites(ws)| ==>
      ApplyWrites(ws)[i].0 > 0 && 1 <= ApplyWrites(ws)[i].1 <= MaxQuantity
  {
    if ws != [] {
      var previous := ApplyWrites(ws[..|ws| - 1]);
      ApplyWritesBounds(ws[..|ws| - 1]);
      var e := ws[|ws| - 1];
      if e.Some? {
        PutDistinct(previous, e.value.0, e.value.1);
      }
    }
  }

  /** A product's entry in the built array holds the quantity of the last write for it. */
  lemma {:induction false} ApplyWritesLookup(ws: seq<CartWrite>, p: PhpInt)
    ensures Get(ApplyWrites(ws), p) == LastWrite(ws, p)
  {
    if ws != [] {
      var previous := ApplyWrites(ws[..|ws| - 1]);
      ApplyWritesLookup(ws[..|ws| - 1], p);
      var e := ws[|ws| - 1];
      if e.Some? {
        PutGet(previous, e.value.0, e.value.1, p);
      }
    }
  }

  /** There is a last write for p exactly when some write is for p. */
  lemma {:induction false} LastWriteFound(ws: seq<CartWrite>, p: PhpInt)
    ensures LastWrite(ws, p).Some? <==> exists i :: 0 <= i < |ws| && ws[i].Some? && ws[i].value.0 == p
  {
    if ws != [] {
      var prefix := ws[..|ws| - 1];
      LastWriteFound(prefix, p);
      if exists i :: 0 <= i < |ws| && ws[i].Some? && ws[i].value.0 == p {
        var i :| 0 <= i < |ws| && ws[i].Some? && ws[i].value.0 == p;
        if i < |ws| - 1 {
          assert prefix[i] == ws[i];
        }
      }
      if LastWrite(prefix, p).Some? {
        var i :| 0 <= i < |prefix| && prefix[i].Some? && prefix[i].value.0 == p;
        assert ws[i] == prefix[i];
      }
    }
  }

  /** Every kept product has a positive id and a quantity in 1..999, and no product appears twice. */
  lemma ValidatedCartBounds(cart: Assoc<Key, Value>)
    ensures DistinctKeys(ValidatedCart(cart))
    ensures forall i :: 0 <= i < |ValidatedCart(cart)| ==>
      ValidatedCart(cart)[i].0 > 0 && 1 <= ValidatedCart(cart)[i].1 <= MaxQuantity
  {
    ApplyWritesBounds(CartWrites(cart));
  }

  /**
   * Looking a product up in the validated cart gives the clamped quantity of
   * the last valid entry for it, and finds it exactly when some entry for it
   * is valid: invalid entries are dropped and a later entry overwrites an
   * earlier one.
   */
  lemma ValidatedCartLookup(cart: Assoc<Key, Value>, p: PhpInt)
    ensures Get(ValidatedCart(cart), p) == LastWrite(CartWrites(cart), p)
    ensures Get(ValidatedCart(cart), p).Some? <==>
      exists i :: 0 <= i < |cart| && CartEntry(cart[i]).Some? && CartEntry(cart[i]).value.0 == p
  {
    var ws := CartWrites(cart);
    ApplyWritesLookup(ws, p);
    LastWriteFound(ws, p);
    assert forall i :: 0 <= i < |cart| ==> ws[i] == CartEntry(cart[i]);
  }

  /** One more write either leaves the array alone or writes its product. */
  lemma ApplyWritesStep(ws: seq<CartWrite>, i: nat)
    requires i < |ws|
    ensures ApplyWrites(ws[..i + 1]) ==
      match ws[i]
      case None => ApplyWrites(ws[..i])
      case Some(e) => Put(ApplyWrites(ws[..i]), e.0, e.1)
  {
    assert ws[..i + 1][..i] == ws[..i];
  }

  /** An integer id and quantity are kept exactly when both are positive, with the quantity capped at 999. */
  lemma IntegerEntry(pid: PhpInt, qty: PhpInt)
    ensures CartEntry((IntKey(pid), Int(qty))) ==
      if pid > 0 && qty > 0 then Some((pid, Min(qty, MaxQuantity))) else None
  {
    FilterIntOfInt(pid);
    FilterIntOfInt(qty);
  }

  /** The loop body of OrderRequestValidator::validateCart for one entry: skip it, or the write it makes. */
  method CheckCartEntry(entry: (Key, Value)) returns (w: CartWrite)
    ensures w == CartEntry(entry)
  {
    var (productId, quantity) := entry;
    var pid := FilterInt(KeyValue(productId));
    var qty := FilterInt(quantity);
    if pid.None? || pid.value <= 0 {
      w := None;
    } else if qty.None? || qty.value <= 0 {
      w := None;
    } else {
      var capped := Min(qty.value, MaxQuantity);
      w := Some((pid.value, capped));
    }
  }

  /** OrderRequestValidator::validateCart. */
  method ValidateCart(cart: Assoc<Key, Value>) returns (validated: ValidCart)
    ensures validated == ValidatedCart(cart)
  {
    ghost var ws := CartWrites(cart);
    validated := [];
    var i := 0;
    while i < |cart|
      invariant 0 <= i <= |cart|
      invariant validated == ApplyWrites(ws[..i])
    {
      ApplyWritesStep(ws, i);
      var write := CheckCartEntry(cart[i]);
      assert write == ws[i];
      if write.Some? {
        validated := Put(validated, write.value.0, write.value.1);
      }
      i := i + 1;
    }
    assert ws[..i] == ws;
  }

  // ---------------------------------------------------------------------
  // validateCreateOrderRequest
  // ---------------------------------------------------------------------

  /** The error recorded for customer_id in a create request, if any. */
  function CustomerIdError(data: Row): (r: Option<string>)
    ensures r.None? ==> "customer_id" in data && IntCast(data["customer_id"]) > 0
  {
    var c := Field(data, "customer_id");
    if !IsSet(c) then Some("Customer ID is required")
    else if !IsNumeric(c.value) || IntCast(c.value) <= 0 then Some("Invalid customer ID")
    else None
  }

  /** A customer_id too large for a double, such as "1e309", is numeric but casts to 0, so it is invalid. */
  lemma OverflowingCustomerIdRejected(data: Row)
    requires Field(data, "customer_id") == Some(Str("1e309"))
    ensures CustomerIdError(data) == Some("Invalid customer ID")
  {
    OverflowingStringCast();
  }

  /** The cart of a create request: mandje, else cart, else an empty array. */
  function RequestCart(data: Row): Value {
    Coalesce(Field(data, "mandje"), Coalesce(Field(data, "cart"), Arr([])))
  }

  /** The error recorded for the cart in a create request, if any. */
  function CartError(data: Row): Option<string> {
    var cart := RequestCart(data);
    if !cart.Arr? then Some("Cart must be an array")
    else if ValidatedCart(cart.entries) == [] then Some("Cart cannot be empty")
    else None
  }

  /** The entry a recorded error adds to the error list. */
  function ErrorEntry(field: string, e: Option<string>): Errors {
    if e.Some? then [(field, e.value)] else []
  }

  /** The customer_id check of validateCreateOrderRequest, on an empty error list. */
  method CheckCustomerId(data: Row) returns (errors: Errors)
    ensures errors == ErrorEntry("customer_id", CustomerIdError(data))
  {
    errors := [];
    var customer := Field(data, "customer_id");
    if !IsSet(customer) {
      errors := Put(errors, "customer_id", "Customer ID is required");
    } else if !IsNumeric(customer.value) || IntCast(customer.value) <= 0 {
      errors := Put(errors, "customer_id", "Invalid customer ID");
    }
  }

  /** OrderRequestValidator::validateCreateOrderRequest; Failure is the ValidationException with its errors. */
  method ValidateCreateOrderRequest(data: Row) returns (r: Result<CreateOrderRequest, Errors>)
    ensures r.Success? <==> CustomerIdError(data).None? && CartError(data).None?
    ensures r.Failure? ==>
      r.error == ErrorEntry("customer_id", CustomerIdError(data)) + ErrorEntry("cart", CartError(data)) &&
      r.error != []
    ensures r.Success? ==>
      "customer_id" in data && RequestCart(data).Arr? &&
      r.value == CreateOrderRequest(IntCast(data["customer_id"]), ValidatedCart(RequestCart(data).entries))
    ensures r.Success? ==> r.value.customerId > 0 && r.value.cart != [] && DistinctKeys(r.value.cart)
  {
    var errors := CheckCustomerId(data);
    assert !HasKey(errors, "cart");

    var cart := Coalesce(Field(data, "mandje"), Coalesce(Field(data, "cart"), Arr([])));
    assert cart == RequestCart(data);
    var validatedCart: ValidCart := [];
    if !cart.Arr? {
      errors := Put(errors, "cart", "Cart must be an array");
    } else {
      validatedCart := ValidateCart(cart.entries);
      ValidatedCartBounds(cart.entries);
      if validatedCart == [] {
        errors := Put(errors, "cart", "Cart cannot be empty");
      }
    }
    assert errors == ErrorEntry("customer_id", CustomerIdError(data)) + ErrorEntry("cart", CartError(data));

    if errors != [] {
      return Failure(errors);
    }
    return Success(CreateOrderRequest(IntCast(data["customer_id"]), validatedCart));
  }

  // ---------------------------------------------------------------------
  // validateDeleteOrderRequest
  // ---------------------------------------------------------------------

  /** The order id of a delete request: order_id, else oid. */
  function RequestOrderId(data: Row): Option<Value> {
    if IsSet(Field(data, "order_id")) then Field(data, "order_id") else Field(data, "oid")
  }

  /** The error recorded for the order id in a delete request, if any. */
  function OrderIdError(data: Row): Option<string> {
    if !IsSet(Field(data, "order_id")) && !IsSet(Field(data, "oid")) then Some("Order ID is required")
    else
      var orderId := RequestOrderId(data).value;
      if !IsNumeric(orderId) || IntCast(orderId) <= 0 then Some("Invalid order ID") else None
  }

  /** The error recorded for customer_id in a delete request: only its presence is checked. */
  function DeleteCustomerError(data: Row): Option<string> {
    if !IsSet(Field(data, "customer_id")) then Some("Customer ID is required") else None
  }

  /** OrderRequestValidator::validateDeleteOrderRequest; Failure is the ValidationException with its errors. */
  method ValidateDeleteOrderRequest(data: Row) returns (r: Result<DeleteOrderRequest, Errors>)
    ensures r.Success? <==> OrderIdError(data).None? && DeleteCustomerError(data).None?
    ensures r.Failure? ==>
      r.error == ErrorEntry("order_id", OrderIdError(data)) + ErrorEntry("customer_id", DeleteCustomerError(data)) &&
      r.error != []
    ensures r.Success? ==>
      RequestOrderId(data).Some? && "customer_id" in data &&
      r.value == DeleteOrderRequest(IntCast(RequestOrderId(data).value), IntCast(data["customer_id"]))
    ensures r.Success? ==> r.value.orderId > 0
  {
    var errors: Errors := [];
    var orderIdField := Field(data, "order_id");
    var oidField := Field(data, "oid");
    if !IsSet(orderIdField) && !IsSet(oidField) {
      errors := Put(errors, "order_id", "Order ID is required");
    } else {
      var orderId := if IsSet(orderIdField) then orderIdField.value else oidField.value;
      if !IsNumeric(orderId) || IntCast(orderId) <= 0 {
        errors := Put(errors, "order_id", "Invalid order ID");
      }
    }
    assert errors == ErrorEntry("order_id", OrderIdError(data));

    if !IsSet(Field(data, "customer_id")) {
      errors := Put(errors, "customer_id", "Customer ID is required");
    }

    if errors != [] {
      return Failure(errors);
    }
    var orderId := if IsSet(orderIdField) then orderIdField.value else oidField.value;
    return Success(DeleteOrderRequest(IntCast(orderId), IntCast(data["customer_id"])));
  }

  /** order_id wins over oid, and a missing order_id falls back to oid. */
  lemma OrderIdPrecedence(data: Row)
    ensures IsSet(Field(data, "order_id")) ==> RequestOrderId(data) == Some(data["order_id"])
    ensures !IsSet(Field(data, "order_id")) && IsSet(Field(data, "oid")) ==> RequestOrderId(data) == Some(data["oid"])
  {
  }

  /** A delete request accepts any customer_id that is present, even one that is not a number, which then reads as 0. */
  lemma DeleteChecksCustomerPresenceOnly(data: Row)
    requires Field(data, "customer_id") == Some(Str("abc"))
    ensures DeleteCustomerError(data).None?
    ensures IntCast(data["customer_id"]) == 0
  {
    IntCastWithoutDigits("abc");
  }
}
