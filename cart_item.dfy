/** One line of a v2 shopping cart as an immutable value. */
module CartItemDto {
  import opened Wrappers
  import opened PhpValues
  import opened VatCategoryEnum

  datatype CartItem = CartItem(
    productId: PhpInt,
    productName: string,
    unitPrice: Float,
    quantity: PhpInt,
    vatCategory: VatCategory)

  function Max(a: int, b: int): int {
    if a >= b then a else b
  }

  /** CartItemDTO::withQuantity: a copy with the quantity raised to at least 1. */
  function WithQuantity(item: CartItem, q: PhpInt): (r: CartItem)
    ensures r.quantity >= 1
    ensures q >= 1 ==> r.quantity == q
    ensures q < 1 ==> r.quantity == 1
    ensures r.productId == item.productId && r.productName == item.productName
    ensures r.unitPrice == item.unitPrice && r.vatCategory == item.vatCategory
  {
    CartItem(item.productId, item.productName, item.unitPrice, Max(1, q), item.vatCategory)
  }

  /** Setting the same quantity twice changes nothing more. */
  lemma WithQuantityIdempotent(item: CartItem, q: PhpInt)
    ensures WithQuantity(WithQuantity(item, q), q) == WithQuantity(item, q)
  {
  }

  /** Only the last quantity set matters. */
  lemma WithQuantityOverrides(item: CartItem, p: PhpInt, q: PhpInt)
    ensures WithQuantity(WithQuantity(item, p), q) == WithQuantity(item, q)
  {
  }

  /** Setting the quantity an item already has, when valid, gives the item back. */
  lemma WithOwnQuantity(item: CartItem)
    requires item.quantity >= 1
    ensures WithQuantity(item, item.quantity) == item
  {
  }

  /** CartItemDTO::fromLegacyArray; Failure is the TypeError fromLegacyType raises for a type code that is neither int nor string. */
  function FromLegacyArray(item: Row): (r: Result<CartItem, TypeError>)
    ensures r.Failure? <==> LegacyTypeArgument(FirstSet(item, "soort", "type", Int(0))).None?
    ensures r.Success? ==> r.value.quantity >= 1
  {
    var vat := LegacyTypeArgument(FirstSet(item, "soort", "type", Int(0)));
    if vat.None? then Failure(TypeError)
    else
      Success(CartItem(
        IntCast(FirstSet(item, "id", "product_id", Int(0))),
        StringCast(FirstSet(item, "naam", "name", Str(""))),
        FloatOf(FirstSet(item, "prijs", "price", Flt("0"))),
        Max(1, IntCast(FirstSet(item, "aantal", "quantity", Int(1)))),
        FromLegacyType(vat.value)))
  }

  /** The Dutch legacy keys win over the English ones, and missing fields take their defaults. */
  lemma FromLegacyArrayKeys(item: Row)
    requires FromLegacyArray(item).Success?
    ensures var r := FromLegacyArray(item).value;
      (IsSet(Field(item, "naam")) ==> r.productName == StringCast(item["naam"])) &&
      (!IsSet(Field(item, "naam")) && IsSet(Field(item, "name")) ==> r.productName == StringCast(item["name"])) &&
      (!IsSet(Field(item, "naam")) && !IsSet(Field(item, "name")) ==> r.productName == "") &&
      (IsSet(Field(item, "id")) ==> r.productId == IntCast(item["id"])) &&
      (!IsSet(Field(item, "id")) && IsSet(Field(item, "product_id")) ==> r.productId == IntCast(item["product_id"])) &&
      (!IsSet(Field(item, "id")) && !IsSet(Field(item, "product_id")) ==> r.productId == 0) &&
      (IsSet(Field(item, "prijs")) ==> r.unitPrice == FloatOf(item["prijs"])) &&
      (!IsSet(Field(item, "prijs")) && IsSet(Field(item, "price")) ==> r.unitPrice == FloatOf(item["price"])) &&
      (IsSet(Field(item, "soort")) ==> r.vatCategory == FromLegacyType(LegacyTypeArgument(item["soort"]).value)) &&
      (!IsSet(Field(item, "soort")) && IsSet(Field(item, "type")) ==>
        r.vatCategory == FromLegacyType(LegacyTypeArgument(item["type"]).value))
  {
  }

  /** Without a type code under either key the item always reads, at the zero rate. */
  lemma FromLegacyArrayUntyped(item: Row)
    requires !IsSet(Field(item, "soort")) && !IsSet(Field(item, "type"))
    ensures FromLegacyArray(item).Success? && FromLegacyArray(item).value.vatCategory == Zero
  {
  }

  /**
   * The quantity is aantal, else quantity, else 1, raised to 1 when smaller:
   * a missing quantity counts as 1 and a given one below 1 becomes 1.
   */
  lemma FromLegacyArrayQuantity(item: Row)
    requires FromLegacyArray(item).Success?
    ensures var q := FromLegacyArray(item).value.quantity;
      (!IsSet(Field(item, "aantal")) && !IsSet(Field(item, "quantity")) ==> q == 1) &&
      (IsSet(Field(item, "aantal")) && IntCast(item["aantal"]) >= 1 ==> q == IntCast(item["aantal"])) &&
      (IsSet(Field(item, "aantal")) && IntCast(item["aantal"]) < 1 ==> q == 1) &&
      (!IsSet(Field(item, "aantal")) && IsSet(Field(item, "quantity")) && IntCast(item["quantity"]) >= 1 ==>
        q == IntCast(item["quantity"])) &&
      (!IsSet(Field(item, "aantal")) && IsSet(Field(item, "quantity")) && IntCast(item["quantity"]) < 1 ==> q == 1)
  {
  }
}
