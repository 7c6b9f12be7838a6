/** A catalogue product of the v2 shop as an immutable value read from a database row. */
module ProductDto {
  import opened Wrappers
  import opened PhpStrings
  import opened PhpValues
  import opened VatCategoryEnum
  import opened ProductStatusEnum

  datatype Product = Product(
    id: PhpInt,
    name: string,
    price: Float,
    stock: PhpInt,
    vatCategory: VatCategory,
    status: ProductStatus,
    description: Option<string>,
    sku: Option<string>)

  /** The threshold isLowStock uses when called without one. */
  const DefaultLowStockThreshold: int := 5

  /** The (string) of a field when it is set, else null. */
  function OptionalText(row: Row, key: string): (r: Option<string>)
    ensures r.Some? <==> IsSet(Field(row, key))
  {
    if IsSet(Field(row, key)) then Some(StringCast(row[key])) else None
  }

  /** ProductDTO::fromDatabaseRow; Failure is the TypeError fromLegacyType raises for a type code that is neither int nor string. */
  function FromDatabaseRow(row: Row): (r: Result<Product, TypeError>)
    ensures r.Failure? <==> LegacyTypeArgument(FirstSet(row, "soort", "type", Int(0))).None?
    ensures r.Success? ==> r.value.status == FromLegacyFlag(StringCast(FirstSet(row, "actief", "active", Str("N"))))
  {
    var vat := LegacyTypeArgument(FirstSet(row, "soort", "type", Int(0)));
    if vat.None? then Failure(TypeError)
    else
      Success(Product(
        IntCast(Coalesce(Field(row, "id"), Int(0))),
        StringCast(FirstSet(row, "naam", "name", Str(""))),
        FloatOf(FirstSet(row, "prijs", "price", Flt("0"))),
        IntCast(FirstSet(row, "voorraad", "stock", Int(0))),
        FromLegacyType(vat.value),
        FromLegacyFlag(StringCast(FirstSet(row, "actief", "active", Str("N")))),
        OptionalText(row, "omschrijving"),
        OptionalText(row, "sku")))
  }

  predicate IsLowStock(p: Product, threshold: int) {
    p.stock < threshold
  }

  predicate IsAvailable(p: Product) {
    ProductStatusEnum.IsAvailable(p.status) && p.stock > 0
  }

  /** A product is available exactly when it is active and has stock; without stock it never is. */
  lemma AvailableMeansActiveInStock(p: Product)
    ensures IsAvailable(p) <==> p.status == Active && !IsLowStock(p, 1)
    ensures p.stock <= 0 ==> !IsAvailable(p)
  {
  }

  /** Under the default threshold, low stock means fewer than five in stock. */
  lemma DefaultLowStock(p: Product)
    ensures IsLowStock(p, DefaultLowStockThreshold) <==> p.stock <= 4
  {
  }

  /**
   * Fields missing from a row take their fallbacks, whatever else the row
   * holds: id 0, name "" and stock 0 after the Dutch and English keys, price
   * 0.0, the zero VAT rate, the flag "N" and so an inactive product, and no
   * description or SKU.
   */
  lemma FromDatabaseRowDefaults(row: Row)
    ensures !IsSet(Field(row, "soort")) && !IsSet(Field(row, "type")) ==>
      FromDatabaseRow(row).Success? && FromDatabaseRow(row).value.vatCategory == Zero
    ensures FromDatabaseRow(row).Success? ==> var p := FromDatabaseRow(row).value;
      (!IsSet(Field(row, "id")) ==> p.id == 0) &&
      (!IsSet(Field(row, "naam")) && !IsSet(Field(row, "name")) ==> p.name == "") &&
      (!IsSet(Field(row, "prijs")) && !IsSet(Field(row, "price")) ==> p.price == FloatOf(Flt("0"))) &&
      (!IsSet(Field(row, "voorraad")) && !IsSet(Field(row, "stock")) ==> p.stock == 0) &&
      (!IsSet(Field(row, "actief")) && !IsSet(Field(row, "active")) ==> p.status == Inactive) &&
      (!IsSet(Field(row, "omschrijving")) ==> p.description.None?) &&
      (!IsSet(Field(row, "sku")) ==> p.sku.None?)
  {
    ActiveFlags("N");
  }

  /** The Dutch key wins over the English one for name, price, stock, type code and flag; id, description and SKU are read as given. */
  lemma DutchKeysFirst(row: Row)
    requires FromDatabaseRow(row).Success?
    ensures IsSet(Field(row, "id")) ==> FromDatabaseRow(row).value.id == IntCast(row["id"])
    ensures IsSet(Field(row, "prijs")) ==> FromDatabaseRow(row).value.price == FloatOf(row["prijs"])
    ensures !IsSet(Field(row, "prijs")) && IsSet(Field(row, "price")) ==> FromDatabaseRow(row).value.price == FloatOf(row["price"])
    ensures IsSet(Field(row, "soort")) ==>
      FromDatabaseRow(row).value.vatCategory == FromLegacyType(LegacyTypeArgument(row["soort"]).value)
    ensures !IsSet(Field(row, "soort")) && IsSet(Field(row, "type")) ==>
      FromDatabaseRow(row).value.vatCategory == FromLegacyType(LegacyTypeArgument(row["type"]).value)
    ensures IsSet(Field(row, "actief")) ==> FromDatabaseRow(row).value.status == FromLegacyFlag(StringCast(row["actief"]))
    ensures !IsSet(Field(row, "actief")) && IsSet(Field(row, "active")) ==>
      FromDatabaseRow(row).value.status == FromLegacyFlag(StringCast(row["active"]))
    ensures IsSet(Field(row, "omschrijving")) ==> FromDatabaseRow(row).value.description == Some(StringCast(row["omschrijving"]))
    ensures IsSet(Field(row, "sku")) ==> FromDatabaseRow(row).value.sku == Some(StringCast(row["sku"]))
    ensures IsSet(Field(row, "naam")) ==> FromDatabaseRow(row).value.name == StringCast(row["naam"])
    ensures !IsSet(Field(row, "naam")) && IsSet(Field(row, "name")) ==> FromDatabaseRow(row).value.name == StringCast(row["name"])
    ensures IsSet(Field(row, "voorraad")) ==> FromDatabaseRow(row).value.stock == IntCast(row["voorraad"])
    ensures !IsSet(Field(row, "voorraad")) && IsSet(Field(row, "stock")) ==> FromDatabaseRow(row).value.stock == IntCast(row["stock"])
  {
  }

  /** A product read without an active flag is never available, whatever its stock. */
  lemma MissingFlagUnavailable(row: Row)
    requires FromDatabaseRow(row).Success?
    requires !IsSet(Field(row, "actief")) && !IsSet(Field(row, "active"))
    ensures FromDatabaseRow(row).value.status == Inactive
    ensures !IsAvailable(FromDatabaseRow(row).value)
  {
    ActiveFlags("N");
  }
}
