/** The v2 shopping cart: an ordered list of cart items, built from the legacy "mandje" array. */
module CartDto {
  import opened Wrappers
  import opened OrderedMaps
  import opened PhpValues
  import opened VatCategoryEnum
  import opened CartItemDto

  datatype Cart = Cart(items: seq<CartItem>)

  predicate IsEmpty(c: Cart) {
    c.items == []
  }

  function ItemCount(c: Cart): nat {
    |c.items|
  }

  /** The sum of the quantities of the given items. */
  function SumQuantities(items: seq<CartItem>): int
    decreases |items|
  {
    if items == [] then 0 else SumQuantities(items[..|items| - 1]) + items[|items| - 1].quantity
  }

  /** CartDTO::totalQuantity. */
  function TotalQuantity(c: Cart): int {
    SumQuantities(c.items)
  }

  /** The empty cart has no items and total quantity 0; a cart is empty exactly when it has no items. */
  lemma EmptyCart()
    ensures IsEmpty(Cart([])) && ItemCount(Cart([])) == 0 && TotalQuantity(Cart([])) == 0
    ensures forall c: Cart :: IsEmpty(c) <==> ItemCount(c) == 0
  {
  }

  /** Adding an item adds its quantity to the total. */
  lemma {:induction false} SumQuantitiesAppend(a: seq<CartItem>, b: seq<CartItem>)
    ensures SumQuantities(a + b) == SumQuantities(a) + SumQuantities(b)
    decreases |b|
  {
    if b == [] {
      assert a + b == a;
    } else {
      assert (a + b)[..|a + b| - 1] == a + b[..|b| - 1];
      SumQuantitiesAppend(a, b[..|b| - 1]);
    }
  }

  /** When every quantity is at least 1, the total quantity is at least the number of items. */
  lemma {:induction false} TotalQuantityAtLeastCount(items: seq<CartItem>)
    requires forall k :: 0 <= k < |items| ==> items[k].quantity >= 1
    ensures SumQuantities(items) >= |items|
    decreases |items|
  {
    if items != [] {
      TotalQuantityAtLeastCount(items[..|items| - 1]);
    }
  }

  // ---------------------------------------------------------------------
  // fromLegacyMandje
  // ---------------------------------------------------------------------

  /** The product data the cart is built against, by product id. */
  type Products = map<PhpInt, Row>

  /** What handling one mandje entry does: skip it, throw a TypeError, or add an item. */
  type Outcome = Option<Result<CartItem, TypeError>>

  /** The item built for product id pid with quantity qty from the product's row. */
  function ItemFromProduct(pid: PhpInt, qty: PhpInt, product: Row): (r: Result<CartItem, TypeError>)
    ensures r.Failure? <==> LegacyTypeArgument(Coalesce(Field(product, "soort"), Int(0))).None?
    ensures r.Success? ==> r.value.productId == pid && r.value.quantity == qty
  {
    var vat := LegacyTypeArgument(Coalesce(Field(product, "soort"), Int(0)));
    if vat.None? then Failure(TypeError)
    else
      Success(CartItem(
        pid,
        StringCast(Coalesce(Field(product, "naam"), Str(""))),
        FloatOf(Coalesce(Field(product, "prijs"), Flt("0"))),
        qty,
        FromLegacyType(vat.value)))
  }

  /** One entry productId => quantity of the mandje. */
  function EntryOutcome(entry: (Key, Value), products: Products): (r: Outcome)
    ensures IntCast(entry.1) <= 0 ==> r.None?
    ensures IntCast(entry.1) > 0 && IntCast(KeyValue(entry.0)) !in products ==> r.None?
    ensures r.Some? && r.value.Success? ==>
      r.value.value.quantity == IntCast(entry.1) >= 1 &&
      r.value.value.productId == IntCast(KeyValue(entry.0)) && r.value.value.productId in products
  {
    var qty := IntCast(entry.1);
    if qty <= 0 then None
    else
      var pid := IntCast(KeyValue(entry.0));
      if pid !in products then None
      else Some(ItemFromProduct(pid, qty, products[pid]))
  }

  function Outcomes(mandje: Assoc<Key, Value>, products: Products): (os: seq<Outcome>)
    ensures |os| == |mandje|
    ensures forall i :: 0 <= i < |mandje| ==> os[i] == EntryOutcome(mandje[i], products)
  {
    seq(|mandje|, i requires 0 <= i < |mandje| => EntryOutcome(mandje[i], products))
  }

  /** The result of handling the outcomes in order: the first TypeError ends it. */
  function Collect(os: seq<Outcome>): Result<seq<CartItem>, TypeError>
    decreases |os|
  {
    if os == [] then Success([])
    else
      match Collect(os[..|os| - 1])
      case Failure(e) => Failure(e)
      case Success(items) =>
        match os[|os| - 1]
        case None => Success(items)
        case Some(Failure(e)) => Failure(e)
        case Some(Success(item)) => Success(items + [item])
  }

  /** The cart fromLegacyMandje builds, or the TypeError it throws. */
  function MandjeCart(mandje: Assoc<Key, Value>, products: Products): Result<Cart, TypeError> {
    match Collect(Outcomes(mandje, products))
    case Success(items) => Success(Cart(items))
    case Failure(e) => Failure(e)
  }

  /** The collected items are exactly the added items of the outcomes, in order; skipped entries leave no trace. */
  lemma {:induction false} CollectOrder(os: seq<Outcome>) returns (pos: seq<nat>)
    requires Collect(os).Success?
    ensures |pos| == |Collect(os).value|
    ensures forall k :: 0 <= k < |pos| ==> pos[k] < |os| && os[pos[k]] == Some(Success(Collect(os).value[k]))
    ensures forall k, l :: 0 <= k < l < |pos| ==> pos[k] < pos[l]
    ensures forall j :: 0 <= j < |os| && j !in pos ==> os[j].None?
    decreases |os|
  {
    if os == [] {
      pos := [];
    } else {
      var prefix := os[..|os| - 1];
      var items := Collect(prefix).value;
      var p := CollectOrder(prefix);
      assert forall k :: 0 <= k < |p| ==> os[p[k]] == prefix[p[k]];
      assert forall j :: 0 <= j < |prefix| ==> os[j] == prefix[j];
      match os[|os| - 1]
      case None =>
        pos := p;
      case Some(Success(item)) =>
        pos := p + [|os| - 1];
    }
  }

  /** Handling throws exactly when some entry's outcome is a TypeError. */
  lemma {:induction false} CollectFailure(os: seq<Outcome>)
    ensures Collect(os).Failure? <==> exists j :: 0 <= j < |os| && os[j].Some? && os[j].value.Failure?
    decreases |os|
  {
    if os != [] {
      var prefix := os[..|os| - 1];
      CollectFailure(prefix);
      if exists j :: 0 <= j < |os| && os[j].Some? && os[j].value.Failure? {
        var j :| 0 <= j < |os| && os[j].Some? && os[j].value.Failure?;
        if j < |os| - 1 {
          assert prefix[j] == os[j];
        }
      }
      if exists j :: 0 <= j < |prefix| && prefix[j].Some? && prefix[j].value.Failure? {
        var j :| 0 <= j < |prefix| && prefix[j].Some? && prefix[j].value.Failure?;
        assert os[j] == prefix[j];
      }
    }
  }

  /**
   * The items of a cart built from a mandje follow the mandje's order, one
   * per entry at most; each has the entry's (int) quantity, at least 1, and a
   * product id present in the products; every entry not used was skipped
   * because its quantity was not positive or its product was unknown.
   */
  lemma MandjeCartItems(mandje: Assoc<Key, Value>, products: Products) returns (pos: seq<nat>)
    requires MandjeCart(mandje, products).Success?
    ensures var items := MandjeCart(mandje, products).value.items;
      |pos| == |items| <= |mandje| &&
      (forall k, l :: 0 <= k < l < |pos| ==> pos[k] < pos[l]) &&
      (forall k :: 0 <= k < |pos| ==>
         pos[k] < |mandje| &&
         items[k].quantity == IntCast(mandje[pos[k]].1) >= 1 &&
         items[k].productId == IntCast(KeyValue(mandje[pos[k]].0)) && items[k].productId in products) &&
      (forall j :: 0 <= j < |mandje| && j !in pos ==>
         IntCast(mandje[j].1) <= 0 || IntCast(KeyValue(mandje[j].0)) !in products)
  {
    var os := Outcomes(mandje, products);
    pos := CollectOrder(os);
    var items := Collect(os).value;
    forall k | 0 <= k < |pos|
      ensures items[k].quantity == IntCast(mandje[pos[k]].1) >= 1
      ensures items[k].productId == IntCast(KeyValue(mandje[pos[k]].0)) && items[k].productId in products
    {
      assert os[pos[k]] == EntryOutcome(mandje[pos[k]], products);
    }
    forall j | 0 <= j < |mandje| && j !in pos
      ensures IntCast(mandje[j].1) <= 0 || IntCast(KeyValue(mandje[j].0)) !in products
    {
      assert os[j] == EntryOutcome(mandje[j], products);
    }
    IncreasingBounded(pos, |mandje|);
  }

  /** A strictly increasing sequence of indices below n has at most n elements. */
  lemma {:induction false} IncreasingBounded(pos: seq<nat>, n: nat)
    requires forall k :: 0 <= k < |pos| ==> pos[k] < n
    requires forall k, l :: 0 <= k < l < |pos| ==> pos[k] < pos[l]
    ensures |pos| <= n
    decreases |pos|
  {
    if pos != [] {
      var last := pos[|pos| - 1];
      IncreasingBounded(pos[..|pos| - 1], last);
    }
  }

  /** A cart built from a mandje has at most one item per entry and a total quantity of at least its item count. */
  lemma MandjeCartCounts(mandje: Assoc<Key, Value>, products: Products)
    requires MandjeCart(mandje, products).Success?
    ensures ItemCount(MandjeCart(mandje, products).value) <= |mandje|
    ensures TotalQuantity(MandjeCart(mandje, products).value) >= ItemCount(MandjeCart(mandje, products).value)
  {
    var pos := MandjeCartItems(mandje, products);
    TotalQuantityAtLeastCount(MandjeCart(mandje, products).value.items);
  }

  /** A product row without naam, prijs or soort gives an item named "", priced (float) 0.0, at the zero rate. */
  lemma ItemDefaults(pid: PhpInt, qty: PhpInt, product: Row)
    requires "naam" !in product && "prijs" !in product && "soort" !in product
    ensures ItemFromProduct(pid, qty, product) ==
      Success(CartItem(pid, "", FloatOf(Flt("0")), qty, Zero))
  {
  }

  lemma CollectStep(os: seq<Outcome>, i: nat)
    requires i < |os|
    ensures Collect(os[..i + 1]) ==
      match Collect(os[..i])
      case Failure(e) => Failure(e)
      case Success(items) =>
        match os[i]
        case None => Success(items)
        case Some(Failure(e)) => Failure(e)
        case Some(Success(item)) => Success(items + [item])
  {
    assert os[..i + 1][..i] == os[..i];
  }

  /** Once handling has thrown, the remaining entries do not matter. */
  lemma {:induction false} CollectFailureStays(os: seq<Outcome>, i: nat)
    requires i <= |os| && Collect(os[..i]).Failure?
    ensures Collect(os) == Collect(os[..i])
    decreases |os| - i
  {
    if i < |os| {
      CollectStep(os, i);
      CollectFailureStays(os, i + 1);
      assert Collect(os[..i + 1]) == Collect(os[..i]);
    } else {
      assert os[..i] == os;
    }
  }

  /** The loop body of CartDTO::fromLegacyMandje for one entry: skip it, build its item, or throw. */
  method HandleEntry(entry: (Key, Value), products: Products) returns (o: Outcome)
    ensures o == EntryOutcome(entry, products)
  {
    var (productId, quantity) := entry;
    var qty := IntCast(quantity);
    if qty <= 0 {
      return None;
    }
    var pid := IntCast(KeyValue(productId));
    if pid !in products {
      return None;
    }
    var built := ItemFromProduct(pid, qty, products[pid]);
    return Some(built);
  }

  /** CartDTO::fromLegacyMandje. */
  method FromLegacyMandje(mandje: Assoc<Key, Value>, products: Products) returns (r: Result<Cart, TypeError>)
    ensures r == MandjeCart(mandje, products)
  {
    ghost var os := Outcomes(mandje, products);
    var items: seq<CartItem> := [];
    var i := 0;
    while i < |mandje|
      invariant 0 <= i <= |mandje|
      invariant Collect(os[..i]) == Success(items)
    {
      CollectStep(os, i);
      var outcome := HandleEntry(mandje[i], products);
      assert outcome == os[i];
      match outcome {
        case None =>
        case Some(Failure(e)) =>
          CollectFailureStays(os, i + 1);
          return Failure(e);
        case Some(Success(item)) =>
          items := items + [item];
      }
      i := i + 1;
    }
    assert os[..i] == os;
    return Success(Cart(items));
  }
}
