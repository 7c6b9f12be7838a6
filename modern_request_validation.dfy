/**
 * Validation of the create and delete order requests of the first modern
 * shop: each posted item is checked in turn, errors are collected per field
 * and any error throws one ValidationException. The posted form and the
 * query-string id are inputs.
 */
module ModernRequestValidation {
  import opened Wrappers
  import opened OrderedMaps
  import opened PhpValues

  /** The errors a ValidationException carries: field to its one message, in the order recorded. */
  type Errors = Assoc<string, string>

  datatype ValidatedItem = ValidatedItem(id: PhpInt, price: real, qty: PhpInt, productType: PhpInt)

  datatype CreateOrderRequest = CreateOrderRequest(items: seq<ValidatedItem>)

  datatype DeleteOrderRequest = DeleteOrderRequest(orderId: PhpInt)

  const ItemsRequired: string := "Items zijn verplicht"
  const ItemNotArray: string := "Item moet een array zijn"
  const InvalidProductId: string := "Ongeldig product ID"
  const InvalidPrice: string := "Ongeldige prijs"
  const NoProductSelected: string := "Selecteer minimaal 1 product"
  const InvalidOrderId: string := "Ongeldig order ID"

  /** (string) of an array key. */
  function KeyText(k: Key): string {
    StringCast(KeyValue(k))
  }

  /** $item[name] ?? default. */
  function ItemField(item: Value, name: string, default: Value): Value {
    Coalesce(Index(item, StrKey(name)), default)
  }

  /** The quantity of an item: (int) of a numeric qty, else 0. */
  function ItemQty(item: Value): int {
    var raw := ItemField(item, "qty", Int(0));
    if IsNumeric(raw) then IntCast(raw) else 0
  }

  function ItemId(item: Value): Option<PhpInt> {
    FilterInt(ItemField(item, "id", Null))
  }

  function ItemPrice(item: Value): Option<real> {
    FilterFloat(ItemField(item, "price", Null))
  }

  function ItemType(item: Value): Option<PhpInt> {
    FilterInt(ItemField(item, "type", Int(0)))
  }

  /** What checking one item yields: the errors it records, in order, and the item it keeps. */
  datatype ItemOutcome = ItemOutcome(errors: Errors, kept: Option<ValidatedItem>)

  /** The error recorded for an item's id: none exactly when it is an integer of at least 1. */
  function IdErrors(prefix: string, id: Option<PhpInt>): (r: Errors)
    ensures r == [] <==> id.Some? && id.value >= 1
    ensures r != [] ==> r == [(prefix + ".id", InvalidProductId)]
    ensures |r| <= 1
  {
    if id.None? || id.value < 1 then [(prefix + ".id", InvalidProductId)] else []
  }

  /** The error recorded for an item's price: none exactly when it is a number of at least 0. */
  function PriceErrors(prefix: string, price: Option<real>): (r: Errors)
    ensures r == [] <==> price.Some? && price.value >= 0.0
    ensures r != [] ==> r == [(prefix + ".price", InvalidPrice)]
    ensures |r| <= 1
  {
    if price.None? || price.value < 0.0 then [(prefix + ".price", InvalidPrice)] else []
  }

  /** The checks the loop of validateCreateOrder makes on the item at index. */
  function CheckItem(index: Key, item: Value): (r: ItemOutcome)
    ensures |r.errors| <= 2
  {
    var prefix := "items." + KeyText(index);
    if !item.Arr? then ItemOutcome([(prefix, ItemNotArray)], None)
    else if ItemQty(item) < 1 then ItemOutcome([], None)
    else
      var id := ItemId(item);
      var price := ItemPrice(item);
      var productType := ItemType(item);
      ItemOutcome(IdErrors(prefix, id) + PriceErrors(prefix, price),
        if id.Some? && price.Some? && productType.Some? then Some(ValidatedItem(id.value, price.value, ItemQty(item), productType.value))
        else None)
  }

  /** A non-array item records one error under its index; an item with quantity below 1 is skipped silently. */
  lemma CheckItemSkips(index: Key, item: Value)
    ensures !item.Arr? ==> CheckItem(index, item) == ItemOutcome([("items." + KeyText(index), ItemNotArray)], None)
    ensures item.Arr? && ItemQty(item) < 1 ==> CheckItem(index, item) == ItemOutcome([], None)
  {
  }

  /**
   * An item is kept exactly when it is an array with quantity at least 1 whose
   * id, price and type all parse, whatever their range; it is kept with those
   * values.
   */
  lemma CheckItemKeeps(index: Key, item: Value)
    ensures CheckItem(index, item).kept.Some? <==>
      item.Arr? && ItemQty(item) >= 1 && ItemId(item).Some? && ItemPrice(item).Some? && ItemType(item).Some?
    ensures CheckItem(index, item).kept.Some? ==>
      CheckItem(index, item).kept.value ==
        ValidatedItem(ItemId(item).value, ItemPrice(item).value, ItemQty(item), ItemType(item).value)
  {
  }

  /** The two error keys of one item differ. */
  lemma ErrorKeysDiffer(prefix: string)
    ensures (prefix + ".id", InvalidProductId) != (prefix + ".price", InvalidPrice)
  {
    assert (prefix + ".id")[|prefix| + 1] != (prefix + ".price")[|prefix| + 1];
  }

  /**
   * A counted item records an id error exactly when its id is not an integer
   * of at least 1 and a price error exactly when its price is not a number of
   * at least 0, so it records none exactly when both are in range.
   */
  lemma CheckItemErrors(index: Key, item: Value)
    requires item.Arr? && ItemQty(item) >= 1
    ensures var prefix := "items." + KeyText(index);
      var errors := CheckItem(index, item).errors;
      ((prefix + ".id", InvalidProductId) in errors <==> ItemId(item).None? || ItemId(item).value < 1) &&
      ((prefix + ".price", InvalidPrice) in errors <==> ItemPrice(item).None? || ItemPrice(item).value < 0.0) &&
      (errors == [] <==> ItemId(item).Some? && ItemId(item).value >= 1 && ItemPrice(item).Some? && ItemPrice(item).value >= 0.0)
  {
    var prefix := "items." + KeyText(index);
    ErrorKeysDiffer(prefix);
    var a := IdErrors(prefix, ItemId(item));
    var b := PriceErrors(prefix, ItemPrice(item));
    assert CheckItem(index, item).errors == a + b;
    AtMostOneEach((prefix + ".id", InvalidProductId), (prefix + ".price", InvalidPrice), a, b);
  }

  /**
   * A counted item priced "0e5" records the price error and is not kept:
   * FILTER_VALIDATE_FLOAT refuses a zero written with a digit 1 to 9.
   */
  lemma ZeroExponentPriceRejected(index: Key, item: Value)
    requires item.Arr? && ItemQty(item) >= 1 && ItemField(item, "price", Null) == Str("0e5")
    ensures ("items." + KeyText(index) + ".price", InvalidPrice) in CheckItem(index, item).errors
    ensures CheckItem(index, item).kept.None?
  {
    PhpValues.FilterFloatZeroExponent();
    assert ItemPrice(item).None?;
    CheckItemErrors(index, item);
    CheckItemKeeps(index, item);
  }

  /** Two lists holding at most the entries x and y, x != y, report each exactly when it holds it. */
  lemma AtMostOneEach(x: (string, string), y: (string, string), a: Errors, b: Errors)
    requires x != y
    requires a == [] || a == [x]
    requires b == [] || b == [y]
    ensures x in a + b <==> a != []
    ensures y in a + b <==> b != []
    ensures a + b == [] <==> a == [] && b == []
  {
  }

  /** Each item's outcome, in input order. */
  function Outcomes(items: Assoc<Key, Value>): (os: seq<ItemOutcome>)
    ensures |os| == |items|
    ensures forall i :: 0 <= i < |items| ==> os[i] == CheckItem(items[i].0, items[i].1)
  {
    seq(|items|, i requires 0 <= i < |items| => CheckItem(items[i].0, items[i].1))
  }

  /** The writes $errors[key] = [message] performed in order. */
  function PutAll(e: Errors, writes: Errors): Errors
    decreases |writes|
  {
    if writes == [] then e else PutAll(Put(e, writes[0].0, writes[0].1), writes[1..])
  }

  /** The errors recorded by the outcomes, in order. */
  function ErrorsOf(os: seq<ItemOutcome>): Errors
    decreases |os|
  {
    if os == [] then [] else PutAll(ErrorsOf(os[..|os| - 1]), os[|os| - 1].errors)
  }

  /** The kept items, in order. */
  function KeptOf(os: seq<ItemOutcome>): seq<ValidatedItem>
    decreases |os|
  {
    if os == [] then []
    else
      var last := os[|os| - 1];
      KeptOf(os[..|os| - 1]) + (if last.kept.Some? then [last.kept.value] else [])
  }

  /** $_POST['items'] ?? []. */
  function RawItems(post: Row): Value {
    Coalesce(Field(post, "items"), Arr([]))
  }

  /** The outcome of RequestValidator::validateCreateOrder on the posted form. */
  function CreateOrderOutcome(post: Row): Result<CreateOrderRequest, Errors> {
    var raw := RawItems(post);
    if !raw.Arr? || raw.entries == [] then Failure([("items", ItemsRequired)])
    else
      var os := Outcomes(raw.entries);
      var errors := ErrorsOf(os);
      var errors' := if KeptOf(os) == [] then Put(errors, "items", NoProductSelected) else errors;
      if errors' != [] then Failure(errors') else Success(CreateOrderRequest(KeptOf(os)))
  }

  lemma OutcomeStep(os: seq<ItemOutcome>, i: nat)
    requires i < |os|
    ensures ErrorsOf(os[..i + 1]) == PutAll(ErrorsOf(os[..i]), os[i].errors)
    ensures KeptOf(os[..i + 1]) == KeptOf(os[..i]) + (if os[i].kept.Some? then [os[i].kept.value] else [])
  {
    assert os[..i + 1][..i] == os[..i];
  }

  /** CheckItem taken apart into the steps of the loop body. */
  lemma CheckItemSteps(index: Key, item: Value)
    ensures var prefix := "items." + KeyText(index);
      CheckItem(index, item) ==
        if !item.Arr? then ItemOutcome([(prefix, ItemNotArray)], None)
        else if ItemQty(item) < 1 then ItemOutcome([], None)
        else
          var id := ItemId(item);
          var price := ItemPrice(item);
          var productType := ItemType(item);
          ItemOutcome(IdErrors(prefix, id) + PriceErrors(prefix, price),
            if id.Some? && price.Some? && productType.Some? then Some(ValidatedItem(id.value, price.value, ItemQty(item), productType.value))
            else None)
  {
  }

  /** Performing no write, or one. */
  lemma PutAllOne(e: Errors, w: Errors)
    requires |w| <= 1
    ensures PutAll(e, w) == if w == [] then e else Put(e, w[0].0, w[0].1)
  {
    if w != [] {
      assert w[1..] == [];
    }
  }

  /** Performing at most two writes one by one. */
  lemma PutAllSteps(e: Errors, a: Errors, b: Errors)
    requires |a| <= 1 && |b| <= 1
    ensures PutAll(e, a + b) == PutAll(PutAll(e, a), b)
  {
    if a != [] {
      assert (a + b)[1..] == b;
    } else {
      assert a + b == b;
    }
  }

  /** RequestValidator::validateCreateOrder (validateCreateOrderRequest delegates to it). */
  method ValidateCreateOrder(post: Row) returns (r: Result<CreateOrderRequest, Errors>)
    ensures r == CreateOrderOutcome(post)
  {
    var rawItems := RawItems(post);
    var errors: Errors := [];
    if !rawItems.Arr? || rawItems.entries == [] {
      errors := Put(errors, "items", ItemsRequired);
      assert errors == [("items", ItemsRequired)];
      return Failure(errors);
    }
    var items := rawItems.entries;
    ghost var os := Outcomes(items);
    var validatedItems: seq<ValidatedItem> := [];
    for i := 0 to |items|
      invariant errors == ErrorsOf(os[..i])
      invariant validatedItems == KeptOf(os[..i])
    {
      OutcomeStep(os, i);
      var (index, item) := items[i];
      CheckItemSteps(index, item);
      ghost var before := errors;
      ghost var o := os[i];
      var indexStr := KeyText(index);
      if !item.Arr? {
        errors := Put(errors, "items." + indexStr, ItemNotArray);
        PutAllOne(before, o.errors);
        continue;
      }
      var qty := ItemQty(item);
      if qty < 1 {
        continue;
      }
      var id := ItemId(item);
      var price := ItemPrice(item);
      var productType := ItemType(item);
      ghost var idErrors := IdErrors("items." + indexStr, id);
      ghost var priceErrors := PriceErrors("items." + indexStr, price);
      assert o.errors == idErrors + priceErrors;
      if id.None? || id.value < 1 {
        errors := Put(errors, "items." + indexStr + ".id", InvalidProductId);
      }
      assert errors == PutAll(before, idErrors) by {
        PutAllOne(before, idErrors);
      }
      ghost var middle := errors;
      if price.None? || price.value < 0.0 {
        errors := Put(errors, "items." + indexStr + ".price", InvalidPrice);
      }
      assert errors == PutAll(middle, priceErrors) by {
        PutAllOne(middle, priceErrors);
      }
      PutAllSteps(before, idErrors, priceErrors);
      if id.Some? && price.Some? && productType.Some? {
        validatedItems := validatedItems + [ValidatedItem(id.value, price.value, qty, productType.value)];
      }
    }
    assert os[..|items|] == os;
    if validatedItems == [] {
      errors := Put(errors, "items", NoProductSelected);
    }
    if errors != [] {
      return Failure(errors);
    }
    return Success(CreateOrderRequest(validatedItems));
  }

  // ---------------------------------------------------------------------
  // Properties of validateCreateOrder
  // ---------------------------------------------------------------------

  /** Missing, non-array or empty items throw at once with only the items error. */
  lemma MissingItemsRejected(post: Row)
    requires !RawItems(post).Arr? || RawItems(post).entries == []
    ensures CreateOrderOutcome(post) == Failure([("items", ItemsRequired)])
  {
  }

  /** A write keeps every key there was and adds its own. */
  lemma PutHasKey(e: Errors, k: string, v: string, k': string)
    ensures HasKey(Put(e, k, v), k') <==> HasKey(e, k') || k' == k
  {
    PutGet(e, k, v, k');
  }

  /** Writes never remove a key, and every written key is present afterwards. */
  lemma {:induction false} PutAllKeys(e: Errors, w: Errors, k: string)
    ensures HasKey(PutAll(e, w), k) <==> HasKey(e, k) || exists j :: 0 <= j < |w| && w[j].0 == k
    decreases |w|
  {
    if w != [] {
      PutHasKey(e, w[0].0, w[0].1, k);
      PutAllKeys(Put(e, w[0].0, w[0].1), w[1..], k);
      if exists j :: 0 <= j < |w| && w[j].0 == k {
        var j :| 0 <= j < |w| && w[j].0 == k;
        if j > 0 {
          assert w[1..][j - 1].0 == k;
        }
      }
      if exists j :: 0 <= j < |w[1..]| && w[1..][j].0 == k {
        var j :| 0 <= j < |w[1..]| && w[1..][j].0 == k;
        assert w[j + 1].0 == k;
      }
    }
  }

  /** An error key is recorded exactly when some outcome records it. */
  lemma {:induction false} ErrorsOfKeys(os: seq<ItemOutcome>, k: string)
    ensures HasKey(ErrorsOf(os), k) <==> exists i, j :: 0 <= i < |os| && 0 <= j < |os[i].errors| && os[i].errors[j].0 == k
    decreases |os|
  {
    if os != [] {
      var prefix := os[..|os| - 1];
      var last := os[|os| - 1];
      ErrorsOfKeys(prefix, k);
      PutAllKeys(ErrorsOf(prefix), last.errors, k);
      if exists i, j :: 0 <= i < |os| && 0 <= j < |os[i].errors| && os[i].errors[j].0 == k {
        var i, j :| 0 <= i < |os| && 0 <= j < |os[i].errors| && os[i].errors[j].0 == k;
        if i < |os| - 1 {
          assert prefix[i] == os[i];
        }
      }
      if exists i, j :: 0 <= i < |prefix| && 0 <= j < |prefix[i].errors| && prefix[i].errors[j].0 == k {
        var i, j :| 0 <= i < |prefix| && 0 <= j < |prefix[i].errors| && prefix[i].errors[j].0 == k;
        assert os[i] == prefix[i];
      }
    }
  }

  /** No error is recorded exactly when no outcome records one. */
  lemma ErrorsOfEmpty(os: seq<ItemOutcome>)
    ensures ErrorsOf(os) == [] <==> forall i :: 0 <= i < |os| ==> os[i].errors == []
  {
    if ErrorsOf(os) != [] {
      var k := ErrorsOf(os)[0].0;
      ErrorsOfKeys(os, k);
    }
    if exists i :: 0 <= i < |os| && os[i].errors != [] {
      var i :| 0 <= i < |os| && os[i].errors != [];
      ErrorsOfKeys(os, os[i].errors[0].0);
    }
  }

  /** The kept items are the outcomes' kept items, in input order. */
  lemma {:induction false} KeptOrder(os: seq<ItemOutcome>) returns (pos: seq<nat>)
    ensures |pos| == |KeptOf(os)|
    ensures forall k :: 0 <= k < |pos| ==> pos[k] < |os| && os[pos[k]].kept == Some(KeptOf(os)[k])
    ensures forall k, l :: 0 <= k < l < |pos| ==> pos[k] < pos[l]
    ensures forall j :: 0 <= j < |os| && j !in pos ==> os[j].kept.None?
    decreases |os|
  {
    if os == [] {
      pos := [];
    } else {
      var prefix := os[..|os| - 1];
      var last := os[|os| - 1];
      var p := KeptOrder(prefix);
      assert forall j :: 0 <= j < |prefix| ==> os[j] == prefix[j];
      if last.kept.Some? {
        assert KeptOf(os) == KeptOf(prefix) + [last.kept.value];
        pos := p + [|os| - 1];
      } else {
        assert KeptOf(os) == KeptOf(prefix);
        pos := p;
      }
    }
  }

  /**
   * The request is accepted exactly when items is a non-empty array, no item
   * records an error and some item is kept; it then holds the kept items in
   * input order.
   */
  lemma CreateOrderAccepted(post: Row)
    ensures CreateOrderOutcome(post).Success? <==>
      RawItems(post).Arr? && RawItems(post).entries != [] &&
      (forall i :: 0 <= i < |RawItems(post).entries| ==> Outcomes(RawItems(post).entries)[i].errors == []) &&
      KeptOf(Outcomes(RawItems(post).entries)) != []
    ensures CreateOrderOutcome(post).Success? ==>
      CreateOrderOutcome(post).value.items == KeptOf(Outcomes(RawItems(post).entries))
  {
    var raw := RawItems(post);
    if raw.Arr? && raw.entries != [] {
      var os := Outcomes(raw.entries);
      ErrorsOfEmpty(os);
      PutHasKey(ErrorsOf(os), "items", NoProductSelected, "items");
    }
  }

  /**
   * Every item of an accepted request has an id of at least 1, a price of at
   * least 0 and a quantity of at least 1, and comes from an item of the form
   * holding exactly those values, in the form's order.
   */
  lemma AcceptedItemsInRange(post: Row) returns (pos: seq<nat>)
    requires CreateOrderOutcome(post).Success?
    ensures var items := CreateOrderOutcome(post).value.items;
      var entries := RawItems(post).entries;
      |pos| == |items| >= 1 &&
      (forall k, l :: 0 <= k < l < |pos| ==> pos[k] < pos[l]) &&
      forall k :: 0 <= k < |items| ==>
        pos[k] < |entries| &&
        ItemId(entries[pos[k]].1).Some? && ItemPrice(entries[pos[k]].1).Some? && ItemType(entries[pos[k]].1).Some? &&
        items[k] == ValidatedItem(ItemId(entries[pos[k]].1).value, ItemPrice(entries[pos[k]].1).value,
                                  ItemQty(entries[pos[k]].1), ItemType(entries[pos[k]].1).value) &&
        items[k].id >= 1 && items[k].price >= 0.0 && items[k].qty >= 1
  {
    CreateOrderAccepted(post);
    var entries := RawItems(post).entries;
    var os := Outcomes(entries);
    pos := KeptOrder(os);
    var items := KeptOf(os);
    forall k | 0 <= k < |items|
      ensures ItemId(entries[pos[k]].1).Some? && ItemPrice(entries[pos[k]].1).Some? && ItemType(entries[pos[k]].1).Some?
      ensures items[k] == ValidatedItem(ItemId(entries[pos[k]].1).value, ItemPrice(entries[pos[k]].1).value,
                                        ItemQty(entries[pos[k]].1), ItemType(entries[pos[k]].1).value)
      ensures items[k].id >= 1 && items[k].price >= 0.0 && items[k].qty >= 1
    {
      var (index, item) := entries[pos[k]];
      CheckItemKeeps(index, item);
      CheckItemErrors(index, item);
    }
  }

  /** An item that is not an array is reported under items.<index>, and the request is refused. */
  lemma NonArrayItemReported(post: Row, i: nat)
    requires RawItems(post).Arr? && i < |RawItems(post).entries| && !RawItems(post).entries[i].1.Arr?
    ensures CreateOrderOutcome(post).Failure?
    ensures HasKey(CreateOrderOutcome(post).error, "items." + KeyText(RawItems(post).entries[i].0))
  {
    var entries := RawItems(post).entries;
    var os := Outcomes(entries);
    var key := "items." + KeyText(entries[i].0);
    CheckItemSkips(entries[i].0, entries[i].1);
    assert os[i].errors[0].0 == key;
    ErrorsOfKeys(os, key);
    PutHasKey(ErrorsOf(os), "items", NoProductSelected, key);
  }

  // ---------------------------------------------------------------------
  // validateDeleteOrder
  // ---------------------------------------------------------------------

  /**
   * RequestValidator::validateDeleteOrder (validateDeleteOrderRequest
   * delegates to it), given the raw query-string id filter_input reads, or
   * None when there is none.
   */
  function ValidateDeleteOrder(id: Option<Value>): (r: Result<DeleteOrderRequest, Errors>)
    ensures r.Success? <==> id.Some? && FilterInt(id.value).Some? && FilterInt(id.value).value >= 1
    ensures r.Success? ==> r.value.orderId == FilterInt(id.value).value && r.value.orderId >= 1
    ensures r.Failure? ==> r.error == [("order_id", InvalidOrderId)]
  {
    var orderId := if id.None? then None else FilterInt(id.value);
    if orderId.None? || orderId.value < 1 then Failure([("order_id", InvalidOrderId)])
    else Success(DeleteOrderRequest(orderId.value))
  }
}
