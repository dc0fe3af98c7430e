/** The shop's public request handlers: listing products, editing the cart
    and confirming a checkout. Each handler answers with one of the
    response kinds below; the serialized cart or order that accompanies a
    success is the stored state itself. */
module Views {
  import opened Common
  import opened Models
  import opened CartLines
  import opened CheckoutSpec
  import opened Store
  import PyText

  datatype CartResponse = Added | Updated | Removed | InvalidPayload | NotFound

  datatype CheckoutResponse =
    | Created(order: OrderId)
    | Missing(field: string)
    | NoStock(productId: string)
    | EmptyCart
    | Invalid

  // ---- Product list ----

  /** `ProductList`: the products offered to customers are the active
      ones. */
  function ActiveProducts(products: map<ProductId, Product>): set<ProductId>
  {
    set p | p in products && products[p].active
  }

  // ---- Cart editing ----

  /** The response to an add-to-cart request: a missing or zero product id
      or a quantity below 1 is an invalid payload; a product that does not
      exist or is inactive is not found. */
  function AddOutcome(products: map<ProductId, Product>, pid: Option<int>, qty: int): CartResponse
  {
    if pid.None? || pid.value == 0 || qty < 1 then InvalidPayload
    else if pid.value < 0 || pid.value !in products || !products[pid.value].active then NotFound
    else Added
  }

  /** A request may add a product exactly when the product list offers it
      (product identifiers start at 1) and the quantity is at least 1. */
  lemma AddableIffListed(products: map<ProductId, Product>, p: ProductId, qty: int)
    requires p != 0
    ensures AddOutcome(products, Some(p), qty) == Added <==> p in ActiveProducts(products) && qty >= 1
  {
  }

  /** The quantity of a request, 1 when it names none. */
  function QtyOrDefault(qty: Option<int>): int
  {
    if qty.Some? then qty.value else 1
  }

  /** `CartAddItem.post`: finds or creates the caller's cart, validates the
      payload, looks the product up among the active ones, and then either
      grows the cart's line for that product (keeping its price snapshot)
      or adds a line priced at the product's current price. */
  method CartAddItem(shop: Shop, req: Request, freshKey: string, pid: Option<int>, qty: Option<int>)
    returns (resp: CartResponse, req': Request)
    requires freshKey != "" && shop.Valid()
    modifies shop
    ensures shop.Valid()
    ensures var (owner, r) := CartOwner(req, freshKey);
            var carts1 := WithCart(old(shop.carts), owner);
      && req' == r
      && resp == AddOutcome(old(shop.products), pid, QtyOrDefault(qty))
      && shop.products == old(shop.products) && shop.orders == old(shop.orders)
      && (resp != Added ==> shop.carts == carts1 && shop.nextItemId == old(shop.nextItemId))
      && (resp == Added ==>
            && owner in shop.carts
            && (shop.carts[owner], shop.nextItemId)
                 == AddLine(carts1[owner], pid.value, QtyOrDefault(qty), old(shop.products)[pid.value].price, old(shop.nextItemId))
            && shop.carts == carts1[owner := shop.carts[owner]])
  {
    var owner;
    owner, req' := shop.GetOrCreateCart(req, freshKey);
    var q := QtyOrDefault(qty);
    if pid.None? || pid.value == 0 || q < 1 {
      return InvalidPayload, req';
    }
    var p := pid.value;
    if p < 0 || p !in shop.products || !shop.products[p].active {
      return NotFound, req';
    }
    ghost var db0 := shop.State();
    var lines := shop.carts[owner];
    AddLineOk(lines, p, q, shop.products[p].price, shop.nextItemId);
    AddLineStocked(shop.products, lines, p, q, shop.products[p].price, shop.nextItemId);
    match FindProduct(lines, p) {
      case Some(i) =>
        shop.carts := shop.carts[owner := lines[i := lines[i].(qty := lines[i].qty + q)]];
      case None =>
        shop.carts := shop.carts[owner := lines + [CartLine(shop.nextItemId, p, q, shop.products[p].price)]];
        shop.nextItemId := shop.nextItemId + 1;
    }
    forall o | o in shop.carts && o != owner ensures LinesOk(shop.carts[o], shop.nextItemId) {
      LinesOkMono(db0.carts[o], db0.nextItemId, shop.nextItemId);
    }
    resp := Added;
  }

  /** `CartUpdateItem.patch`: in the caller's cart, a quantity below 1
      deletes the line, any other quantity replaces the line's quantity; an
      identifier that is not a line of the caller's cart is not found. */
  method CartUpdateItem(shop: Shop, req: Request, freshKey: string, itemId: ItemId, qty: Option<int>)
    returns (resp: CartResponse, req': Request)
    requires freshKey != "" && shop.Valid()
    modifies shop
    ensures shop.Valid()
    ensures var (owner, r) := CartOwner(req, freshKey);
            var carts1 := WithCart(old(shop.carts), owner);
            var found := FindItem(carts1[owner], itemId);
            var q := QtyOrDefault(qty);
      && req' == r
      && shop.products == old(shop.products) && shop.orders == old(shop.orders)
      && shop.nextItemId == old(shop.nextItemId)
      && (found.None? ==> resp == NotFound && shop.carts == carts1)
      && (found.Some? && q < 1 ==> resp == Removed && shop.carts == carts1[owner := RemoveAt(carts1[owner], found.value)])
      && (found.Some? && q >= 1 ==>
            resp == Updated && shop.carts == carts1[owner := carts1[owner][found.value := carts1[owner][found.value].(qty := q)]])
  {
    var owner;
    owner, req' := shop.GetOrCreateCart(req, freshKey);
    var lines := shop.carts[owner];
    var found := FindItem(lines, itemId);
    if found.None? {
      return NotFound, req';
    }
    var i := found.value;
    var q := QtyOrDefault(qty);
    if q < 1 {
      RemoveAtOk(lines, i, shop.nextItemId);
      shop.carts := shop.carts[owner := lines[..i] + lines[i + 1..]];
      assert shop.carts[owner] == RemoveAt(lines, i);
      return Removed, req';
    }
    SetQtyOk(lines, i, q, shop.nextItemId);
    shop.carts := shop.carts[owner := lines[i := lines[i].(qty := q)]];
    resp := Updated;
  }

  /** `CartRemoveItem.delete`: deletes a line of the caller's cart; an
      identifier that is not a line of the caller's cart is not found. */
  method CartRemoveItem(shop: Shop, req: Request, freshKey: string, itemId: ItemId)
    returns (resp: CartResponse, req': Request)
    requires freshKey != "" && shop.Valid()
    modifies shop
    ensures shop.Valid()
    ensures var (owner, r) := CartOwner(req, freshKey);
            var carts1 := WithCart(old(shop.carts), owner);
            var found := FindItem(carts1[owner], itemId);
      && req' == r
      && shop.products == old(shop.products) && shop.orders == old(shop.orders)
      && shop.nextItemId == old(shop.nextItemId)
      && (found.None? ==> resp == NotFound && shop.carts == carts1)
      && (found.Some? ==> resp == Removed && shop.carts == carts1[owner := RemoveAt(carts1[owner], found.value)])
  {
    var owner;
    owner, req' := shop.GetOrCreateCart(req, freshKey);
    var lines := shop.carts[owner];
    var found := FindItem(lines, itemId);
    if found.None? {
      return NotFound, req';
    }
    var i := found.value;
    RemoveAtOk(lines, i, shop.nextItemId);
    shop.carts := shop.carts[owner := lines[..i] + lines[i + 1..]];
    assert shop.carts[owner] == RemoveAt(lines, i);
    resp := Removed;
  }

  // ---- Checkout confirmation ----

  /** The checkout fields that must be present and not blank, in the order
      they are checked. */
  const RequiredFields: seq<string> := ["email", "full_name", "address", "city"]

  /** `(payload.get(k) or "").strip()` is empty. */
  predicate Blank(payload: map<string, string>, k: string)
  {
    k !in payload || PyText.Strip(payload[k]) == []
  }

  /** The first of `fields` that is blank in the payload. */
  function MissingField(payload: map<string, string>, fields: seq<string>): Option<string>
  {
    if fields == [] then None
    else if Blank(payload, fields[0]) then Some(fields[0])
    else MissingField(payload, fields[1..])
  }

  /** `MissingField` names the first blank field, and finds none exactly
      when every field is filled in. */
  lemma {:induction false} MissingFieldSpec(payload: map<string, string>, fields: seq<string>)
    ensures MissingField(payload, fields).None? <==> forall i :: 0 <= i < |fields| ==> !Blank(payload, fields[i])
    ensures MissingField(payload, fields).Some? ==>
              exists i :: 0 <= i < |fields| && fields[i] == MissingField(payload, fields).value &&
                          Blank(payload, fields[i]) && forall j :: 0 <= j < i ==> !Blank(payload, fields[j])
  {
    if fields != [] && !Blank(payload, fields[0]) {
      MissingFieldSpec(payload, fields[1..]);
      var rest := fields[1..];
      if MissingField(payload, rest).Some? {
        var i :| 0 <= i < |rest| && rest[i] == MissingField(payload, rest).value &&
                 Blank(payload, rest[i]) && forall j :: 0 <= j < i ==> !Blank(payload, rest[j]);
        assert fields[i + 1] == rest[i];
      } else {
        assert forall i :: 1 <= i < |fields| ==> fields[i] == rest[i - 1];
      }
    } else if fields != [] {
      assert Blank(payload, fields[0]);
    }
  }

  /** A payload with no blank required field holds every field an order
      cannot be stored without. */
  lemma NothingMissingPresent(payload: map<string, string>)
    requires MissingField(payload, RequiredFields).None?
    ensures RequiredPresent(payload)
  {
    MissingFieldSpec(payload, RequiredFields);
    assert !Blank(payload, RequiredFields[0]) && !Blank(payload, RequiredFields[1]);
    assert !Blank(payload, RequiredFields[2]) && !Blank(payload, RequiredFields[3]);
  }

  /** The validation loop of `CheckoutConfirm.post`: the first required
      field, in order, that is absent or whitespace only. */
  method FirstMissing(payload: map<string, string>) returns (m: Option<string>)
    ensures m == MissingField(payload, RequiredFields)
  {
    var i := 0;
    while i < |RequiredFields|
      invariant 0 <= i <= |RequiredFields|
      invariant MissingField(payload, RequiredFields) == MissingField(payload, RequiredFields[i..])
    {
      var k := RequiredFields[i];
      var v := if k in payload then payload[k] else "";
      if PyText.Strip(v) == [] {
        return Some(k);
      }
      assert RequiredFields[i..][1..] == RequiredFields[i + 1..];
      i := i + 1;
    }
    return None;
  }

  /** `str.split(":")[1]` of a string that starts with one colon-ended
      word: the text up to the next colon. */
  function UpToColon(s: string): (r: string)
    ensures ':' !in r && |r| <= |s| && r == s[..|r|]
    ensures |r| < |s| ==> s[|r|] == ':'
  {
    if s == [] || s[0] == ':' then [] else [s[0]] + UpToColon(s[1..])
  }

  /** How `CheckoutConfirm.post` answers a `ValueError` from the checkout:
      `no_stock:<id>` names the product, `empty_cart` is passed on, any
      other message is `invalid`. */
  function MapCheckoutError(msg: string): CheckoutResponse
  {
    if StartsWith(msg, "no_stock:") then NoStock(UpToColon(msg[9..]))
    else if msg == "empty_cart" then EmptyCart
    else Invalid
  }

  /** The error for a short line is answered with `no_stock` and the
      product's identifier, which reads back as that identifier. */
  lemma MapNoStock(p: ProductId)
    ensures MapCheckoutError(NoStockMessage(p)) == NoStock(PyText.Decimal(p))
    ensures PyText.AllDigits(PyText.Decimal(p)) && PyText.Value(PyText.Decimal(p)) == p
  {
    var m := NoStockMessage(p);
    assert m[9..] == PyText.Decimal(p);
    assert m[..9] == "no_stock:";
    var d := PyText.Decimal(p);
    assert forall i :: 0 <= i < |d| ==> d[i] != ':';
    UpToColonNoColon(d);
    PyText.DecimalValue(p);
  }

  lemma {:induction false} UpToColonNoColon(s: string)
    requires forall i :: 0 <= i < |s| ==> s[i] != ':'
    ensures UpToColon(s) == s
  {
    if s != [] {
      UpToColonNoColon(s[1..]);
    }
  }

  /** Every error a checkout can raise gets its own answer: an empty cart is
      answered `empty_cart`, a short line `no_stock` with the product's
      identifier; no checkout error is answered `invalid`. */
  lemma CheckoutErrorsMapped(db: Db, owner: Owner, user: Option<UserId>, customer: Customer, date: string)
    requires DbOk(db) && Checkout(db, owner, user, customer, date).Failure?
    ensures var e := Checkout(db, owner, user, customer, date).error;
      || (e == EmptyCartMessage && MapCheckoutError(e) == EmptyCart)
      || (exists p :: e == NoStockMessage(p) && MapCheckoutError(e) == NoStock(PyText.Decimal(p)))
  {
    var e := Checkout(db, owner, user, customer, date).error;
    var lines := if owner in db.carts then db.carts[owner] else [];
    if lines != [] {
      var short := FirstShortLine(db.products, lines);
      assert short.Some?;
      MapNoStock(short.value);
      assert e == NoStockMessage(short.value);
    } else {
      assert e == EmptyCartMessage;
      assert EmptyCartMessage[..9][0] != "no_stock:"[0];
    }
  }

  /** `CheckoutConfirm.post`: answers `missing:<field>` for the first blank
      required field without touching the state; otherwise runs the
      checkout and answers `created` with the new order, or the mapped
      error with the state as it was. */
  method CheckoutConfirm(shop: Shop, req: Request, freshKey: string, payload: map<string, string>, date: string)
    returns (resp: CheckoutResponse, req': Request)
    requires freshKey != "" && shop.Valid()
    modifies shop
    ensures shop.Valid()
    ensures MissingField(payload, RequiredFields).Some? ==>
              resp == Missing(MissingField(payload, RequiredFields).value) && req' == req &&
              shop.State() == old(shop.State())
    ensures MissingField(payload, RequiredFields).None? ==>
              RequiredPresent(payload) && req' == CartOwner(req, freshKey).1 &&
              var c := Checkout(old(shop.State()), CartOwner(req, freshKey).0, req.user, CustomerOf(payload), date);
              && (c.Failure? ==> resp == MapCheckoutError(c.error) && shop.State() == old(shop.State()))
              && (c.Success? ==> resp == Created(c.value.1) && shop.State() == c.value.0)
  {
    var missing := FirstMissing(payload);
    if missing.Some? {
      return Missing(missing.value), req;
    }
    NothingMissingPresent(payload);
    var res;
    res, req' := shop.CreateOrderFromCart(req, freshKey, payload, date);
    match res {
      case Failure(e) => resp := MapCheckoutError(e);
      case Success(id) => resp := Created(id);
    }
  }
}
