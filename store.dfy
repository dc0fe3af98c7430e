/** The shop's stored state and the operations of its utility layer:
    finding or creating the cart of the caller, merging a guest cart into a
    user's at login, and turning a cart into an order. */
module Store {
  import opened Common
  import opened Models
  import opened CartLines
  import opened CheckoutSpec
  import OrderNumbering

  /** What the shop needs to know about a request: the authenticated user,
      if any, and the session key, `""` standing for a session that has
      none yet. */
  datatype Request = Request(user: Option<UserId>, sessionKey: string)

  /** `ensure_session_key`: the request's session key, after saving the
      session under `freshKey` (the key the session store would generate)
      when it had none. */
  function EnsureSessionKey(req: Request, freshKey: string): (r: (string, Request))
    requires freshKey != ""
    ensures r.0 != "" && r.1 == req.(sessionKey := r.0)
    ensures req.sessionKey != "" ==> r.0 == req.sessionKey
    ensures req.sessionKey == "" ==> r.0 == freshKey
  {
    if req.sessionKey == "" then (freshKey, req.(sessionKey := freshKey)) else (req.sessionKey, req)
  }

  /** The identity whose cart a request addresses: the user when
      authenticated, otherwise the (possibly new) session key. */
  function CartOwner(req: Request, freshKey: string): (r: (Owner, Request))
    requires freshKey != ""
  {
    if req.user.Some? then (User(req.user.value), req)
    else
      var (k, req') := EnsureSessionKey(req, freshKey);
      (Guest(k), req')
  }

  /** The cart table after `get_or_create` for `owner`. */
  function WithCart(carts: map<Owner, seq<CartLine>>, owner: Owner): (r: map<Owner, seq<CartLine>>)
    ensures owner in r && r[owner] == (if owner in carts then carts[owner] else [])
    ensures forall o :: o != owner ==> (o in r <==> o in carts) && (o in carts ==> r[o] == carts[o])
  {
    if owner in carts then carts else carts[owner := []]
  }

  /** `get_or_create_cart` is idempotent: asked again with the request it
      returned, it names the same cart and creates nothing. */
  lemma GetOrCreateTwice(carts: map<Owner, seq<CartLine>>, req: Request, k1: string, k2: string)
    requires k1 != "" && k2 != ""
    ensures var (o1, r1) := CartOwner(req, k1);
            var (o2, r2) := CartOwner(r1, k2);
            o2 == o1 && r2 == r1 && WithCart(WithCart(carts, o1), o2) == WithCart(carts, o1)
  {
  }

  /** An authenticated request always addresses the user's cart, whatever
      its session key; an anonymous one addresses a guest cart under a
      non-empty key, the one it already had when it had one. */
  lemma CartOwnerIdentity(req: Request, freshKey: string)
    requires freshKey != ""
    ensures req.user.Some? ==> CartOwner(req, freshKey) == (User(req.user.value), req)
    ensures req.user.None? ==> var (o, r) := CartOwner(req, freshKey);
              o.Guest? && o.sessionKey != "" && o.sessionKey == r.sessionKey &&
              (req.sessionKey != "" ==> o.sessionKey == req.sessionKey)
  {
  }

  /** The whole stored state as one value. */
  datatype Db = Db(products: map<ProductId, Product>, carts: map<Owner, seq<CartLine>>,
                   orders: seq<Order>, nextItemId: ItemId)

  /** The order numbers in table order. */
  function Numbers(orders: seq<Order>): seq<string>
  {
    seq(|orders|, i requires 0 <= i < |orders| => orders[i].number)
  }

  /** The invariants of the stored state: each cart is well formed and
      refers to existing products; each order's amounts and items agree and
      refer to existing products; order numbers are unique. */
  predicate DbOk(db: Db)
  {
    && (forall o :: o in db.carts ==> LinesOk(db.carts[o], db.nextItemId) && Stocked(db.products, db.carts[o]))
    && (forall k :: 0 <= k < |db.orders| ==> OrderOk(db.orders[k], db.products))
    && (forall a, b :: 0 <= a < b < |db.orders| ==> db.orders[a].number != db.orders[b].number)
  }

  // ---- Guest-to-user merge ----

  /** `merge_guest_cart_to_user`: nothing without a session key or without a
      guest cart under it; otherwise the guest lines are merged into the
      user's cart (created if needed) and the guest cart is deleted. */
  function MergeCarts(carts: map<Owner, seq<CartLine>>, sessionKey: string, user: UserId, nextId: ItemId)
    : (r: (map<Owner, seq<CartLine>>, ItemId))
  {
    if sessionKey == "" || Guest(sessionKey) !in carts then (carts, nextId)
    else
      var carts' := WithCart(carts, User(user));
      var (ls, n) := MergeLines(carts'[User(user)], carts[Guest(sessionKey)], nextId);
      (carts'[User(user) := ls] - {Guest(sessionKey)}, n)
  }

  /** The merge changes nothing exactly when there is no session key or no
      guest cart under it. */
  lemma MergeNoOp(carts: map<Owner, seq<CartLine>>, sessionKey: string, user: UserId, nextId: ItemId)
    ensures MergeCarts(carts, sessionKey, user, nextId) == (carts, nextId)
        <==> sessionKey == "" || Guest(sessionKey) !in carts
  {
    if sessionKey != "" && Guest(sessionKey) in carts {
      assert Guest(sessionKey) !in MergeCarts(carts, sessionKey, user, nextId).0;
    }
  }

  /** A second merge with the same session key does nothing, since the
      first deleted the guest cart. */
  lemma MergeIdempotent(carts: map<Owner, seq<CartLine>>, sessionKey: string, user: UserId, nextId: ItemId)
    ensures var (c1, n1) := MergeCarts(carts, sessionKey, user, nextId);
            MergeCarts(c1, sessionKey, user, n1) == (c1, n1)
  {
    var (c1, n1) := MergeCarts(carts, sessionKey, user, nextId);
    MergeNoOp(c1, sessionKey, user, n1);
  }

  /** After the merge: the guest cart is gone; the user's cart exists and
      holds, per product, the user's quantity plus the guest's; a product the
      user already had keeps the user's price snapshot, one new to the user
      takes the guest's; every other cart is untouched. */
  lemma MergeEffect(carts: map<Owner, seq<CartLine>>, sessionKey: string, user: UserId, nextId: ItemId)
    requires sessionKey != "" && Guest(sessionKey) in carts
    ensures var (c1, _) := MergeCarts(carts, sessionKey, user, nextId);
            var before := if User(user) in carts then carts[User(user)] else [];
            var guest := carts[Guest(sessionKey)];
      && Guest(sessionKey) !in c1
      && User(user) in c1
      && (forall q :: QtyOf(c1[User(user)], q) == QtyOf(before, q) + QtyOf(guest, q))
      && (forall q :: PriceOf(c1[User(user)], q) == if PriceOf(before, q).Some? then PriceOf(before, q) else PriceOf(guest, q))
      && (forall o :: o != User(user) && o != Guest(sessionKey) ==>
            (o in c1 <==> o in carts) && (o in carts ==> c1[o] == carts[o]))
  {
    var before := if User(user) in carts then carts[User(user)] else [];
    var guest := carts[Guest(sessionKey)];
    forall q ensures QtyOf(MergeLines(before, guest, nextId).0, q) == QtyOf(before, q) + QtyOf(guest, q) {
      MergeQty(before, guest, nextId, q);
    }
    forall q ensures PriceOf(MergeLines(before, guest, nextId).0, q)
                  == if PriceOf(before, q).Some? then PriceOf(before, q) else PriceOf(guest, q) {
      MergePrice(before, guest, nextId, q);
    }
  }

  lemma AddLineStocked(products: map<ProductId, Product>, lines: seq<CartLine>, p: ProductId, qty: nat, price: Money, nextId: ItemId)
    requires Stocked(products, lines) && p in products
    ensures Stocked(products, AddLine(lines, p, qty, price, nextId).0)
  {
  }

  /** Merging two carts of existing products yields a cart of existing
      products. */
  lemma {:induction false} MergeStocked(products: map<ProductId, Product>, user: seq<CartLine>, guest: seq<CartLine>, nextId: ItemId)
    requires Stocked(products, user) && Stocked(products, guest)
    ensures Stocked(products, MergeLines(user, guest, nextId).0)
    decreases |guest|
  {
    if guest != [] {
      var n := |guest| - 1;
      MergeStocked(products, user, guest[..n], nextId);
      var (ls, k) := MergeLines(user, guest[..n], nextId);
      AddLineStocked(products, ls, guest[n].product, guest[n].qty, guest[n].unitPrice, k);
    }
  }

  /** The merge keeps the stored state's invariants. */
  lemma MergeKeepsOk(db: Db, sessionKey: string, user: UserId)
    requires DbOk(db)
    ensures var (c1, n1) := MergeCarts(db.carts, sessionKey, user, db.nextItemId);
            DbOk(db.(carts := c1, nextItemId := n1))
  {
    if sessionKey != "" && Guest(sessionKey) in db.carts {
      var before := if User(user) in db.carts then db.carts[User(user)] else [];
      var guest := db.carts[Guest(sessionKey)];
      MergeOk(before, guest, db.nextItemId);
      MergeStocked(db.products, before, guest, db.nextItemId);
      var (c1, n1) := MergeCarts(db.carts, sessionKey, user, db.nextItemId);
      forall o | o in c1 ensures LinesOk(c1[o], n1) && Stocked(db.products, c1[o]) {
        if o != User(user) {
          LinesOkMono(db.carts[o], db.nextItemId, n1);
        }
      }
    }
  }

  // ---- Checkout ----

  /** The fields of a checkout payload that the order stores; `phone`,
      `region` and `notes` default to the empty string. */
  function CustomerOf(payload: map<string, string>): Customer
    requires RequiredPresent(payload)
  {
    Customer(payload["email"], payload["full_name"], Get(payload, "phone"), payload["address"],
             payload["city"], Get(payload, "region"), Get(payload, "notes"))
  }

  /** `payload.get(key, "")`. */
  function Get(payload: map<string, string>, key: string): string
  {
    if key in payload then payload[key] else ""
  }

  /** The fields an order cannot be stored without. */
  predicate RequiredPresent(payload: map<string, string>)
  {
    "email" in payload && "full_name" in payload && "address" in payload && "city" in payload
  }

  /** `create_order_from_cart` as one atomic step: the new state and the new
      order's position, or the error message, in which case nothing is
      stored. The order number is the corrected one (see
      `OrderNumbering.NextOrderNumberFixed`). */
  function Checkout(db: Db, owner: Owner, user: Option<UserId>, customer: Customer, date: string)
    : Result<(Db, OrderId), string>
    requires DbOk(db)
  {
    var lines := if owner in db.carts then db.carts[owner] else [];
    var number := OrderNumbering.NextOrderNumberFixed(date, Numbers(db.orders));
    match PlaceOrder(db.products, lines, user, customer, number)
    case Failure(e) => Failure(e)
    case Success((o, ps)) =>
      Success((Db(ps, db.carts[owner := []], db.orders + [o], db.nextItemId), |db.orders|))
  }

  /** Checkout of a missing or empty cart fails with `empty_cart`. */
  lemma CheckoutEmpty(db: Db, owner: Owner, user: Option<UserId>, customer: Customer, date: string)
    requires DbOk(db)
    requires owner !in db.carts || db.carts[owner] == []
    ensures Checkout(db, owner, user, customer, date) == Failure("empty_cart")
  {
  }

  /** Checkout of a cart whose line `i` is the first to ask for more than
      its stock fails with `no_stock:<that line's product>`. */
  lemma CheckoutNoStock(db: Db, owner: Owner, user: Option<UserId>, customer: Customer, date: string, i: nat)
    requires DbOk(db) && owner in db.carts
    requires i < |db.carts[owner]| && Short(db.products, db.carts[owner], i)
    requires forall j :: 0 <= j < i ==> !Short(db.products, db.carts[owner], j)
    ensures Checkout(db, owner, user, customer, date) == Failure(NoStockMessage(db.carts[owner][i].product))
  {
    var number := OrderNumbering.NextOrderNumberFixed(date, Numbers(db.orders));
    PlaceOrderNoStock(db.products, db.carts[owner], user, customer, number, i);
  }

  /** Checkout fails exactly when the cart is empty or some line asks for
      more than its stock. */
  lemma CheckoutSucceeds(db: Db, owner: Owner, user: Option<UserId>, customer: Customer, date: string)
    requires DbOk(db)
    ensures Checkout(db, owner, user, customer, date).Success?
        <==> owner in db.carts && db.carts[owner] != [] &&
             forall i :: 0 <= i < |db.carts[owner]| ==> !Short(db.products, db.carts[owner], i)
  {
  }

  /** A successful checkout appends one order, with a number no earlier
      order has, under the date's prefix, and with the requester as its
      user; the cart is emptied but still exists under the same identity;
      every other cart and every earlier order stays as it was. */
  lemma CheckoutEffect(db: Db, owner: Owner, user: Option<UserId>, customer: Customer, date: string)
    requires DbOk(db)
    requires Checkout(db, owner, user, customer, date).Success?
    ensures var (db', id) := Checkout(db, owner, user, customer, date).value;
      && id == |db.orders| && |db'.orders| == |db.orders| + 1
      && db'.orders[..id] == db.orders
      && db'.orders[id].number !in Numbers(db.orders)
      && StartsWith(db'.orders[id].number, OrderNumbering.DayPrefix(date))
      && db'.orders[id].user == user && db'.orders[id].customer == customer
      && owner in db'.carts && db'.carts[owner] == []
      && (forall o :: o != owner ==> (o in db'.carts <==> o in db.carts) && (o in db.carts ==> db'.carts[o] == db.carts[o]))
      && db'.nextItemId == db.nextItemId
  {
    OrderNumbering.FixedIsFresh(date, Numbers(db.orders));
    var (db', id) := Checkout(db, owner, user, customer, date).value;
    assert db'.orders[..id] == db.orders;
  }

  /** Storing a new order with a fresh number, emptying one cart and
      replacing the product table by one with the same products keeps the
      stored state's invariants. */
  lemma AppendOrderOk(db: Db, owner: Owner, o: Order, ps: map<ProductId, Product>)
    requires DbOk(db) && ps.Keys == db.products.Keys
    requires OrderOk(o, db.products) && o.number !in Numbers(db.orders)
    ensures DbOk(Db(ps, db.carts[owner := []], db.orders + [o], db.nextItemId))
  {
    var db' := Db(ps, db.carts[owner := []], db.orders + [o], db.nextItemId);
    forall k | 0 <= k < |db'.orders| ensures OrderOk(db'.orders[k], ps) {
      var x := db'.orders[k];
      assert OrderOk(x, db.products);
    }
    forall a, b | 0 <= a < b < |db'.orders| ensures db'.orders[a].number != db'.orders[b].number {
      if b == |db.orders| {
        assert Numbers(db.orders)[a] == db.orders[a].number;
      }
    }
  }

  /** A successful checkout keeps the stored state's invariants; in
      particular the new order number is unique. */
  lemma CheckoutKeepsOk(db: Db, owner: Owner, user: Option<UserId>, customer: Customer, date: string)
    requires DbOk(db)
    requires Checkout(db, owner, user, customer, date).Success?
    ensures DbOk(Checkout(db, owner, user, customer, date).value.0)
  {
    var lines := db.carts[owner];
    var number := OrderNumbering.NextOrderNumberFixed(date, Numbers(db.orders));
    var r := PlaceOrder(db.products, lines, user, customer, number);
    PlaceOrderSuccess(db.products, lines, user, customer, number);
    PlaceOrderStock(db.products, lines, user, customer, number);
    OrderNumbering.FixedIsFresh(date, Numbers(db.orders));
    AppendOrderOk(db, owner, r.value.0, r.value.1);
  }

  /** The stored state, updated in place by the operations below. */
  class Shop {
    var products: map<ProductId, Product>
    var carts: map<Owner, seq<CartLine>>
    var orders: seq<Order>
    var nextItemId: ItemId

    ghost function State(): Db
      reads this
    {
      Db(products, carts, orders, nextItemId)
    }

    ghost predicate Valid()
      reads this
    {
      DbOk(State())
    }

    /** An empty shop over a product table. */
    constructor (products: map<ProductId, Product>)
      ensures Valid()
      ensures State() == Db(products, map[], [], 0)
    {
      this.products := products;
      carts := map[];
      orders := [];
      nextItemId := 0;
    }

    /** `get_or_create_cart`: resolves the caller's identity, saving a new
        session key for an anonymous caller without one, and creates an
        empty cart for that identity if it has none. */
    method GetOrCreateCart(req: Request, freshKey: string) returns (owner: Owner, req': Request)
      requires freshKey != "" && Valid()
      modifies this
      ensures Valid()
      ensures (owner, req') == CartOwner(req, freshKey)
      ensures carts == WithCart(old(carts), owner)
      ensures products == old(products) && orders == old(orders) && nextItemId == old(nextItemId)
    {
      if req.user.Some? {
        owner, req' := User(req.user.value), req;
      } else {
        var ensured := EnsureSessionKey(req, freshKey);
        owner, req' := Guest(ensured.0), ensured.1;
      }
      if owner !in carts {
        carts := carts[owner := []];
      }
    }

    /** `merge_guest_cart_to_user`: merges the guest cart, if there is
        one under the request's session key, into the user's cart (created
        if needed), then deletes the guest cart. */
    method MergeGuestCartToUser(req: Request, user: UserId)
      requires Valid()
      modifies this
      ensures Valid()
      ensures (carts, nextItemId) == MergeCarts(old(carts), req.sessionKey, user, old(nextItemId))
      ensures products == old(products) && orders == old(orders)
    {
      MergeKeepsOk(State(), req.sessionKey, user);
      var sk := req.sessionKey;
      if sk == "" {
        return;
      }
      if Guest(sk) !in carts {
        return;
      }
      var guest := carts[Guest(sk)];
      if User(user) !in carts {
        carts := carts[User(user) := []];
      }
      AddGuestLines(user, guest);
      carts := carts - {Guest(sk)};
    }

    /** The merge loop: each guest line in turn either adds its quantity to
        the user's line for the same product or becomes a new user line
        with the guest's price snapshot. */
    method AddGuestLines(user: UserId, guest: seq<CartLine>)
      requires User(user) in carts
      modifies this
      ensures User(user) in carts && carts == old(carts)[User(user) := carts[User(user)]]
      ensures (carts[User(user)], nextItemId) == MergeLines(old(carts[User(user)]), guest, old(nextItemId))
      ensures products == old(products) && orders == old(orders)
    {
      var i := 0;
      while i < |guest|
        invariant 0 <= i <= |guest|
        invariant User(user) in carts && carts == old(carts)[User(user) := carts[User(user)]]
        invariant (carts[User(user)], nextItemId) == MergeLines(old(carts[User(user)]), guest[..i], old(nextItemId))
        invariant products == old(products) && orders == old(orders)
      {
        var g := guest[i];
        var lines := carts[User(user)];
        assert guest[..i + 1][..i] == guest[..i];
        match FindProduct(lines, g.product) {
          case Some(j) =>
            carts := carts[User(user) := lines[j := lines[j].(qty := lines[j].qty + g.qty)]];
          case None =>
            carts := carts[User(user) := lines + [CartLine(nextItemId, g.product, g.qty, g.unitPrice)]];
            nextItemId := nextItemId + 1;
        }
        i := i + 1;
      }
      assert guest[..i] == guest;
    }

    /** The stock check of a checkout: the position of the first line, in
        cart order, that asks for more than its product's stock. */
    method FindShortLine(lines: seq<CartLine>) returns (r: Option<nat>)
      requires Stocked(products, lines)
      ensures r.None? <==> forall j :: 0 <= j < |lines| ==> !Short(products, lines, j)
      ensures r.Some? ==> r.value < |lines| && Short(products, lines, r.value) &&
                          forall j :: 0 <= j < r.value ==> !Short(products, lines, j)
    {
      var i := 0;
      while i < |lines|
        invariant 0 <= i <= |lines|
        invariant forall j :: 0 <= j < i ==> !Short(products, lines, j)
      {
        if lines[i].qty > products[lines[i].product].stock {
          assert Short(products, lines, i);
          return Some(i);
        }
        i := i + 1;
      }
      return None;
    }

    /** The item loop of a checkout: freezes each line into an order item and
        takes its quantity from its product's stock. */
    method TakeStock(lines: seq<CartLine>) returns (items: seq<OrderItem>)
      requires Fulfillable(products, lines)
      modifies this
      ensures items == FrozenItems(lines)
      ensures products == ApplyDecrements(old(products), lines)
      ensures carts == old(carts) && orders == old(orders) && nextItemId == old(nextItemId)
    {
      items := [];
      var i := 0;
      while i < |lines|
        invariant 0 <= i <= |lines|
        invariant Fulfillable(old(products), lines[..i])
        invariant items == FrozenItems(lines[..i])
        invariant products == ApplyDecrements(old(products), lines[..i])
        invariant carts == old(carts) && orders == old(orders) && nextItemId == old(nextItemId)
      {
        var l := lines[i];
        FulfillablePrefix(old(products), lines, i + 1);
        assert lines[..i + 1][..i] == lines[..i];
        assert QtyOf(lines[..i + 1], l.product) == QtyOf(lines[..i], l.product) + l.qty;
        items := items + [Freeze(l)];
        products := products[l.product := products[l.product].(stock := products[l.product].stock - l.qty)];
        i := i + 1;
      }
      assert lines[..i] == lines;
    }

    /** `create_order_from_cart`, all or nothing: on an error nothing is
        stored, not even the cart `get_or_create_cart` would have created;
        on success the order is stored, the stock taken and the cart
        emptied, as `Checkout` describes. */
    method CreateOrderFromCart(req: Request, freshKey: string, payload: map<string, string>, date: string)
      returns (res: Result<OrderId, string>, req': Request)
      requires freshKey != "" && Valid() && RequiredPresent(payload)
      modifies this
      ensures Valid()
      ensures req' == CartOwner(req, freshKey).1
      ensures var c := Checkout(old(State()), CartOwner(req, freshKey).0, req.user, CustomerOf(payload), date);
        && (c.Failure? ==> res == Failure(c.error) && State() == old(State()))
        && (c.Success? ==> res == Success(c.value.1) && State() == c.value.0)
    {
      var owner;
      owner, req' := CartOwner(req, freshKey).0, CartOwner(req, freshKey).1;
      var lines := if owner in carts then carts[owner] else [];
      var customer := CustomerOf(payload);
      ghost var number := OrderNumbering.NextOrderNumberFixed(date, Numbers(orders));
      if |lines| == 0 {
        return Failure(EmptyCartMessage), req';
      }
      var short := FindShortLine(lines);
      if short.Some? {
        PlaceOrderNoStock(products, lines, req.user, customer, number, short.value);
        return Failure(NoStockMessage(lines[short.value].product)), req';
      }
      var id := CommitOrder(owner, lines, req.user, customer, date);
      res := Success(id);
    }

    /** The part of a checkout after the stock check has passed: creates
        the order with its items, takes the stock and empties the cart. */
    method CommitOrder(owner: Owner, lines: seq<CartLine>, user: Option<UserId>, customer: Customer, date: string)
      returns (id: OrderId)
      requires Valid() && owner in carts && lines == carts[owner] && lines != []
      requires forall j :: 0 <= j < |lines| ==> !Short(products, lines, j)
      modifies this
      ensures Valid()
      ensures Checkout(old(State()), owner, user, customer, date) == Success((State(), id))
    {
      ghost var db0 := State();
      var number := OrderNumbering.NextOrderNumberFixed(date, Numbers(orders));
      assert FirstShortLine(products, lines).None?;
      PlaceOrderValue(products, lines, user, customer, number);
      CheckoutKeepsOk(db0, owner, user, customer, date);
      var subtotal := CartTotal(lines);
      var shipping := ComputeShipping(lines);
      var items := TakeStock(lines);
      var order := Order(user, customer, subtotal, shipping, subtotal + shipping, DefaultStatus, number, items);
      assert PlaceOrder(db0.products, lines, user, customer, number) == Success((order, products));
      orders := orders + [order];
      carts := carts[owner := []];
      id := |orders| - 1;
    }
  }
}
