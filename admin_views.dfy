/** The staff-only handler that moves an order between statuses. */
module AdminViews {
  import opened Common
  import opened Models
  import opened CheckoutSpec
  import opened Store

  datatype StatusResponse = StatusUpdated(order: Order) | InvalidStatus | OrderNotFound

  /** The order table and the answer after a request to set order `pk` to
      the status spelled `v`: an unknown order is not found, a spelling
      other than the three stored ones is refused, and otherwise only the
      order's status is replaced. */
  function StatusUpdate(orders: seq<Order>, pk: int, v: Option<string>): (seq<Order>, StatusResponse)
  {
    if pk < 0 || pk >= |orders| then (orders, OrderNotFound)
    else match ParseStatus(v)
      case None => (orders, InvalidStatus)
      case Some(s) =>
        var o := orders[pk].(status := s);
        (orders[pk := o], StatusUpdated(o))
  }

  /** For an existing order, the update is accepted exactly when the
      requested value is `pending`, `paid` or `cancelled`, and the status
      stored is the one requested; a refused update changes nothing. */
  lemma StatusUpdateAccepts(orders: seq<Order>, pk: int, v: Option<string>)
    requires 0 <= pk < |orders|
    ensures var (orders', resp) := StatusUpdate(orders, pk, v);
      && (resp.StatusUpdated? <==> v.Some? && v.value in {"pending", "paid", "cancelled"})
      && (resp.StatusUpdated? ==> StatusName(orders'[pk].status) == v.value && resp.order == orders'[pk])
      && (!resp.StatusUpdated? ==> resp == InvalidStatus && orders' == orders)
  {
    var (orders', resp) := StatusUpdate(orders, pk, v);
    if resp.StatusUpdated? {
      StatusRoundTrip(orders'[pk].status, v.value);
    }
  }

  /** Whatever is requested, no order other than `pk` changes, and order
      `pk` keeps its user, customer fields, amounts, number and items. */
  lemma StatusUpdateFrame(orders: seq<Order>, pk: int, v: Option<string>)
    ensures var (orders', _) := StatusUpdate(orders, pk, v);
      && |orders'| == |orders|
      && (forall k :: 0 <= k < |orders| && k != pk ==> orders'[k] == orders[k])
      && (0 <= pk < |orders| ==> orders'[pk] == orders[pk].(status := orders'[pk].status))
  {
  }

  /** A status update keeps the stored state's invariants. */
  lemma StatusUpdateKeepsOk(db: Db, pk: int, v: Option<string>)
    requires DbOk(db)
    ensures DbOk(db.(orders := StatusUpdate(db.orders, pk, v).0))
  {
    var orders' := StatusUpdate(db.orders, pk, v).0;
    forall k | 0 <= k < |orders'| ensures OrderOk(orders'[k], db.products) {
      assert OrderOk(db.orders[k], db.products);
    }
  }

  /** `OrderStatusUpdate.patch`: looks the order up, checks the requested
      status against the three allowed values, and saves only the status
      field. */
  method OrderStatusUpdate(shop: Shop, pk: int, v: Option<string>) returns (resp: StatusResponse)
    requires shop.Valid()
    modifies shop
    ensures shop.Valid()
    ensures (shop.orders, resp) == StatusUpdate(old(shop.orders), pk, v)
    ensures shop.products == old(shop.products) && shop.carts == old(shop.carts)
    ensures shop.nextItemId == old(shop.nextItemId)
  {
    StatusUpdateKeepsOk(shop.State(), pk, v);
    if pk < 0 || pk >= |shop.orders| {
      return OrderNotFound;
    }
    var s := ParseStatus(v);
    if s.None? {
      return InvalidStatus;
    }
    var o := shop.orders[pk].(status := s.value);
    shop.orders := shop.orders[pk := o];
    resp := StatusUpdated(o);
  }
}
