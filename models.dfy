/** The records of the shop: products, carts and their lines, orders and
    their items, with the amounts derived from them. */
module Models {
  import opened Common

  /** An amount of money in thousandths of the currency unit. Prices carry
      two decimals and the shipping fee three, so every amount the shop
      computes is exact in this unit. */
  type Money = int

  type ProductId = nat
  type ItemId = nat
  type UserId = nat
  /** Orders are numbered by their position in the order table. */
  type OrderId = nat

  /** Stock and quantities are non-negative integers (`nat`). */
  datatype Product = Product(price: Money, stock: nat, active: bool)

  /** A cart belongs either to an authenticated user or to an anonymous
      session key, never to both. */
  datatype Owner = User(user: UserId) | Guest(sessionKey: string)

  /** One line of a cart, with the price captured when it was created. */
  datatype CartLine = CartLine(id: ItemId, product: ProductId, qty: nat, unitPrice: Money)

  datatype OrderStatus = Pending | Paid | Cancelled

  /** The contact and shipping fields copied verbatim into an order. */
  datatype Customer = Customer(email: string, fullName: string, phone: string, address: string,
                               city: string, region: string, notes: string)

  /** A frozen copy of a cart line. */
  datatype OrderItem = OrderItem(product: ProductId, qty: nat, unitPrice: Money, subtotal: Money)

  datatype Order = Order(user: Option<UserId>, customer: Customer,
                         subtotal: Money, shipping: Money, total: Money,
                         status: OrderStatus, number: string, items: seq<OrderItem>)

  /** The status a new order receives. */
  const DefaultStatus: OrderStatus := Pending

  /** The subtotal of a cart line is its price snapshot times its quantity. */
  function LineSubtotal(l: CartLine): Money
  {
    l.unitPrice * l.qty
  }

  /** The total of a cart: the sum of its line subtotals, 0 when empty. */
  function CartTotal(lines: seq<CartLine>): Money
  {
    if lines == [] then 0
    else CartTotal(lines[..|lines| - 1]) + LineSubtotal(lines[|lines| - 1])
  }

  /** The sum of the frozen subtotals of an order's items. */
  function ItemsTotal(items: seq<OrderItem>): Money
  {
    if items == [] then 0
    else ItemsTotal(items[..|items| - 1]) + items[|items| - 1].subtotal
  }

  /** The total of a concatenation is the sum of the totals. */
  lemma {:induction false} CartTotalConcat(a: seq<CartLine>, b: seq<CartLine>)
    ensures CartTotal(a + b) == CartTotal(a) + CartTotal(b)
    decreases |b|
  {
    if b != [] {
      var b' := b[..|b| - 1];
      assert (a + b)[..|a + b| - 1] == a + b';
      CartTotalConcat(a, b');
    } else {
      assert a + b == a;
    }
  }

  /** A cart with one line is worth exactly that line's subtotal. */
  lemma CartTotalSingle(l: CartLine)
    ensures CartTotal([l]) == l.unitPrice * l.qty
  {
    assert [l][..0] == [];
  }

  /** Removing line `i` lowers the total by exactly that line's subtotal, so
      the total afterwards is the sum over the remaining lines. */
  lemma CartTotalRemoveAt(lines: seq<CartLine>, i: nat)
    requires i < |lines|
    ensures CartTotal(lines[..i] + lines[i + 1..]) == CartTotal(lines) - LineSubtotal(lines[i])
  {
    assert lines == lines[..i] + [lines[i]] + lines[i + 1..];
    CartTotalConcat(lines[..i] + [lines[i]], lines[i + 1..]);
    CartTotalConcat(lines[..i], [lines[i]]);
    CartTotalConcat(lines[..i], lines[i + 1..]);
    CartTotalSingle(lines[i]);
  }

  /** Overwriting the quantity of line `i` changes the total by the
      difference of that line's subtotals and by nothing else. */
  lemma CartTotalSetQty(lines: seq<CartLine>, i: nat, q: nat)
    requires i < |lines|
    ensures CartTotal(lines[i := lines[i].(qty := q)])
         == CartTotal(lines) - LineSubtotal(lines[i]) + lines[i].unitPrice * q
  {
    var l' := lines[i].(qty := q);
    assert lines == lines[..i] + [lines[i]] + lines[i + 1..];
    assert lines[i := l'] == lines[..i] + [l'] + lines[i + 1..];
    CartTotalConcat(lines[..i] + [lines[i]], lines[i + 1..]);
    CartTotalConcat(lines[..i], [lines[i]]);
    CartTotalConcat(lines[..i] + [l'], lines[i + 1..]);
    CartTotalConcat(lines[..i], [l']);
    CartTotalSingle(lines[i]);
    CartTotalSingle(l');
  }

  /** At most one line per product. */
  predicate UniqueProducts(lines: seq<CartLine>)
  {
    forall i, j :: 0 <= i < j < |lines| ==> lines[i].product != lines[j].product
  }

  /** Line identifiers are distinct. */
  predicate UniqueIds(lines: seq<CartLine>)
  {
    forall i, j :: 0 <= i < j < |lines| ==> lines[i].id != lines[j].id
  }

  /** The stored spelling of a status. */
  function StatusName(s: OrderStatus): string
  {
    match s
    case Pending => "pending"
    case Paid => "paid"
    case Cancelled => "cancelled"
  }

  /** Reads a requested status: only the three stored spellings are
      accepted; anything else, or a missing value, is rejected. */
  function ParseStatus(v: Option<string>): (r: Option<OrderStatus>)
    ensures r.Some? <==> v.Some? && v.value in {"pending", "paid", "cancelled"}
  {
    match v
    case None => None
    case Some(s) =>
      if s == "pending" then Some(Pending)
      else if s == "paid" then Some(Paid)
      else if s == "cancelled" then Some(Cancelled)
      else None
  }

  /** Parsing and spelling a status are inverse to each other, in both
      directions. */
  lemma StatusRoundTrip(s: OrderStatus, v: string)
    ensures ParseStatus(Some(StatusName(s))) == Some(s)
    ensures ParseStatus(Some(v)) == Some(s) <==> v == StatusName(s)
  {
  }
}
