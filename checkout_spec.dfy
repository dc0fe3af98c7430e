/** What a checkout computes from a cart's lines and the product table:
    the stock check, the amounts, the frozen order items and the stock left
    afterwards. */
module CheckoutSpec {
  import opened Common
  import opened Models
  import opened CartLines
  import PyText

  /** The message of the `ValueError` raised for a cart with no lines. */
  const EmptyCartMessage: string := "empty_cart"

  /** The message of the `ValueError` raised for a line whose quantity
      exceeds its product's stock: `no_stock:<product id>`. */
  function NoStockMessage(p: ProductId): string
  {
    "no_stock:" + PyText.Decimal(p)
  }

  /** The flat shipping fee, 4.990 in thousandths. */
  const ShippingFee: Money := 4990

  /** `compute_shipping`: the flat fee of 4.990 when the cart has a line,
      nothing for an empty cart. */
  function ComputeShipping(lines: seq<CartLine>): (r: Money)
    ensures lines == [] ==> r == 0
    ensures lines != [] ==> r == ShippingFee
  {
    if |lines| == 0 then 0 else ShippingFee
  }

  /** Every line refers to a product of the table. */
  predicate Stocked(products: map<ProductId, Product>, lines: seq<CartLine>)
  {
    forall i :: 0 <= i < |lines| ==> lines[i].product in products
  }

  /** Line `i` asks for more than its product's stock. */
  predicate Short(products: map<ProductId, Product>, lines: seq<CartLine>, i: nat)
    requires Stocked(products, lines) && i < |lines|
  {
    lines[i].qty > products[lines[i].product].stock
  }

  /** The product of the first line, in cart order, that asks for more than
      its stock; `None` when every line fits. */
  function FirstShortLine(products: map<ProductId, Product>, lines: seq<CartLine>): (r: Option<ProductId>)
    requires Stocked(products, lines)
    ensures r.None? <==> forall i :: 0 <= i < |lines| ==> !Short(products, lines, i)
    ensures r.Some? ==> exists i :: 0 <= i < |lines| && Short(products, lines, i) && lines[i].product == r.value &&
                                    forall j :: 0 <= j < i ==> !Short(products, lines, j)
  {
    if lines == [] then None
    else if lines[0].qty > products[lines[0].product].stock then
      assert Short(products, lines, 0);
      Some(lines[0].product)
    else
      assert forall i :: 1 <= i < |lines| ==> (Short(products, lines, i) <==> Short(products, lines[1..], i - 1));
      var r := FirstShortLine(products, lines[1..]);
      if r.Some? then
        ghost var k :| 0 <= k < |lines[1..]| && Short(products, lines[1..], k) && lines[1..][k].product == r.value &&
                       forall j :: 0 <= j < k ==> !Short(products, lines[1..], j);
        assert Short(products, lines, k + 1) && lines[k + 1].product == r.value;
        r
      else r
  }

  /** The total demand for each product fits its stock. */
  predicate Fulfillable(products: map<ProductId, Product>, lines: seq<CartLine>)
  {
    Stocked(products, lines) && forall p :: p in products ==> QtyOf(lines, p) <= products[p].stock
  }

  lemma {:induction false} QtyOfPrefix(lines: seq<CartLine>, k: nat, p: ProductId)
    requires k <= |lines|
    ensures QtyOf(lines[..k], p) <= QtyOf(lines, p)
    decreases |lines|
  {
    if k < |lines| {
      assert lines[..|lines| - 1][..k] == lines[..k];
      QtyOfPrefix(lines[..|lines| - 1], k, p);
    } else {
      assert lines[..k] == lines;
    }
  }

  /** A prefix of a fulfillable cart is fulfillable. */
  lemma FulfillablePrefix(products: map<ProductId, Product>, lines: seq<CartLine>, k: nat)
    requires Fulfillable(products, lines) && k <= |lines|
    ensures Fulfillable(products, lines[..k])
  {
    forall p | p in products ensures QtyOf(lines[..k], p) <= products[p].stock {
      QtyOfPrefix(lines, k, p);
    }
  }

  /** With one line per product, a cart in which no line asks for more than
      its stock is fulfillable as a whole. */
  lemma NoShortLineFulfillable(products: map<ProductId, Product>, lines: seq<CartLine>)
    requires Stocked(products, lines) && UniqueProducts(lines)
    requires FirstShortLine(products, lines).None?
    ensures Fulfillable(products, lines)
  {
    forall p | p in products ensures QtyOf(lines, p) <= products[p].stock {
      QtyOfUnique(lines, p);
      var f := FindProduct(lines, p);
      if f.Some? {
        assert !Short(products, lines, f.value);
      }
    }
  }

  /** The stock table after every line's quantity has been taken from its
      product: each product loses exactly its demand, and nothing else of
      the table changes. */
  function ApplyDecrements(products: map<ProductId, Product>, lines: seq<CartLine>): (r: map<ProductId, Product>)
    requires Fulfillable(products, lines)
    ensures r.Keys == products.Keys
    ensures forall p :: p in products ==>
              r[p] == products[p].(stock := products[p].stock - QtyOf(lines, p))
  {
    if lines == [] then products
    else
      var n := |lines| - 1;
      var l := lines[n];
      FulfillablePrefix(products, lines, n);
      var before := ApplyDecrements(products, lines[..n]);
      assert QtyOf(lines, l.product) == QtyOf(lines[..n], l.product) + l.qty;
      before[l.product := before[l.product].(stock := before[l.product].stock - l.qty)]
  }

  /** The frozen copy of a cart line. */
  function Freeze(l: CartLine): OrderItem
  {
    OrderItem(l.product, l.qty, l.unitPrice, LineSubtotal(l))
  }

  /** One order item per cart line, in cart order, each with the line's
      product, quantity, price snapshot and subtotal. */
  function FrozenItems(lines: seq<CartLine>): (r: seq<OrderItem>)
    ensures |r| == |lines|
    ensures forall i :: 0 <= i < |lines| ==>
              r[i].product == lines[i].product && r[i].qty == lines[i].qty &&
              r[i].unitPrice == lines[i].unitPrice && r[i].subtotal == lines[i].unitPrice * lines[i].qty
  {
    if lines == [] then []
    else FrozenItems(lines[..|lines| - 1]) + [Freeze(lines[|lines| - 1])]
  }

  /** The items of an order add up to the total of the cart they froze. */
  lemma {:induction false} FrozenItemsTotal(lines: seq<CartLine>)
    ensures ItemsTotal(FrozenItems(lines)) == CartTotal(lines)
    decreases |lines|
  {
    if lines != [] {
      var n := |lines| - 1;
      FrozenItemsTotal(lines[..n]);
      var items := FrozenItems(lines);
      assert items[..n] == FrozenItems(lines[..n]);
    }
  }

  /** The order a successful checkout creates and the stock table it
      leaves, or the message of the `ValueError` that aborts it. */
  function PlaceOrder(products: map<ProductId, Product>, lines: seq<CartLine>, user: Option<UserId>,
                      customer: Customer, number: string)
    : Result<(Order, map<ProductId, Product>), string>
    requires Stocked(products, lines) && UniqueProducts(lines)
  {
    if lines == [] then Failure(EmptyCartMessage)
    else match FirstShortLine(products, lines)
      case Some(p) => Failure(NoStockMessage(p))
      case None =>
        NoShortLineFulfillable(products, lines);
        var subtotal := CartTotal(lines);
        var shipping := ComputeShipping(lines);
        var order := Order(user, customer, subtotal, shipping, subtotal + shipping,
                           DefaultStatus, number, FrozenItems(lines));
        Success((order, ApplyDecrements(products, lines)))
  }

  /** The outcome of a checkout whose stock check passes, spelled out. */
  lemma PlaceOrderValue(products: map<ProductId, Product>, lines: seq<CartLine>, user: Option<UserId>,
                        customer: Customer, number: string)
    requires Stocked(products, lines) && UniqueProducts(lines)
    requires lines != [] && FirstShortLine(products, lines).None?
    ensures Fulfillable(products, lines)
    ensures PlaceOrder(products, lines, user, customer, number)
         == Success((Order(user, customer, CartTotal(lines), ShippingFee, CartTotal(lines) + ShippingFee,
                           Pending, number, FrozenItems(lines)),
                     ApplyDecrements(products, lines)))
  {
    NoShortLineFulfillable(products, lines);
    var r := PlaceOrder(products, lines, user, customer, number);
    assert r.Success?;
    assert r.value.1 == ApplyDecrements(products, lines);
    assert r.value.0 == Order(user, customer, CartTotal(lines), ShippingFee, CartTotal(lines) + ShippingFee,
                              Pending, number, FrozenItems(lines));
  }

  /** An order's amounts and items agree with each other, and its items
      refer to products of the table. */
  predicate OrderOk(o: Order, products: map<ProductId, Product>)
  {
    && o.total == o.subtotal + o.shipping
    && o.subtotal == ItemsTotal(o.items)
    && forall i :: 0 <= i < |o.items| ==>
         o.items[i].subtotal == o.items[i].unitPrice * o.items[i].qty && o.items[i].product in products
  }

  /** A cart with no lines is refused with `empty_cart`. */
  lemma PlaceOrderEmpty(products: map<ProductId, Product>, user: Option<UserId>, customer: Customer, number: string)
    ensures PlaceOrder(products, [], user, customer, number) == Failure("empty_cart")
  {
  }

  /** A cart in which some line asks for more than its stock is refused
      with `no_stock:<id>`, naming the product of the first such line. */
  lemma PlaceOrderNoStock(products: map<ProductId, Product>, lines: seq<CartLine>, user: Option<UserId>,
                          customer: Customer, number: string, i: nat)
    requires Stocked(products, lines) && UniqueProducts(lines)
    requires i < |lines| && Short(products, lines, i)
    requires forall j :: 0 <= j < i ==> !Short(products, lines, j)
    ensures PlaceOrder(products, lines, user, customer, number) == Failure(NoStockMessage(lines[i].product))
  {
    var r := FirstShortLine(products, lines);
    var k :| 0 <= k < |lines| && Short(products, lines, k) && lines[k].product == r.value &&
             forall j :: 0 <= j < k ==> !Short(products, lines, j);
    assert k == i;
  }

  /** A successful checkout: the order's subtotal is the cart total, its
      shipping the flat fee, its total their sum, its status `pending`, and
      it holds one item per cart line, in cart order, with the line's
      product, quantity, price snapshot and subtotal. */
  lemma PlaceOrderSuccess(products: map<ProductId, Product>, lines: seq<CartLine>, user: Option<UserId>,
                          customer: Customer, number: string)
    requires Stocked(products, lines) && UniqueProducts(lines)
    requires lines != [] && forall i :: 0 <= i < |lines| ==> !Short(products, lines, i)
    ensures PlaceOrder(products, lines, user, customer, number).Success?
    ensures var o := PlaceOrder(products, lines, user, customer, number).value.0;
      && o.subtotal == CartTotal(lines)
      && o.shipping == ShippingFee
      && o.total == o.subtotal + o.shipping
      && o.status == Pending
      && o.number == number && o.user == user && o.customer == customer
      && |o.items| == |lines|
      && (forall i :: 0 <= i < |lines| ==>
            o.items[i] == OrderItem(lines[i].product, lines[i].qty, lines[i].unitPrice, lines[i].unitPrice * lines[i].qty))
      && OrderOk(o, products)
  {
    FrozenItemsTotal(lines);
  }

  /** `after` is `before` with `qty` units taken from its stock. */
  predicate TakenFrom(before: Product, after: Product, qty: nat)
  {
    after.stock + qty == before.stock && after.price == before.price && after.active == before.active
  }

  /** A successful checkout takes from each ordered product's stock exactly
      the quantity of its line, which leaves it non-negative, and leaves
      every other product as it was. */
  lemma PlaceOrderStock(products: map<ProductId, Product>, lines: seq<CartLine>, user: Option<UserId>,
                        customer: Customer, number: string)
    requires Stocked(products, lines) && UniqueProducts(lines)
    requires lines != [] && forall i :: 0 <= i < |lines| ==> !Short(products, lines, i)
    ensures PlaceOrder(products, lines, user, customer, number).Success?
    ensures var ps := PlaceOrder(products, lines, user, customer, number).value.1;
      && ps.Keys == products.Keys
      && (forall i :: 0 <= i < |lines| ==>
            TakenFrom(products[lines[i].product], ps[lines[i].product], lines[i].qty))
      && (forall p :: p in products && FindProduct(lines, p).None? ==> ps[p] == products[p])
  {
    assert FirstShortLine(products, lines).None?;
    NoShortLineFulfillable(products, lines);
    DecrementsPerLine(products, lines);
    assert PlaceOrder(products, lines, user, customer, number).value.1 == ApplyDecrements(products, lines);
  }

  /** With one line per product, the decrements take from each product
      exactly the quantity of its line and leave products without a line
      untouched. */
  lemma DecrementsPerLine(products: map<ProductId, Product>, lines: seq<CartLine>)
    requires Fulfillable(products, lines) && UniqueProducts(lines)
    ensures var ps := ApplyDecrements(products, lines);
      && (forall i :: 0 <= i < |lines| ==>
            TakenFrom(products[lines[i].product], ps[lines[i].product], lines[i].qty))
      && (forall p :: p in products && FindProduct(lines, p).None? ==> ps[p] == products[p])
  {
    forall i | 0 <= i < |lines|
      ensures QtyOf(lines, lines[i].product) == lines[i].qty
    {
      QtyOfUnique(lines, lines[i].product);
    }
    forall p | p in products && FindProduct(lines, p).None? ensures QtyOf(lines, p) == 0 {
      QtyOfUnique(lines, p);
    }
  }
}
