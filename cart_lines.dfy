/** The lines of one cart and what the cart operations do to them: add a
    product (or raise its quantity), overwrite or remove a line, and fold a
    guest cart into a user cart. */
module CartLines {
  import opened Common
  import opened Models

  /** The position of the line for product `p`, if the cart has one. */
  function FindProduct(lines: seq<CartLine>, p: ProductId): (r: Option<nat>)
    ensures r.Some? ==> r.value < |lines| && lines[r.value].product == p
    ensures r.Some? ==> forall j :: 0 <= j < r.value ==> lines[j].product != p
    ensures r.None? ==> forall j :: 0 <= j < |lines| ==> lines[j].product != p
  {
    if lines == [] then None
    else if lines[0].product == p then Some(0)
    else match FindProduct(lines[1..], p)
      case None => None
      case Some(i) => Some(i + 1)
  }

  /** The position of the line with identifier `id`, if the cart has one. */
  function FindItem(lines: seq<CartLine>, id: ItemId): (r: Option<nat>)
    ensures r.Some? ==> r.value < |lines| && lines[r.value].id == id
    ensures r.None? ==> forall j :: 0 <= j < |lines| ==> lines[j].id != id
  {
    if lines == [] then None
    else if lines[0].id == id then Some(0)
    else match FindItem(lines[1..], id)
      case None => None
      case Some(i) => Some(i + 1)
  }

  /** How much of product `p` a line holds. */
  function Contrib(l: CartLine, p: ProductId): nat
  {
    if l.product == p then l.qty else 0
  }

  /** The total quantity of product `p` over all lines. */
  function QtyOf(lines: seq<CartLine>, p: ProductId): nat
  {
    if lines == [] then 0 else QtyOf(lines[..|lines| - 1], p) + Contrib(lines[|lines| - 1], p)
  }

  /** The price snapshot of the first line for product `p`. */
  function PriceOf(lines: seq<CartLine>, p: ProductId): Option<Money>
  {
    if lines == [] then None
    else
      var l := lines[|lines| - 1];
      match PriceOf(lines[..|lines| - 1], p)
      case Some(m) => Some(m)
      case None => if l.product == p then Some(l.unitPrice) else None
  }

  /** The invariants of a stored cart: one line per product, distinct line
      identifiers all below the next identifier to issue, and every quantity
      at least 1. */
  predicate LinesOk(lines: seq<CartLine>, nextId: ItemId)
  {
    && UniqueProducts(lines)
    && UniqueIds(lines)
    && (forall i :: 0 <= i < |lines| ==> lines[i].id < nextId && lines[i].qty >= 1)
  }

  /** `get_or_create` on the cart's lines followed by `qty += ...` when the
      line already existed: a new line takes `price` as its snapshot and the
      next identifier; an existing line only grows. */
  function AddLine(lines: seq<CartLine>, p: ProductId, qty: nat, price: Money, nextId: ItemId)
    : (r: (seq<CartLine>, ItemId))
    ensures r.1 >= nextId
  {
    match FindProduct(lines, p)
    case Some(i) => (lines[i := lines[i].(qty := lines[i].qty + qty)], nextId)
    case None => (lines + [CartLine(nextId, p, qty, price)], nextId + 1)
  }

  /** Line `i` removed, the others kept in order. */
  function RemoveAt(lines: seq<CartLine>, i: nat): (r: seq<CartLine>)
    requires i < |lines|
    ensures |r| == |lines| - 1
    ensures forall j :: 0 <= j < i ==> r[j] == lines[j]
    ensures forall j :: i <= j < |r| ==> r[j] == lines[j + 1]
  {
    lines[..i] + lines[i + 1..]
  }

  // ---- Quantities ----

  lemma QtyOfSnoc(lines: seq<CartLine>, l: CartLine, p: ProductId)
    ensures QtyOf(lines + [l], p) == QtyOf(lines, p) + Contrib(l, p)
  {
    assert (lines + [l])[..|lines|] == lines;
  }

  /** Replacing one line changes the quantity of a product by the
      difference of the two lines' contributions. */
  lemma {:induction false} QtyOfUpdate(lines: seq<CartLine>, i: nat, l: CartLine, p: ProductId)
    requires i < |lines|
    ensures QtyOf(lines[i := l], p) == QtyOf(lines, p) - Contrib(lines[i], p) + Contrib(l, p)
    decreases |lines|
  {
    var n := |lines| - 1;
    if i < n {
      assert lines[i := l][..n] == lines[..n][i := l];
      QtyOfUpdate(lines[..n], i, l, p);
    } else {
      assert lines[i := l][..n] == lines[..n];
    }
  }

  /** Removing line `i` takes away exactly its contribution. */
  lemma {:induction false} QtyOfRemoveAt(lines: seq<CartLine>, i: nat, p: ProductId)
    requires i < |lines|
    ensures QtyOf(RemoveAt(lines, i), p) == QtyOf(lines, p) - Contrib(lines[i], p)
    decreases |lines|
  {
    var n := |lines| - 1;
    if i < n {
      assert RemoveAt(lines, i) == RemoveAt(lines[..n], i) + [lines[n]];
      assert lines == lines[..n] + [lines[n]];
      QtyOfRemoveAt(lines[..n], i, p);
      QtyOfSnoc(RemoveAt(lines[..n], i), lines[n], p);
    } else {
      assert RemoveAt(lines, i) == lines[..n];
    }
  }

  /** With one line per product, a product's quantity is that of its line. */
  lemma {:induction false} QtyOfUnique(lines: seq<CartLine>, p: ProductId)
    requires UniqueProducts(lines)
    ensures FindProduct(lines, p).None? ==> QtyOf(lines, p) == 0
    ensures FindProduct(lines, p).Some? ==> QtyOf(lines, p) == lines[FindProduct(lines, p).value].qty
    decreases |lines|
  {
    if lines != [] {
      var n := |lines| - 1;
      QtyOfUnique(lines[..n], p);
      var f := FindProduct(lines, p);
      var f' := FindProduct(lines[..n], p);
      if lines[n].product == p {
        assert f == Some(n);
        assert f'.None?;
      } else if f.Some? {
        assert f.value < n;
        assert f' == f;
      } else {
        assert f'.None?;
      }
    }
  }

  /** Adding `qty` of `p` raises the quantity of `p` by exactly `qty` and
      leaves every other product's quantity alone. */
  lemma AddLineQty(lines: seq<CartLine>, p: ProductId, qty: nat, price: Money, nextId: ItemId, q: ProductId)
    ensures QtyOf(AddLine(lines, p, qty, price, nextId).0, q) == QtyOf(lines, q) + (if q == p then qty else 0)
  {
    match FindProduct(lines, p)
    case Some(i) =>
      QtyOfUpdate(lines, i, lines[i].(qty := lines[i].qty + qty), q);
    case None =>
      QtyOfSnoc(lines, CartLine(nextId, p, qty, price), q);
  }

  // ---- Price snapshots ----

  /** The price snapshots depend only on the products and prices of the
      lines, not on their quantities or identifiers. */
  lemma {:induction false} PriceOfSameShape(a: seq<CartLine>, b: seq<CartLine>, q: ProductId)
    requires |a| == |b|
    requires forall j :: 0 <= j < |a| ==> a[j].product == b[j].product && a[j].unitPrice == b[j].unitPrice
    ensures PriceOf(a, q) == PriceOf(b, q)
    decreases |a|
  {
    if a != [] {
      PriceOfSameShape(a[..|a| - 1], b[..|b| - 1], q);
    }
  }

  /** `PriceOf` finds a snapshot exactly when the cart has a line for the
      product, and it is the snapshot of the first such line. */
  lemma {:induction false} PriceOfFind(lines: seq<CartLine>, q: ProductId)
    ensures PriceOf(lines, q).None? <==> FindProduct(lines, q).None?
    ensures FindProduct(lines, q).Some? ==> PriceOf(lines, q) == Some(lines[FindProduct(lines, q).value].unitPrice)
    decreases |lines|
  {
    if lines != [] {
      var n := |lines| - 1;
      PriceOfFind(lines[..n], q);
      var f := FindProduct(lines, q);
      var f' := FindProduct(lines[..n], q);
      if f'.Some? {
        assert f == f';
      } else if lines[n].product == q {
        assert f == Some(n);
      } else {
        assert f.None?;
      }
    }
  }

  /** Adding never changes an existing snapshot; a product new to the cart
      takes the price it was added at. */
  lemma AddLinePrice(lines: seq<CartLine>, p: ProductId, qty: nat, price: Money, nextId: ItemId, q: ProductId)
    ensures PriceOf(AddLine(lines, p, qty, price, nextId).0, q)
         == if q == p && PriceOf(lines, q).None? then Some(price) else PriceOf(lines, q)
  {
    PriceOfFind(lines, p);
    match FindProduct(lines, p)
    case Some(i) =>
      PriceOfSameShape(AddLine(lines, p, qty, price, nextId).0, lines, q);
    case None =>
      var l := CartLine(nextId, p, qty, price);
      assert (lines + [l])[..|lines|] == lines;
  }

  // ---- The shape of the cart after an add ----

  /** Adding a product the cart lacks appends one line holding the added
      quantity at the given price, under the next identifier. */
  lemma AddLineNew(lines: seq<CartLine>, p: ProductId, qty: nat, price: Money, nextId: ItemId)
    requires forall j :: 0 <= j < |lines| ==> lines[j].product != p
    ensures var (r, n) := AddLine(lines, p, qty, price, nextId);
            |r| == |lines| + 1 && r[..|lines|] == lines &&
            r[|lines|] == CartLine(nextId, p, qty, price) && n == nextId + 1
  {
  }

  /** Adding a product the cart holds at line `i` only raises that line's
      quantity: same number of lines, same snapshot, same identifier. */
  lemma AddLineExisting(lines: seq<CartLine>, i: nat, qty: nat, price: Money, nextId: ItemId)
    requires UniqueProducts(lines) && i < |lines|
    ensures var (r, n) := AddLine(lines, lines[i].product, qty, price, nextId);
            |r| == |lines| && n == nextId &&
            r[i] == lines[i].(qty := lines[i].qty + qty) &&
            forall j :: 0 <= j < |lines| && j != i ==> r[j] == lines[j]
  {
    var f := FindProduct(lines, lines[i].product);
    assert f == Some(i);
  }

  /** Two adds of one product to a cart without it: the quantities add up
      and the snapshot is the price of the first add. */
  lemma AddTwice(lines: seq<CartLine>, p: ProductId, q1: nat, price1: Money, q2: nat, price2: Money, nextId: ItemId)
    requires forall j :: 0 <= j < |lines| ==> lines[j].product != p
    ensures var (r1, n1) := AddLine(lines, p, q1, price1, nextId);
            var (r2, n2) := AddLine(r1, p, q2, price2, n1);
            QtyOf(r2, p) == q1 + q2 && PriceOf(r2, p) == Some(price1) && |r2| == |lines| + 1
  {
    var (r1, n1) := AddLine(lines, p, q1, price1, nextId);
    FindNone(lines, p);
    QtyOfUniqueAbsent(lines, p);
    PriceOfFind(lines, p);
    AddLineQty(lines, p, q1, price1, nextId, p);
    AddLinePrice(lines, p, q1, price1, nextId, p);
    AddLineQty(r1, p, q2, price2, n1, p);
    AddLinePrice(r1, p, q2, price2, n1, p);
    assert r1[|lines|].product == p;
    assert FindProduct(r1, p).Some?;
  }

  lemma FindNone(lines: seq<CartLine>, p: ProductId)
    requires forall j :: 0 <= j < |lines| ==> lines[j].product != p
    ensures FindProduct(lines, p).None?
  {
  }

  /** A product no line holds has quantity 0. */
  lemma {:induction false} QtyOfUniqueAbsent(lines: seq<CartLine>, p: ProductId)
    requires forall j :: 0 <= j < |lines| ==> lines[j].product != p
    ensures QtyOf(lines, p) == 0
    decreases |lines|
  {
    if lines != [] {
      QtyOfUniqueAbsent(lines[..|lines| - 1], p);
    }
  }

  // ---- Invariants ----

  /** Adding a positive quantity keeps a cart well formed. */
  lemma AddLineOk(lines: seq<CartLine>, p: ProductId, qty: nat, price: Money, nextId: ItemId)
    requires LinesOk(lines, nextId) && qty >= 1
    ensures var (r, n) := AddLine(lines, p, qty, price, nextId); LinesOk(r, n)
  {
  }

  /** Removing a line keeps a cart well formed. */
  lemma RemoveAtOk(lines: seq<CartLine>, i: nat, nextId: ItemId)
    requires LinesOk(lines, nextId) && i < |lines|
    ensures LinesOk(RemoveAt(lines, i), nextId)
  {
    var r := RemoveAt(lines, i);
    forall a, b | 0 <= a < b < |r| ensures r[a].product != r[b].product && r[a].id != r[b].id {
      var a', b' := if a < i then a else a + 1, if b < i then b else b + 1;
      assert r[a] == lines[a'] && r[b] == lines[b'];
    }
  }

  /** Overwriting a line's quantity with a positive one keeps a cart well
      formed. */
  lemma SetQtyOk(lines: seq<CartLine>, i: nat, qty: nat, nextId: ItemId)
    requires LinesOk(lines, nextId) && i < |lines| && qty >= 1
    ensures LinesOk(lines[i := lines[i].(qty := qty)], nextId)
  {
  }

  /** A well-formed cart is well formed under any later identifier. */
  lemma LinesOkMono(lines: seq<CartLine>, n: ItemId, n': ItemId)
    requires LinesOk(lines, n) && n <= n'
    ensures LinesOk(lines, n')
  {
  }

  // ---- Guest-to-user merge ----

  /** The user cart after each guest line, in order, has gone through the
      same get-or-create-then-add step as an add to cart, carrying the
      guest's quantity and the guest's price snapshot. */
  function MergeLines(user: seq<CartLine>, guest: seq<CartLine>, nextId: ItemId): (r: (seq<CartLine>, ItemId))
    ensures r.1 >= nextId
  {
    if guest == [] then (user, nextId)
    else
      var g := guest[|guest| - 1];
      var (ls, n) := MergeLines(user, guest[..|guest| - 1], nextId);
      AddLine(ls, g.product, g.qty, g.unitPrice, n)
  }

  /** After the merge the user cart holds, for every product, the user's
      quantity plus the guest's. */
  lemma {:induction false} MergeQty(user: seq<CartLine>, guest: seq<CartLine>, nextId: ItemId, q: ProductId)
    ensures QtyOf(MergeLines(user, guest, nextId).0, q) == QtyOf(user, q) + QtyOf(guest, q)
    decreases |guest|
  {
    if guest != [] {
      var g := guest[|guest| - 1];
      var (ls, n) := MergeLines(user, guest[..|guest| - 1], nextId);
      MergeQty(user, guest[..|guest| - 1], nextId, q);
      AddLineQty(ls, g.product, g.qty, g.unitPrice, n, q);
    }
  }

  /** The user cart's snapshot wins for products it already had; a product
      new to it takes the guest's snapshot. */
  lemma {:induction false} MergePrice(user: seq<CartLine>, guest: seq<CartLine>, nextId: ItemId, q: ProductId)
    ensures PriceOf(MergeLines(user, guest, nextId).0, q)
         == if PriceOf(user, q).Some? then PriceOf(user, q) else PriceOf(guest, q)
    decreases |guest|
  {
    if guest != [] {
      var g := guest[|guest| - 1];
      var (ls, n) := MergeLines(user, guest[..|guest| - 1], nextId);
      MergePrice(user, guest[..|guest| - 1], nextId, q);
      AddLinePrice(ls, g.product, g.qty, g.unitPrice, n, q);
    }
  }

  /** Merging guest lines of positive quantity keeps the user cart well
      formed. */
  lemma {:induction false} MergeOk(user: seq<CartLine>, guest: seq<CartLine>, nextId: ItemId)
    requires LinesOk(user, nextId)
    requires forall j :: 0 <= j < |guest| ==> guest[j].qty >= 1
    ensures var (r, n) := MergeLines(user, guest, nextId); LinesOk(r, n)
    decreases |guest|
  {
    if guest != [] {
      var g := guest[|guest| - 1];
      var (ls, n) := MergeLines(user, guest[..|guest| - 1], nextId);
      MergeOk(user, guest[..|guest| - 1], nextId);
      AddLineOk(ls, g.product, g.qty, g.unitPrice, n);
    }
  }
}
