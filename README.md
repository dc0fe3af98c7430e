# Shop checkout core, modelled in Dafny

This project models the checkout path of a small Django shop as one
sequential, in-memory store. The store holds:

- products, each with a price, a stock count and an active flag;
- carts, keyed either by an authenticated user or by an anonymous session key;
- cart lines, each with a quantity and the price captured when the line was created;
- orders, each with its frozen items.

The model covers:

- the cart operations behind the public API: get-or-create the caller's cart, add, update and remove a line;
- the merge of a guest cart into a user's cart at login;
- order numbering (`ORD-<YYYYMMDD>-<seq:04d>`);
- the atomic checkout transaction: stock check, amounts, frozen items, stock decrements, emptying the cart;
- checkout-field validation and error mapping in the confirm view;
- the staff-only order-status update.

Modelling choices:

- Money is an integer count of thousandths. Prices carry two decimals and the shipping fee (4.990) three, so every amount is exact.
- The store is the class `Store.Shop`. Its fields are the product table, the cart table (a map from `Owner` to a sequence of lines), the order table (an order's identifier is its position) and the next line identifier.
- Each method that changes the store states its new state through a pure function of the old state (`Store.Checkout`, `Store.MergeCarts`, `CartLines.AddLine`, `AdminViews.StatusUpdate`). The properties are proved as lemmas about those functions.
- A checkout is one step: on an error the function returns no state at all, and the method leaves the store exactly as it was.
- The calendar date of a checkout and the session key a new session would receive are parameters.
- The checkout issues order numbers with the corrected numbering rule. See "## Findings".

Modules, in dependency order:

- `Common`: option and result types, and a string prefix test.
- `Models`: records, line subtotal, cart total and the status vocabulary.
- `PyText`: Python's `str.isspace`, `str.strip`, `str(n)` and decimal values.
- `OrderNumbering`: the numbering rule as written, and the corrected one.
- `CartLines`: operations on one cart's lines, including the merge fold.
- `CheckoutSpec`: what a checkout computes from a cart and the product table.
- `Store`: the request identity, the whole-state functions and the `Shop` class.
- `Views`: the public request handlers.
- `AdminViews`: the order-status update.

## Model

| member | source | states |
|---|---|---|
| Models.CartTotalSingle | backend/shop/models.py:55-57 | a one-line cart is worth that line's unit price times its quantity |
| Models.CartTotalConcat | backend/shop/models.py:41-43 | the cart total, a sum of line subtotals, is additive over concatenation |
| Models.CartTotalRemoveAt | backend/shop/models.py:41-43 | deleting a line lowers the cart total by exactly that line's subtotal |
| Models.CartTotalSetQty | backend/shop/models.py:41-43 | overwriting a line's quantity changes the total by the difference of that line's subtotals only |
| Models.ParseStatus | backend/shop/models.py:60-64 | a status is accepted exactly when it is one of `pending`, `paid`, `cancelled` |
| Models.StatusRoundTrip | backend/shop/models.py:60-64 | parsing and spelling a status are inverse in both directions |
| PyText.StripEmpty | backend/shop/views.py:77 | a value strips to nothing exactly when every character is whitespace |
| PyText.DecimalValue | backend/shop/utils.py:71 | the decimal text of a product id reads back as that id |
| CartLines.FindProduct | backend/shop/views.py:31-34 | the cart's line for a product is the first one with that product; none when no line has it |
| CartLines.FindItem | backend/shop/views.py:44 | the caller's line with a given identifier, or none when the caller's cart has no such line |
| CartLines.RemoveAt | backend/shop/views.py:47 | deleting a line keeps the other lines in order |
| CartLines.QtyOfUnique | backend/shop/models.py:52-53 | with one line per product, a product's quantity is that of its line, 0 without one |
| CartLines.AddLineQty | backend/shop/views.py:31-37 | adding `qty` of a product raises that product's quantity by `qty` and no other product's |
| CartLines.AddLinePrice | backend/shop/views.py:31-37 | adding keeps an existing line's price snapshot; a new line takes the given price |
| CartLines.AddLineNew | backend/shop/views.py:31-34 | adding an absent product appends one line with that quantity, that price and the next identifier |
| CartLines.AddLineExisting | backend/shop/views.py:35-37 | adding a present product grows that line's quantity, keeps its price and adds no line |
| CartLines.AddTwice | backend/shop/views.py:31-37 | two adds of the same new product make one line with the summed quantity and the first price |
| CartLines.AddLineOk | backend/shop/models.py:52-53 | adding keeps one line per product, distinct identifiers and quantities of at least 1 |
| CartLines.RemoveAtOk | backend/shop/views.py:53-58 | deleting a line keeps the cart invariants |
| CartLines.SetQtyOk | backend/shop/views.py:49-50 | overwriting a quantity with one of at least 1 keeps the cart invariants |
| CartLines.MergeQty | backend/shop/utils.py:31-38 | after the merge, each product's quantity is the user's plus the guest's |
| CartLines.MergePrice | backend/shop/utils.py:32-35 | after the merge, the user's price snapshot wins; a product new to the user takes the guest's |
| CartLines.MergeOk | backend/shop/utils.py:29-38 | the merged cart keeps one line per product, distinct identifiers and positive quantities |
| CheckoutSpec.ComputeShipping | backend/shop/utils.py:41-43 | shipping is 0 for an empty cart and the flat 4.990 otherwise |
| CheckoutSpec.FirstShortLine | backend/shop/utils.py:68-71 | none exactly when no line exceeds its stock; otherwise the product of the first line, in cart order, that does |
| CheckoutSpec.NoShortLineFulfillable | backend/shop/utils.py:68-71 | with one line per product, passing the per-line stock check means every product's total demand fits its stock |
| CheckoutSpec.ApplyDecrements | backend/shop/utils.py:104-105 | each product loses exactly its ordered quantity and keeps its price and flag; no product is added or removed |
| CheckoutSpec.FrozenItems | backend/shop/utils.py:96-103 | one order item per cart line, in order, with the line's product, quantity, unit price and subtotal |
| CheckoutSpec.FrozenItemsTotal | backend/shop/utils.py:74 | the items' subtotals add up to the cart total |
| CheckoutSpec.PlaceOrderValue | backend/shop/utils.py:73-93 | a checkout that passes the stock check yields the order with the cart total, the fee, their sum, `pending` and the frozen items |
| CheckoutSpec.PlaceOrderEmpty | backend/shop/utils.py:64-66 | an empty cart fails with `empty_cart` |
| CheckoutSpec.PlaceOrderNoStock | backend/shop/utils.py:68-71 | a cart whose first short line is line `i` fails with `no_stock:<id of line i's product>` |
| CheckoutSpec.PlaceOrderSuccess | backend/shop/utils.py:73-93 | on success subtotal = cart total, shipping = the fee, total = subtotal + shipping, status `pending`, items mirror the lines |
| CheckoutSpec.PlaceOrderStock | backend/shop/utils.py:96-105 | on success each ordered product's stock drops by its line's quantity and stays non-negative; unordered products are untouched |
| CheckoutSpec.DecrementsPerLine | backend/shop/utils.py:104-105 | with one line per product, each product loses exactly its line's quantity |
| OrderNumbering.Pad4Facts | backend/shop/utils.py:55 | `{seq:04d}` is at least four digits, exactly four below 10000, and reads back as `seq` |
| OrderNumbering.LastComponentAfterDash | backend/shop/utils.py:52 | the last dash-separated component of `prefix + suffix` is the suffix |
| OrderNumbering.ParseDigits | backend/shop/utils.py:52 | `int()` of a plain digit string is its value |
| OrderNumbering.LexLessDigits | backend/shop/utils.py:48 | on digit strings of equal length, the string order is the numeric order |
| OrderNumbering.LexMax | backend/shop/utils.py:48 | the scan's greatest number exists exactly when there is a candidate, and is one of them |
| OrderNumbering.LexMaxIsGreatest | backend/shop/utils.py:48 | no candidate sorts after the one the scan picks |
| OrderNumbering.SameDay | backend/shop/utils.py:48 | the candidates are exactly the existing numbers that start with the day's prefix |
| OrderNumbering.NextOrderNumber | backend/shop/utils.py:45-55 | the number starts with `ORD-<date>-` and ends in at least four digits worth at least 1 |
| OrderNumbering.FirstOfTheDay | backend/shop/utils.py:49 | with no same-day number the result is `ORD-<date>-0001` |
| OrderNumbering.UnparsableFallsBack | backend/shop/utils.py:51-54 | when the greatest same-day number's suffix does not parse, the result is `ORD-<date>-0001` |
| OrderNumbering.FollowsGreatest | backend/shop/utils.py:50-55 | otherwise the result is the prefix followed by the padded greatest suffix plus one |
| OrderNumbering.FourDigitAgreement | backend/shop/utils.py:45-55 | while every same-day number has four digits, the rule as written equals the numeric rule |
| OrderNumbering.FourDigitFresh | backend/shop/utils.py:45-55 | while every same-day number has four digits, the new number differs from all existing ones |
| OrderNumbering.StringScanCollides | backend/shop/utils.py:48-55 | with `…-9999` and `…-10000` on file, the rule as written returns `…-10000` again |
| OrderNumbering.MaxSuffixBounds | backend/shop/utils.py:48-52 | the numeric maximum bounds every parseable same-day suffix and is attained by one |
| OrderNumbering.NextOrderNumberFixed | backend/shop/utils.py:45-55 | the corrected number has the day's prefix and a suffix worth one more than the greatest same-day suffix |
| OrderNumbering.FixedIsFresh | backend/shop/models.py:80 | the corrected number is never one already on file |
| Store.EnsureSessionKey | backend/shop/utils.py:6-9 | the key is never empty; an existing key is kept, a missing one becomes the new key |
| Store.WithCart | backend/shop/utils.py:11-17 | after get-or-create the identity has a cart, unchanged if it had one, empty if new; other carts untouched |
| Store.GetOrCreateTwice | backend/shop/utils.py:11-17 | a second call with the returned request names the same cart and creates nothing |
| Store.CartOwnerIdentity | backend/shop/utils.py:12-16 | an authenticated caller gets the user's cart; an anonymous one a guest cart under its non-empty key |
| Store.MergeNoOp | backend/shop/utils.py:21-27 | the merge changes nothing exactly when there is no session key or no guest cart |
| Store.MergeIdempotent | backend/shop/utils.py:39 | a repeated merge does nothing because the guest cart is gone |
| Store.MergeEffect | backend/shop/utils.py:29-39 | guest cart deleted; user cart exists with summed quantities and the user's price snapshots winning; other carts untouched |
| Store.MergeStocked | backend/shop/models.py:48 | merged lines refer only to existing products |
| Store.MergeKeepsOk | backend/shop/utils.py:19-39 | the merge keeps every store invariant |
| Store.CheckoutEmpty | backend/shop/utils.py:63-66 | checkout of a missing or empty cart fails with `empty_cart` |
| Store.CheckoutNoStock | backend/shop/utils.py:68-71 | checkout fails with `no_stock:<id>` naming the first short line's product |
| Store.CheckoutSucceeds | backend/shop/utils.py:63-71 | checkout succeeds exactly when the cart is non-empty and no line exceeds its stock |
| Store.CheckoutEffect | backend/shop/utils.py:79-108 | success appends one fresh-numbered order for the caller and empties the caller's cart, which still exists; other carts and earlier orders are unchanged |
| Store.AppendOrderOk | backend/shop/models.py:80 | storing a well-formed order with a fresh number keeps numbers unique and every invariant |
| Store.CheckoutKeepsOk | backend/shop/utils.py:57-109 | a successful checkout keeps every store invariant |
| Store.Shop.GetOrCreateCart | backend/shop/utils.py:11-17 | the cart of the caller's identity exists afterwards; nothing else changes |
| Store.Shop.MergeGuestCartToUser | backend/shop/utils.py:19-39 | the new carts and line counter are those of `MergeCarts`, and the invariants hold |
| Store.Shop.AddGuestLines | backend/shop/utils.py:31-38 | the loop leaves the user's lines equal to the fold `MergeLines` and touches no other cart |
| Store.Shop.FindShortLine | backend/shop/utils.py:69-71 | the loop returns the first line that exceeds its stock, or none when every line fits |
| Store.Shop.TakeStock | backend/shop/utils.py:96-105 | the loop builds the frozen items and leaves the stock table of `ApplyDecrements` |
| Store.Shop.CreateOrderFromCart | backend/shop/utils.py:57-109 | on an error the store is exactly as before; on success it is the state `Checkout` describes |
| Store.Shop.CommitOrder | backend/shop/utils.py:73-108 | after the stock check passes, stores what `Checkout` returns |
| Views.AddableIffListed | backend/shop/views.py:10-14 | a product can be added exactly when the product list offers it and the quantity is at least 1 |
| Views.CartAddItem | backend/shop/views.py:22-38 | invalid payload or unknown or inactive product leaves the cart only created; otherwise the lines are those of `AddLine` with the product's price |
| Views.CartUpdateItem | backend/shop/views.py:40-51 | an unknown item is not found; a quantity below 1 deletes the line; otherwise only that line's quantity changes |
| Views.CartRemoveItem | backend/shop/views.py:53-59 | an unknown item is not found; otherwise exactly that line is deleted |
| Views.MissingFieldSpec | backend/shop/views.py:75-78 | the reported field is the first blank one in order; none exactly when all are filled |
| Views.NothingMissingPresent | backend/shop/views.py:75-80 | passing validation guarantees the fields the order needs are present |
| Views.FirstMissing | backend/shop/views.py:75-78 | the validation loop returns the first blank required field |
| Views.UpToColon | backend/shop/views.py:84 | `split(":")[1]` is the text up to the next colon |
| Views.MapNoStock | backend/shop/views.py:83-85 | a `no_stock:<id>` error is answered `no_stock` with an id that reads back as the product's |
| Views.CheckoutErrorsMapped | backend/shop/views.py:81-88 | every checkout error maps to `empty_cart` or to `no_stock` with the product id, never to `invalid` |
| Views.CheckoutConfirm | backend/shop/views.py:71-89 | a blank field answers `missing:<field>` with no change; otherwise checkout runs atomically and its error or order is answered |
| AdminViews.StatusUpdateAccepts | backend/shop/views_admin.py:53-56 | an existing order is updated exactly when the value is an allowed status, which is then stored; otherwise `invalid_status` and nothing changes |
| AdminViews.StatusUpdateFrame | backend/shop/views_admin.py:56-57 | only the target order's status can change; every other field and order stays |
| AdminViews.StatusUpdateKeepsOk | backend/shop/views_admin.py:49-58 | a status update keeps every store invariant |
| AdminViews.OrderStatusUpdate | backend/shop/views_admin.py:49-58 | an unknown order is not found with no change; otherwise the outcome is that of `StatusUpdate` |

## Left out

- Login wiring (backend/accounts/views.py:46-56): the model takes the session key as a parameter of the merge. Django's `login()` rotates the session key before the merge runs, and merge exceptions are logged and do not fail the login. Authentication itself is a call into Django.
- `CartDetail.get` (backend/shop/views.py:16-20): it only runs get-or-create and serializes the cart, so it is covered by `Store.Shop.GetOrCreateCart`.
- `CheckoutSummary` (backend/shop/views.py:61-69): its total is computed in floating point.
- Serializers, URL routing, the admin site registration, the product admin CRUD and image upload views, and the Svelte frontend: these are field lists, wiring, file storage and HTTP plumbing.
- Concurrency: `transaction.atomic` is modelled as one all-or-nothing step on a single sequential state. Races between the stock check and the decrement, or between the order-number scan and the insert, are not modelled.
- Environment inputs: `timezone.now` becomes the `date` parameter, and session-key generation becomes the `freshKey` parameter.
- Input coercion: the model does not cover `int()` failing on a non-numeric `qty`, a `product_id` sent as text, or a non-string checkout field. Payloads are maps from strings to strings, and identifiers and quantities are integers.
- Database bounds: `max_digits`, `decimal_places`, `max_length` and e-mail format checks are not enforced. Amounts are unbounded integers. The stored shipping of 4.99 equals the computed 4.990.
- Database ordering: cart lines come back in insertion order. The order-number scan uses code-point order and case-sensitive prefix matching; a database collation could order or match differently.
- `OrderNumbering.ParseInt`: accepts only ASCII digits. Python's `int()` also accepts other Unicode decimal digits, and numbers containing them are not modelled.
- Timestamps (`created_at`, `updated_at`) and the admin list ordering by them are not modelled. Orders are identified by their position in the order table.
- User deletion (CASCADE on carts, SET_NULL on orders) and product deletion (PROTECT) are not modelled, because no modelled operation deletes users or products. The invariant that every cart line and order item refers to an existing product is kept instead.
- `Views.AddableIffListed`: requires a product id other than 0, because database identifiers start at 1 and `not pid` rejects 0.
- `Store.Shop.CreateOrderFromCart`: requires `email`, `full_name`, `address` and `city` in the payload. The only caller checks them first; without them the source would fail on a database constraint, not with a `ValueError`.
- `Store.Checkout`: issues order numbers with `OrderNumbering.NextOrderNumberFixed`, so `Store.CheckoutSucceeds` and `Views.CheckoutConfirm` never fail on a number collision. The source issues them with the string scan instead. From the 10001st order of a day, `Order.objects.create` reissues an existing number, and the unique `number` column (backend/shop/models.py:80) raises `IntegrityError`. `CheckoutConfirm` catches only `ValueError` (backend/shop/views.py:81), so that request ends in a server error and its transaction rolls back.
- `Store.Shop.CreateOrderFromCart`: returns the request with the session key ensured even when the checkout fails. A failed checkout does not store the cart that get-or-create would have created inside the rolled-back transaction.

## Findings

| source | as written | input that shows it | evidently intended | confidence | as-written member | corrected member |
|---|---|---|---|---|---|---|
| backend/shop/utils.py:48-55 | the next number is one more than the suffix of the same-day number that is greatest as a string | same-day numbers `ORD-<d>-9999` and `ORD-<d>-10000` on file: `"…-9999"` sorts after `"…-10000"`, so the result is `ORD-<d>-10000` again, and the unique number column rejects it | one more than the greatest numeric suffix, which is never on file | high; not executed | OrderNumbering.StringScanCollides | OrderNumbering.FixedIsFresh |
