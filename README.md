# CartX shop: a verified model of the catalog, cart, checkout and sales ledger

CartX is a small client-side shop. The admin keeps a product catalog: creating products with
a derived profit, searching, editing, removing and listing low stock. The shop page builds a
cart from the products in stock and computes subtotal, 5% tax and final total. The
payment-success page finalises the sale. It lowers stock, appends an order to the ledger and
clears the checkout keys. The admin dashboard then aggregates today's and this month's
sales, lists the ten most recent orders, and offers reset and logout.

This project models that behaviour in Dafny:

- `Storage.Store` is a class with one field per key of the browser store. A list key that
  has been removed reads as the empty sequence, because every page reads those keys with an
  empty list as fallback.
- Pure decisions are functions on values: validation, filters, totals, the order number and
  the stock decrement.
- Code that changes state step by step is imperative Dafny:
  - the page handlers that rewrite store keys;
  - the cart page's `cart` field;
  - the dashboard's accumulating loop;
  - the in-place sort of the ledger.
- Each method is proved against the functions, and the properties the shop relies on are
  proved about those functions.

Modules:

- `Wrappers`: `Option` and `Result`.
- `Seqs`: an order-preserving `Filter` and its laws, first index, distinct keys.
- `Text`: ASCII lower-casing, substring containment, and the decimal string of a number with
  its last digits.
- `Entities`: `Product`, `CartItem`, `Order`, `CalendarDate`, `Instant`.
- `Storage`: the store.
- `Catalog`: `app/admin/add-product/page.tsx` and `app/admin/view-products/page.tsx`.
- `Cart`: `app/shop/cart/page.tsx`.
- `Checkout`: `app/shop/payment/success/page.tsx`.
- `Dashboard`: `app/admin/dashboard/page.tsx`.

## Model

| member | source | states |
|---|---|---|
| Catalog.DeriveProfit | app/admin/add-product/page.tsx:52-70 | When both prices are positive, profit is quantity × (sell − buy) and the percentage p satisfies buy + buy·p/100 = sell. Otherwise both are 0. |
| Catalog.ProfitSign | app/admin/add-product/page.tsx:58-66 | Selling above a positive cost gives a positive percentage, and a non-negative profit for a non-negative quantity. |
| Catalog.NewProduct | app/admin/add-product/page.tsx:108-120 | The new record carries the form's values, the derived profit and percentage, and the creation date. |
| Catalog.Create | app/admin/add-product/page.tsx:77-124 | Each error is reported exactly when its check is the first to fail, in the order empty field, duplicate id, price not above cost. The create succeeds exactly when all three checks pass, and a success appends exactly the new record and keeps every earlier record. |
| Catalog.CreateKeepsIdsUnique | app/admin/add-product/page.tsx:94-124 | A catalog with unique ids still has unique ids after a successful create. |
| Catalog.HandleSubmit | app/admin/add-product/page.tsx:77-124 | On success the stored catalog becomes the appended catalog. On failure the catalog is untouched and the first failing check is returned. |
| Catalog.Search | app/admin/view-products/page.tsx:63-71 | The result is exactly the products whose lower-cased name or id contains the lower-cased term. `Text.Lower` models `toLowerCase` and `Text.Contains` models `includes` (a match at some offset). |
| Catalog.SearchEmptyTerm | app/admin/view-products/page.tsx:65-69 | An empty term returns the whole catalog. |
| Catalog.SearchKeepsOrder | app/admin/view-products/page.tsx:65-69 | Searching a concatenation gives the concatenated searches, so catalog order is kept. |
| Catalog.SearchIgnoresCase | app/admin/view-products/page.tsx:65-69 | Lower-casing the term does not change the result. |
| Catalog.LowStock | app/admin/view-products/page.tsx:147 | The result is exactly the products with quantity at or below their alert threshold. |
| Catalog.LowStockKeepsOrder | app/admin/view-products/page.tsx:147 | The low-stock list of a concatenation is the concatenation of the lists, so catalog order is kept. |
| Catalog.OutOfStockWithinLowStock | app/admin/view-products/page.tsx:147 | With non-negative thresholds, the out-of-stock products of the low-stock list are all the out-of-stock products. |
| Catalog.WithoutProduct | app/admin/view-products/page.tsx:99-103 | No record with the id remains, and every other record does. |
| Catalog.WithoutAbsentId | app/admin/view-products/page.tsx:99-103 | Removing an id that is not in the catalog changes nothing. |
| Catalog.WithoutKeepsOrder | app/admin/view-products/page.tsx:99-103 | Removal distributes over concatenation, so the remaining records keep their relative order. |
| Catalog.RemoveProduct | app/admin/view-products/page.tsx:99-103 | The stored catalog becomes the catalog without the id. No other key changes. |
| Catalog.EditedProduct | app/admin/view-products/page.tsx:73-92 | The edited record keeps its id and creation date, takes the dialog's values, and has its profit derived again by the create formula. |
| Catalog.Edited | app/admin/view-products/page.tsx:117-145 | Refused when nothing is being edited, or when sell ≤ buy. Otherwise the length is kept, records with the id are replaced, and all others are unchanged. |
| Catalog.EditKeepsIds | app/admin/view-products/page.tsx:136-140 | An edit keeps the id at every position, so unique ids stay unique. |
| Catalog.EditIdempotent | app/admin/view-products/page.tsx:136-140 | Saving the same dialog twice equals saving it once. |
| Catalog.SaveEdit | app/admin/view-products/page.tsx:117-145 | The stored catalog becomes the edited catalog on success and is untouched on refusal. |
| Cart.InStock | app/shop/cart/page.tsx:49-51 | The offered products are exactly the catalog products with quantity > 0. |
| Cart.InStockOffered | app/shop/cart/page.tsx:49-51 | A catalog with unique ids yields an offer with unique ids, all in stock. |
| Cart.ShownInStock | app/shop/cart/page.tsx:54-62 | The search grid shows exactly the in-stock catalog products that match the term. |
| Cart.FindLine | app/shop/cart/page.tsx:65 | Finds a line with the id exactly when one exists, and it is the first such line. |
| Cart.FindProduct | app/shop/cart/page.tsx:82 | Finds an offered product with the id exactly when one exists, and it is the first such product. |
| Cart.WithAdded | app/shop/cart/page.tsx:64-74 | A new product appends one line with quantity 1. A line below stock gains one unit and every other line stays. The cart stays unchanged exactly when the product's line is already at stock. |
| Cart.WithoutLine | app/shop/cart/page.tsx:88-90 | No line for the id remains, and every other line does. |
| Cart.WithQuantity | app/shop/cart/page.tsx:76-86 | 0 removes the line. A value within the known product's stock sets the line. Anything else leaves the cart unchanged. |
| Cart.AddKeepsConsistent | app/shop/cart/page.tsx:64-74 | Adding keeps line ids distinct and every quantity between 1 and stock. |
| Cart.UpdateKeepsConsistent | app/shop/cart/page.tsx:76-86 | Setting any non-negative quantity keeps the cart consistent. |
| Cart.RemoveKeepsConsistent | app/shop/cart/page.tsx:88-90 | Removing keeps the cart consistent. |
| Cart.Subtotal | app/shop/cart/page.tsx:96-98 | With non-negative prices and quantities, the subtotal is non-negative. |
| Cart.Tax | app/shop/cart/page.tsx:100-102 | The tax is one twentieth of the subtotal, and lies between 0 and the subtotal when the subtotal is non-negative. |
| Cart.FinalTotal | app/shop/cart/page.tsx:100-106 | The final total is 1.05 × subtotal and, for a non-negative subtotal, never below it. |
| Cart.TotalItems | app/shop/cart/page.tsx:108-110 | With quantities of at least 1, there are at least as many units as lines. |
| Cart.TotalsSnoc | app/shop/cart/page.tsx:96-110 | Appending a line adds its amount to the subtotal and its units to the item count. |
| Cart.TotalsPointUpdate | app/shop/cart/page.tsx:96-110 | Changing one line changes both totals by exactly that line's difference. |
| Cart.IncrementTotals | app/shop/cart/page.tsx:67-70 | Incrementing a line adds one unit and one unit price. |
| Cart.AddTotals | app/shop/cart/page.tsx:64-74 | An add either leaves the cart as it was, or adds exactly one unit at the product's price. |
| Cart.TotalsScenario | app/shop/cart/page.tsx:96-110 | Two units at 15 give subtotal 30, tax 1.5, final 31.5 and 2 items. |
| Cart.CartPage.constructor | app/shop/cart/page.tsx:48-51 | The page offers the in-stock catalog with an empty cart, and is valid for a catalog with unique ids. |
| Cart.CartPage.AddToCart | app/shop/cart/page.tsx:64-74 | The new cart is the added cart, and the consistency invariant is preserved. |
| Cart.CartPage.UpdateCartQuantity | app/shop/cart/page.tsx:76-86 | The new cart is the updated cart, and the invariant is preserved for non-negative quantities. |
| Cart.CartPage.RemoveFromCart | app/shop/cart/page.tsx:88-90 | The new cart is the cart without the line, and the invariant is preserved. |
| Cart.CartPage.ProceedToPayment | app/shop/cart/page.tsx:112-123 | An empty cart writes nothing. Otherwise the cart, final total, subtotal and tax are stored. |
| Text.LowerIdempotent | app/admin/view-products/page.tsx:67-68 | Lower-casing twice equals lower-casing once. |
| Text.DecimalValue | app/shop/payment/success/page.tsx:59 | Reading back the decimal string of a number gives the number. |
| Text.LastDigitsValue | app/shop/payment/success/page.tsx:59 | The last k characters of the decimal string spell the number modulo 10^k. |
| Text.TakeLast | app/shop/payment/success/page.tsx:59 | `slice(-k)` for k ≥ 1 (the page uses k = 8): the last min(k, length) characters of the string. |
| Checkout.OrderNumberShape | app/shop/payment/success/page.tsx:59 | The order id (`Checkout.OrderNumber`) is "NM" followed by 1 to 8 digits that spell the timestamp modulo 10^8. From 10^7 ms on it is ten characters. |
| Checkout.PaymentMethodOrCash | app/shop/payment/success/page.tsx:43 | A stored non-empty method is used, otherwise "cash". |
| Checkout.DecrementStock | app/shop/payment/success/page.tsx:45-56 | Length and order are kept, and only quantities change. A record with a cart line gets max(0, quantity − units) from the first line. Others are unchanged. |
| Checkout.DecrementRemovesTaken | app/shop/payment/success/page.tsx:46-55 | When no line exceeds stock, total stock falls by exactly the units taken. |
| Checkout.CountIdUnique | app/shop/payment/success/page.tsx:46-47 | With unique ids, a present id matches exactly one catalog record. |
| Checkout.TakenIsTotalItems | app/shop/payment/success/page.tsx:46-55 | A cart of distinct catalog lines takes exactly its total item count from the catalog. |
| Checkout.StockConservation | app/shop/payment/success/page.tsx:45-56 | For a consistent cart over a unique-id catalog, the floor never applies and stock falls by exactly the cart's units. |
| Checkout.ConsistentWithCatalog | app/shop/cart/page.tsx:49-51 | A cart consistent with the offer is consistent with the full catalog. |
| Checkout.Finalise | app/shop/payment/success/page.tsx:25-85 | Without a non-empty name, a cart or a total (`Checkout.ReadyToFinalise`, line 34) nothing is written. Otherwise stock is decremented and one order is appended. The order (`Checkout.NewOrder`, lines 62-70) carries the name, the cart, the stored total, the method or cash, and the NM id. The cart, total and method keys are removed. |
| Checkout.FinaliseThenReload | app/shop/payment/success/page.tsx:34-37 | A reload after a sale writes nothing more, so the ledger grows by one order, not two. |
| Dashboard.LoadSalesData | app/admin/dashboard/page.tsx:38-75 | Today's and the month's revenue and count are the sum of totals (missing counts as 0) and the number of orders on that day or in that month and year. Each profit is 0.3 × its revenue. |
| Dashboard.RevenueFilterSnoc | app/admin/dashboard/page.tsx:51-69 | One more order adds its total and 1 to a partition exactly when it falls in that partition. |
| Dashboard.RevenueMonotone | app/admin/dashboard/page.tsx:57-68 | With non-negative totals, a narrower partition has no more revenue. |
| Dashboard.TodayWithinMonth | app/admin/dashboard/page.tsx:57-68 | Today's orders are the month's orders placed today. Today's count ≤ the month's, and so is revenue when totals are non-negative. |
| Dashboard.InsertPermutes | app/admin/dashboard/page.tsx:79-84 | Inserting an order into the sorted ledger adds exactly that order. |
| Dashboard.InsertSorted | app/admin/dashboard/page.tsx:79-84 | Inserting into a newest-first ledger keeps it newest first. |
| Dashboard.InsertStable | app/admin/dashboard/page.tsx:79-84 | Inserting never passes an order of the same time, so each time's orders keep their order, with the inserted one last. |
| Dashboard.SortedNewestFirstSpec | app/admin/dashboard/page.tsx:79-84 | The sorted ledger is newest first and holds exactly the ledger's orders. |
| Dashboard.SortedNewestFirstStable | app/admin/dashboard/page.tsx:79-84 | The sort is stable: for every time, the orders of that time appear in ledger order. |
| Dashboard.InsertLast | app/admin/dashboard/page.tsx:79-84 | One pass of the in-place sort puts the next order where insertion puts it, and touches nothing after it. |
| Dashboard.SortNewestFirst | app/admin/dashboard/page.tsx:79-84 | The array ends as the stable newest-first sort of what it held, so it is newest first and a permutation of the ledger. |
| Dashboard.NewestPrefix | app/admin/dashboard/page.tsx:85 | A prefix of a newest-first ledger is sorted and a sub-multiset, and nothing after it is newer. |
| Dashboard.RecentOrders | app/admin/dashboard/page.tsx:77-88 | The result is the first min(10, n) orders of the stable newest-first sort, so equal times keep ledger order. They are newest first and drawn from the ledger, and no omitted order is newer than a shown one. |
| Dashboard.ResetAllValues | app/admin/dashboard/page.tsx:90-101 | Once confirmed, products and orders are emptied and nothing else changes. Unconfirmed, nothing is written. |
| Dashboard.Logout | app/admin/dashboard/page.tsx:103-107 | adminAuth and adminUser are removed, and nothing else changes. |

## Left out

- Rendering, routing and timers are not modelled: JSX, effect scheduling, `mounted` flags, `window.location` redirects and the confetti timeout. A redirect is modelled as the handler returning without writing.
- The store is not serialised. `localStorage`, JSON round trips and string-typed keys are abstracted, so a stored value is the value itself.
- Form parsing is taken as done. `parseFloat`/`parseInt` results are inputs, and an empty add-form field is `None`. NaN, and what a non-numeric string would do, are not modelled.
- Prices are exact reals. IEEE rounding, `toFixed` and locale formatting are not modelled.
- Dates are abstract. An order carries a calendar day and a millisecond timestamp. `Date` parsing, time zones and the `date || timestamp` fallback are not modelled. The recent-orders sort compares the stored timestamp, which stands for the order's time.
- `Checkout.Finalise` takes one instant for its several `Date.now()` calls. The id, date and timestamp of an order therefore come from the same moment.
- Text.TakeLast: models `slice(-k)` for k ≥ 1 only. At k = 0 it returns the empty string, where JavaScript returns the whole string. The shop only calls `slice(-8)`.
- Text.Lower: lower-casing covers ASCII letters only. Unicode case mapping is not modelled.
- The add form's `dateAdded` (an ISO timestamp) is a parameter.
- Page-local display state is not modelled: the dashboard zeroing its figures after reset, `editingProduct` being cleared after a save, error strings and alerts.
- The view-products and cart pages work on a copy of the stored catalog loaded on mount. The model treats that copy as the store's `products` key; the cart page's offer is `Cart.CartPage.products`.
- The PDF and HTML receipt, the Supabase product list, the admin login and password reset, the name capture page and the payment method pages are not part of this model. They are markup, routing or remote I/O.
- Cart.UpdateKeepsConsistent: proved for non-negative quantities only. The page never sends a negative one, and the code's guard would accept it.
- Checkout.Finalise: `cartSubtotal` and `cartTax` stay in the store after finalisation, because the code removes only `currentCart`, `cartTotal` and `paymentMethod`.
- Checkout.FinaliseThenReload: a second visit finds the cart and total keys gone and writes nothing. The code does not append a duplicate order.
- Cart.WithQuantity: a quantity above stock is ignored rather than clamped, following the code.
- Catalog.Edited: the edit dialog has no empty-field check, following the code.
