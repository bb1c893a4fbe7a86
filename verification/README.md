# GroceMate pages: catalogue filter and order invoice, in Dafny

This project models the two pieces of business logic in the GroceMate
grocery-ordering app's pages, and proves properties about them.

- **Product catalogue filter** (`src/pages/Products.tsx`). The visible products are
  computed from the full catalogue by three narrowing passes:
  - a featured-only switch;
  - a category selector, which matches the category id or, ignoring case, the category name;
  - a case-insensitive name search.

  Around the filter sit the per-category item count, the heading for the
  selected category, and the defaulting of the `category` and `featured` URL
  parameters.
- **Order details** (`src/pages/OrderDetails.tsx`). This part covers:
  - looking up the order by order number or internal id, and going to `/orders` when none matches;
  - building the displayed record: `₹` price strings and the one-line address;
  - badge colour and icon for a status text;
  - the four-step progress indicator;
  - the invoice: delivery fee, 5 % GST and final total, read back from the displayed subtotal.

Modules (one file each):

| file | module | contents |
|---|---|---|
| wrappers.dfy | `Wrappers` | `Option`, standing in for `undefined` |
| seqs.dfy | `Seqs` | `filter`, `find`, counting, the subsequence relation |
| text.dfy | `Text` | ASCII `toLowerCase`, ECMAScript `trim`, `includes` |
| money.dfy | `Money` | `toFixed(2)` on whole paise, the `₹` prefix, `replace('₹', '')`, `parseFloat` on decimal text |
| products.dfy | `Products` | the catalogue filter and its helpers |
| order_status.dfy | `OrderStatus` | status colour, icon and progress steps |
| invoice.dfy | `Invoice` | delivery, GST and total |
| order_details.dfy | `OrderDetails` | order lookup, displayed record, line subtotals, invoice of the displayed total |

Details of the code that the model keeps as written:
- The category pass is skipped for the empty selector as well as for `'all'`, because the empty string is falsy.
- A missing or empty `category` URL parameter defaults to `'all'`.
- The search test uses the lowered but untrimmed term. Trimming only decides whether the search runs at all.
- Item prices and the order total are carried as `₹` strings and parsed back before any arithmetic.

Stored amounts are whole numbers of paise, so `toFixed(2)` of a stored amount
is exact formatting. The invoice arithmetic is exact over `real` rupees.

## Model

| member | source | states |
|---|---|---|
| `Products.FilterProducts` | src/pages/Products.tsx:97-121 | a product is shown iff it is in the catalogue and passes every active criterion (featured, category, search); never more products than the catalogue |
| `Products.FilterIsSinglePass` | src/pages/Products.tsx:97-121 | the three successive passes equal one order-preserving filter by the combined visibility predicate |
| `Products.FilterKeepsOrder` | src/pages/Products.tsx:98-120 | the shown list is a subsequence of the catalogue: relative order kept, nothing invented |
| `Products.FilterIdempotentProducts` | src/pages/Products.tsx:97-121 | filtering the shown list again with the same controls returns it unchanged |
| `Products.FilterEmpty` | src/pages/Products.tsx:98-120 | an empty catalogue shows nothing |
| `Products.FilterInactiveIsIdentity` | src/pages/Products.tsx:97-121 | with no featured flag, no category restriction and a blank search, the whole catalogue is shown in order |
| `Products.CategoryAllOrEmptySkipped` | src/pages/Products.tsx:106 | the selectors `'all'` and `''` both skip the category pass and show the same list |
| `Products.BlankSearchIsNoOp` | src/pages/Products.tsx:114 | a search term made only of white space is the same as no search |
| `Products.SearchSound` | src/pages/Products.tsx:114-117 | with an active search, every shown product's lowered name contains the lowered term at some position |
| `Products.SearchIgnoresCase` | src/pages/Products.tsx:114-117 | lowering the search term first shows exactly the same products |
| `Products.SearchTermIsNotTrimmed` | src/pages/Products.tsx:114-116 | the term is not trimmed before matching: a product's exact non-blank name with a leading space hides that product |
| `Products.CategoryCount` | src/pages/Products.tsx:141-144 | `'all'` counts the whole catalogue; any other id counts the products filed under that id (an independent count), so never more than the catalogue |
| `Products.CategoryCountAtMostShown` | src/pages/Products.tsx:141-144 | with featured-only off and no search, selecting a category shows at least as many products as its count, since the name match can add more |
| `Products.SelectedCategoryName` | src/pages/Products.tsx:147-151 | `'All Products'` for `'all'` or an unknown id, otherwise the name of the first category with that id |
| `Products.ApplyUrlParams` | src/pages/Products.tsx:34-40 | the category pass is inactive iff the `category` parameter is missing, empty or `'all'`; featured-only iff `featured` is exactly `'true'`; the search term is untouched |
| `Products.BareUrlShowsEverything` | src/pages/Products.tsx:35-37 | a URL with neither parameter, and no search typed, shows the whole catalogue |
| `Seqs.Filter` | src/pages/Products.tsx:102 | `filter` keeps exactly the elements satisfying the predicate and never lengthens the list |
| `Seqs.FilterIsSubsequence` | src/pages/Products.tsx:102 | `filter` keeps relative order and invents nothing |
| `Seqs.FilterIdempotent` | src/pages/Products.tsx:102 | filtering twice by the same predicate is filtering once |
| `Seqs.Find` | src/pages/Products.tsx:149 | `find` returns the first element satisfying the predicate, or nothing exactly when none does |
| `Text.Lower` | src/pages/Products.tsx:109 | lower-casing keeps the length and lowers each ASCII capital by 32 code points, leaving every other character alone |
| `Text.LowerIdempotent` | src/pages/Products.tsx:109 | lowered text has no upper-case ASCII letter, so lowering twice is lowering once |
| `Text.Trim` | src/pages/Products.tsx:114 | the trimmed text is a contiguous slice of the input that neither starts nor ends with white space, and everything before and after that slice is white space, so only leading and trailing white space is removed |
| `Text.TrimEmptyIffBlank` | src/pages/Products.tsx:114 | `trim()` is empty iff every character is ECMAScript white space or a line terminator |
| `Text.TrimEmptyUnderLower` | src/pages/Products.tsx:114-116 | lowering a term never changes whether it trims to empty |
| `Text.Includes` | src/pages/Products.tsx:116 | the empty needle is always found, and a needle longer than the haystack never is |
| `Text.IncludesIffOccurs` | src/pages/Products.tsx:116 | `includes` holds iff the needle occurs at some index of the haystack |
| `OrderStatus.StatusColor` | src/pages/OrderDetails.tsx:61-69 | delivered, processing, shipped and cancelled (any case) give success, warning, tertiary and danger; the medium default covers exactly pending and unrecognised text |
| `OrderStatus.StatusIcon` | src/pages/OrderDetails.tsx:72-80 | for every status text the icon is the one that goes with the badge colour (checkmark, hourglass, time, close, alert) |
| `OrderStatus.StatusIgnoresCase` | src/pages/OrderDetails.tsx:61-80 | texts equal up to ASCII case get the same colour, icon and lifecycle state |
| `OrderStatus.StepCompleted` | src/pages/OrderDetails.tsx:280-301 | step k is completed iff the status has reached step k in the order Pending < Processing < Shipped < Delivered |
| `OrderStatus.ProgressMonotone` | src/pages/OrderDetails.tsx:280-301 | a completed step implies every earlier step is completed |
| `OrderStatus.CompletedSteps` | src/pages/OrderDetails.tsx:280-301 | the completed steps are exactly the first n, for some n at most 4 |
| `OrderStatus.ProgressEnds` | src/pages/OrderDetails.tsx:280-301 | cancelled or unrecognised statuses complete no step; delivered completes all four |
| `Invoice.ComputeInvoice` | src/pages/OrderDetails.tsx:189-198 | delivery is 0 iff the subtotal is strictly above 500, else 40; GST is one twentieth of the subtotal; total is subtotal plus delivery plus GST |
| `Invoice.TotalBounds` | src/pages/OrderDetails.tsx:194-198 | for a non-negative subtotal s, s is at most the total, which is at most s*105/100 + 40 |
| `Invoice.DeliveryBoundary` | src/pages/OrderDetails.tsx:348 | a subtotal of exactly 500 still pays 40; 500.01 is free |
| `Invoice.InvoiceExamples` | src/pages/OrderDetails.tsx:356-360 | 400 gives 40 + 20 = 460; 600 gives 0 + 30 = 630 |
| `Invoice.TotalDropsAcrossThreshold` | src/pages/OrderDetails.tsx:356-360 | crossing 500 by less than 38 lowers the final total, so the total is not monotone |
| `Invoice.TotalMonotoneWithinBand` | src/pages/OrderDetails.tsx:356-360 | on one side of the threshold a larger subtotal never gives a smaller total |
| `Money.Fixed2` | src/pages/OrderDetails.tsx:108 | the two-decimal text is the decimal notation of the whole rupees (no leading zero), a dot, and two paise digits |
| `Money.WithRupee` | src/pages/OrderDetails.tsx:113 | the displayed price is the rupee sign followed by exactly the amount text |
| `Money.ParseDecimal` | src/pages/OrderDetails.tsx:181 | parsing plain decimal text yields a non-negative number, and the empty string yields NaN (`None`) |
| `Money.ReadAmount` | src/pages/OrderDetails.tsx:339 | reading a displayed amount yields a non-negative number or NaN; on text without a rupee sign it is plain parsing |
| `Money.NatToDecimalRoundTrip` | src/pages/OrderDetails.tsx:108 | reading back the decimal digits of a whole number gives that number |
| `Money.Fixed2RoundTrip` | src/pages/OrderDetails.tsx:108 | `parseFloat` of the two-decimal text of an amount in paise gives exactly that amount in rupees |
| `Money.RemoveFirst` | src/pages/OrderDetails.tsx:339 | `replace` with a one-character pattern removes only its first occurrence, and changes nothing when it is absent |
| `Money.StripRupeeRoundTrip` | src/pages/OrderDetails.tsx:339 | removing `₹` from `'₹' + amount` gives back the amount text when it has no `₹` |
| `Money.DisplayedAmountRoundTrip` | src/pages/OrderDetails.tsx:181 | a displayed `₹` amount, stripped and parsed, is the stored amount |
| `OrderDetails.LookupOrder` | src/pages/OrderDetails.tsx:102 | returns the first stored order whose order number or internal id equals the requested id; none iff no order matches |
| `OrderDetails.LookupIsFind` | src/pages/OrderDetails.tsx:102 | any result meeting the lookup's contract is exactly what `Array.prototype.find` with the same identifier test returns, so the lookup is `Seqs.Find` |
| `OrderDetails.FetchOrderDetails` | src/pages/OrderDetails.tsx:102-125 | shows the displayed record of the first matching order; with no match it navigates to `/orders` |
| `OrderDetails.FormatAddress` | src/pages/OrderDetails.tsx:115-117 | the displayed address is absent exactly when the order has no delivery address, and otherwise is the one-line text `FormatAddressLine` of the stored address |
| `OrderDetails.FormatAddressLine` | src/pages/OrderDetails.tsx:116 | the address starts with `line1, ` and ends with `city, state pincode`, and is two characters plus the second line longer exactly when the second line is present and non-empty |
| `OrderDetails.SecondLineInsertedOnlyWhenPresent` | src/pages/OrderDetails.tsx:116 | `line2, ` is spliced in after `line1, ` iff the second line is present and non-empty; otherwise the text equals the one without it |
| `OrderDetails.ToItemView` | src/pages/OrderDetails.tsx:110-114 | a displayed line keeps name and quantity, its price text is `₹` followed by the two-decimal text of the stored unit price, and that text parses back to the unit price |
| `OrderDetails.ToView` | src/pages/OrderDetails.tsx:105-121 | the displayed record shows the `orderNumber` as its id (even when the match was on `_id`), copies date, status, payment method and notes, takes the phone from the stored address when there is one, shows the stored address as `FormatAddress` gives it, has one displayed line per stored line, and has a total text that is `₹` followed by the two-decimal text of the stored total and parses back to it |
| `OrderDetails.LineSubtotal` | src/pages/OrderDetails.tsx:339 | the line subtotal is NaN exactly when the price text does not read as a number; it is non-negative for a non-negative quantity and equals the unit price for quantity 1 |
| `OrderDetails.LineSubtotalIsPriceTimesQuantity` | src/pages/OrderDetails.tsx:339 | a displayed line's subtotal is the stored unit price times the quantity |
| `OrderDetails.InvoiceOfView` | src/pages/OrderDetails.tsx:348-360 | the invoice is missing exactly when the displayed total does not read as a number; otherwise its subtotal is the read total and its final total is at least that |
| `OrderDetails.ViewInvoiceFromStoredTotal` | src/pages/OrderDetails.tsx:348-360 | the invoice read from the displayed total is the invoice of the stored subtotal; delivery is free iff it exceeds 50000 paise |
| `OrderDetails.InvoiceIgnoresItems` | src/pages/OrderDetails.tsx:189-198 | the invoice depends only on the stored subtotal, never on the item lines |

## Left out

- Rendering: all JSX, Ionic components, CSS classes, toasts and the loading spinner. These are presentation only.
- PDF export: the jsPDF layout (src/pages/OrderDetails.tsx:141-210) calls a foreign library. Only the figures it prints are modelled, through the same invoice functions as the table.
- Storage: `localStorage` and `JSON.parse` are I/O. The stored orders are a parameter.
- Fetching: `getProducts`, `getCategories` and the fetch-error state are asynchronous network I/O. The catalogue and the categories are parameters.
- Browser and routing: `history.push`, `pushState` and `useLocation` are left out. `handleCategorySelect` writes the URL and is left out too. `FetchOrderDetails` returns the navigation target instead of performing it.
- `URLSearchParams`: modelled as a map from key to its first value. Percent-decoding and repeated keys are left out.
- `formatDate`: it uses `Intl` and `toLocaleDateString`, which are locale machinery. The date is carried as text.
- Add-to-cart, the dropdown toggle, src/utils/platform.ts, src/pages/Menu.tsx and capacitor.config.ts: they hold no business logic.
- `Text.Lower`: models `toLowerCase` on ASCII letters only. Unicode case mapping is left out.
- `Money.ParseDecimal`: models `parseFloat` only on whole strings of the form digits or digits.digits. Signs, exponents, leading white space and prefix parsing of trailing garbage are left out; such text gives `None`, in place of NaN or a prefix value.
- `Invoice.ComputeInvoice`: states exact GST and totals. The `toFixed(2)` rounding of the displayed GST, line subtotals and final total, and IEEE floating point, are not modelled.
- `OrderDetails.InvoiceOfView`: an unparsable total gives `None`. How the page renders NaN is left out.
- Stored amounts are whole, non-negative numbers of paise. Prices with more than two decimals, or negative prices, are outside the model.
- `orderNumber` and `_id` are modelled as always-present strings. An order whose fields are missing is left out.
