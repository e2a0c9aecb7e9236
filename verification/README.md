# Buyflex storefront, modelled in Dafny

Buyflex is a single-page storefront for tech accessories. It has no backend. The
application component keeps everything in memory: the product list, the cart,
the wishlist, the users, the signed-in user and the orders. Small dialogs and
views work on that state.

This project models the decision logic of that state as immutable datatypes and
pure functions, and proves what each part promises:

- **the catalog**: the search and facet query, the category options and product lookup;
- **the cart and the wishlist**;
- **accounts**: sign-in and sign-up;
- **checkout and ordering**: the checkout dialog's money rules, address pre-fill and
  step machine, and placing an order;
- **the shop grid**: its incremental reveal window;
- **the page-number bar**;
- **the admin views**: the dashboard figures, the ten-per-page order table, the
  product editor dispatch and the role lock;
- **the aggregate star rating**;
- **the dialogs**: product authentication by serial number, order tracking, the
  product form, the chat assistant's message list, the sign-in dialog, and the
  meeting, warranty and newsletter forms.

Units and JavaScript semantics:

- Money is integer cents: the free-shipping threshold is 5000 and the fee is 500.
- A product's rating and the rating filter are in tenths of a star. A review's
  rating is in whole stars.
- `trim` and the regular-expression class `\s` use the ECMAScript white-space
  and line-terminator code points.
- `includes` is contiguous containment.
- `parseInt` of a digit string is its decimal value.
- Callbacks into the application become returned values: requests, effects and
  alerts.

The modules follow the source layout:

- `Types`: the records of `types.ts`.
- Shared helpers:
  - `Wrappers`: Option and Result.
  - `Seqs`: order-preserving filter and subsequences.
  - `Text`: string functions with JavaScript meaning.
- The application component:
  - `Catalog`: the product query, category options and product lookup.
  - `Cart`: the cart.
  - `Wishlist`: the wishlist.
  - `Accounts`: sign-in and sign-up.
  - `Ordering`: placing an order.
- One module per component:
  - `Checkout`, `Shop`, `Pagination`, `Admin`, `ProductForm`, `ProductAuth`,
    `TrackOrder`, `Chatbot`, `AuthModal`, `Booking`, `Warranty`, `Subscription`.
  - `Ratings`: the rating average in `data/products.ts`.
- `Integration`: how the pieces meet in `App.tsx`.

The model follows the code in these choices:

- The search query is not trimmed. A query of spaces is a search, not the facet mode.
- The sort selector never reorders the result.
- A new product list resets the shop window to 9 but does not cancel a load in
  flight. The pending step is still added when the delay ends.
- The category options come from the fixed product data, not the live product list.
- The page window is pulled back from the last page only when there are more
  than five pages. With exactly five pages and page 5 current, the bar reads
  1, an ellipsis, 3, 4, 5, and page 2 has no button (`Pagination.LastOfFivePages`).

## Model

| member | source | states |
|---|---|---|
| Catalog.Query | App.tsx:200-215 | With a non-empty query, a product is listed iff its lower-cased name or description contains the lower-cased query (ASCII folding). With an empty query, iff it passes the category, price-ceiling and rating-floor tests (the floor applies only when positive). The result is always an order-preserving subsequence of the product list. |
| Catalog.SearchIgnoresFacets | App.tsx:202-203 | With a non-empty query, neither the facets nor the sort key change the result. |
| Catalog.FacetStagesAreOneFilter | App.tsx:204-212 | The three filters applied one after another keep exactly what the single combined facet test keeps, in the same order. |
| Catalog.QueryMultiplicity | App.tsx:200-215 | Each matching product keeps its number of occurrences, and a non-matching one has none. |
| Catalog.UnconstrainedQueryListsAll | App.tsx:204-212 | With the "All" category, no rating floor and a ceiling above every price, the product list comes back unchanged. |
| Catalog.CategoryOptions | App.tsx:198 | The options start with "All", followed by each category once, with no duplicates, and nothing else. The categories appear in the order they are first seen in the product data. |
| Seqs.Distinct | App.tsx:198 | `Array.from(new Set(s))` holds each value of `s` once, nothing else, in the order the values are first seen. |
| Catalog.FindProduct | App.tsx:181 | The lookup fails iff no product has the id. Otherwise it returns the first product with that id. |
| Cart.AddToCart | App.tsx:87-96 | An existing line's quantity rises by the added amount and nothing else changes. An absent product is appended as one new line. Unique ids are preserved, and other products' quantities are unchanged. |
| Cart.UpdateQuantity | App.tsx:100-106 | A quantity of zero or less removes the lines for the id and keeps every other line, in order. A positive quantity keeps every line in its place with its product record, and sets the quantity of the id's lines only. |
| Cart.RemoveFromCart | App.tsx:108-110 | No line for the id remains. Every other line stays, in order. |
| Cart.BumpQuantity | App.tsx:91-93 | Under unique ids, the bumped product's total quantity rises by the delta and every other product's is unchanged. |
| Cart.SetQuantityQuantity | App.tsx:104 | Under unique ids, a present product's total quantity becomes the new value and every other product's is unchanged. |
| Cart.RemoveQuantity | App.tsx:109 | After removal the product's quantity is zero, and every other product's quantity is unchanged. |
| Cart.RemoveKeepsUnique | App.tsx:109 | Removal preserves unique ids. |
| Cart.RemoveUndoesAdd | App.tsx:87-110 | Removing a product right after adding it leaves the cart as removal alone would. |
| Wishlist.Toggle | App.tsx:112-122 | A present id is removed, keeping the rest in order. An absent id is appended. Other ids keep their membership, and a duplicate-free list stays duplicate-free. |
| Wishlist.ToggleTwiceFromAbsent | App.tsx:112-122 | Toggling an absent id twice gives back the very same list. |
| Wishlist.ToggleTwiceRestoresMembership | App.tsx:112-122 | Toggling any id twice restores which ids are on the list. |
| Accounts.Login | App.tsx:140-148 | Sign-in succeeds iff some user has exactly the email and password, and it yields the first such user. Otherwise the error is "Invalid email or password.". |
| Accounts.Register | App.tsx:151-165 | Sign-up fails with "An account with this email already exists." iff the email is on file. Otherwise a Customer with the given details and no address is appended and becomes the current user. |
| Accounts.LoginAppend | App.tsx:141 | Appending a user changes sign-in only for credentials that no earlier user accepts. |
| Accounts.LoginAfterRegister | App.tsx:140-165 | Right after signing up, signing in with the same email and password yields the new account. |
| Accounts.RegisterKeepsExistingLogins | App.tsx:140-165 | Signing up does not change the outcome for credentials an existing account accepts. |
| Checkout.Subtotal | components/CheckoutModal.tsx:108 | A one-line cart's subtotal is that line's price times quantity, and non-negative prices and quantities give a non-negative subtotal. |
| Checkout.SubtotalAppend | components/CheckoutModal.tsx:108 | The subtotal adds up over a split of the cart. |
| Checkout.SubtotalNonNegative | components/CheckoutModal.tsx:108 | Non-negative prices and quantities give a non-negative subtotal. |
| Checkout.ShippingFee | components/CheckoutModal.tsx:109 | The fee is 0 or 500 cents, and 0 iff the subtotal is at least 5000 cents. |
| Checkout.Total | components/CheckoutModal.tsx:110 | The total is the subtotal plus the fee, so never below the subtotal. It equals the subtotal exactly when shipping is free. |
| Checkout.SetField | components/CheckoutModal.tsx:104-106 | The named address field takes the value and the other six keep theirs. |
| Checkout.SetFieldLaws | components/CheckoutModal.tsx:104-106 | Writing a field's own value changes nothing, and a second write to the same field overrides the first. |
| Checkout.InitialAddress | components/CheckoutModal.tsx:93-101 | Each field is the saved address's non-empty value, else "". The full name falls back to the user's name before "". |
| Checkout.Open | components/CheckoutModal.tsx:92-102 | The dialog opens at the shipping step with the pre-filled address. |
| Checkout.Next | components/CheckoutModal.tsx:112-155 | Submitting the form moves to payment and "Back" returns to shipping. Only "Confirm & Pay" in the payment step hands on the current address. Without a user nothing changes. An edit in the shipping step sets that address field and nothing else. An edit in the payment step, and "Confirm & Pay" anywhere, leave the state as it is. |
| Ordering.OrderId | App.tsx:176 | The order number is "BFX-" and three digits that read back as the random draw plus 100. |
| Ordering.OrderTotal | App.tsx:182 | The order total equals the total the checkout summary shows. |
| Ordering.OrderItems | App.tsx:181 | There is one order line per cart line, with its quantity and the catalog product looked up by id. |
| Ordering.PlaceOrder | App.tsx:172-191 | Without a user nothing changes. Otherwise one Processing order is put in front of the existing ones and the cart is emptied. The order carries the user's id and name, the address and the checkout total. Its lines are the catalog lookups of the cart lines, its number is the one drawn, its date and delivery estimate are the clock's, and it has no carrier or tracking number. |
| Shop.Step | components/Shop.tsx:63-84 | A sighting starts a load only when none is pending and products remain hidden. The end of a load adds exactly 6 and clears the flag. A new list resets the count to 9. The count changes only by +6 or by the reset, and validity is preserved. |
| Shop.OneGrowthPerLoad | components/Shop.tsx:72-75 | A second load completion with no sighting in between changes nothing, so each load adds one step. |
| Shop.RunValid | components/Shop.tsx:63-84 | Any sequence of events keeps the count at 9 plus whole steps of 6. |
| Shop.GrowthBoundedByTriggers | components/Shop.tsx:67-75 | The window, plus any pending step, grows by at most one step per sentinel sighting. |
| Shop.WindowFromStart | components/Shop.tsx:63-84 | From the start, the count stays between 9 and 9 plus 6 per sighting. |
| Shop.Rendered | components/Shop.tsx:144 | The grid shows the first min(count, length) products, in order. |
| Shop.FooterFor | components/Shop.tsx:141-176 | An empty list shows the no-products notice. Otherwise the spinner shows iff loading, and the end notice shows iff the whole list is visible and nothing is loading. |
| Shop.EndIsQuiet | components/Shop.tsx:70 | Once the end notice shows, a sighting starts no load. |
| Pagination.PageWindow | components/Pagination.tsx:12-20 | The window starts at page 1 or later and ends at the last page or earlier. It is at most 5 pages wide, exactly 5 when there are more than 5 pages, and it holds the current page when that page is in range. For a page in range it starts two pages before the current one, clamped to page 1, and with more than 5 pages it starts no later than the fifth page from the end. It ends 4 pages after its start, clamped to the last page. |
| Pagination.Range | components/Pagination.tsx:23-25 | The page list is the contiguous ascending run from start to end. |
| Pagination.PageNumbers | components/Pagination.tsx:23-25 | The loop collects exactly that run. |
| Pagination.Render | components/Pagination.tsx:9-72 | Nothing is rendered iff there is at most one page. Otherwise the bar has the window's pages. The first-page shortcut shows iff the window starts after 1, with an ellipsis iff after 2, and likewise at the end. Previous is disabled iff on page 1, Next iff on the last page. |
| Pagination.Click | components/Pagination.tsx:29-69 | Previous asks for the page before the current one and Next for the page after, unless disabled. The first-page shortcut asks for page 1 iff the window starts after page 1, and the last-page shortcut asks for the last page iff the window ends before it. A page button asks for its own number iff the page is in the window, and for nothing otherwise. |
| Pagination.LastOfFivePages | components/Pagination.tsx:14-20 | With exactly five pages and the last one current, the bar shows 1, an ellipsis, then 3 to 5, and page 2 has no button. |
| Pagination.ClicksStayInRange | components/Pagination.tsx:29-69 | From a page in range, every click asks for a page in range. |
| Admin.TotalRevenue | components/AdminViews.tsx:30 | Revenue comes from delivered orders only: it is zero when none is delivered, and non-negative when totals are. |
| Admin.DashboardOfOne | components/AdminViews.tsx:30-33 | For one order, revenue is its total iff it was delivered and 0 otherwise, and it is one pending order iff Processing. For one product, it is one low-stock item iff fewer than 10 are in stock. |
| Admin.RevenueAppend | components/AdminViews.tsx:30 | Revenue adds up over a split of the order list. |
| Admin.PendingOrders | components/AdminViews.tsx:31 | The count is zero iff no order is Processing, and equals the number of orders iff all are. |
| Admin.LowStockItems | components/AdminViews.tsx:33 | The count is zero iff every product has at least 10 in stock, and covers every product iff all have fewer. |
| Admin.PendingAppend | components/AdminViews.tsx:31 | The pending count adds up over a split of the order list, so with the one-order case it is the number of Processing orders. |
| Admin.LowStockAppend | components/AdminViews.tsx:33 | The low-stock count adds up over a split of the product list, so with the one-product case it is the number of products with fewer than 10 in stock. |
| Admin.OpenModal | components/AdminViews.tsx:61-64 | Opening the editor shows the modal with the given product, or none for a new one. |
| Admin.TotalPages | components/AdminViews.tsx:112 | The page count is the fewest pages of ten that hold the orders. |
| Seqs.JsSlice | components/AdminViews.tsx:113 | For non-negative bounds the slice is the clamped run between them. |
| Text.Lower | App.tsx:203 | Lower-casing keeps the length, leaves no ASCII capital, shifts each ASCII capital to its small letter and keeps every other character. |
| Admin.OrdersPage | components/AdminViews.tsx:113 | Page p shows orders (p-1)·10 up to p·10, clamped: at most ten, at least one on an existing page, none past the last. |
| Admin.FirstPagesArePrefix | components/AdminViews.tsx:113 | The first k pages, read in turn, are the first min(10k, n) orders. |
| Admin.PagesPartitionOrders | components/AdminViews.tsx:111-113 | All pages, read in turn, are exactly the order list. |
| Admin.HandleSubmit | components/AdminViews.tsx:71-78 | Data carrying an id becomes an update and other data an add, and the modal closes either way. |
| Admin.EditUnchangedRequestsSameProduct | components/AdminViews.tsx:71-78 | Editing a product that has an image and saving it unchanged requests an update of that very product. |
| Admin.RoleChange | components/AdminViews.tsx:164-172 | A SuperAdmin's selector yields nothing. For everyone else it yields the chosen role, which is never SuperAdmin. |
| Ratings.AverageRatingTenths | data/products.ts:5-10 | The rating is 0 without approved reviews. Otherwise it is the approved mean in tenths, rounded half up. |
| Ratings.AverageWithinRatings | data/products.ts:8-9 | When approved ratings lie within [lo, hi] stars, the rating lies within [10·lo, 10·hi] tenths. |
| Ratings.NonCountingReviewIgnored | data/products.ts:6 | A pending, rejected or other-product review leaves the rating unchanged. |
| Ratings.ProductReviews | data/products.ts:21 | The product's review list has all of its reviews of every status, in order. |
| Ratings.RatingReadsApprovedOfListed | data/products.ts:6-21 | The rating reads exactly the approved reviews of the product's review list. |
| Ratings.SumRatingsBounds | data/products.ts:8 | Ratings within [lo, hi] sum to between n·lo and n·hi. |
| ProductAuth.SerialProductId | components/ProductAuthModal.tsx:32-36 | A serial names an id iff it has the whole-string format. |
| ProductAuth.SerialOfParts | components/ProductAuthModal.tsx:32-36 | Any prefix spelling "prod-" in any case, followed by digits, a hyphen and five letters or digits, names the id its digits spell. |
| ProductAuth.FormatSerial | components/ProductAuthModal.tsx:31-33 | A printed serial has the format. |
| ProductAuth.SerialRoundTrip | components/ProductAuthModal.tsx:32-36 | Reading a printed serial gives back its id. |
| ProductAuth.PaddedSerialSameProduct | components/ProductAuthModal.tsx:36 | Leading zeros in the id do not change the product. |
| ProductAuth.LowerCaseSerialSameProduct | components/ProductAuthModal.tsx:32 | A lower-cased serial names the same product. |
| ProductAuth.Check | components/ProductAuthModal.tsx:22-46 | An empty serial gets the empty-serial error and a malformed one the format error. A well-formed one is authentic iff a product has its id, and otherwise gets the not-associated error. An authentic result carries the first catalog product with that id. |
| ProductAuth.PrintedSerialIsAuthentic | components/ProductAuthModal.tsx:35-39 | The printed serial of a catalog product checks as authentic. |
| ProductAuth.TypeSerial | components/ProductAuthModal.tsx:74 | Typing sets the serial and keeps the shown result. |
| ProductAuth.CheckSerial | components/ProductAuthModal.tsx:22-46 | A check replaces any earlier result with its own. |
| ProductAuth.Close | components/ProductAuthModal.tsx:48-52 | Closing clears the serial and the result. |
| ProductAuth.ReportIssue | components/ProductAuthModal.tsx:113-117 | Reporting is offered only under an error result, and it passes on the typed serial. |
| ProductAuth.ReportOfferedIffNotAuthentic | components/ProductAuthModal.tsx:113-117 | After a check, reporting is offered iff the serial was not authenticated. |
| TrackOrder.NotFoundMessage | components/TrackOrderModal.tsx:36 | The not-found message contains the entered id. |
| TrackOrder.FindOrder | components/TrackOrderModal.tsx:32 | The lookup fails iff no order id matches ignoring case. Otherwise it returns the first match. |
| TrackOrder.Track | components/TrackOrderModal.tsx:23-38 | An empty id gets "Please enter an Order ID." and no order. Otherwise the order found is the first whose id matches ignoring case, with an empty error. If none matches, the error names the id. |
| TrackOrder.FindOrderRespectsSameId | components/TrackOrderModal.tsx:32 | Ids equal up to case find the same order. |
| TrackOrder.TrackIgnoresCase | components/TrackOrderModal.tsx:32 | Typing the id in lower case finds the same order. |
| TrackOrder.TypeId | components/TrackOrderModal.tsx:57 | Typing sets the id and keeps the shown order and error. |
| TrackOrder.Close | components/TrackOrderModal.tsx:40-45 | Closing clears the id, the result and the error. |
| ProductForm.Load | components/ProductForm.tsx:26-34 | An existing product is loaded whole, id included. Otherwise the form is blank: empty strings and zero price and stock. |
| ProductForm.Change | components/ProductForm.tsx:36-42 | A text edit sets the named field only. The kind of form, the id, the image, the price, the stock, the reviews, the manufacturing date and the rating are kept. |
| ProductForm.ChangeRestores | components/ProductForm.tsx:36-42 | Typing a field's old value back gives the original form, so an edit touches nothing but its field. |
| ProductForm.Slug | components/ProductForm.tsx:61 | The slug has no white space, is no longer than the name, and is empty iff the name is. |
| ProductForm.SlugOfPlainName | components/ProductForm.tsx:61 | A name without white space is its own slug. |
| ProductForm.SlugJoin | components/ProductForm.tsx:61 | One white-space run between words becomes exactly one hyphen. |
| ProductForm.SlugIdempotent | components/ProductForm.tsx:61 | Slugging a slug changes nothing. |
| ProductForm.PlaceholderUrl | components/ProductForm.tsx:61 | The placeholder address is the picsum seed prefix, the slug of the name and "/400/400". |
| ProductForm.Submit | components/ProductForm.tsx:57-66 | Data with an image goes out unchanged. Data without one gets the placeholder address. Putting the original image back gives the original data, so nothing but the image changes. |
| ProductForm.LoadThenSubmitIsIdentity | components/ProductForm.tsx:26-66 | Loading a product with an image and saving at once submits that product. |
| ProductForm.SubmitIdempotent | components/ProductForm.tsx:57-66 | Submitting submitted data again sends the same data. |
| Chatbot.Send | components/Chatbot.tsx:63-69 | A blank input or a pending answer changes nothing. Otherwise the user's raw line is appended, the box is cleared, loading is set and the line goes to the assistant. |
| Chatbot.Resolve | components/Chatbot.tsx:74-76 | Recommendations resolve to catalog products with recommended ids, never more than were recommended. |
| Chatbot.ResolveKnownIds | components/Chatbot.tsx:74-76 | Known ids resolve one product per id, in the recommended order. Each is the first catalog product with that id. |
| Chatbot.ResolveDropsUnknown | components/Chatbot.tsx:74-76 | An id without a product contributes nothing. |
| Chatbot.Receive | components/Chatbot.tsx:71-86 | Exactly one bot message is appended: the reply with its products, or the apology. Loading ends either way. |
| Chatbot.ExchangeAddsTwoMessages | components/Chatbot.tsx:50-86 | A full exchange adds the user's line and one answer, and leaves the chat idle. |
| AuthModal.Fresh | components/AuthModal.tsx:14-19 | The dialog starts in the given mode with empty fields, no error and not busy. |
| AuthModal.Toggle | components/AuthModal.tsx:53-56 | Toggling switches the mode and clears the error, keeping the fields. |
| AuthModal.ToggleTwice | components/AuthModal.tsx:53-56 | Toggling twice restores the mode. |
| AuthModal.Submit | components/AuthModal.tsx:36-45 | Submitting clears the error and sets busy. Login mode sends the email and password, and register mode also sends the name. |
| AuthModal.Finish | components/AuthModal.tsx:46-50 | Busy ends. A thrown message is shown, and an empty one shows "An unexpected error occurred.". |
| AuthModal.Close | components/AuthModal.tsx:26-34 | Closing clears the fields, the error and the busy flag. |
| AuthModal.Reopen | components/AuthModal.tsx:21-24 | Reopening sets the initial mode and clears the error. |
| AuthModal.SubmitAgainst | components/AuthModal.tsx:36-51 | Against the account rules, sign-in succeeds iff a user has that email and password, otherwise the invalid-credentials message is shown. Sign-up fails iff the email is taken, with its message. |
| AuthModal.NoPasswordNoSignIn | components/AuthModal.tsx:42 | An account stored without a password cannot sign in through the dialog, which always sends one. |
| Booking.Submit | components/BookingModal.tsx:33-40 | The request is emitted iff all five fields are non-empty, and then it is exactly those fields. Otherwise "Please fill out all fields." is alerted. |
| Booking.ClearedFieldBlocks | components/BookingModal.tsx:35-38 | Clearing any one field blocks the submit. |
| Booking.OnOpenChange | components/BookingModal.tsx:19-30 | Closing clears all five fields. Opening with a topic sets only the topic, and opening without one changes nothing. |
| Booking.ReopenWithTopic | components/BookingModal.tsx:19-30 | Closing and reopening with a topic leaves only the topic filled in. |
| Warranty.ChooseFiles | components/WarrantyClaimForm.tsx:14-20 | The file name is the first chosen file's name, or "" when none is chosen. |
| Warranty.Submit | components/WarrantyClaimForm.tsx:22-29 | The claim is emitted iff product, date and description are non-empty, with the file name as it is. Otherwise "Please fill out all required fields." is alerted. |
| Warranty.AttachmentOptional | components/WarrantyClaimForm.tsx:14-29 | An attachment never decides whether the claim goes out. |
| Subscription.Submit | components/Subscription.tsx:8-16 | A non-empty email is handed on exactly and the box cleared. An empty one does nothing. |
| Subscription.NoDoubleSubscribe | components/Subscription.tsx:10-16 | A second submit right after a successful one hands on nothing. |
| Integration.CheckoutPlacesOrderAtInitialAddress | components/CheckoutModal.tsx:93-120 | Submitting and then confirming without edits places the order at the pre-filled address. |
| Integration.PlacedOrderIsTrackable | App.tsx:172-191 | The order just placed is found by tracking its number, as issued or in lower case. |
| Integration.PlacingOrderUpdatesDashboard | components/AdminViews.tsx:30-31 | A new order adds one pending order and leaves revenue unchanged. |
| Integration.IssueTopic | App.tsx:306 | The reported-issue topic is non-empty and contains the serial. |
| Integration.ReportOpensBookingOnSerial | App.tsx:306 | After a report, the meeting dialog opens with the serial in its topic, and only the other four fields gate the request. |

## Left out

- Sorting and search debounce: neither exists in the code. The sort key is a parameter the query ignores.
- The external generative-AI service is not part of this model. Its answer is an input to `Chatbot.Receive` (a reply with text and ids, or a failure), and the prompt and the JSON parsing are left out.
- Clock and randomness:
  - Ids and dates from the clock are parameters: the new user's id and creation time, and the order's date and delivery estimate.
  - The order number's random draw is a parameter in [0, 900).
- The "new users in the last 30 days" figure and the warranty-expiry display depend on the current date and are left out.
- Timers:
  - The 500 ms reveal delay is the `LoadComplete` event.
  - A stale timer firing after a list change is not modelled separately.
  - The toast timeout and the carousels are presentation.
- Floating point:
  - Prices are integer cents, not JavaScript numbers.
  - The star display rounding is presentation.
- Numeric inputs of the product form (`parseFloat(value) || 0`) are not modelled. Only the text inputs are.
- The product form's image upload (`FileReader`) is a browser API and is not modelled. Only the empty-image placeholder rule is.
- Browser `required` validation is not modelled. The handlers' own checks are.
- Other browser wiring is not modelled:
  - `IntersectionObserver` (its firing is the `SentinelVisible` event);
  - `alert` (an `Alert` value);
  - `scrollIntoView`.
- The admin mutation handlers are empty in the application. Product add and update, order status, and role changes are modelled as the requests the views emit, never as effects on the state.
- Rendering-only components are not modelled: header, footer, cards, quick view, detail, cart and wishlist drawers, profile, the admin view switch, and the inbox placeholder.
- The checkout dialog calls its hooks after an early return. A dialog reopened after being closed therefore depends on React's hook bookkeeping. The model starts every opening from `Checkout.Open`.
- Ratings.AverageRatingTenths: `toFixed(1)` is modelled as exact rounding half up. JavaScript rounds the binary double nearest the mean, so a mean on a hundredths tie can round down. For example, 20 approved ratings summing to 87 (mean 4.35, stored just below it) give 4.3 in the application and 44 tenths in the model, and a sum of 81 gives 4.0 against 41 tenths.
- Text.Lower: folds only the ASCII letters A-Z. JavaScript's `toLowerCase` applies the full Unicode case mapping, for example KELVIN SIGN (U+212A) to "k" and "É" to "é".
- Catalog.Query: the search compares ASCII-folded strings (`Text.Lower`). A query or a name with non-ASCII capitals, such as "\u212A" against a name containing "k", matches in the application but not in the model.
- TrackOrder.FindOrder: the case-insensitive id comparison folds only ASCII letters, so ids that differ in non-ASCII capitals match in the application but not in the model.
- TrackOrder.Track: inherits the ASCII-only folding of `TrackOrder.FindOrder`.
- ProductAuth.SerialProductId: reads the digit group as an exact integer. `parseInt` loses precision on digit groups past 2^53, and that rounding is not modelled.

