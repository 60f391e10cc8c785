# Masterpiece Shawarma storefront — a Dafny model of its core

This project models the decision logic of a food-ordering storefront. The
storefront is a React single-page app on Firebase with Paystack payments.
The model covers:

- the server-side payment verifier, a chain of checks that ends in one of eight result codes;
- the cart, with its grouped view, totals, quantity buttons and promo codes;
- the checkout form's validation and the order draft it builds;
- the order service, on an abstract map store;
- the payment widget helpers;
- menu loading, the category tabs and the search filter;
- the bulk menu upload;
- the reviews carousel;
- the Firebase configuration helpers.

Firestore, axios, Paystack, the clock and `Math.random()` do not appear as
code. Each becomes an input: the documents a query returned, the outcome of
each write, the provider's reply, a clock reading, a random draw.

Every module is a set of pure functions over immutable datatypes, with one
exception: `MenuService.InitializeMenu` is a method with a loop. Money has
three representations:

- cart prices are integer naira;
- promo rates and order amounts are exact reals;
- provider amounts are a JavaScript number, either finite or NaN, so that the
  NaN behaviour of the verifier's comparison can be stated.

Modules:

| module | file | models |
|---|---|---|
| `Results`, `Js`, `Seqs`, `Text`, `Decimal` | `results.dfy`, `js.dfy`, `seqs.dfy`, `text.dfy`, `decimal.dfy` | option/result types; JavaScript truthiness, NaN, `Math.round`/`floor`; `filter`, `findIndex`, `new Set`, `reduce`; `trim`, ASCII `toLowerCase`/`toUpperCase`, `includes`; `Number#toString` and `slice(-k)` |
| `Verification` | `verification.dfy` | `functions/index.js` `verifyPaystackPayment` |
| `Cart` | `cart.dfy` | `src/pages/Cart.jsx` |
| `Checkout` | `checkout.dfy` | `src/pages/Checkout.jsx` |
| `Orders` | `orders.dfy` | `src/services/orderService.js` |
| `Payment` | `payment.dfy` | `src/services/paymentService.js` and `src/config/paystackConfig.js` |
| `MenuService`, `MenuPage` | `menu_service.dfy`, `menu_page.dfy` | `src/services/menuService.js`, `src/pages/Menu-Firebase.jsx` |
| `Reviews` | `reviews.dfy` | `src/components/Review.jsx` |
| `FirebaseConfig` | `firebase_config.dfy` | `src/config/firebase.js` |

Notes on behaviour a reader might expect but the code does not have:

- `createOrder` performs no duplicate-reference check and never writes a `payment` field, so `Orders.CreateOrder` stores any draft under a fresh id. The only duplicate check is the verifier's lookup, modelled as an input.
- The doc comment of `initializePaystackPayment` says the amount is in kobo. The code multiplies it by 100, so the model treats it as naira.

## Model

| member | source | states |
|---|---|---|
| Verification.Verify | functions/index.js:36-192 | Verified exactly when every check passes. A verified result then has a positive numeric request amount, a configured key, a numeric provider amount within 0.01 naira of the request, no prior order with the reference, and the payload amount equal to kobo/100. The whole payload is the provider transaction's success payload: reference, status, paid-at time, customer email and id, and authorization copied from it. Each rejection carries its code's fixed message. PAYMENT_NOT_SUCCESS echoes the provider status. VERIFICATION_ERROR carries the generic text. |
| Verification.VerifyAsWritten | functions/index.js:114-128 | The chain exactly as written. Verified iff every check passes, where a NaN amount passes reconciliation because `Math.abs(NaN) > 0.01` is false. A verified result carries the provider transaction's success payload. |
| Verification.ChainFollowsCheckOrder | functions/index.js:45-145 | A rejection reports the code of the first failing check in the fixed order: input, amount, key, provider call, envelope, status, reconciliation, duplicate lookup. |
| Verification.FailingCheck | functions/index.js:45-191 | For every rejected input there is a first failing check, and the reported code is that check's code. |
| Verification.VerifyFollowsCheckOrder | functions/index.js:45-145 | The corrected verifier also reports the first failing check's code. |
| Verification.SuccessPayload | functions/index.js:157-177 | The payload copies reference, status, paid-at time and the authorization object. Its amount is the provider's kobo divided by 100. With a customer it carries that customer's email and id; without one, neither. |
| Verification.FalsyInputIsInvalidInput | functions/index.js:45-52 | A missing reference or a falsy amount (0, NaN, "", undefined) gives INVALID_INPUT, never INVALID_AMOUNT. |
| Verification.BadAmountIsInvalidAmount | functions/index.js:55-62 | A truthy amount that is not a positive number gives INVALID_AMOUNT. |
| Verification.NoKeyNeverReachesProvider | functions/index.js:64-72 | Without a secret key the result is SERVICE_ERROR, whatever the provider and the order store would have answered. |
| Verification.NotSuccessEchoesStatus | functions/index.js:100-110 | A non-"success" transaction is PAYMENT_NOT_SUCCESS, and the message names the status. |
| Verification.MismatchIsRejected | functions/index.js:114-128 | A provider amount more than 0.01 naira from the request is AMOUNT_MISMATCH, never verified. |
| Verification.ReplayIsRejected | functions/index.js:131-145 | A payment that verified is refused as DUPLICATE_PAYMENT once an order carries its reference. |
| Verification.ExampleVerifies | functions/index.js:114-177 | 150000 kobo against an expected 1500 naira verifies, with payload amount 1500. |
| Verification.AsWrittenAcceptsMissingAmount | functions/index.js:114-116 | As written, a successful transaction with no numeric amount is verified with amount NaN. The corrected verifier rejects the same input as AMOUNT_MISMATCH. |
| Verification.VerifiersAgreeOnNumericAmounts | functions/index.js:114-128 | The two verifiers differ only when the provider amount is not a number. |
| Cart.Group | src/pages/Cart.jsx:22-32 | The grouped view has one line per distinct id. Each line carries the first unit added with that id and a quantity equal to that id's count in the flat cart. Every unit has a line. The quantities sum to the cart's length. |
| Cart.IndexOfId | src/pages/Cart.jsx:51 | The position of the first unit with the id, or -1 exactly when no unit has it. |
| Cart.CountPositive | src/pages/Cart.jsx:22-32 | An id has a positive count exactly when a unit with it is in the cart. |
| Cart.CountAppend | src/pages/Cart.jsx:44-47 | Appending a unit adds one to its own id's count and changes no other count. |
| Cart.CountRemoveAt | src/pages/Cart.jsx:50-56 | Deleting one unit takes one off its id's count, changes no other count, and takes its price off the subtotal. |
| Cart.LinesAddUpToSubtotal | src/pages/Cart.jsx:22-37 | When units with one id share a price, the line totals (price × quantity) of the grouped view add up to the subtotal over the flat cart. |
| Cart.Increase | src/pages/Cart.jsx:44-47 | The plus button appends one more copy of the first unit with that id and keeps the existing cart as a prefix. That id's count rises by one, other counts are unchanged, and the subtotal rises by the unit's price. |
| Cart.Decrease | src/pages/Cart.jsx:50-56 | The minus button removes the first unit with the id: the units before it stay as they were and the units after it move up one place, so the result is a subsequence of the cart. Length and count fall by one, the subtotal falls by its price, other counts are unchanged. An absent id leaves the cart unchanged. |
| Cart.UpdateQuantity | src/pages/Cart.jsx:43-57 | A positive change appends one copy of the first item with the id, raising the subtotal by its price. Any other change removes the first item with the id when present, keeping the rest in order and lowering the subtotal by its price, and leaves the cart unchanged when absent. No other id's count moves. |
| Cart.IncreaseThenDecrease | src/pages/Cart.jsx:43-57 | Plus followed by minus restores every count and the subtotal. |
| Cart.RemoveItem | src/pages/Cart.jsx:60-62 | Removing an item leaves no unit of it. Every other count is unchanged, the length falls by its count, and the rest keep their relative order. |
| Cart.RemovedItemHasNoLine | src/pages/Cart.jsx:60-62 | After removal the grouped view has no line for the item and still has a line for every other item that was in the cart. |
| Cart.LookupPromo | src/pages/Cart.jsx:65-67 | A code is accepted exactly when its upper-cased form is one of the four codes, and the rate it gives is that code's entry in the table. Every accepted rate is a proper fraction. |
| Cart.ApplyPromoCode | src/pages/Cart.jsx:65-74 | An invalid code leaves the rate as it was. A valid code sets the rate to the table entry of its upper-cased form. |
| Cart.PromoIgnoresCase | src/pages/Cart.jsx:66 | Typing a code in lower case is the same as typing it in capitals. |
| Cart.PromoIdempotent | src/pages/Cart.jsx:65-74 | Applying the same code twice is applying it once; codes do not stack. |
| Cart.FriyayInLowerCase | src/pages/Cart.jsx:65-74 | "friyay" gives 20% off; an unknown code is rejected. |
| Cart.Summarize | src/pages/Cart.jsx:34-40 | The summary's lines group the cart. Its subtotal is the flat cart's sum. The fee is 500 exactly when the subtotal is positive. The total is subtotal − discount + fee. |
| Cart.TotalsAreBounded | src/pages/Cart.jsx:37-40 | With non-negative prices and a rate in [0, 1], the discount lies between 0 and the subtotal, and the total lies between the fee and subtotal + fee. |
| Cart.HandleCheckout | src/pages/Cart.jsx:77-91 | Checkout from an empty cart produces no order data. Otherwise the page hands on exactly the cart's summary: its grouped lines, the subtotal, the fee, the discount and the total that `Cart.Summarize` specifies. The summary has at least one line, and its quantities add up to the cart's length. |
| Cart.TwoOfOneAndOneOfAnother | src/pages/Cart.jsx:22-40 | Two units of a 1125 item and one of a 650 item: subtotal 2900, fee 500, total 3400. |
| Cart.ArrayIndexKeys | src/data/menuData.js:7 | Numeric ids such as 1 and 42 are array-index keys, so `Object.values` orders their lines numerically; "01", a name and "" are not. |
| Cart.TwoOfOneAndOneOfAnotherLines | src/pages/Cart.jsx:22-32 | The same cart of two distinct items, neither id an array-index key, shows two lines in insertion order: the first item with quantity 2, then the second with quantity 1. |
| Cart.FriyayOnTwoThousand | src/pages/Cart.jsx:37-40 | FRIYAY on a 2000 subtotal takes 400 off, so the total is 2100. |
| Checkout.HandleInputChange | src/pages/Checkout.jsx:38-51 | Typing sets only that field. It blanks only that field's error and keeps every other error. |
| Checkout.Validate | src/pages/Checkout.jsx:54-78 | Name is in error iff blank after trimming. Phone is in error iff blank or not matching `^[\d\s+()-]+$`, reported as missing when blank. Street and area are in error only for delivery, when blank or empty. Each error has its fixed message. |
| Checkout.ValidIffAcceptable | src/pages/Checkout.jsx:54-78 | The form validates exactly when it meets the field-by-field acceptance predicate. |
| Checkout.BlankPhoneIsRequired | src/pages/Checkout.jsx:61-65 | A blank or all-whitespace phone is reported as required, never as malformed: the emptiness test comes before the pattern test. |
| Checkout.LetterInPhoneIsInvalid | src/pages/Checkout.jsx:61-65 | A phone with a letter in it is reported as malformed, not missing. |
| Checkout.PickupIgnoresAddress | src/pages/Checkout.jsx:67-74 | For pickup, street and area never affect validation. |
| Checkout.PaymentStatusFor | src/pages/Checkout.jsx:108 | Cash starts "pending"; every other method starts "awaiting". |
| Checkout.DraftAsWritten | src/pages/Checkout.jsx:95-110 | As written, the draft's total is the cart's total whatever the order type. |
| Checkout.Draft | src/pages/Checkout.jsx:95-110 | The address is present exactly for delivery. The fee is the cart's fee for delivery and 0 for pickup. The payment status follows the method. The corrected draft differs from the as-written draft in the total alone. |
| Checkout.PlaceOrderAsWritten | src/pages/Checkout.jsx:81-110 | An invalid form stops submission before any draft is built. A valid one yields the as-written draft. |
| Checkout.PlaceOrder | src/pages/Checkout.jsx:81-110 | A draft is produced exactly when the form is acceptable, and it is the corrected draft. |
| Checkout.PickupTotalKeepsFeeAsWritten | src/pages/Checkout.jsx:104-106 | As written, a pickup order for one 2000 item is stored with total 2500, subtotal 2000 and fee 0, so its total does not add up. |
| Checkout.DraftAddsUp | src/pages/Checkout.jsx:99-106 | With the correction, a cart summary whose money adds up gives a stored order whose money adds up, for delivery and for pickup. |
| Checkout.PlacedOrderAddsUp | src/pages/Checkout.jsx:81-110 | Every order placed from any cart with an acceptable form is stored with total = subtotal − discount + fee. |
| Checkout.PlacedOrderIsStored | src/pages/Checkout.jsx:95-110 | End to end, a placed order is stored with these fields: status "pending"; payment status "pending" iff cash; the chosen method and type; the cart's lines and subtotal; an address exactly for delivery. |
| Orders.OrderNumber | src/services/orderService.js:35 | The order number is "MP" followed by digits whose value is the timestamp mod 10^8. It is 10 characters long once the timestamp has 8 digits. |
| Orders.NearbyOrderNumbersDiffer | src/services/orderService.js:35 | Orders created less than 10^8 ms apart get different numbers. |
| Orders.OrderNumbersRepeat | src/services/orderService.js:35 | Orders created exactly 10^8 ms apart get the same number, so numbers are not unique. |
| Orders.StringOr | src/services/orderService.js:38-54 | A present, non-empty string is kept; an absent or empty one takes the default. |
| Orders.MoneyOrZero | src/services/orderService.js:44-47 | A finite amount is kept; absent or NaN becomes 0. |
| Orders.BuildOrder | src/services/orderService.js:36-54 | Every missing or falsy draft field takes its default: items [], customer {}, type "delivery", money 0, method "cash", payment status "pending", notes "". The status is always "pending". The number and timestamps come from the clock readings. |
| Orders.CreateOrder | src/services/orderService.js:30-67 | When the store accepts the write, it gains exactly the new id, mapped to the built document, and the caller gets back that id and exactly the stored fields. When the store rejects the write, the error is rethrown and the store is unchanged. |
| Orders.CreateKeepsOthers | src/services/orderService.js:30-67 | Creating an order adds one key and leaves every existing order as it was. |
| Orders.RebuildIsIdentity | src/services/orderService.js:38-54 | Defaulting is idempotent: rebuilding an order from its own fields gives it back. |
| Orders.StatusAlwaysStartsPending | src/services/orderService.js:50 | A created order is found, with status "pending", whatever status the draft asked for. |
| Orders.GetOrder | src/services/orderService.js:78-95 | Found exactly when the id is in the store, as the id plus the stored fields. Otherwise the error is "Order not found". |
| Orders.RejectedCreateStoresNothing | src/services/orderService.js:57-66 | After a rejected write the caller gets the store's error and every lookup answers as before: no partial order appears. |
| Orders.CreatedOrderIsFound | src/services/orderService.js:30-95 | An order just created is found under the id it was returned with. |
| Orders.GetOrderByNumber | src/services/orderService.js:102-121 | "Order not found" exactly when no document has the number. Otherwise the result is the first document in query order with that number. |
| Orders.UpdateOrder | src/services/orderService.js:293-304 | An absent id is an error. Otherwise the keys are kept, other orders are untouched, and the order becomes the old order merged with the patch, with `updatedAt` set to the clock reading. |
| Orders.UpdateMergesPatch | src/services/orderService.js:293-304 | Field by field, the updated order holds the patched value when the patch names that field and the old value when it does not; `updatedAt` is the clock reading. |
| Orders.UpdateOrderStatus | src/services/orderService.js:255-266 | Only the status and `updatedAt` of that order change; nothing else in the store does. |
| Orders.UpdatePaymentStatus | src/services/orderService.js:274-285 | Only the payment status and `updatedAt` of that order change; nothing else in the store does. |
| Orders.StatusUpdatesArePatches | src/services/orderService.js:255-304 | The two single-field updates are `updateOrder` with a one-field patch. |
| Orders.ClockOverridesPatchedTime | src/services/orderService.js:296-299 | An `updatedAt` in the patch has no effect: the clock wins. |
| Orders.EmptyPatchOnlyStamps | src/services/orderService.js:293-304 | An empty patch only re-stamps `updatedAt`. |
| Orders.TodaysStats | src/services/orderService.js:314-333 | The stats give the day's order count, revenue as the sum of totals, and the pending and delivered counts, whose sum never exceeds the total. Revenue and average are 0 when there are no orders. |
| Orders.AverageScalesBack | src/services/orderService.js:323-325 | On a non-empty day the average order value times the number of orders is the revenue. |
| Orders.RevenueBounds | src/services/orderService.js:320 | Revenue lies between count × smallest total and count × largest total. |
| Orders.AverageWithinRange | src/services/orderService.js:323-325 | The average order value lies between the smallest and the largest order total. |
| Payment.InitializePayment | src/services/paymentService.js:12-64 | Nothing is set up without the widget script. Otherwise: the kobo amount is within half a kobo of amount × 100; a given non-empty reference is used as is; else a fresh reference reads back as prefix "MP", the clock reading and the random part; key, currency and channels come from the configuration. |
| Payment.RandomPart | src/services/paymentService.js:74 | The random part is the floor of draw × 10^6, so it is in [0, 1000000). |
| Payment.GenerateReference | src/services/paymentService.js:72-76 | The reference starts with the prefix and a dash. |
| Payment.ParseGenerated | src/services/paymentService.js:72-76 | A generated reference reads back as exactly its prefix, timestamp and random part. |
| Payment.DistinctDrawsGiveDistinctReferences | src/services/paymentService.js:72-76 | References with the same prefix differ whenever their timestamps or random parts do. |
| Payment.WholeNairaIsExact | src/services/paymentService.js:30 | A whole-naira amount is charged as exactly 100 × naira kobo. |
| Payment.ChargedAmountReconciles | src/services/paymentService.js:30 | The kobo charged for any amount, divided by 100 on the server, passes the verifier's 0.01-naira reconciliation (`Verification.Mismatch`). |
| Payment.Dispatch | src/services/paymentService.js:43-59 | A success event calls only `onSuccess`, with the response; a close calls only `onClose`. Each is called only when supplied, at most once per event. |
| Payment.OneSuccessCallPerPayment | src/services/paymentService.js:43-50 | Over any run of widget events, `onSuccess` runs once per successful payment when supplied, and never otherwise. |
| MenuService.ToItem | src/services/menuService.js:88-91 | The item's id is the data's own id when it has one, else the document id; every other field is the data's. |
| MenuService.AvailableMenuItems | src/services/menuService.js:78-100 | The result keeps exactly the documents not marked `available: false`, so a missing field counts as available. Query order is kept. |
| MenuService.UnmarkedItemsAreAvailable | src/services/menuService.js:86-87 | Documents that never mention availability are all kept. |
| MenuService.InitializeMenu | src/services/menuService.js:240-293 | The input is rejected in this order: null/undefined, then non-array, then empty, each with its own message and no upload attempted. Otherwise every item is attempted, and the result is the ids of the successful uploads in input order, no more than the items. |
| MenuService.FailureDoesNotAbort | src/services/menuService.js:267-282 | A failed upload does not stop later ones; their ids are still returned. |
| MenuPage.LoadMenu | src/pages/Menu-Firebase.jsx:23-54 | The init button shows exactly when the query failed or returned no available items, and then the bundled menu is used. Otherwise the available store items are used. The error is set exactly on failure. Loading always ends. |
| MenuPage.StoredMenuIsAvailable | src/pages/Menu-Firebase.jsx:30-39 | Items shown from the store are never ones marked unavailable. |
| MenuPage.AllUnavailableFallsBack | src/pages/Menu-Firebase.jsx:30-35 | A store whose every item is unavailable behaves like an empty store. |
| MenuPage.Categories | src/pages/Menu-Firebase.jsx:77 | The tabs are "all" followed by every item's category, each once, and nothing else, in the order each category first appears in the menu. |
| MenuPage.TabsAreDistinct | src/pages/Menu-Firebase.jsx:77 | No tab repeats unless some item's own category is "all". |
| MenuPage.FilteredMenu | src/pages/Menu-Firebase.jsx:80-85 | An item is shown iff it is in the selected tab and matches the search. The shown items keep menu order. |
| MenuPage.ResetShowsWholeMenu | src/pages/Menu-Firebase.jsx:273-276 | After a reset the whole menu is shown, in order. |
| MenuPage.SearchIgnoresCase | src/pages/Menu-Firebase.jsx:82-83 | The search result does not depend on the case of the typed text. |
| MenuPage.TabNarrowsAll | src/pages/Menu-Firebase.jsx:80-85 | A tab shows the subset of the "all" view it selects, never more. |
| MenuPage.EmptySearchShowsCategory | src/pages/Menu-Firebase.jsx:81-83 | With no search text, an item is shown exactly when it is in the tab. |
| Reviews.Next | src/components/Review.jsx:87-89 | The next index stays in range and wraps from the last review to the first. |
| Reviews.Prev | src/components/Review.jsx:82-84 | The previous index stays in range and wraps from the first review to the last. |
| Reviews.ArrowsAreInverse | src/components/Review.jsx:82-89 | prev undoes next and next undoes prev. |
| Reviews.RotateIsOffset | src/components/Review.jsx:73-79 | After k timer ticks the index has moved k places round the ring. |
| Reviews.FullRoundReturns | src/components/Review.jsx:73-79 | A full round of n ticks comes back to the starting review. |
| Reviews.CardRole | src/components/Review.jsx:146-152 | A card is active, prev or next exactly when it is the current, previous or next review. |
| Reviews.RolesAreDistinct | src/components/Review.jsx:146-152 | With three or more reviews no card plays two roles, and the previous and next cards exist. |
| Reviews.TwoReviewsShareNeighbour | src/components/Review.jsx:146-152 | With two reviews the other card is both "prev" and "next". |
| Reviews.DotActive | src/components/Review.jsx:205 | A dot is highlighted exactly when its card is active. |
| Reviews.ClickDot | src/components/Review.jsx:206 | Clicking dot k shows review k, and k's dot alone is highlighted. |
| Reviews.AverageRating | src/components/Review.jsx:92 | The average times the count is the sum of the ratings. |
| Reviews.AverageBetween | src/components/Review.jsx:92 | The average lies between the lowest and the highest rating. |
| Reviews.ShippedAverage | src/components/Review.jsx:9-70 | The six shipped reviews average 29/6, which lies in [4.75, 4.85). |
| FirebaseConfig.IsConfigured | src/config/firebase.js:47-49 | Configured exactly when the API key, the project id and the auth domain are all set and non-empty. |
| FirebaseConfig.OptionalSettingsIgnored | src/config/firebase.js:47-49 | The storage bucket, sender id and app id never affect the check. |
| FirebaseConfig.ErrorMessage | src/config/firebase.js:54-69 | Each of the five known codes gets its fixed text whatever the error's own message. Any other error shows its own non-empty message, else "An unexpected error occurred.". The text is never empty. |
| FirebaseConfig.FixedTextsIdentifyTheirCode | src/config/firebase.js:55-65 | The five fixed texts are pairwise different and differ from the generic one. |
| FirebaseConfig.UnknownCodeFallsBack | src/config/firebase.js:66-67 | An unknown or missing code falls back to the error's message, or to the generic text. |
| Text.Trim | src/pages/Checkout.jsx:57 | Trimming gives the empty string exactly when the text is all JavaScript whitespace. |
| Seqs.Dedup | src/pages/Menu-Firebase.jsx:77 | `new Set` keeps each element once, with the same elements, in order of first appearance. |

## Left out

- Firestore, axios and the Paystack widget are not executed. Each call's result is an input: the documents, the upload outcomes, the provider reply, the duplicate lookup, a flag for whether the widget script loaded.
- Exceptions thrown inside the verifier's `try` are modelled as two input cases: the provider call failing and the duplicate lookup failing. Both give VERIFICATION_ERROR.
- `Date.now()`, `Timestamp.now()` and `Math.random()` are parameters. `createOrder` reads `Timestamp.now()` twice; the two readings are separate parameters.
- IEEE floating point is not modelled; numbers are exact reals. This leaves out `toFixed(1)` on the average rating, `toFixed`/`toLocaleString` in the page markup, and `formatAmount` (`Intl.NumberFormat`). Infinity is not a value of the model's numbers.
- `verifyPayment` in the payment service is left out: it only forwards a `fetch` to a backend URL and rethrows.
- The order queries `getAllOrders`, `getOrdersByStatus`, `getOrdersByCustomerPhone` and `getTodaysOrders` are left out. Their behaviour is Firestore ordering, limits and the local-midnight cutoff. `Orders.TodaysStats` takes the day's orders as input.
- The checkout `payment` object, `metadata` and the widget's response object are passed through unread and are not modelled.
- Cart.Group: keeps lines in first-appearance order. `Object.values` lists array-index keys (canonical numerals such as "1", "2", …; see `Cart.IsArrayIndexKey`) first, in ascending numeric order, and only then the other keys in insertion order. The bundled menu items and the stored ones both carry numeric ids, so in the source the cart lines, and the `items` array the checkout stores with the order, are usually sorted by id, not by first appearance. The model's line order, and with it `Cart.Summarize`, `Checkout.Draft` and the stored `items`, agree with the source only when no id is an array-index key; `Cart.TwoOfOneAndOneOfAnotherLines` states its order under that condition.
- Orders.UpdateOrder: an absent id gives the model's "Order not found". Firestore's `updateDoc` raises its own not-found error, which the service logs and rethrows; its text is not modelled, and neither is a write the store rejects for any other reason.
- Orders.UpdateOrder: `updateOrder` spreads whatever `updates` object it is given. `Orders.Patch` can name only the twelve data fields of an order. It cannot rewrite `orderNumber` or `createdAt`, add keys outside the order record, or use dotted paths into nested fields such as `customer.phone`.
- `Cart.Increase` requires the id to be in the cart. The source would append `undefined` for an absent id, but the plus button only exists on lines of the cart.
- Item ids are strings. Numeric ids from the bundled data compare the same way under `===`.
- `initializeMenu` with null entries inside the array is not modelled; each entry is an item.
- The three-second "promo applied" flag (`setTimeout`), alerts, confirms, navigation, `handleInitializeDB` and the rendering are presentation and are left out.
- `toLowerCase`/`toUpperCase` are modelled on ASCII letters only; Unicode case mapping is left out.
- Payment.InitializePayment: does not model a NaN amount; the amount is a finite real.
- Reviews.Rotate: the timer's 5000 ms period and its clean-up on unmount are not modelled; a tick is one application of `Next`.
- Reviews.RolesAreDistinct: states that no card plays two roles and that the neighbours exist. That each role belongs to exactly one card follows from `Reviews.CardRole`'s if-and-only-if.

## Findings

| source | as written | input that shows it | evidently intended | confidence | as-written member | corrected member |
|---|---|---|---|---|---|---|
| src/pages/Checkout.jsx:104-106 | For pickup the draft's `deliveryFee` is 0, but `total` is the cart's total, which includes the 500 delivery fee. | A pickup order of one item priced 2000, no promo. It is stored with subtotal 2000, discount 0, fee 0, total 2500. | The stored total is subtotal − discount + fee, so 2000 for this order. | not executed | Checkout.PlaceOrderAsWritten (shown by Checkout.PickupTotalKeepsFeeAsWritten) | Checkout.PlaceOrder (proved by Checkout.PlacedOrderAddsUp) |
| functions/index.js:114-116 | `paystackData.amount / 100` is NaN when the provider omits the amount, and `Math.abs(NaN) > 0.01` is false, so reconciliation passes. | A successful transaction with no `amount` and an expected 1500. It is verified, with amount NaN. | A non-numeric provider amount is a mismatch. | not executed | Verification.VerifyAsWritten (shown by Verification.AsWrittenAcceptsMissingAmount) | Verification.Verify (agreement on numeric amounts: Verification.VerifiersAgreeOnNumericAmounts) |
