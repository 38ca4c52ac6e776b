# Point-of-sale session model

A Dafny model of the `POSApp` component of a single-page point-of-sale client.
A cashier types or scans a product code. The app looks the product up on a backend
and stages it. The cashier adds staged products to a cart, can remove cart rows, and
finally posts the cart as a transaction.

The whole logic of the component is five pieces of state and five event handlers.

- The state is one record, `PosSession.Session`. Its fields are the code being typed,
  the staged product, the error text of the lookup panel, the cart, and the
  empty-cart warning flag.
- Each handler is a transition on that record, in `PosSession`:
  - `FetchProduct` for the lookup button,
  - `HandleAdd` for the add button,
  - `RemoveFromCart` for a row's remove button,
  - `HandlePurchase` for the purchase button,
  - `EditBarcode` for typing into the code field.
- The backend is a function parameter. A lookup backend maps the code in the URL to a
  `LookupReply`:
  - `Found(product)` for an ok (2xx) status with a product body,
  - `NotFound` for status 404,
  - `Rejected(detail)` for any other non-ok status whose body is any JSON value except
    `null`; `detail` is missing unless the body is an object with a string `detail`,
  - `Thrown` when the request or the decoding of the reply throws, or when reading a
    field of a `null` body throws (`errorData.detail` on a non-ok, non-404 reply,
    `data.PRD_ID` on an ok one), which lands in the same `catch`.
- A purchase backend maps the posted `Transaction` to a `PurchaseReply`:
  - `PurchaseOk(totalAmt)` for an ok status,
  - `PurchaseFailed` for a non-ok status,
  - `PurchaseThrown(message)` when the request or the decoding throws, or reading
    `TOTAL_AMT` of a `null` body throws; the cart is then kept.
- "Sends no request" is stated as "the result is the same whatever the backend answers".
- `PosComponent.PosApp` is the same component as an object. It has one field per state
  slot and one method per handler. Each method makes the handler's setter calls in the
  source's order. Each is proved to reach the state the matching transition gives, and
  to keep the cart invariant.
- `JsRuntime` models the JavaScript built-ins the handlers rely on:
  - `trim`, with the whitespace set of ECMA-262 sections 12.2 and 12.3;
  - the `||` fallback on an optional string;
  - `filter` on element position.
- `PosProperties` holds the lemmas about the transitions. These cover lookup, add,
  remove, purchase, editing, and the invariant that no cart item has an empty name
  (so the empty sentinel product is never in the cart). That invariant is proved for
  every sequence of user actions from the initial state. A replay of a typical session
  is proved too.

Behaviours of the handlers worth noting:

- Adding an item does not clear the empty-cart warning. `WarningSurvivesAdd` shows the
  warning still raised beside a non-empty cart.
- A successful purchase does not clear the error text.
- A lookup with a blank code leaves the staged product as it was.
- The add button's guard is a non-empty product name.
- A purchase that throws shows the error's own message, not the fixed
  "取引の登録に失敗しました". Only a non-ok status gets the fixed text.
- An ok reply whose product has an empty name is staged as it is. So the staged
  product is not always either the sentinel or a fully filled product. Such a product
  can never be added.

## Model

| member | source | states |
|---|---|---|
| JsRuntime.TrimStart | src/app/page.jsx:16 | the front half of `trim`: the result is no longer than the code and, when non-empty, starts with a character that is not trimmable; TrimStartDropsTrimmable gives the rest |
| JsRuntime.TrimEnd | src/app/page.jsx:16 | the back half of `trim`: the result is no longer than the code and, when non-empty, ends with a character that is not trimmable; TrimEndDropsTrimmable gives the rest |
| JsRuntime.Trim | src/app/page.jsx:16 | `barcode.trim()`: never longer than the code; TrimIsSlice, TrimStartDropsTrimmable and TrimEndDropsTrimmable state that it is the slice left after dropping trimmable characters at both ends, TrimLeavesNoEdgeSpace that neither end of it is trimmable |
| JsRuntime.IsBlank | src/app/page.jsx:16 | the guard `!barcode.trim()`; specified by BlankIffAllTrimmable |
| JsRuntime.BlankIffAllTrimmable | src/app/page.jsx:16 | the lookup guard `!barcode.trim()` holds exactly when every character of the code is JavaScript whitespace or a line terminator |
| JsRuntime.TrimIsSlice | src/app/page.jsx:16 | the trimmed code is the contiguous slice of the code that starts where the trimmable front ends |
| JsRuntime.TrimLeavesNoEdgeSpace | src/app/page.jsx:16 | a trimmed code neither starts nor ends with a trimmable character |
| JsRuntime.TrimStartDropsTrimmable | src/app/page.jsx:16 | trimming the front keeps a suffix of the code and drops only trimmable characters |
| JsRuntime.TrimEndDropsTrimmable | src/app/page.jsx:16 | trimming the back keeps a prefix of the code and drops only trimmable characters |
| JsRuntime.OrElse | src/app/page.jsx:33 | the `detail`-or-fallback expression yields the detail when it is present and non-empty, the fallback when it is missing or empty, and so is non-empty whenever the fallback is |
| JsRuntime.WithoutIndex | src/app/page.jsx:159 | filtering by position deletes exactly the element at an in-range index, keeps the others in order, and changes nothing for an out-of-range index |
| PosSession.Initial | src/app/page.jsx:6-10 | the `useState` initial values: empty code, the sentinel product, no error, an empty cart, no warning; InitialCartNamed states that it meets the cart invariant |
| PosSession.CartNamed | src/app/page.jsx:59-67 | the cart invariant that every item has a non-empty name, which follows from the add guard; StepPreservesCartNamed and RunPreservesCartNamed prove it kept |
| PosSession.ApplyLookupReply | src/app/page.jsx:26-54 | the reply handling of `fetchProduct`; specified by LookupFoundStagesProduct and FailedReplyResetsProduct |
| PosSession.FetchProduct | src/app/page.jsx:15-55 | `fetchProduct`; specified by BlankLookupSendsNothing, LookupAsksForTypedCode, LookupFailureResetsProduct, LookupErrorClearedIffFound and LookupKeepsCart |
| PosSession.HandleAdd | src/app/page.jsx:58-71 | `handleAdd`; specified by AddAppendsStagedProduct and AddWithoutNameIsNoOp |
| PosSession.RemoveFromCart | src/app/page.jsx:159 | the remove button's filter; specified by RemoveDeletesOneItem and RemoveOutOfRangeIsNoOp |
| PosSession.HandlePurchase | src/app/page.jsx:74-113 | `handlePurchase`; specified by EmptyPurchaseSendsNothing, PurchasePostsCart, PurchaseSuccessClearsCart, PurchaseFailureKeepsCart and PurchaseEmptiesOrKeeps |
| PosSession.EditBarcode | src/app/page.jsx:124 | the code field's `onChange`; specified by EditReplacesCode |
| PosSession.CheckoutItems | src/app/page.jsx:81-86 | the posted items are as many as the cart's, and each carries the PRD_ID, CODE, NAME and PRICE of the cart item at the same position |
| PosSession.CheckoutPayload | src/app/page.jsx:88-98 | the posted body has an empty `emp_cd` and one item per cart item |
| PosProperties.BlankLookupSendsNothing | src/app/page.jsx:16-19 | a blank code yields the prompt "商品コードを入力してください" whatever the backend would answer, and leaves product, cart, code and flag unchanged |
| PosProperties.WhitespaceOnlyLookupSendsNothing | src/app/page.jsx:16-19 | a code made only of whitespace, ideographic spaces included, is treated as blank |
| PosProperties.LookupAsksForTypedCode | src/app/page.jsx:24 | a code with a visible character is looked up as typed, untrimmed, and only the answer for that code matters |
| PosProperties.LookupFoundStagesProduct | src/app/page.jsx:38-48 | an ok (2xx) reply stages exactly the returned product and clears the error, nothing else changes |
| PosProperties.FailedReplyResetsProduct | src/app/page.jsx:26-54 | every failed reply stages the sentinel and sets a non-empty error: the 404 text, a non-empty `detail`, the generic text, or the server-error text, by kind of failure |
| PosProperties.LookupFailureResetsProduct | src/app/page.jsx:26-54 | a failed lookup of a non-blank code stages the sentinel, shows the error for its kind of failure, and keeps code, cart and flag |
| PosProperties.LookupErrorClearedIffFound | src/app/page.jsx:16-54 | after a lookup the error text is empty if and only if the code was not blank and the backend found the product |
| PosProperties.LookupKeepsCart | src/app/page.jsx:15-55 | no lookup outcome changes the cart, the typed code or the empty-cart flag |
| PosProperties.AddAppendsStagedProduct | src/app/page.jsx:58-71 | adding a named product grows the cart by one, keeps the earlier items, puts the staged product last, clears the staged product and the code, and keeps the error and the flag |
| PosProperties.AddWithoutNameIsNoOp | src/app/page.jsx:59 | with an empty staged name the add button changes nothing |
| PosProperties.RemoveDeletesOneItem | src/app/page.jsx:159 | removing row i shortens the cart by one, keeps the items before i, moves the later ones down by one, removes exactly one copy of that item, and changes no other field |
| PosProperties.RemoveOutOfRangeIsNoOp | src/app/page.jsx:159 | an index outside the cart leaves the session unchanged |
| PosProperties.EmptyPurchaseSendsNothing | src/app/page.jsx:75-78 | purchasing an empty cart raises the warning, whatever the backend would answer, and changes nothing else |
| PosProperties.PurchasePostsCart | src/app/page.jsx:81-99 | the purchase outcome depends only on the backend's answer to the payload built from the cart |
| PosProperties.PayloadRoundTrip | src/app/page.jsx:81-86 | reading the posted items back gives the cart itself, so nothing is lost or reordered |
| PosProperties.PurchaseSuccessClearsCart | src/app/page.jsx:105-108 | a successful purchase empties the cart and clears the warning, and keeps the error text, the staged product and the code |
| PosProperties.PurchaseFailureKeepsCart | src/app/page.jsx:101-111 | a failed purchase keeps cart, product, code and flag, and shows the fixed failure text for a non-ok status or the thrown error's message otherwise |
| PosProperties.PurchaseEmptiesOrKeeps | src/app/page.jsx:74-113 | a purchase leaves the cart either empty or untouched, changes it if and only if a non-empty cart was posted successfully, keeps the staged product and the typed code, and changes the error text only after a failed or thrown post of a non-empty cart |
| PosProperties.EditReplacesCode | src/app/page.jsx:124 | typing replaces the code and nothing else, and the last text typed wins |
| PosProperties.InitialCartNamed | src/app/page.jsx:6-10 | the session starts with an empty cart, which satisfies the cart invariant |
| PosProperties.StepPreservesCartNamed | src/app/page.jsx:15-159 | each of the five handlers (lookup at lines 15-55, add at 58-71, purchase at 74-113, code editing at 124, row removal at 159) keeps every cart item named |
| PosProperties.RunPreservesCartNamed | src/app/page.jsx:15-159 | any sequence of handler runs keeps every cart item named |
| PosProperties.ReachableCartHasNoSentinel | src/app/page.jsx:7-9 | in every session reachable from the initial one the sentinel product is not in the cart |
| PosProperties.TeaScenario | src/app/page.jsx:15-124 | lookup, add, a 404 lookup and a purchase: the 404 leaves the cart, the purchase empties it, and the 404 text stays shown |
| PosProperties.WarningSurvivesAdd | src/app/page.jsx:67-69 | after an empty-cart purchase, adding a product leaves the warning raised beside a non-empty cart |
| PosComponent.PosApp.constructor | src/app/page.jsx:6-10 | the component starts in the initial session with the invariant holding |
| PosComponent.PosApp.FetchProduct | src/app/page.jsx:15-24 | the handler's setter calls end in the state `PosSession.FetchProduct` gives |
| PosComponent.PosApp.ApplyLookupReply | src/app/page.jsx:26-54 | the handling of the lookup reply ends in the state `PosSession.ApplyLookupReply` gives |
| PosComponent.PosApp.HandleAdd | src/app/page.jsx:58-71 | the handler ends in the state `PosSession.HandleAdd` gives and keeps the invariant |
| PosComponent.PosApp.RemoveFromCart | src/app/page.jsx:159 | the inline filter ends in the state `PosSession.RemoveFromCart` gives and keeps the invariant |
| PosComponent.PosApp.HandlePurchase | src/app/page.jsx:74-113 | the handler ends in the state `PosSession.HandlePurchase` gives |
| PosComponent.PosApp.EditBarcode | src/app/page.jsx:124 | the field's change handler ends in the state `PosSession.EditBarcode` gives |

## Left out

- Rendering, CSS classes and the add button's `disabled` attribute are not modelled. That is presentation. The error text takes the place of the product's name and price in the lookup panel (src/app/page.jsx:132). This follows from `errorMessage` not being empty, and no separate display function is modelled.
- `alert` and `console.log`/`console.error` are not modelled. They only report to the user or the developer. `TOTAL_AMT` is carried by `PurchaseOk` but never stored, because the source only shows it in the alert.
- `fetch`, JSON decoding and HTTP statuses are the function parameters described above. A body that fails to parse lands in the `catch` block and is modelled as `Thrown` or `PurchaseThrown`. A `detail` that is not a string, missing fields in an ok body, and a PRICE that is not an integer are not modelled.
- The URL is not modelled: `process.env.NEXT_PUBLIC_API_URL`, the raw interpolation of the code into the path, and the serialisation of the body to JSON text. These are environment configuration and wire encoding. next.config.js is build configuration and is not part of this model.
- Handlers are modelled as atomic. The model leaves out four things about the async handlers. First, the render seen while a lookup is awaited, with the error already cleared (src/app/page.jsx:21) and the old product still staged. Second, overlapping requests whose replies arrive out of order. Third, React's batching of state updates. Fourth, another handler run while a request is pending: an add during a purchase's POST appends an item the POST does not carry, and the success's `setCart([])` (src/app/page.jsx:107) then drops it unposted; likewise an add during a lookup adds the old staged product, and the reply then stages a product for a code no longer in the field.
