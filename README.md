# Ace Tennis Shop: session and analytics logic, modelled in Dafny

The storefront's one component (`src/App.js`) does three things besides rendering, and this project models them:

* **`hashEmail`**: turns an email into a pseudo user id. It folds the email's UTF-16 code units into a signed
  32-bit integer (`hash = (hash << 5) - hash + chr; hash |= 0`), then returns `"user_" + Math.abs(hash)`.
  It returns `null` for an absent or empty email.
* **`segmentIdentify` / `segmentTrack`**: shape the calls to the analytics client. A track event is attributed
  to the event's own `email` property first, then to the current profile's email, else to nobody. The payload
  is a copy of the properties, with `userId` added only when an id was found.
* **The session**: the mount effect, Login (`handleVisitStore`), Buy (`handlePurchase`, behind the Buy
  button's enable guard) and Log Out (`handleLogout`). These act on the component state (`email`, `name`,
  `profile`, `purchasedItems`) and on `localStorage`.

Layout, one module per concern:

| file | module | contents |
|---|---|---|
| `wrappers.dfy` | `Wrappers` | `Option`, standing for JavaScript `null` |
| `js_numbers.dfy` | `JsNumbers` | code units, ToInt32, `<< 5`, `Math.abs`, decimal rendering of a number and its inverse |
| `identity.dfy` | `Identity` | the hash: its spec function `Fold`, `UserIdFor`, the looping method `HashEmail`, lemmas |
| `tracking.dfy` | `Tracking` | property bags, profiles, products, analytics events, userId choice, payload shaping |
| `session.dfy` | `Session` | class `App` with the state, the handlers as methods, and the invariant `Valid()` |

Modelling choices:

* Strings holding user data are `JsString = seq<CodeUnit>`, with code units in `0..65535`, matching what
  `charCodeAt` reads. Property keys, storage keys and event names are fixed ASCII literals in the code, so they
  are Dafny `string`s.
* Integer arithmetic is unbounded. The int32 conversion is written out as `ToInt32`: the unique value in
  `[-2^31, 2^31)` congruent modulo 2^32. The loop body is modelled literally as
  `ToInt32(ToInt32(h * 32) - h + c)`. The intermediate Number `(h << 5) - h + chr` stays below 2^34 in
  magnitude, so it is exact in a double and exact as an `int`. `Math.abs` does not wrap, so `|-2^31| = 2^31`.
* The analytics client is foreign code. Each call to it is appended to the field `log` as
  `Identify(userId, traits)` or `Track(event, properties)`.
* Each handler is one atomic step that sees the state of the render it was created in. `SegmentTrack`
  therefore takes the render's profile as a parameter. `HandleLogout` passes the profile it held before logging
  out, so "Logged Out" is attributed to the visitor who just left.
* The Buy button (`disabled={!profile || purchasedItems.includes(product.id)}`) is the predicate `BuyEnabled`.
  A click on it is `ClickBuy`, which does nothing while the button is disabled. `HandlePurchase` itself checks
  only for a profile, as the code does.
* `localStorage` is a `map<string, JsString>`. `getItem` returns null for a missing key; `clear()` empties the map.

## Model

| member | source | states |
|---|---|---|
| `JsNumbers.ToInt32` | src/App.js:65 | the bitwise or of `hash` with 0 yields an int32 congruent to its input modulo 2^32 and leaves int32 values alone |
| `JsNumbers.ToInt32Congruent` | src/App.js:64-65 | integers congruent modulo 2^32 have the same int32 image |
| `JsNumbers.DecimalString` | src/App.js:67 | `String(n)` is a canonical digit string (no leading zero) whose decimal value is `n` |
| `JsNumbers.DecimalStringOfValue` | src/App.js:67 | every canonical digit string is `String` of its value, so rendering is a bijection onto them |
| `JsNumbers.ShiftLeft5` | src/App.js:64 | `hash << 5` on an int32 is an int32 congruent to `hash * 32` modulo 2^32 |
| `JsNumbers.Abs` | src/App.js:67 | `Math.abs` returns `x` or `-x`, never negative; on an int32 it is at most 2^31, so it does not wrap |
| `Identity.LoopStep` | src/App.js:64-65 | the loop body as written, `(hash << 5) - hash + chr` followed by or-ing with 0, leaves `hash` an int32 |
| `Identity.LoopStepIsStep` | src/App.js:64-65 | the written step `(h << 5) - h + chr`, then or-ed with 0, equals `int32(h * 31 + chr)` for every int32 `h`, even when the shift wraps |
| `Identity.Fold` | src/App.js:59-66 | the folded hash of any code-unit sequence is an int32 |
| `Identity.FoldIsWrappedPolynomial` | src/App.js:59-66 | wrapping after every step gives the same result as wrapping the exact polynomial `sum c_i * 31^(n-1-i)` once |
| `Identity.UserIdFor` | src/App.js:57-68 | `hashEmail` returns null exactly when the email is absent or empty; otherwise its result starts with `"user_"` and is longer than that prefix |
| `Identity.UserIdDigits` | src/App.js:65-67 | after `"user_"` come the canonical digits of `Math.abs(Fold(email))`, a number in `[0, 2^31]` that equals `2^31` exactly when the fold is `-2^31` |
| `Identity.HashEmail` | src/App.js:57-68 | the loop over the code units returns exactly `UserIdFor(email)`; its invariant keeps `hash` equal to the fold of the code units read so far |
| `Identity.CollidingEmails` | src/App.js:62-66 | the hash is not injective: "Aa" and "BB" both fold to 2112 and get the same id |
| `Identity.MinInt32Email` | src/App.js:65-67 | the `2^31` suffix occurs: "xfjfxtf" folds to `-2^31`, and its id's digits denote `2^31` |
| `Tracking.EmailProp` | src/App.js:98-99 | `props.email` is present exactly when the props hold a string under `email`, and it is that string |
| `Tracking.ProfileEmail` | src/App.js:100-101 | `profile?.email` is present exactly when there is a profile, and it is the profile's email |
| `Tracking.ChooseUserId` | src/App.js:96-102 | a non-empty `props.email` decides the userId; otherwise a non-empty profile email decides it; an id is found exactly when one of the two is non-empty, and a found id is never the empty string |
| `Tracking.Payload` | src/App.js:104-109 | the payload keeps every caller key other than `userId` with its value; it adds `userId` with the id exactly when the id is truthy; otherwise it equals the props |
| `Tracking.TrackEvent` | src/App.js:96-110 | `segmentTrack` sends one track with the given event name; when the props have no `userId` of their own, the payload has one exactly when some email was available |
| `Tracking.TrackKeepsProps` | src/App.js:104-106 | with the `userId` key set aside, the tracked properties are exactly the caller's properties |
| `Tracking.IdentifyEvent` | src/App.js:90-92 | `segmentIdentify` sends traits `{email, name}`, and its userId is `hashEmail(email)`: null exactly when the email is empty |
| `Tracking.PropsEmailTakesPrecedence` | src/App.js:98-99 | with an email in the props, the profile does not affect the userId, and the payload's `userId` is that email's hash |
| `Tracking.ProfileFallback` | src/App.js:100-102 | without an email in the props, the userId is none when there is no profile and the profile email's hash otherwise |
| `Session.GetItem` | src/App.js:77-78 | `localStorage.getItem(key)` is null exactly when the key is missing, and otherwise the stored string |
| `Session.OrderProps` | src/App.js:128-135 | the "Order Completed" properties are exactly the six keys email, name, productId, productName, price and category, holding the profile's and the product's fields; they carry the profile's email and no `userId` |
| `Session.LoginEventsAttributed` | src/App.js:83-84 | the identify call and a track carrying the visitor's own email both carry a user id |
| `Session.App.constructor` | src/App.js:71-74 | the first render has empty email and name, no profile, no purchases, the given storage and no events sent |
| `Session.App.EditName` | src/App.js:178 | the name input sets `name` and changes nothing else |
| `Session.App.EditEmail` | src/App.js:184 | the email input sets `email` and changes nothing else |
| `Session.App.SegmentIdentify` | src/App.js:90-94 | appends exactly one identify event, with the email's hash and traits `{email, name}` |
| `Session.App.SegmentTrack` | src/App.js:96-112 | appends exactly one track event, whose payload is `Payload(props, ChooseUserId(props, profile))` |
| `Session.App.Mount` | src/App.js:76-88 | with both saved keys non-empty, restores email, name and profile, then logs identify followed by "Auto Login"; otherwise changes no state and logs only "Visited Website"; storage and purchases unchanged; keeps `Valid()` |
| `Session.App.HandleVisitStore` | src/App.js:114-124 | with empty name or email, changes nothing and logs nothing; otherwise stores both keys, sets the profile, and logs identify followed by "Logged In"; keeps `Valid()` |
| `Session.App.HandlePurchase` | src/App.js:126-140 | without a profile, logs nothing and leaves purchases unchanged; with one, logs exactly one "Order Completed" track with the product's fields and appends the product id |
| `Session.App.HandleLogout` | src/App.js:142-149 | empties storage; resets profile, email, name and purchases; logs exactly one "Logged Out" track, which carries a userId exactly when a profile existed before logout |
| `Session.App.BuyEnabled` | src/App.js:160 | the Buy button is enabled exactly when a profile exists and the product's id is not yet in `purchasedItems` |
| `Session.App.ClickBuy` | src/App.js:158-160 | a click on a disabled Buy button (no profile, or already bought) changes nothing; an enabled one purchases; purchases stay duplicate-free |

`Session.App.Valid` is the invariant that the handlers preserve:

* a profile has a non-empty email and name, both mirrored in storage;
* purchases exist only while someone is logged in;
* every identify, and every "Logged In", "Auto Login" and "Order Completed" track, carries a user id.

`NoRepeatPurchases` is kept by every handler except a raw `HandlePurchase` of an already-bought product. The
disabled button rules that call out. `Walkthrough` is a client method: it shows that callers can derive a whole
login, buy, double-click and logout session from these contracts.

## Left out

- JSX rendering, CSS, images and the `PRODUCTS` catalogue data: presentation and static data. A product is reduced to the four fields the code reads.
- The analytics client's configuration, transport and delivery (foreign library): each call is recorded as an event in `log`.
- `console.log` and `alert` (browser I/O): an alert is modelled as "no state change, no event".
- `localStorage` beyond a string map (browser I/O): quotas, other keys' sources and cross-tab effects are outside the model.
- React's batching and re-render scheduling: each handler is one atomic step over the state of its render.
- Mount: the `[]` dependency list makes the effect run once after the first render. The model does not enforce "once": `Mount` may be called in any valid state and reads the current profile.
- HandleVisitStore: the Login button is rendered only while there is no profile. The model does not require that and allows the call in any valid state.
- Tracking.EmailProp: an `email` property that is not a string is treated as absent. Every call site passes a string or omits the key.
- Cart, add-to-cart, remove-from-cart, checkout and `analytics.reset()`: the code has none of them. A purchase is one click on one product's Buy button, and Logout does not reset the analytics client.
