# trash2trade backend, modelled in Dafny

trash2trade is a marketplace for industrial waste. Sellers list materials with a quantity and a
base price. Buyers order some quantity of a listing and pay for it through Razorpay. Sellers and
buyers then move the order along. Administrators can block users and see platform statistics.
This project models the Express route handlers of the backend, its `protect`/`authorize`
middleware, the three Mongoose schemas and the display rules of the buyer dashboard.

The model's parts:

- **`Schemas`** — the User, Material and Order records, their enums and their schema defaults.
- **`Backend.Store`** — one object holding the three collections as maps from id to document.
  - It also holds an id counter and the list of notifications delivered.
  - Every route that writes is a method. It returns a `Response` (HTTP code and body) and writes
    what the route writes, guard by guard, in the route's order.
  - Every read-only route is a function of the store.
  - `Valid()` is the invariant all handlers keep:
    - ids are below the counter and match their keys;
    - emails are unique;
    - materials keep status `active`;
    - orders keep `orderStatus` PLACED, no `cancelledBy` and no `amount`;
    - an order's `paymentStatus` is never FAILED, and an order has payment details whenever it
      is PAID.
- **`Access`** — `protect`, `authorize`, `generateToken`, login and `GET /auth/me`, as pure
  functions over the header, the user map and opaque JWT and bcrypt functions.
- **`Payments`** — the amount, the Razorpay order options and the signed message
  `orderId|paymentId` checked with HMAC-SHA256 (RFC 2104). The HMAC is an opaque function.
- **`Inventory`, `Ordering`, `Moderation`** — the field-level writes of the material, order and
  user routes.
- **`Stats`** — the seller, buyer and admin statistics: counts and a sum over the lists `find()`
  returns.
- **`Timeline`** — the buyer dashboard's rules:
  - which lifecycle chips light up;
  - when the Pay and Confirm Delivery controls appear;
  - which bars enter the pie chart.
- **`Scenarios`** — request sequences against one store:
  - a payment verified twice;
  - a user toggled twice;
  - a block ending a live session;
  - a sale of 4 units out of 10.

The model follows the code as written. What the proofs show about that code:

- **The lifecycle field is never moved.** The seller's status update and the buyer's
  confirmation write the undeclared `status` string ("Approved", "Rejected", "Shipped",
  "Completed"), without looking at the previous value. No route ever writes the schema's
  `orderStatus`. Because every order stays PLACED:
  - the seller statistics count every order as in progress (`SellerStatsAllInProgress`);
  - the dashboard never offers Pay or Confirm Delivery (`DashboardControlsNeverShown`).
- **Revenue is always 0.** It sums an `amount` that no route writes (`RevenueAlwaysZero`).
- **A negative order quantity gets through.** The stock guard lets it pass, and it then raises
  the stock (`NegativeOrderRaisesStock`).
- **Anyone can register as an administrator.** The requested role is taken as given
  (`AdminSelfRegistration`).
- **`GET /auth/me` skips the block check.** A blocked user's token is refused by `protect`, but
  `/me` still answers for it (`MeIgnoresBlock`, `BlockEndsSession`).
- **Login without a password tells registered emails apart.** bcrypt.compare throws on the
  absent password only after a user was found, so a registered email gets 500 and an unknown one
  400 (`AbsentPasswordRevealsAccount`).
- **An absent email matches the first user.** Mongoose drops the undefined filter, so register
  refuses it as taken and login checks the password against the first stored user (`FindOne`).
- **The toggle reply leaks the password hash.** The block/unblock reply carries the whole user
  document, hash included.
- **The payment routes ignore the caller.** They never compare the caller with the order's buyer.
- **The signed message is ambiguous in general.** The `|`-joined message identifies the pair only
  while the gateway order id contains no `|` (`SignedMessageInjective`, `SignedMessageAmbiguous`).

The foreign calls are modelled as follows:

- jwt.sign, bcrypt.hash, HMAC-SHA256 and the Razorpay keys are fields of `Backend.Env`.
- jwt.verify and bcrypt.compare are function parameters.
- Whether a notification is delivered is a boolean parameter.
- Razorpay's answer to `orders.create` is a parameter.
- Most properties hold whatever those functions compute. The exceptions name what they assume:
  - `IssuedTokenPassesProtect` assumes that verify undoes sign for the token's claims, and that
    the signed token is non-empty and contains no space;
  - `TokensIdentifyClaims` assumes that verify undoes sign for both claim pairs;
  - `MeIgnoresBlock`, `BlockEndsSession` and `DecodeSecondWord` assume a non-empty token
    without spaces; the first two also assume that verify maps it to the user's id.

## Model

| member | source | states |
|---|---|---|
| `Schemas.ParseRole` | trash2trade-backend/models/User.js:11-15 | the role enum accepts exactly the names buyer, seller and admin |
| `Schemas.NewUser` | trash2trade-backend/models/User.js:6-21 | a created user is not blocked and stores the given id, email, password hash and role |
| `Schemas.ParseLogistics` | trash2trade-backend/models/Order.js:27-31 | an absent logistics mode becomes direct; a present one is accepted exactly when it is direct, 3pl or hub |
| `Schemas.NewOrder` | trash2trade-backend/models/Order.js:34-58 | a created order has orderStatus PLACED and paymentStatus PENDING, no cancelledBy, payment details or amount, and the given buyer, seller, material, quantity, mode and legacy status |
| `Text.SecondField` | trash2trade-backend/middleware/authMiddleware.js:15 | `split(" ")[1]` is absent exactly when the header has no space, and never contains a space |
| `Text.SecondFieldOfJoin` | trash2trade-backend/middleware/authMiddleware.js:15 | for space-free a and b, the second field of "a b" is b |
| `Text.DecimalRoundTrip` | trash2trade-backend/routes/paymentRoutes.js:44 | the decimal text of an id parses back to the id |
| `Http.Public` | trash2trade-backend/routes/userRoutes.js:17 | the password-free projection keeps id, email, role and block flag |
| `Access.Protect` | trash2trade-backend/middleware/authMiddleware.js:7-41 | 401 "No token provided" without a Bearer header, 401 "Token invalid" when verification fails, 401 for an unknown id, 403 for a blocked user, otherwise passes the stored record; whatever passes is a stored user who is not blocked |
| `Access.Authorize` | trash2trade-backend/middleware/authMiddleware.js:46-53 | passes exactly when the user's role is in the list, the same user; otherwise 403 "Access denied" |
| `Access.IssuedTokenPassesProtect` | trash2trade-backend/middleware/authMiddleware.js:20-34 | a token from generateToken, sent as a Bearer header, is refused with 403 exactly while the stored user is blocked, whatever role it carries; otherwise it passes the stored user |
| `Access.BearerHeader` | trash2trade-backend/middleware/authMiddleware.js:10-15 | "Bearer " followed by a space-free token passes the header test and yields that token |
| `Access.ResolveRole` | trash2trade-backend/routes/authRoutes.js:36 | an absent or empty role becomes buyer; any other is accepted exactly when it names a role |
| `Access.AdminSelfRegistration` | trash2trade-backend/routes/authRoutes.js:36 | a requested admin role is accepted |
| `Access.TokensIdentifyClaims` | trash2trade-backend/routes/authRoutes.js:11-15 | generateToken signs exactly the id and the role: while verify undoes sign, equal tokens mean the same id and role |
| `Access.BearerIsAPrefixTest` | trash2trade-backend/middleware/authMiddleware.js:10-17 | the header test is a case-sensitive prefix: "Bearer" and "Bearerxyz" pass it, "bearer xyz", "" and an absent header do not; "Bearer" alone then fails as an invalid token (401 "Token invalid"), "bearer xyz" as no token (401 "No token provided") |
| `Access.DecodeSecondWord` | trash2trade-backend/middleware/authMiddleware.js:15-17 | the verified token is the second space-separated word; words after it are ignored, and a header without a space or with nothing after it decodes to nothing |
| `Access.FindByEmail` | trash2trade-backend/routes/authRoutes.js:74 | finds nothing exactly when no user has the email; a found user is stored and has that email |
| `Access.FindOne` | trash2trade-backend/routes/authRoutes.js:74 | with an email, finds nothing exactly when no user has it, and a found user has it; with the email absent the filter is dropped and the first stored user is found, nothing only when there are no users |
| `Access.CheckPassword` | trash2trade-backend/routes/authRoutes.js:78-96 | once a user is found: an absent password makes bcrypt.compare throw and gives 500; a mismatch gives 400 "Invalid email or password"; a match gives 200 with a token for exactly the user's id and role |
| `Access.Login` | trash2trade-backend/routes/authRoutes.js:70-98 | an unknown email gives 400; a found user's reply is decided by the password check; with a password given, any reply other than the shared 400 needs a user with the email whose password matches; the reply is 200, that 400, or the 500 of an absent password |
| `Access.AbsentPasswordRevealsAccount` | trash2trade-backend/routes/authRoutes.js:74-96 | without a password, a registered email gets 500 while an unknown one gets 400, so the two replies differ |
| `Access.Me` | trash2trade-backend/routes/authRoutes.js:103-119 | 401 "No token provided" without a token, 401 "Invalid token" when verification fails, 404 for an unknown id, otherwise 200 with the user's password-free record; the block flag is not consulted |
| `Access.MeIgnoresBlock` | trash2trade-backend/routes/authRoutes.js:105-118 | for a blocked user's valid token, protect answers 403 while /me answers 200 with the user |
| `Stats.SellerStatsOf` | trash2trade-backend/routes/statsRoutes.js:13-29 | approved is at most inProgress, which is at most total; rejected, completed and inProgress together are at most total |
| `Stats.BuyerStatsOf` | trash2trade-backend/routes/statsRoutes.js:35-50 | completed + rejected + inProgress is at most total |
| `Stats.StatusPartition` | trash2trade-backend/routes/statsRoutes.js:41-47 | completed, cancelled, in progress and PAID together count every order exactly once |
| `Stats.BuyerBucketsCoverAll` | trash2trade-backend/routes/statsRoutes.js:41-47 | with no PAID orderStatus among the buyer's orders, the three buckets add up to the total |
| `Stats.OthersOrdersIgnored` | trash2trade-backend/routes/statsRoutes.js:16 | an order of another seller does not change a seller's statistics |
| `Stats.RevenueCountsPaidOnly` | trash2trade-backend/routes/statsRoutes.js:67-69 | revenue is the sum of the amounts (0 when absent) of the orders whose paymentStatus is PAID |
| `Stats.UnpaidAddsNothing` | trash2trade-backend/routes/statsRoutes.js:67-69 | an unpaid order leaves the revenue unchanged |
| `Stats.RevenueNonNegative` | trash2trade-backend/routes/statsRoutes.js:67-69 | with no negative amount stored, the revenue is not negative |
| `Stats.RevenueWithoutAmounts` | trash2trade-backend/routes/statsRoutes.js:67-69 | with no amount on any order the revenue is 0 |
| `Stats.RolePartition` | trash2trade-backend/routes/statsRoutes.js:72-77 | buyers + sellers + admins equals the number of users |
| `Stats.OrderStatusBound` | trash2trade-backend/routes/statsRoutes.js:78-85 | the five order-status counts add up to at most the number of orders |
| `Stats.AdminStatsOf` | trash2trade-backend/routes/statsRoutes.js:56-91 | refused exactly for a non-admin caller; otherwise the role counts add up to the user total and the status counts to at most the order total |
| `Stats.AllPlacedStats` | trash2trade-backend/routes/statsRoutes.js:20-25 | when every order is PLACED, approved, rejected and completed are 0 and inProgress is the total |
| `Timeline.IndexOf` | trash2trade-frontend/src/pages/BuyerDashboard.jsx:31 | `indexOf` gives the first position of the status, or -1 exactly when it is not a step |
| `Timeline.TimelineOf` | trash2trade-frontend/src/pages/BuyerDashboard.jsx:23-45 | the cancelled label exactly for CANCELLED, otherwise one chip per step |
| `Timeline.StepPrefixActive` | trash2trade-frontend/src/pages/BuyerDashboard.jsx:17-31 | for the status at step i, exactly the chips 0..i are lit |
| `Timeline.OffStepsLightNothing` | trash2trade-frontend/src/pages/BuyerDashboard.jsx:31 | a status that is neither a step nor CANCELLED (PAID) lights no chip |
| `Timeline.ControlsOfPlacedOrder` | trash2trade-frontend/src/pages/BuyerDashboard.jsx:184-200 | a PLACED order shows neither Pay nor Confirm Delivery, and no order shows both |
| `Timeline.PayControlAtApproved` | trash2trade-frontend/src/pages/BuyerDashboard.jsx:184-189 | the Pay control appears only on an APPROVED order, whose timeline lights the first two steps, and never together with Confirm Delivery |
| `Timeline.ConfirmControlAtPickedUp` | trash2trade-frontend/src/pages/BuyerDashboard.jsx:192-200 | Confirm Delivery appears only on a PICKED_UP order, whose timeline lights all steps but the last, and never together with Pay |
| `Timeline.BarData` | trash2trade-frontend/src/pages/BuyerDashboard.jsx:95-101 | no bars before the statistics load; afterwards three bars, none with a negative value |
| `Timeline.PieEmptyIffNothingCounted` | trash2trade-frontend/src/pages/BuyerDashboard.jsx:95-103 | over the buyer's statistics, the pie is empty exactly when nothing is completed, rejected or in progress, and always when the buyer has no orders |
| `Timeline.PieData` | trash2trade-frontend/src/pages/BuyerDashboard.jsx:103 | a bar is in the pie exactly when it is in the bar data with a positive value |
| `Timeline.PieKeepsOrder` | trash2trade-frontend/src/pages/BuyerDashboard.jsx:95-103 | the pie filter distributes over concatenation, so the bars keep their order |
| `Payments.ToPaise` | trash2trade-backend/routes/paymentRoutes.js:42 | the paise amount is a whole multiple of 100 that gives back the rupee amount |
| `Payments.ReceiptIdentifiesOrder` | trash2trade-backend/routes/paymentRoutes.js:44 | different orders get different receipts |
| `Payments.IntentRequest` | trash2trade-backend/routes/paymentRoutes.js:33-45 | the gateway is asked for 100 times basePrice times quantity, in INR, with receipt "order_" and the order id |
| `Payments.SignedMessage` | trash2trade-backend/routes/paymentRoutes.js:96 | the message is the gateway order id, one separator bar, then the payment id |
| `Payments.SignatureFollowsMessage` | trash2trade-backend/routes/paymentRoutes.js:96-105 | the signature check sees the pair only through the signed message: pairs with the same message accept the same signatures |
| `Payments.SplitSharesSignature` | trash2trade-backend/routes/paymentRoutes.js:96-105 | a signature for ("a" followed by the bar and "b", "c") passes for ("a", "b" followed by the bar and "c") as well |
| `Payments.SignedMessageInjective` | trash2trade-backend/routes/paymentRoutes.js:96 | when neither gateway order id contains the separator bar, equal signed messages mean equal id pairs |
| `Payments.SignedMessageAmbiguous` | trash2trade-backend/routes/paymentRoutes.js:96 | without that condition two different pairs give the same signed message |
| `Payments.Settle` | trash2trade-backend/routes/paymentRoutes.js:107-115 | paymentStatus becomes PAID and paymentInfo the submitted values; every other field is as before |
| `Inventory.Created` | trash2trade-backend/routes/materialRoutes.js:12-23 | the caller is the seller, isActive is true whatever the quantity, status is active, an absent CO2 saving is 0; name, type, description, quantity, unit, price and location are the body's |
| `Inventory.Edited` | trash2trade-backend/routes/materialRoutes.js:46-58 | the eight editable fields come from the body, isActive is quantity > 0, and id, seller and status are kept |
| `Inventory.EditIdempotent` | trash2trade-backend/routes/materialRoutes.js:46-58 | editing twice with the same body is editing once |
| `Inventory.ListingVisibility` | trash2trade-backend/routes/materialRoutes.js:95-97 | the marketplace query lists a newly created material even with no stock, and an edited one exactly while its quantity is positive |
| `Ordering.AvailableIsListed` | trash2trade-backend/routes/orderRoutes.js:27 | the order guard accepts exactly the materials the marketplace query lists |
| `Ordering.StockGuard` | trash2trade-backend/routes/orderRoutes.js:31 | the stock guard refuses exactly a quantity above the stock, and lets an absent quantity through |
| `Ordering.SaleVisibility` | trash2trade-backend/routes/orderRoutes.js:44-46 | a sale takes the listing off the marketplace exactly when it empties the stock; otherwise visibility is kept |
| `Ordering.AfterSale` | trash2trade-backend/routes/orderRoutes.js:44-46 | the stock becomes old - q and stays non-negative; isActive becomes false exactly when the stock reaches 0 and is otherwise kept; nothing else changes |
| `Ordering.NegativeOrderRaisesStock` | trash2trade-backend/routes/orderRoutes.js:31-46 | a negative quantity passes the stock guard and raises the stock |
| `Ordering.ParseSellerStatus` | trash2trade-backend/routes/orderRoutes.js:70-73 | accepted exactly for "Approved", "Rejected" and "Shipped", as the legacy status of that name |
| `Moderation.Toggle` | trash2trade-backend/routes/userRoutes.js:45-46 | isBlocked flips and nothing else changes |
| `Moderation.ToggleTwice` | trash2trade-backend/routes/userRoutes.js:45-46 | toggling twice restores the user |
| `Moderation.ToggleMessage` | trash2trade-backend/routes/userRoutes.js:48-52 | the reply says "blocked" exactly when the new flag is set, "unblocked" otherwise |
| `Backend.Store.AllUsers` | trash2trade-backend/routes/statsRoutes.js:61-65 | `User.find()` returns exactly the stored users |
| `Backend.Store.AllMaterials` | trash2trade-backend/routes/statsRoutes.js:61-65 | `Material.find()` returns exactly the stored materials |
| `Backend.Store.AllOrders` | trash2trade-backend/routes/statsRoutes.js:61-65 | `Order.find()` returns exactly the stored orders |
| `Backend.Store.Register` | trash2trade-backend/routes/authRoutes.js:20-65 | an email some stored user has gives 400 and changes nothing, as does an absent email while any user is stored; an absent password or a failed validation gives 500 and changes nothing; otherwise a user with the bcrypt hash and the resolved role is stored under a fresh id and kept even when the welcome mail fails (500); on delivery the reply carries a token for exactly that id and role; emails stay unique |
| `Backend.Store.Login` | trash2trade-backend/routes/authRoutes.js:70-98 | an email no user has gives 400, as does an absent email over an empty store; for the user registered with the email the reply is that user's password check (200 with a token for the user's id and role, the shared 400, or 500 without a password); an absent email is checked against some stored user |
| `Backend.Store.FindOneFindsUser` | trash2trade-backend/routes/authRoutes.js:24 | `findOne` over the stored users, in register as in login, finds a document exactly when a user has the email, or, with the email absent, when any user is stored |
| `Backend.Store.LoginFindsOwner` | trash2trade-backend/models/User.js:8 | because emails are unique, looking up a stored user's email finds that user |
| `Backend.Store.CreateMaterial` | trash2trade-backend/routes/materialRoutes.js:10-29 | an incomplete body gives 500 and changes nothing; otherwise exactly one material, owned by the caller, is added and returned |
| `Backend.Store.EditMaterial` | trash2trade-backend/routes/materialRoutes.js:34-65 | 404 for an unknown id and 403 for a non-owner, changing nothing; an incomplete body gives 500 and changes nothing; otherwise only that material changes, to the edited document |
| `Backend.Store.DeleteMaterial` | trash2trade-backend/routes/materialRoutes.js:70-88 | 404 or 403 as for edit, changing nothing; for the owner exactly that material is removed, nothing else changes and the reply is 200 "Material deleted successfully" |
| `Backend.Store.Marketplace` | trash2trade-backend/routes/materialRoutes.js:93-103 | exactly the stored materials whose isActive is true or absent |
| `Backend.Store.MyMaterials` | trash2trade-backend/routes/materialRoutes.js:108-111 | exactly the caller's materials, whatever their isActive |
| `Backend.Store.GetMaterial` | trash2trade-backend/routes/materialRoutes.js:116-122 | always 200, with the stored material or null |
| `Backend.Store.CreateOrder` | trash2trade-backend/routes/orderRoutes.js:19-61 | 404 for an absent or deactivated material, then 400 when the stock is short, then 500 when the seller, quantity or mode is unusable, each changing nothing; otherwise a new order is stored for the caller, the material's seller, the material, the quantity and the mode, with status "Placed", and the stock is decremented; both writes remain when the seller notification fails (500); the reply is 201 with the order |
| `Backend.Store.UpdateStatus` | trash2trade-backend/routes/orderRoutes.js:66-118 | 400 for a status other than Approved, Rejected and Shipped before any lookup, then 404, then 403 unless the caller is the seller, each changing nothing; otherwise the status is written whatever it was, and the write remains when the notification cannot be sent (500) |
| `Backend.Store.ConfirmDelivery` | trash2trade-backend/routes/orderRoutes.js:123-150 | 404, then 403 unless the caller is the buyer, changing nothing; otherwise status "Completed" is written whatever it was, and the write remains when the notification cannot be sent (500) |
| `Backend.Store.MySells` | trash2trade-backend/routes/orderRoutes.js:155-160 | exactly the stored orders whose seller is the caller |
| `Backend.Store.MyBuys` | trash2trade-backend/routes/orderRoutes.js:165-170 | exactly the stored orders whose buyer is the caller |
| `Backend.Store.CreatePayment` | trash2trade-backend/routes/paymentRoutes.js:13-61 | 400 without an order id, then 404, then 400 for a paid order, then 500 without its material, with no gateway request; otherwise the gateway is asked for the intent request and its answer is relayed with the key id; nothing is written |
| `Backend.Store.VerifyPayment` | trash2trade-backend/routes/paymentRoutes.js:67-127 | 400 when any field is missing, then 404, then 400 for an already paid order, then 400 for a signature that is not the HMAC of the bar-joined gateway order and payment ids, each changing nothing; otherwise only that order is settled |
| `Backend.Store.ListUsers` | trash2trade-backend/routes/userRoutes.js:11-22 | 403 unless the caller is an admin; otherwise exactly the password-free projections of the stored users |
| `Backend.Store.ToggleBlock` | trash2trade-backend/routes/userRoutes.js:28-57 | 403 for a non-admin caller, then 404 for an unknown user, then 400 for an admin target, each changing nothing; otherwise only that user's isBlocked flips and the reply names the new state |
| `Backend.Store.SellerStats` | trash2trade-backend/routes/statsRoutes.js:13-29 | the total is the number of orders my-sells lists |
| `Backend.Store.BuyerStats` | trash2trade-backend/routes/statsRoutes.js:35-50 | the total is the number of orders my-buys lists, and the three buckets add up to it |
| `Backend.Store.AdminStats` | trash2trade-backend/routes/statsRoutes.js:56-91 | refused exactly for a non-admin caller |
| `Backend.Store.SellerStatsAllInProgress` | trash2trade-backend/routes/statsRoutes.js:20-25 | over the stored orders a seller has nothing approved, rejected or completed and everything in progress |
| `Backend.Store.RevenueAlwaysZero` | trash2trade-backend/routes/statsRoutes.js:67-69 | the admin revenue over the stored orders is 0 |
| `Backend.Store.DashboardControlsNeverShown` | trash2trade-frontend/src/pages/BuyerDashboard.jsx:184-200 | no stored order shows Pay or Confirm Delivery, and its timeline lights only the first step |
| `Scenarios.VerifyTwice` | trash2trade-backend/routes/paymentRoutes.js:91-115 | a correctly signed verification succeeds once; repeating it gives 400 "Payment already verified" and the order is settled only once |
| `Scenarios.ToggleTwice` | trash2trade-backend/routes/userRoutes.js:45-46 | two toggles of a non-admin user by an admin leave the users as they were |
| `Scenarios.BlockEndsSession` | trash2trade-backend/middleware/authMiddleware.js:20-31 | after a block, protect refuses a previously issued token with 403 while /me still answers 200 |
| `Scenarios.OrderFourOfTen` | trash2trade-backend/routes/orderRoutes.js:44-46 | ordering 4 of 10 units at 100 rupees leaves 6 units on the marketplace and asks the gateway for 40000 paise |

## Left out

- React rendering: animation, charts and routing in the pages and components. Only the timeline,
  control-visibility and pie-data rules of the buyer dashboard are modelled.
- The other client pages and the axios services. They are client plumbing with no server-side
  effect.
- The client calls that no backend route serves, so there is no behaviour to model:
  - the seller dashboard's `/orders/:id/approve` and `/orders/:id/pickup`;
  - the admin dashboard's `/orders/admin/:id/cancel`;
  - the buyer dashboard's Confirm Delivery, which calls `/orders/:id/complete`. The backend
    serves `/orders/:id/confirm` instead.
- Email content.
  - Only the recipient and subject of a delivered notification are recorded.
  - Delivery success is a parameter.
  - The templates are static HTML.
- jsonwebtoken, bcrypt, HMAC-SHA256 and Razorpay are opaque functions.
  - This includes token expiry ("30d").
  - bcrypt's random salt is folded into the hash function.
- Signature checking: the signature comparison is a plain string comparison, as in the code. No
  constant-time comparison is modelled.
- Mongoose persistence.
  - Populate, projections, ObjectId casting errors, database failures and `server.js` wiring are
    left out.
  - Under Mongoose's default strict mode, writes to the undeclared paths `isActive`, Order `status`
    and Order `amount` might not be persisted. The model keeps them as the route code reads and
    writes them.
  - Populated replies (seller or buyer sub-documents inside a listing) are returned as ids.
  - An absent `materialId` or `orderId` in a path is modelled as an id under which no document is
    stored.
- Concurrency: the read-then-save race in order creation is out of scope. Requests are
  sequential calls.
- Floating point: prices and quantities are integers (rupees, with paise as 100 times rupees).
  Fractional prices are not modelled.
- Timestamps (`approvedAt`, `completedAt`, `cancelledAt`, `createdAt`): no modelled route writes
  them.
- Database failures and other unexpected exceptions, which each handler's catch block turns into a
  500 reply, beyond the failures named in each handler's contract.
- Protected handlers receive `me`, the user `protect` passed on. The guard itself is
  `Access.Protect`; composing the two per request is left to the caller.
