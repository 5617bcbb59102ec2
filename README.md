# Bistro Boss server: guarded accounts, checkout and analytics in Dafny

This project models the core of the Bistro Boss restaurant backend (`index.js`,
an Express server over a MongoDB database `bistroDb`):

- the access guards `verifyToken` and `verifyAdmin`, and the self-only checks of
  `GET /users/admin/:email` and `GET /payments/:email`;
- the account directory writes `POST /users` (registration, idempotent per
  email) and `PATCH /users/admin/:id` (promotion to admin);
- the cart store routes `GET /carts`, `POST /carts` and `DELETE /carts/:id`;
- the checkout commit `POST /payments`: append the payment to the ledger, then
  delete the settled cart items;
- the analytics: revenue in `GET /admin-stats` and the `/order-stats`
  aggregation pipeline.

The collections are sequences of documents (`Doc(id, body)`) in insertion
order, held as fields of a `Database` object whose handler methods update them
in place. `findOne`, `updateOne` and `deleteOne` act on the first match, as
MongoDB does; the `Valid()` invariant (unique `_id` in every collection,
unique email among accounts, a fresh id counter) lets lemmas show that this is
the same as acting on every match. JWT verification is an oracle parameter
`verify: string -> Option<Claims>`. The pure decisions and aggregations are
functions with lemmas.

Files: `documents.dfy` (queries on collections), `entities.dfy` (document
bodies), `accounts.dfy` (account directory), `auth.dfy` (guards),
`analytics.dfy` (revenue and order statistics), `server.dfy` (the `Database`
class and the routes).

Behaviour of the code that the model keeps, although it is easy to misread:

- `GET /payments/:email` answers a mismatched email with 403 and the message
  "forbidden access" (index.js:225). Only `GET /users/admin/:email` uses
  "unauthorized access".
- Registration stores the request body verbatim, so a body carrying
  `role: 'admin'` creates an admin account (`RegisterTrustsBodyRole`).
- A `POST /payments` payload without `cartIds` is stored and then the purge
  step throws. The payment is recorded, the carts are untouched and no
  acknowledgment is sent (`CommitPayment`).
- An empty `Authorization` header and a header with no space are both
  rejected with 401. Both reduce to "no token" (`VerifyToken`'s contract
  shows the empty-header test is subsumed). A header such as `"Bearer "`
  yields the empty token, which `jwt.verify` refuses before any signature
  check, so it is rejected with 401 as well.

## Model

| member | source | states |
|---|---|---|
| `Auth.Split` | index.js:55 | `split(' ')` yields at least one piece; no piece holds a space; exactly one piece iff the text has no space |
| `Auth.JoinSplit` | index.js:55 | joining the pieces with the separator gives back the original header (nothing is lost by splitting) |
| `Auth.SplitAtFirst` | index.js:55 | the text before the first separator is the first piece and the rest splits on its own |
| `Auth.TokenOf` | index.js:55 | the token (`split(' ')[1]`) is undefined iff the header holds no space; a present token holds no space |
| `Auth.BearerToken` | index.js:55 | for `<scheme> <token>` with no inner spaces, the extracted token is exactly `<token>` |
| `Auth.VerifyToken` | index.js:50-63 | no header gives 401; the request passes iff a non-empty token is present and the verifier accepts it, carrying the decoded claims; every rejection is 401 "forbidden access" |
| `Auth.VerifyAdmin` | index.js:65-74 | a pass carries the caller's claims unchanged; every refusal is 403 "forbidden access" |
| `Auth.AdminGate` | index.js:112 | a failed token check yields 401 before any admin lookup; a verified caller gets exactly `verifyAdmin`'s verdict on its claims; a pass is the token check's own pass |
| `Auth.AdminGateIsLive` | index.js:65-73 | the admin gate passes iff the token verifies and the current directory holds a record with the token's email whose role is exactly "admin"; otherwise a verified caller gets 403; the token's own role claim plays no part |
| `Auth.AdminStatus` | index.js:83-95 | 403 "unauthorized access" iff the path email differs from the token email; false when no account has that email |
| `Auth.AdminStatusMatchesDirectory` | index.js:88-94 | for the caller's own email the answer equals `verifyAdmin`'s verdict, and is true iff an admin record with that email exists |
| `Accounts.FindUser` | index.js:68 | `findOne({email})` returns a record of the directory with that email, and none iff no record has it |
| `Accounts.IsAdmin` | index.js:67-69 | a positive lookup means the directory holds a record with that email and role exactly "admin"; an email no record has is never an admin |
| `Accounts.AdminLookup` | index.js:66-69 | with unique emails, `user?.role === 'admin'` holds iff a record with that email and role exactly "admin" exists |
| `Accounts.Register` | index.js:101-108 | an email already present leaves the directory exactly as it is; otherwise exactly the body is appended under the new id; existing records are never altered or removed |
| `Accounts.RegisterKeepsEmailsUnique` | index.js:101-108 | after registration emails are still unique and a record with the registered email exists, so exactly one does |
| `Accounts.RegisterIdempotent` | index.js:102-105 | registering the same email a second time leaves the directory unchanged |
| `Accounts.RegisterTrustsBodyRole` | index.js:98-107 | a new account whose body claims role "admin" passes the admin lookup immediately |
| `Accounts.Promote` | index.js:114-120 | promotion keeps length, ids, emails and names; records with other ids are unchanged; records with the id get role "admin" |
| `Accounts.PromoteFirstMatch` | index.js:120 | with unique ids, `updateOne` on the first match equals promoting every record with that id |
| `Accounts.PromoteKeepsEmailsUnique` | index.js:114-120 | promotion keeps emails unique |
| `Accounts.PromoteGrantsAdmin` | index.js:114-120 | after promotion the promoted account passes the admin lookup |
| `Accounts.PromoteKeepsOthers` | index.js:114-120 | promotion does not change whether any other email is an admin |
| `Documents.Select` | index.js:189 | `find(filter)` returns exactly the stored documents that satisfy the filter, and never more than are stored |
| `Documents.FindFirst` | index.js:68 | `findOne(filter)` finds nothing iff no document satisfies the filter; what it finds is a stored document that satisfies it |
| `Documents.RemoveFirst` | index.js:204 | `deleteOne(filter)` removes exactly one document when one matches and none otherwise, and leaves only stored documents |
| `Documents.RemoveFirstSplice` | index.js:204 | `deleteOne(filter)` is the collection with the first matching document cut out, every other document kept in order; with no match it is the collection unchanged |
| `Documents.RemoveFirstKeepsOthers` | index.js:204 | every document that does not match the filter survives `deleteOne` |
| `Documents.WithoutIds` | index.js:235-238 | `deleteMany({_id: {$in: ids}})` keeps exactly the stored documents whose id is not listed |
| `Documents.RemoveFirstById` | index.js:203-204 | with unique ids, `deleteOne({_id})` equals deleting every document with that id |
| `Documents.WithoutAbsentIds` | index.js:235-238 | `deleteMany` over ids that no document has is a no-op |
| `Documents.WithoutIdsIdempotent` | index.js:235-238 | repeating the bulk delete removes nothing more |
| `Documents.SelectUniqueIds` | index.js:238 | deleting documents keeps the primary key unique |
| `Analytics.SumPrices` | index.js:259 | `$sum` over a ledger of non-negative prices is non-negative |
| `Analytics.Revenue` | index.js:264 | the reported revenue is 0 for an empty ledger and otherwise the sum of all prices (the missing group and the single group agree with the total) |
| `Analytics.RevenueGroups` | index.js:254-263 | the `$group` yields no group for an empty ledger and exactly one group otherwise |
| `Analytics.RevenueConcat` | index.js:254-264 | revenue of an empty ledger is 0, and revenue adds up over any split of the ledger |
| `Analytics.RevenueAfterPayment` | index.js:254-264 | appending one payment raises revenue by exactly its price |
| `Analytics.Unwind` | index.js:280 | an id is among the unwound rows iff some payment lists it |
| `Analytics.Matches` | index.js:283-291 | the rows `$lookup` plus `$unwind` give for one id are exactly the bodies of menu documents with that `_id` |
| `Analytics.Joined` | index.js:283-291 | a menu item is among the joined rows iff some unwound id matches a menu document with that body |
| `Analytics.AddRow` | index.js:294-298 | folding a row bumps its category's quantity by 1 and revenue by its price, or opens a new group (1, price) for a new category; other groups are unchanged |
| `Analytics.AddRowGroups` | index.js:293-299 | folding one more row into a correct grouping gives the correct grouping of the longer run |
| `Analytics.Group` | index.js:293-307 | each category appears at most once; a category appears iff some row has it; each quantity and revenue are that category's row count and price total |
| `Analytics.OrderStats` | index.js:277-310 | the pipeline's output is a correct grouping of the joined rows (distinct categories, exact counts and price totals), and is empty for an empty ledger |
| `Analytics.Resolve` | index.js:283-288 | a menu id resolves to nothing iff no menu document has that `_id` |
| `Analytics.MatchesResolve` | index.js:283-291 | with unique menu ids, `$lookup` then `$unwind` yields the referenced item alone, or no row for a dangling id |
| `Analytics.JoinedCounts` | index.js:279-298 | over the joined rows, each category's count and price total equal the number and total price of the ids resolving to that category |
| `Analytics.OrderStatsMeaning` | index.js:277-312 | each category at most once; present iff some (payment, menu item id) pair resolves to it; quantity is the number of such pairs and revenue their menu prices summed |
| `Analytics.DanglingPaymentIgnored` | index.js:283-292 | a payment whose menu ids all dangle leaves the order statistics unchanged |
| `Server.PaymentHistory` | index.js:224-227 | 403 "forbidden access" iff the path email differs from the token email; otherwise exactly the payments with that email |
| `Server.HistoryAfterPayment` | index.js:226 | a newly recorded payment is appended to its payer's history and to no one else's, everything else in order |
| `Server.Database.constructor` | index.js:34-38 | the store starts with the given menu and empty users, carts and payments, satisfying the invariant |
| `Server.Database.RegisterUser` | index.js:97-109 | the new directory is `Register` of the old; `insertedId` is null iff the email existed; exactly one record has the email afterwards; other collections unchanged |
| `Server.Database.MakeAdmin` | index.js:112-122 | a denied request changes nothing and carries the guard's status; an admin's request promotes the record with that id; `matchedCount` is 1 iff it exists; other collections unchanged |
| `Server.Database.AdminStatusRoute` | index.js:83-95 | a failed token check gives 401; a verified caller is refused iff the path email is not theirs, and then with 403 "unauthorized access"; otherwise the answer is the admin lookup of that email |
| `Server.Database.CartsRoute` | index.js:186-191 | exactly the cart items owned by the queried email |
| `Server.Database.AddCartItem` | index.js:194-198 | the cart store grows by the item under a fresh id |
| `Server.Database.DeleteCartItem` | index.js:201-206 | the item with that id is gone and every other item stays; the count is 1 iff the item existed |
| `Server.Database.RecordPayment` | index.js:231-232 | the ledger grows by exactly the payload under a fresh id; carts are not yet touched |
| `Server.Database.PurgeCarts` | index.js:235-238 | every cart item whose id is listed is gone and all others stay, whoever owns them |
| `Server.Database.CommitPayment` | index.js:230-241 | ledger is the old ledger plus the payload; no listed cart item remains; unlisted items stay; without `cartIds` the payment is still recorded and carts are unchanged |
| `Server.Database.PaymentsRoute` | index.js:223-228 | a failed token check gives 401; a mismatched email gives 403 "forbidden access"; the verified owner always gets an answer, exactly the caller's payments |
| `Server.Database.RevenueRoute` | index.js:244-274 | the route is refused iff the admin gate refuses, with the gate's status: 401 for a failed token, 403 "forbidden access" for a verified non-admin; a verified admin gets the sum of prices over the ledger |
| `Server.Database.OrderStatsRoute` | index.js:277-312 | the route is refused iff the admin gate refuses, with the gate's status: 401 for a failed token, 403 "forbidden access" for a verified non-admin; a verified admin gets a correct grouping of the joined rows |

## Left out

- JWT signing, the 365-day expiry and the cryptography of `jwt.verify` (index.js:41-47, 56) belong to a foreign library. Verification is the oracle parameter `verify`. A missing or empty token is rejected without consulting it, because `jsonwebtoken` rejects an undefined or empty token itself.
- Tokens whose payload has no `email` claim and requests without an `email` query parameter are not modelled. The store's treatment of `undefined` in a filter is not part of this model, so `Claims.email` and the query email are plain strings.
- `ObjectId` parsing (`new ObjectId(id)` throwing on a malformed id) is left out. Ids are abstract naturals. Only the missing-`cartIds` failure of `POST /payments` is modelled.
- Prices are JavaScript numbers. They are modelled as whole cents summed exactly, so floating-point rounding in `$sum` is not captured. `$sum` ignoring non-numeric prices is not modelled either.
- `/create-payment-intent` (index.js:209-221) is a network call to the payment provider, and its `parseInt(price * 100)` is floating point. It is not modelled.
- The counts in `/admin-stats` (index.js:245-247) come from `estimatedDocumentCount`, which is approximate by contract. Only the revenue field is modelled (`RevenueRoute`).
- `GET /users` and `DELETE /users/:id` (index.js:77-80, 124-129), the menu and review routes (index.js:135-183), the client setup and the connection lifecycle (index.js:1-38, 320-339) are plumbing outside this core.
- Interleaving of concurrent requests is not modelled; each handler runs to completion as one call. `RecordPayment` and `PurgeCarts` expose the intermediate state a failure between the two steps would leave.
- `Analytics.Group`: MongoDB's `$group` promises no output order. The model returns groups in first-appearance order, and every property proved about it is independent of that order.
- `$unwind` of a scalar `menuItemIds` (treated by the store as a one-element array) is not modelled; `menuItemIds` is always a sequence.
