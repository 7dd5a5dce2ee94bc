# A small in-memory ledger: users, transactions and their request handlers

This project is a Dafny model of the core of a small Express and MongoDB
service. The service keeps a table of users keyed by document id and an
append-only collection of transactions. Its HTTP handlers validate a request
and then read or change that state:

- register, log in, look up users;
- overwrite a user's balance;
- create a transaction, which credits its one user's balance with the total;
- list transactions, filtered, newest first, ten to a page.

The model:

- `Ledger.Store` is a class holding `users: map<Id, User>` and
  `transactions: seq<Transaction>`, with one method per state-changing or
  state-reading handler. Each method returns the response (status code and
  message) and states the exact new state. `Store.Valid()` is the invariant
  the handlers keep:
  - each user is stored under its own id, a generated identifier spelled in
    lower case;
  - emails are unique;
  - every record and user satisfies its schema's required fields;
  - every record belongs to a stored user.
  `Store.Opening(id)` is a user's balance minus the totals the records
  credited to it. Creating a transaction and registering leave it unchanged
  for every user. Overwriting a balance changes it for that user only.
- `TransactionRoutes.CreateOutcome` states the create handler's validation
  chain as a function: required fields, integer total, items, user lookup,
  first failure wins. Lemmas state each rejection and the created record.
- `TransactionListing.List` is the listing handler as a pure function: filter,
  sort newest first (an insertion sort proved sorted and a permutation), skip
  `(page - 1) * 10`, take ten, attach `{ id, name, email }` of each record's
  user.
- `TransactionModel` and `UserModel` are the record shapes, the two
  enumerations with their defaults, and `setPassword`/`validatePassword`.
  The hash is a deterministic total function `kdf` that the store is built
  with. The salt is a parameter.
- `ObjectIds` is the identifier check and the cast every lookup applies:
  a well-formed id is 24 hex digits, and its letters are read without regard
  to case, so every lookup and the listing's user filter compare canonical
  (lower-case) spellings, and a created record stores the canonical one.
- `JsValues` models the JSON values a request body carries, with JavaScript
  truthiness, `Number.isInteger`, `typeof … === "number"`, `Array.isArray`
  and property access.

Two design points. Request string fields use `""` for an absent field; the
handlers treat the two the same, since both are falsy. `total`, `items` and
the balance of a balance update stay raw JSON values, because the handlers
test their runtime type.

Creating a transaction is not a transfer between two users: there is no
sender, no debit and no insufficient-balance check. It credits the one named
user with `total`, and any non-zero integer is accepted, negative ones
included.
No database transaction wraps the two writes. The model follows the code.

## Model

| member | source | states |
|---|---|---|
| `Http.Response.Word` | src/lib/httpResponse.ts:17-18 | the status word the response helper derives from a code is "success" exactly when the code is below 400, "error" otherwise |
| `JsValues.Property` | src/routes/transactions.ts:90 | reading a field throws exactly on null and undefined; a defined result comes from an object holding that key |
| `JsValues.IntegersAreIntegers` | src/routes/transactions.ts:86-88 | every integer, negative ones included, passes `Number.isInteger` |
| `ObjectIds.Canonical` | src/routes/user.ts:35 | casting keeps exactly the well-formed ids well-formed, yields the lower-case spelling, and leaves a canonical id unchanged |
| `ObjectIds.CaseDoesNotMatter` | src/routes/transactions.ts:95 | two spellings of an id that differ in the case of a hex letter cast to the same identifier |
| `TransactionModel.ParsePaymentMethod` | src/models/transaction.ts:36-40 | only CASH, CARD, UPI, OTHER are accepted, each naming its member |
| `TransactionModel.PaymentMethodRoundTrip` | src/models/transaction.ts:36-40 | parsing accepts a string as a member exactly when it is that member's name |
| `TransactionModel.PaymentMethodField` | src/models/transaction.ts:36-40 | an absent payment method defaults to CASH; a present one is valid exactly when it is in the enumeration |
| `TransactionModel.ParseStatus` | src/models/transaction.ts:41-45 | only PENDING, PAID, FAILED are accepted, each naming its member |
| `TransactionModel.StatusRoundTrip` | src/models/transaction.ts:41-45 | parsing accepts a string as a status exactly when it is that status's name |
| `TransactionModel.StatusField` | src/models/transaction.ts:41-45 | an absent status defaults to PENDING; a present one is valid exactly when it is in the enumeration |
| `TransactionModel.NewTransaction` | src/models/transaction.ts:24-45 | a new record keeps the given user, total, description, business and items; the date defaults to the clock; method CASH and status PENDING |
| `UserModel.PublicForgetsOnlySecrets` | src/routes/user.ts:65-66 | two users have the same response view exactly when they differ at most in passwordHash and passwordSalt |
| `UserModel.UserDocument.constructor` | src/models/user.ts:20-24 | a new user document has balance 0 when none is given and the other given fields |
| `UserModel.UserDocument.SetPassword` | src/models/user.ts:32-37 | setPassword stores the salt and the digest of the password under it, changes no other field, and the password then validates |
| `UserModel.User.ValidatePassword` | src/models/user.ts:40-45 | a password validates when its digest under the stored salt equals the stored digest; a document with empty password fields accepts no password (the model's stand-in for an unset digest, which no handler validates; the source would throw there) |
| `UserModel.SetThenValidate` | src/models/user.ts:32-45 | after setPassword(p) with any salt, validatePassword(p) is true |
| `UserModel.OtherPasswordNeedsCollision` | src/models/user.ts:40-45 | another password validates only if it hashes, under the stored salt, to the same digest |
| `TransactionRoutes.ScanItems` | src/routes/transactions.ts:90-92 | the items scan passes exactly when every item has a truthy title, quantity and price; otherwise the first bad item decides: it throws if that item is null or undefined, else the items are reported incomplete |
| `TransactionRoutes.ToItems` | src/models/transaction.ts:29-35 | the schema cast of the items succeeds exactly when every item casts, keeping length and order |
| `TransactionRoutes.CreateOutcome` | src/routes/transactions.ts:79-108 | the checks run in order and the first failure decides; a created record belongs to a stored user under the canonical spelling of the requested id, is PENDING and CASH, carries the request's date and total and satisfies the schema; every rejection is a 400 or a 500 |
| `TransactionRoutes.MissingFieldsFirst` | src/routes/transactions.ts:82-84 | a falsy user, total, description, date, business or items gives 400 "Missing required fields" before any other check |
| `TransactionRoutes.ZeroTotalIsMissing` | src/routes/transactions.ts:82-84 | a total of 0 is rejected as a missing field |
| `TransactionRoutes.FractionalTotalRejected` | src/routes/transactions.ts:86-88 | a fractional total gives 400 "Total must be a whole number (in INR)" |
| `TransactionRoutes.NonNumericTotalRejected` | src/routes/transactions.ts:86-88 | a truthy total that is not a number gives the same 400 |
| `TransactionRoutes.ItemsNotArrayRejected` | src/routes/transactions.ts:90-92 | a truthy non-array items gives 400 "Items must have title, quantity, and price" |
| `TransactionRoutes.IncompleteItemRejected` | src/routes/transactions.ts:90-92 | the first non-null item lacking a truthy title, quantity or price (0 included) gives the items 400 |
| `TransactionRoutes.EmptyItemsPass` | src/routes/transactions.ts:90-98 | an empty items array passes the items check; the outcome is then decided by the user lookup |
| `TransactionRoutes.UnknownUserRejected` | src/routes/transactions.ts:94-98 | a well-formed id that names no stored user gives 400 "User not found", not 404 |
| `TransactionRoutes.MalformedUserFails` | src/routes/transactions.ts:95 | a user that is not a well-formed id makes the lookup throw: 500, whatever the users table holds |
| `TransactionRoutes.UserCaseIgnored` | src/routes/transactions.ts:95-102 | the outcome does not depend on the case of the user id's hex letters |
| `TransactionRoutes.WellFormedRequestCreates` | src/routes/transactions.ts:100-108 | any non-zero integer total, negative ones included, with complete items and a known user creates the record with exactly the request's fields, the user in canonical spelling, CASH and PENDING |
| `TransactionListing.Matches` | src/routes/transactions.ts:31-45 | a query with no filter keeps every record; crossed date bounds or crossed total bounds keep none |
| `TransactionListing.FilterCounts` | src/routes/transactions.ts:31-45 | the filtered records are exactly the matching ones, each as often as it occurs |
| `TransactionListing.InsertKeepsOrder` | src/routes/transactions.ts:49 | inserting a record into a newest-first sequence keeps it newest first and adds exactly that record |
| `TransactionListing.SortIsOrderedPermutation` | src/routes/transactions.ts:49 | the order is by date, newest first, and is a permutation of its input |
| `TransactionListing.OrderedIsSortedMatches` | src/routes/transactions.ts:31-49 | the sequence pages are cut from is newest first and holds every matching record as often as it is stored, and nothing else |
| `TransactionListing.Window` | src/routes/transactions.ts:50-51 | the page holds at most ten records, the ones at positions skip to skip + 9 |
| `TransactionListing.PopulateAll` | src/routes/transactions.ts:52 | each listed record is paired with its user's id, name and email, or null if the user is gone |
| `TransactionListing.List` | src/routes/transactions.ts:47-58 | page below 1 (negative skip) gives 500; otherwise 200 and at most ten entries, entry i being the (skip + i)-th newest matching record |
| `TransactionListing.ListedRecordsMatchNewestFirst` | src/routes/transactions.ts:31-52 | every listed record matches the filters and the page is ordered by date, newest first |
| `TransactionListing.EveryMatchOnSomePage` | src/routes/transactions.ts:47-51 | every matching record whose date no other match shares appears on some page |
| `TransactionListing.MalformedUserFilterIgnored` | src/routes/transactions.ts:31-33 | a user filter that is not a valid id is dropped: the listing equals the unfiltered one |
| `TransactionListing.UserFilterIgnoresCase` | src/routes/transactions.ts:31-32 | a well-formed user filter lists the same as its canonical spelling |
| `TransactionListing.BoundsInclusive` | src/routes/transactions.ts:35-45 | date and total bounds are inclusive |
| `TransactionListing.ListedUsersPopulated` | src/routes/transactions.ts:52 | when every record's user exists, every listed record carries that user's id, name and email |
| `Ledger.CreditedAppend` | src/routes/transactions.ts:110-113 | appending a record adds its total to its own user's credited sum and to no other |
| `Ledger.Store.AllUsers` | src/routes/user.ts:13-16 | every user is returned, under its id, without password fields |
| `Ledger.Store.GetUser` | src/routes/user.ts:31-38 | an invalid id gives 400; otherwise the id is looked up in canonical spelling: a missing user 404, else 200 with that user's public view; nothing changes |
| `Ledger.NewUser` | src/routes/user.ts:51-61 | the new user keeps its id and email, has balance 0 when none is given, satisfies the schema when the required fields are present, and its password validates |
| `Ledger.Store.Register` | src/routes/user.ts:51-68 | missing fields give 400; a registered email gives 400; otherwise exactly one user is added (balance 0 and sampatirli "" by default) whose password validates, and 201; emails stay unique |
| `Ledger.Store.SaveUser` | src/routes/user.ts:63 | saving a well-formed user under a fresh canonical id keeps the store invariant; the new user's opening balance is its balance and no one else's changes |
| `Ledger.Store.Login` | src/routes/user.ts:83-93 | missing email or password gives 400; 200 exactly when the user with that email validates the password; an unknown email and a wrong password give the same 400; nothing changes |
| `Ledger.Store.PutBalance` | src/routes/user.ts:109-127 | invalid id 400, non-number balance 400, unknown user (in canonical spelling) 404; otherwise 200 with that user's balance set to exactly the given value and nothing else changed |
| `Ledger.Store.CreateTransaction` | src/routes/transactions.ts:79-116 | a rejection leaves the store unchanged; success appends exactly one record, credits that user's balance by total, keeps every other user and earlier record, and answers 201 |
| `Ledger.Store.SaveRecord` | src/routes/transactions.ts:110 | saving the record appends it and keeps the store invariant; until the credit, its user's opening balance reads lower by the total |
| `Ledger.Store.Credit` | src/routes/transactions.ts:113-114 | crediting adds the amount to exactly one user's balance, keeps the store invariant and raises only that user's opening balance by the amount |
| `Ledger.SetBalanceKeepsWellFormed` | src/routes/user.ts:117-121 | overwriting one user's balance keeps every user and record well-formed and emails unique |
| `Ledger.AddUserKeepsWellFormed` | src/routes/user.ts:57-63 | adding a well-formed user with a fresh canonical id and an unused email keeps every user and record well-formed and emails unique |
| `Ledger.Store.ListTransactions` | src/routes/transactions.ts:47-54 | the listing of the stored records; because every record's user is stored, each listed record carries its user's id, name and email, never null |
| `Ledger.Store.SaveAndCredit` | src/routes/transactions.ts:110-114 | the two writes append the record and add total to its user's balance, keeping the store invariant and every user's opening balance |

## Left out

- HTTP routing, the request and response objects, and the database calls.
  The collections are a map and a sequence. Database failures other than
  the ones listed here (connection errors, timeouts) are not modelled.
- The clock, `randomBytes` and ObjectId generation are parameters: `now`,
  `salt` and `newId`; `newId` is a well-formed id in lower case, as a
  generated one always is. PBKDF2 is the store's abstract `kdf`.
- A two-party transfer is not modelled: sender debit, insufficient-balance
  check, atomic unit of work, retries, PAID status. The code has none of
  them.
- The code saves the record and then the user in two separate writes. The
  model performs both in one method call. A failure between the two writes
  (record saved, balance not credited) is not modelled.
- Concurrent requests, and the race between the email lookup and the
  insert at registration, are not modelled.
- Query-string parsing (`Number(page)`, `Number(totalFrom)`, `new Date(dateFrom)`)
  and parsing of the request's date are not modelled. They arrive as the
  integers they denote. An unparsable value is not modelled, and neither is
  a non-integer page such as `page=1.5`, which the source turns into a
  fractional skip (`skip(5)`); the model's page is an integer.
- Floating point: JSON numbers are modelled as exact reals, so rounding and
  integers beyond 2^53 are not modelled.
- Mongoose casting: a number given for a string field, or a numeric string
  given for a number field, is stored after conversion by the library. The
  model keeps only values that already have the schema's type. Items of any
  other shape make the save fail with 500. Registration's name, email, color,
  password and balance are typed as the schema casts them.
- `ObjectIds.ValidId` is taken as "24 hexadecimal digits", the BSON
  library's rule for strings. Older library versions also accepted any
  12-character string.
- `TransactionListing.List`, `TransactionListing.MalformedUserFilterIgnored`,
  `TransactionListing.UserFilterIgnoresCase`, `Ledger.Store.ListTransactions`:
  ties in date order are resolved one fixed way. The database sorts on the
  date alone and fixes no order among equal dates; two queries for
  consecutive pages may even order a tie differently, so a record can be
  listed twice or not at all. `List`, and the members stated through it, give
  the page cut from the model's own order among equal dates (stored order,
  by a stable insertion sort), which is one of the orders the database may
  choose, not the only one. What holds in every order is stated by
  `TransactionListing.ListedRecordsMatchNewestFirst`,
  `TransactionListing.ListedUsersPopulated` and
  `TransactionListing.EveryMatchOnSomePage`.
- `TransactionListing.EveryMatchOnSomePage` promises a page only to a record
  whose date no other matching record shares. A record tied with another can
  fall between pages in the source.
- `Ledger.Store.Login`, `Ledger.Store.Register`, `TransactionRoutes.CreateOutcome`:
  body fields are assumed to carry their declared JSON type (strings for
  email, password, name, color, user, description and business, an instant
  for date). A query-operator object such as `{"$gt": ""}` given as an email,
  which makes the email lookup select an arbitrary user, and any other
  non-string value of those fields are not modelled; neither is a falsy
  non-string date such as the number 0, which the source refuses as missing.
- The JSON envelope the response helper writes (status word, message, data)
  is not modelled: handlers return the code and the message, and
  `Http.Response.Word` only states the rule for the status word.
- `createdAt`/`updatedAt` timestamps, and the `lean`/`select`/`toObject`
  conversions, are not modelled; responses carry the public view of a user
  instead.
- Admin bulk deletion, rate limiting, request logging, the database
  connection, JWT helpers and server bootstrap are not part of this model.
