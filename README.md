# Deposit ledger reconciliation, modelled in Dafny

The system takes deposits through the Paystack payment gateway and keeps a
ledger in a Firebase Realtime Database. Six Netlify functions make up the core:

- **`init-pay.js`** creates an `initiated` deposit under `deposits/{uid}/{depId}`. It also writes a transaction under `users/{uid}/transactions/{txId}` and a `pay_references/{reference}` index entry, all in one update, and then asks the gateway to initialize the payment.
- **`initializePayment.js`** asks the gateway first. It then pushes a `pending` deposit directly under `deposits`.
- **`webhook-paystack.js`** is the signed webhook. It resolves the reference through the index and writes the mapped status onto the deposit and its transaction.
- **`paystack-webhook.js`** is a second signed webhook. It scans every child of every child of `deposits` for the reference: the records at `deposits/{uid}/{pushId}`, and the fields of the records stored directly under `deposits`. On a success event it double-checks with the gateway, approves the matches and pushes an approved transaction. On a failure event it declines the matches.
- **`verifyPayment.js`** is the client-side confirmation. It approves every record directly under `deposits` that carries the confirmed reference.
- **`autoCancel.js`** is the sweep. It cancels every `pending` record directly under `deposits` that is more than thirty minutes old, and reports the count.

The database is a `Store.Database` object whose `root` maps a record's path to
its fields. A field-path update merges fields into a record (`Store.Patch`). A
`set`, or an update whose values are whole objects, replaces a record and
everything beneath it (`Store.Overwrite`). An update whose key lies at a stored
leaf field puts a record where the leaf was (`Store.PatchOverLeaves`); only
paystack-webhook's scan writes there. `push()` picks a key that no stored
path uses at that depth (`Store.Database.Push`).

Each handler is a method over the database. Its environment comes in as
parameters:
- the PAYSTACK secret;
- the HMAC function, left uninterpreted;
- the parsed request, where `None` means the body is unparsable;
- the gateway's reply, where `None` means the call or its `.json()` threw;
- one instant `now`;
- `Math.random`'s integer, a `nonce` in init-pay;
- the locale strings `timeTxt` and `date`.

Each handler's `ensures` lists every response code with the exact new ledger.
Lemmas beside each handler state what that ledger means: which records change,
which stay put, what a second run does, and how the handlers' records fit
together.

JavaScript semantics that the handlers rely on are in module `Js`:
- truthiness;
- `Number(...)`;
- `toLowerCase()`;
- `toString(radix)`;
- `${...}` rendering.

The handlers give fewer guarantees than a ledger is usually expected to give; the model follows the code:

- **No terminal-state guard.** Both webhooks write the new status whatever the stored status is, and verifyPayment approves a deposit even if it was already declined or cancelled.
- **No balance.** No handler credits a balance; `webhook-paystack.js:93` only leaves a comment.
- **No deduplication.** `paystack-webhook.js` pushes a new approved transaction for every processed success event that names a user (`PaystackWebhook.SuccessAddsOneRecord`).
- **The sweep covers less.** It cancels only status `pending`, and only records directly under `deposits`. The `initiated` deposits that init-pay writes at `deposits/{uid}/{depId}` are never swept (`AutoCancel.NestedUntouched`), and verifyPayment never approves them (`VerifyPayment.NestedUntouched`).
- **Unknown statuses pass through.** An unrecognised gateway status is written through, lowercased, rather than ignored (`WebhookPaystack.MapStatusTable`).
- **An event without a reference takes the flat deposits apart.** In paystack-webhook, `d.reference === reference` compares `undefined` with `undefined` for every truthy primitive field of a record directly under `deposits`. Each such field is replaced by a record holding status, updatedAt and paystackData (`PaystackWebhook.AbsentReferenceTakesLeaf`). With a reference, the flat deposits are left alone (`PaystackWebhook.ReferencedScanKeepsFlat`).
- **Amounts are not checked for sign in init-pay.** `"0"` and `"-5"` are accepted there (`InitPay.NonPositiveAccepted`). initializePayment refuses both (`InitializePayment.NonPositiveRefused`).

## Model

| member | source | states |
|---|---|---|
| Js.ToLower | netlify/functions/webhook-paystack.js:75 | `toLowerCase()` keeps the length and lowercases each character independently |
| Js.ToLowerIsLower | netlify/functions/webhook-paystack.js:75 | the result of lowercasing has no upper-case letter, and a string is its own lowercase exactly when it has none |
| Js.ToLowerIdempotent | netlify/functions/webhook-paystack.js:75 | lowercasing twice is lowercasing once |
| Js.Radix | netlify/functions/init-pay.js:50 | `n.toString(base)` is a non-empty string of digits of that base |
| Js.ParseRadixInverse | netlify/functions/init-pay.js:50 | reading back the digits of `n.toString(base)` gives `n` |
| Js.DecimalLength | netlify/functions/init-pay.js:50 | a number between 10^(k-1) and 10^k prints with exactly k decimal digits |
| Js.Truthy | netlify/functions/init-pay.js:35 | `!!f` on a request field: absent, null, false, 0 and "" are falsy, everything else truthy |
| Js.ToNumber | netlify/functions/init-pay.js:35 | `Number(f)` on a request field: absent is NaN, null 0, booleans 0 and 1, numbers themselves, strings as `ParseNumber` reads them |
| Js.ParseNumber | netlify/functions/init-pay.js:35 | `Number(s)` is a number exactly when `s` is empty, decimal digits, or a sign followed by at least one decimal digit |
| Js.ParseRadix | netlify/functions/init-pay.js:50 | a string reads as a number in a base exactly when it is a non-empty string of that base's digits |
| Js.InputString | netlify/functions/init-pay.js:44 | `${f}` of a request field: "undefined", "null", "true"/"false", the decimal digits of a number, or the string itself |
| Js.IntToString | netlify/functions/webhook-paystack.js:67 | `${n}` of an integer such as `Date.now()`: its decimal digits, with a leading `-` when negative; `NumberOfString` reads it back |
| Js.NumberOfString | netlify/functions/init-pay.js:35 | `Number(String(n))` is `n` for every integer, so a number sent as a numeric string is read as itself |
| Store.Patch | netlify/functions/webhook-paystack.js:82-95 | a field-path update adds exactly the written records, merges the written fields over each one's old fields (or the empty object), and leaves every other record as it was |
| Store.Overwrite | netlify/functions/webhook-paystack.js:67 | a `set` stores each written record as given, removes what lay beneath it, and leaves every other record as it was |
| Store.PatchOverLeaves | netlify/functions/paystack-webhook.js:76 | an update whose key lies at a stored leaf field puts the written record in the leaf's place and removes the leaf from its record; otherwise it merges fields as `Patch` does; records are only added |
| Store.PatchOverNoLeaf | netlify/functions/paystack-webhook.js:76 | when no key of the update lies at a stored leaf, the general update is `Patch` |
| Store.PatchOverNothing | netlify/functions/paystack-webhook.js:76 | an update with no keys changes nothing |
| Store.PatchStep | netlify/functions/autoCancel.js:15-26 | applying the loop's per-record updates one at a time equals applying them together |
| Store.OverwriteFresh | netlify/functions/initializePayment.js:46-58 | a `set` at a path that nothing occupies, at or beneath, adds exactly that record |
| Store.PushedPathFree | netlify/functions/init-pay.js:44-46 | a key that no stored path uses at the depth of its parent gives a child path that is free, at and beneath |
| Store.TruthyValue | netlify/functions/autoCancel.js:17 | truthiness of a stored value: missing, "", false, 0 and 0/100 are falsy; every other string, number and object is truthy |
| Store.Render | netlify/functions/webhook-paystack.js:83 | `${v}` of a stored value in a path template: "undefined" when missing, the string itself, "true"/"false", the decimal form of a number (hundredths printed as JavaScript prints `h / 100`), "[object Object]" for an object |
| Store.Stored | netlify/functions/init-pay.js:57 | a truthy request field is stored as a truthy value that renders, in a path template, as the field itself |
| Store.Database.UpdateFields | netlify/functions/webhook-paystack.js:95 | `db.ref().update(...)` with field paths leaves the database as `Patch` of its old content |
| Store.Database.UpdateOverLeaves | netlify/functions/paystack-webhook.js:76 | `db.ref().update(...)` whose keys may lie at stored leaves leaves the database as `PatchOverLeaves` of its old content |
| Store.Database.SetRecords | netlify/functions/init-pay.js:81 | `set`, or an update of whole objects, leaves the database as `Overwrite` of its old content |
| Store.Database.Push | netlify/functions/init-pay.js:45 | `push().key` is non-empty and is used by no stored path at that depth |
| WebhookPaystack.MapStatus | netlify/functions/webhook-paystack.js:75-80 | the ledger status is never empty and always lower-case |
| WebhookPaystack.MapStatusTable | netlify/functions/webhook-paystack.js:75-80 | after lowercasing, success/paid/approved and only these give approved; failed/declined give declined; abandoned/cancelled give cancelled; "" and processing give processing; any other word passes through |
| WebhookPaystack.MapStatusIdempotent | netlify/functions/webhook-paystack.js:75-80 | passing a ledger status through the mapping again leaves it unchanged |
| WebhookPaystack.Authentic | netlify/functions/webhook-paystack.js:24-38 | the secret is set and the signature header equals the HMAC of the raw body |
| WebhookPaystack.StatusText | netlify/functions/webhook-paystack.js:75 | the gateway status as text, or "" when it is missing |
| WebhookPaystack.EventReference | netlify/functions/webhook-paystack.js:54-55 | the reference of the event's data, missing when the data or its reference is missing |
| WebhookPaystack.HasReference | netlify/functions/webhook-paystack.js:57 | the event carries a non-empty reference |
| WebhookPaystack.EntryDeposit | netlify/functions/webhook-paystack.js:71-86 | the path `deposits/${uid}/${depId}` rendered from the index entry's fields |
| WebhookPaystack.EntryTransaction | netlify/functions/webhook-paystack.js:88-90 | the path `users/${uid}/transactions/${txId}` rendered from the index entry's fields |
| WebhookPaystack.MissRecord | netlify/functions/webhook-paystack.js:67 | the miss record: the whole payload and `receivedAt = now` |
| WebhookPaystack.StatusApplied | netlify/functions/webhook-paystack.js:82-95 | the deposit gains exactly status, updatedAt, reference and paystack_raw over its old fields; the transaction gains status and updatedAt when `txId` is truthy; no other path changes |
| WebhookPaystack.Handler | netlify/functions/webhook-paystack.js:23-97 | missing secret gives 500 and no write; bad signature gives 400 and no write; unparsable body or no reference gives 400 and no write; an unknown reference writes only `webhook_misses/{reference}/{now}` and gives 200; otherwise exactly four deposit fields change and, when `txId` is truthy, the transaction's status and updatedAt, and nothing else moves |
| PaystackWebhook.ReferenceMatches | netlify/functions/paystack-webhook.js:67-68 | `d.reference === reference` on a record: with no event reference, the record has no `reference` field; otherwise its `reference` is that string |
| PaystackWebhook.Matches | netlify/functions/paystack-webhook.js:65-68 | the records at `deposits/{uid}/{pushId}` whose reference compares equal to the event's; every one is such a stored record |
| PaystackWebhook.LeafMatches | netlify/functions/paystack-webhook.js:66-68 | a field of a record directly under `deposits`, visited as `d`, matches exactly when it is a truthy primitive and the event has no reference |
| PaystackWebhook.LeafTargets | netlify/functions/paystack-webhook.js:65-69 | the paths `deposits/{key}/{field}` of exactly the matching fields |
| PaystackWebhook.Targets | netlify/functions/paystack-webhook.js:65-69 | everything the scan writes beneath is a path of three segments under `deposits`; with an event reference it is just the matching records |
| PaystackWebhook.Resolution | netlify/functions/paystack-webhook.js:70-72 | the three fields written beneath each match: the status, `updatedAt = now`, the gateway data as `paystackData` |
| PaystackWebhook.Resolved | netlify/functions/paystack-webhook.js:62-76 | the ledger after the scan: the general update writing the resolution beneath every target of the scan |
| PaystackWebhook.CollectLeaves | netlify/functions/paystack-webhook.js:66-73 | the inner loop over a flat deposit's fields collects exactly the matching fields, each with the same three fields |
| PaystackWebhook.CollectUpdates | netlify/functions/paystack-webhook.js:64-75 | the nested loops collect exactly the scan's targets, matching records and matching fields alike, each with the same status, updatedAt and gateway data |
| PaystackWebhook.ScanFrame | netlify/functions/paystack-webhook.js:64-76 | after the scan's update, matching records carry the new fields over their old ones; each matching field has become a record holding the new fields and is gone from its deposit; the flat deposits keep every other field; every other record is unchanged; only the matched fields' records are added |
| PaystackWebhook.ReferencedScanKeepsFlat | netlify/functions/paystack-webhook.js:67-68 | a scan for an event that has a reference leaves each flat deposit unchanged, unless one of its fields is also the key of a nested deposit |
| PaystackWebhook.ReferencedScanKeepsKeys | netlify/functions/paystack-webhook.js:65-76 | a scan for an event that has a reference adds no record |
| PaystackWebhook.AbsentReferenceTakesLeaf | netlify/functions/paystack-webhook.js:67-72 | for an event without a reference, every truthy primitive field of a flat deposit is removed from it, and a record holding the new fields stands at its path |
| PaystackWebhook.IsSuccessEvent | netlify/functions/paystack-webhook.js:49 | the event is `charge.success` or its data's status is success |
| PaystackWebhook.IsFailedEvent | netlify/functions/paystack-webhook.js:95 | the event is `charge.failed` or its data's status is failed |
| PaystackWebhook.Verified | netlify/functions/paystack-webhook.js:58 | the verify answer is ok and its data's status is success |
| PaystackWebhook.ApprovedTransaction | netlify/functions/paystack-webhook.js:82-89 | the pushed transaction: amount in hundredths, action deposit, status approved, the event's reference, `now`, the gateway data |
| PaystackWebhook.Approve | netlify/functions/paystack-webhook.js:62-76 | the ledger after a verified success: the scan for the event's reference, resolved as approved with the verified data |
| PaystackWebhook.Succeeded | netlify/functions/paystack-webhook.js:62-90 | the approved ledger; and, when the gateway names a user, one approved transaction more, at a key under that user's transactions that nothing used |
| PaystackWebhook.Processed | netlify/functions/paystack-webhook.js:44-118 | what a signed, parsed event does: no data on a success event gives 500; a throwing verify call gives 500 with no write; a throwing insert gives 500 after the approvals; otherwise the success branch, then on a failure event the decline of what the success branch left; 200 |
| PaystackWebhook.Signed | netlify/functions/paystack-webhook.js:28-36 | the secret is set and the signature header equals the HMAC of the body |
| PaystackWebhook.InsertThrows | netlify/functions/paystack-webhook.js:80-89 | the insert throws exactly when the gateway names a user and the record has an `undefined` reference or a NaN amount |
| PaystackWebhook.SuccessAddsOneRecord | netlify/functions/paystack-webhook.js:79-90 | a processed success event that names a user adds exactly one record to the ledger, however often it is replayed |
| PaystackWebhook.ApproveVerified | netlify/functions/paystack-webhook.js:62-90 | after a verified success, the scan approves what it matches; a transaction is pushed at a new key when the gateway names a user; the insert throws, after the approvals, when the event had no reference or the gateway's amount is not a number |
| PaystackWebhook.Resolve | netlify/functions/paystack-webhook.js:62-76 | the scan and its update, issued only when something matched, leave the ledger as the general update of the scan's targets |
| PaystackWebhook.PushTransaction | netlify/functions/paystack-webhook.js:81-89 | the new transaction lands at a key under `users/{uid}/transactions` that nothing used, and nothing else changes |
| PaystackWebhook.SucceedCharge | netlify/functions/paystack-webhook.js:49-92 | a failed verify call gives an error with no write; a verify answer that is not ok or not success writes nothing; a verified one approves as above |
| PaystackWebhook.DeclineCharge | netlify/functions/paystack-webhook.js:95-111 | the scan declines what it matches, with the event's data as `paystackData`, and nothing else changes |
| PaystackWebhook.Handler | netlify/functions/paystack-webhook.js:28-118 | an unset secret throws before anything; bad signature or unparsable body gives 400 with no write and no gateway call; the success branch runs first and the failure branch on what it left; an event naming success without data gives 500; a throwing insert gives 500 after the approvals and skips the failure branch |
| AutoCancel.IsOld | netlify/functions/autoCancel.js:17 | `now - (createdAt or 0) > THIRTY_MIN` with JavaScript's coercions of a falsy, boolean, numeric-string or object `createdAt` |
| AutoCancel.IsStale | netlify/functions/autoCancel.js:17 | a deposit is stale when its status is `pending` and it is old |
| AutoCancel.FlatDeposits | netlify/functions/autoCancel.js:15 | the children of `deposits` that the sweep visits |
| AutoCancel.StalePaths | netlify/functions/autoCancel.js:15-17 | the children of `deposits` that are stale at `now` |
| AutoCancel.CancelFields | netlify/functions/autoCancel.js:18-23 | the four fields the cancellation writes: status cancelled, `timestamp = now`, time and date text |
| AutoCancel.Swept | netlify/functions/autoCancel.js:15-26 | the ledger after the sweep: the cancellation fields merged into every stale deposit |
| AutoCancel.MissingCreatedAtIsZero | netlify/functions/autoCancel.js:17 | a deposit without `createdAt` is swept exactly when it is pending and `now` exceeds thirty minutes |
| AutoCancel.StaleByAge | netlify/functions/autoCancel.js:12-17 | a pending deposit is swept exactly when `now - createdAt` is strictly greater than 30·60·1000 |
| AutoCancel.SweptRecords | netlify/functions/autoCancel.js:17-23 | each stale deposit becomes cancelled with `timestamp = now` and keeps its other fields; every other record is unchanged; none is added or removed |
| AutoCancel.CountBound | netlify/functions/autoCancel.js:13-28 | the count is at most the number of deposits |
| AutoCancel.SweepIdempotent | netlify/functions/autoCancel.js:17-19 | a second sweep at the same instant finds nothing stale and leaves the ledger as the first left it |
| AutoCancel.NestedUntouched | netlify/functions/autoCancel.js:9-15 | deposits at `deposits/{uid}/{depId}` are never swept |
| AutoCancel.Handler | netlify/functions/autoCancel.js:6-28 | the handler answers 200, reports the number of stale deposits, and leaves the ledger swept |
| VerifyPayment.ByReference | netlify/functions/verifyPayment.js:33 | the query returns the records directly under `deposits` whose `reference` is the string |
| VerifyPayment.ChargeSucceeded | netlify/functions/verifyPayment.js:30 | the verify answer has data whose status is success |
| VerifyPayment.ApprovalFields | netlify/functions/verifyPayment.js:40-50 | the four fields the approval writes: status approved, `timestamp = now`, time and date text |
| VerifyPayment.Approved | netlify/functions/verifyPayment.js:31-50 | the ledger after the confirmation: the approval fields merged into every deposit the query returns |
| VerifyPayment.ApprovedRecords | netlify/functions/verifyPayment.js:33-50 | each deposit carrying the reference becomes approved with `timestamp = now` and keeps its other fields; every other record is unchanged |
| VerifyPayment.NoMatchNoChange | netlify/functions/verifyPayment.js:35-38 | with no matching deposit nothing is written |
| VerifyPayment.ApprovalIdempotent | netlify/functions/verifyPayment.js:40-50 | confirming the same reference twice at the same instant changes nothing the first confirmation did not |
| VerifyPayment.NestedUntouched | netlify/functions/verifyPayment.js:32-33 | deposits at `deposits/{uid}/{depId}` are never approved here |
| VerifyPayment.ApproveAll | netlify/functions/verifyPayment.js:31-50 | the query and its per-record updates leave the ledger approved for the reference |
| VerifyPayment.Handler | netlify/functions/verifyPayment.js:8-53 | missing secret or unparsable body gives 500 and no call; missing reference gives 400 and no call; a throwing call gives 500; `status !== true` gives 400; all with no write; otherwise 200, approving only when `data.status` is success |
| InitPay.Validate | netlify/functions/init-pay.js:34-37 | a request is refused when uid or amount is falsy or `Number(amount)` is NaN; otherwise the amount is `Number(amount)` |
| InitPay.AcceptsPrintedAmount | netlify/functions/init-pay.js:35 | a non-zero integer sent as its decimal string is accepted as itself |
| InitPay.ValidateCases | netlify/functions/init-pay.js:34-37 | with a uid, an absent or null amount is refused; `true` is 1 and `false` refused; a number is accepted when non-zero; a string when non-empty and numeric |
| InitPay.MissingUidRejected | netlify/functions/init-pay.js:35 | a request without a truthy uid is refused |
| InitPay.NonPositiveAccepted | netlify/functions/init-pay.js:35 | the amounts "0" and "-5" are accepted as 0 and -5 |
| InitPay.Reference | netlify/functions/init-pay.js:50 | the reference starts with `AMR-` and is at least seven characters long |
| InitPay.ReferenceRoundTrip | netlify/functions/init-pay.js:50 | a reference `AMR-<now base 36>-<nonce>` gives back the instant and the nonce |
| InitPay.ReferenceInjective | netlify/functions/init-pay.js:50 | two references are equal only when built from the same instant and nonce |
| InitPay.NonceDigits | netlify/functions/init-pay.js:50 | a nonce in [10000, 99999] prints as five digits, so the reference is 10 characters longer than the base-36 instant |
| InitPay.DepositRecord | netlify/functions/init-pay.js:52-60 | the deposit: `Number(amount)`, status initiated, `now` twice, the uid, the reference, the note |
| InitPay.TransactionRecord | netlify/functions/init-pay.js:64-73 | the transaction: credit, deposit, the amount, status initiated, `now` twice, the deposit id, created by system |
| InitPay.IndexEntry | netlify/functions/init-pay.js:79 | the index entry: uid, deposit id, transaction id, `now` |
| InitPay.InitWrites | netlify/functions/init-pay.js:76-79 | the multi-path update: the deposit at `deposits/${uid}/${depId}`, the transaction at `users/${uid}/transactions/${txId}`, the index entry at `pay_references/${reference}` |
| InitPay.ThreeRecords | netlify/functions/init-pay.js:76-79 | the update writes three distinct records |
| InitPay.IndexResolves | netlify/functions/init-pay.js:77-79 | the index entry leads the signed webhook to the deposit and the transaction written beside it, and its `txId` is truthy |
| InitPay.WebhookFindsDeposit | netlify/functions/init-pay.js:76-81 | after the write, the index entry exists and points at an `initiated` deposit and an `initiated` transaction that exist |
| InitPay.Handler | netlify/functions/init-pay.js:26-120 | for a nonce in the range of `Math.floor(Math.random()*90000+10000)`: bad JSON or invalid input gives 400 with no write; otherwise the three records are written at fresh deposit and transaction keys before the secret check, so 500 (no secret, throwing call) and 502 (not ok, no data) leave them; 200 returns the gateway's data |
| InitializePayment.Validate | netlify/functions/initializePayment.js:15-22 | missing when uid, amount or email is falsy; invalid when `Number(amount)` is NaN or at most 0; otherwise accepted with that amount |
| InitializePayment.ValidatorsAgree | netlify/functions/initializePayment.js:15-22 | this handler accepts a request with amount n exactly when init-pay accepts it with amount n, n is positive, and the email is truthy |
| InitializePayment.ValidateMeaning | netlify/functions/initializePayment.js:15-22 | a request is accepted exactly when uid and email are truthy and `Number(amount)` is a number greater than 0, and the accepted amount is that number; it is refused as missing exactly when a field is falsy |
| InitializePayment.NonPositiveRefused | netlify/functions/initializePayment.js:19-22 | the amounts "0" and "-5" are refused as invalid |
| InitializePayment.PendingDeposit | netlify/functions/initializePayment.js:47-56 | the deposit: uid, email, `Number(amount)`, status pending, the gateway's reference, `createdAt = now`, date and time text |
| InitializePayment.PendingExpires | netlify/functions/initializePayment.js:51-53 | the new deposit is swept exactly when it is more than thirty minutes old |
| InitializePayment.ConfirmationApprovesDeposit | netlify/functions/initializePayment.js:47-58 | the client-side confirmation of the gateway's reference approves the new deposit, which keeps its uid, email and amount |
| InitializePayment.Initialized | netlify/functions/initializePayment.js:38-58 | the gateway answer is ok, its status true, and its data carries a reference |
| InitializePayment.PushDeposit | netlify/functions/initializePayment.js:46-58 | the new deposit lands at a key directly under `deposits` that nothing used; exactly one record is added |
| InitializePayment.Handler | netlify/functions/initializePayment.js:8-67 | missing secret or unparsable body gives 500, invalid input 400, all with no write and the gateway called only for valid input; a failed gateway answer, missing data, or data without a reference gives 500 with no write; on success exactly one `pending` deposit is added at a fresh key, the confirmation query for the gateway's reference finds it, and the gateway's data is returned |

## Left out

- HMAC-SHA512 is a parameter of the webhooks. Only the equality check is modelled.
- The gateway calls (`fetch`) are not modelled. Each reply is an input whose fields the handlers read: `ok`, `status`, `data.status`, `data.reference`, `data.amount`, `data.metadata.uid`, `data.authorization_url`.
- Firebase setup (`config.js`, `ensureFirebase`, `initializeApp`) is not part of this model. An exception it raises, which becomes a 500, is not modelled.
- `getUser.js` and `paystack.js` are not part of this model. They only read or answer constants.
- `JSON.parse` is an input branch. A body that parses to JSON `null` is not distinguished from one that does not parse, and neither is a request field that holds an object or array.
- The HTTP method checks (405) and the response bodies other than init-pay's and initializePayment's returned data are not modelled.
- Async behaviour is sequential in the model: `await`, `Promise.all`, and autoCancel's updates, which are not awaited.
- Several `Date.now()` / `new Date()` calls within one handler are one instant `now`.
- Locale strings are parameters: `toLocaleTimeString`, and the date from `toISOString`.
- Floating point is left out. Amounts are integers. The gateway's `amount / 100` is kept exactly as hundredths. The kobo conversion `Math.round(amount * 100)` sent to the gateway is not modelled.
- Js.ParseNumber: `Number(s)` accepts only an optional sign and decimal digits. Fractions, exponents, hexadecimal, surrounding whitespace and `Infinity` are read as NaN, so init-pay and initializePayment refuse such amounts in the model.
- Js.ToLower: lowercases ASCII letters only.
- Firebase's refusal of `.`, `#`, `$`, `[`, `]` or `/` in keys is not modelled. A reference or uid with `/` would address a deeper path.
- Store.Database.Push: the key is chosen to avoid every stored key at that depth. The timestamp-and-random format of Firebase push IDs is not modelled.
- WebhookPaystack.Handler: the stored index entry is read as fields. An index value that is not an object is not modelled.
- PaystackWebhook.Handler: the gateway's `data.status`, `data.reference` and `metadata.uid` are strings or absent, and `data.amount` is a number, a numeric string or absent. Other JSON types there are not modelled.
- WebhookPaystack.Handler: the event's `data.status` and `data.reference` (`webhook-paystack.js:57`, `:75`) are strings or absent. Other JSON types there are not modelled.
- PaystackWebhook.CollectUpdates: a field of a flat deposit that holds an object (a stored charge or event) is not visited as a child. Neither is a node at `deposits/{uid}/{pushId}` that has only deeper children. The scan would compare their `reference` too.
- Store.Patch: the other handlers' updates are modelled by `Patch`, which keeps a leaf that a written record would displace. Their written records sit at deposit, transaction and index keys, not at field names.
- InitializePayment.Handler: a gateway answer without `authorization_url` is not distinguished. The handler only returns it.
- The skip of an empty `updates` object (`paystack-webhook.js:76`) is modelled. Its effect cannot be observed, because an empty update stores nothing either.
