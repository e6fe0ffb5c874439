/**
 * `netlify/functions/webhook-paystack.js`: the signed gateway webhook that
 * resolves a reference through `pay_references/{reference}` and writes the
 * mapped status onto the deposit and, when the index names one, its
 * transaction, in one multi-path update.
 *
 * The new status is written whatever the stored status is, and no balance is
 * touched.
 */
module WebhookPaystack {
  import opened Js
  import opened Gateway
  import opened Store

  /** The gateway status words the handler recognises, and the empty status. */
  const Recognised: set<string> := {"success", "paid", "failed", "declined", "abandoned", "cancelled", ""}

  /** The ledger status for a gateway status. */
  function MapStatus(raw: string): (r: string)
    ensures r != ""
    ensures IsLower(r)
  {
    ToLowerIsLower(raw);
    var s := ToLower(raw);
    if s == "success" || s == "paid" then "approved"
    else if s == "failed" || s == "declined" then "declined"
    else if s == "abandoned" || s == "cancelled" then "cancelled"
    else if s == "" then "processing"
    else s
  }

  /** Each ledger status and the gateway statuses that lead to it. */
  lemma MapStatusTable(raw: string)
    ensures MapStatus(raw) == "approved" <==> ToLower(raw) in {"success", "paid", "approved"}
    ensures MapStatus(raw) == "declined" <==> ToLower(raw) in {"failed", "declined"}
    ensures MapStatus(raw) == "cancelled" <==> ToLower(raw) in {"abandoned", "cancelled"}
    ensures MapStatus(raw) == "processing" <==> ToLower(raw) in {"", "processing"}
    ensures ToLower(raw) !in Recognised ==> MapStatus(raw) == ToLower(raw)
  {
  }

  /** Feeding a ledger status back through the mapping leaves it as it is. */
  lemma MapStatusIdempotent(raw: string)
    ensures MapStatus(MapStatus(raw)) == MapStatus(raw)
  {
    var r := MapStatus(raw);
    ToLowerIsLower(r);
    assert ToLower(r) == r;
  }

  /** `(data.status || '').toString()`. */
  function StatusText(data: Charge): string
  {
    match data.status
    case None => ""
    case Some(s) => s
  }

  /** `(payload.data || {}).reference`. */
  function EventReference(e: Event): Option<string>
  {
    match e.data
    case None => None
    case Some(c) => c.reference
  }

  /** The webhook carries a truthy reference. */
  predicate HasReference(e: Event)
  {
    EventReference(e).Some? && EventReference(e).value != ""
  }

  /** The deposit an index entry `{uid, depId, txId}` points at. */
  function EntryDeposit(entry: Record): Path
  {
    DepositPath(Render(Get(entry, "uid")), Render(Get(entry, "depId")))
  }

  /** The transaction an index entry points at. */
  function EntryTransaction(entry: Record): Path
  {
    TransactionPath(Render(Get(entry, "uid")), Render(Get(entry, "txId")))
  }

  function MissRecord(e: Event, now: nat): Record
  {
    map["payload" := EventData(e), "receivedAt" := Num(now)]
  }

  /** The signature header equals the HMAC of the raw body under a configured secret. */
  predicate Authentic(secret: string, hmac: Hmac, rawBody: string, signature: string)
  {
    secret != "" && hmac(secret, rawBody) == signature
  }

  /**
   * After the update: the deposit has exactly `status`, `updatedAt`,
   * `reference` and `paystack_raw` set, the transaction has `status` and
   * `updatedAt` set when the entry has a truthy `txId`, and nothing else moved.
   */
  ghost predicate StatusApplied(before: Tree, after: Tree, entry: Record, reference: string, data: Charge, now: nat)
  {
    var d, t := EntryDeposit(entry), EntryTransaction(entry);
    var status := Str(MapStatus(StatusText(data)));
    && OnlyTouched(before, after, {d, t})
    && At(after, d) == Some(Base(before, d) + map["status" := status, "updatedAt" := Num(now),
                                                 "reference" := Str(reference), "paystack_raw" := ChargeData(data)])
    && (if TruthyValue(Get(entry, "txId"))
        then At(after, t) == Some(Base(before, t) + map["status" := status, "updatedAt" := Num(now)])
        else At(after, t) == At(before, t))
  }

  /** `exports.handler`, from the secret check on (the HTTP method check is not modelled). */
  method Handler(db: Database, secret: string, hmac: Hmac, rawBody: string, signature: string,
                 payload: Option<Event>, now: nat)
    returns (code: int)
    modifies db
    ensures secret == "" ==> code == 500 && db.root == old(db.root)
    ensures secret != "" && hmac(secret, rawBody) != signature ==> code == 400 && db.root == old(db.root)
    ensures Authentic(secret, hmac, rawBody, signature) && (payload.None? || !HasReference(payload.value)) ==>
              code == 400 && db.root == old(db.root)
    ensures Authentic(secret, hmac, rawBody, signature) && payload.Some? && HasReference(payload.value) ==>
              var reference := EventReference(payload.value).value;
              code == 200 &&
              if IndexPath(reference) !in old(db.root) then
                db.root == Overwrite(old(db.root), map[MissPath(reference, now) := MissRecord(payload.value, now)])
              else
                StatusApplied(old(db.root), db.root, old(db.root)[IndexPath(reference)], reference,
                              payload.value.data.value, now)
  {
    if secret == "" {
      return 500;
    }
    var computed := hmac(secret, rawBody);
    if computed != signature {
      return 400;
    }
    if payload.None? {
      return 400;
    }
    var e := payload.value;
    var reference := EventReference(e);
    if reference.None? || reference.value == "" {
      return 400;
    }
    var ref := reference.value;
    var data := e.data.value;

    if IndexPath(ref) !in db.root {
      db.SetRecords(map[MissPath(ref, now) := MissRecord(e, now)]);
      return 200;
    }
    var entry := db.root[IndexPath(ref)];
    var uid, depId, txId := Render(Get(entry, "uid")), Render(Get(entry, "depId")), Get(entry, "txId");
    var newStatus := MapStatus(StatusText(data));

    var depositFields: Record := map[];
    depositFields := depositFields["status" := Str(newStatus)];
    depositFields := depositFields["updatedAt" := Num(now)];
    depositFields := depositFields["reference" := Str(ref)];
    depositFields := depositFields["paystack_raw" := ChargeData(data)];
    var updates: FieldWrites := map[DepositPath(uid, depId) := depositFields];
    if TruthyValue(txId) {
      var txFields: Record := map[];
      txFields := txFields["status" := Str(newStatus)];
      txFields := txFields["updatedAt" := Num(now)];
      updates := updates[TransactionPath(uid, Render(txId)) := txFields];
    }
    db.UpdateFields(updates);
    code := 200;
  }
}
