/**
 * `netlify/functions/paystack-webhook.js`: a second signed webhook. It has no
 * reference index: it scans every `deposits/{uid}/{pushId}` record, and every
 * field of a record directly under `deposits`, for the event's reference. A success event is double-checked with the gateway, then
 * every matching deposit is approved and, when the gateway names a user, a new
 * transaction is pushed for that user; a failure event declines every matching
 * deposit. Both branches can run for one event, success first.
 */
module PaystackWebhook {
  import opened Js
  import opened Gateway
  import opened Store

  /** The handler's answer; `Throws` is an exception that escapes the handler. */
  datatype Outcome = Respond(code: int) | Throws

  /** `d.reference === reference`, where either side may be `undefined`. */
  predicate ReferenceMatches(r: Record, reference: Option<string>)
  {
    match reference
    case None => "reference" !in r
    case Some(s) => Get(r, "reference") == Some(Str(s))
  }

  /** The records at `deposits/{uid}/{pushId}` that a scan for `reference` matches. */
  function Matches(snapshot: Tree, reference: Option<string>): (ps: set<Path>)
    ensures forall p :: p in ps ==> p in snapshot && IsNestedDeposit(p)
  {
    set p | p in snapshot && IsNestedDeposit(p) && ReferenceMatches(snapshot[p], reference)
  }

  /** A primitive stored value: reading `.reference` on it gives `undefined`. */
  predicate IsLeaf(v: Value)
  {
    v.Str? || v.Bool? || v.Num? || v.Hundredths?
  }

  /**
   * The inner `forEach` also visits each field of a record stored directly
   * under `deposits`, with the field's value as `d`: on a truthy primitive,
   * `d && d.reference === reference` holds exactly when the event has no
   * reference.
   */
  predicate LeafMatches(v: Value, reference: Option<string>)
  {
    reference.None? && IsLeaf(v) && TruthyValue(Some(v))
  }

  /** `deposits/{key}/{field}`, for a field of a flat deposit that the scan matches. */
  predicate IsLeafTarget(t: Tree, reference: Option<string>, q: Path)
  {
    |q| == 3 && q[..2] in t && IsFlatDeposit(q[..2]) && q[2] in t[q[..2]] && LeafMatches(t[q[..2]][q[2]], reference)
  }

  /** The matching leaves of the flat deposits, as the record paths the scan writes beneath. */
  function LeafTargets(t: Tree, reference: Option<string>): (ps: set<Path>)
    ensures forall q :: q in ps <==> IsLeafTarget(t, reference, q)
  {
    var ps := set p, f | p in t && IsFlatDeposit(p) && f in t[p] && LeafMatches(t[p][f], reference) :: p + [f];
    assert forall q :: IsLeafTarget(t, reference, q) ==> q == q[..2] + [q[2]];
    ps
  }

  /** Every path beneath which the scan for `reference` writes. */
  function Targets(t: Tree, reference: Option<string>): (ps: set<Path>)
    ensures reference.Some? ==> ps == Matches(t, reference)
    ensures forall q :: q in ps ==> |q| == 3 && q[0] == "deposits"
  {
    Matches(t, reference) + LeafTargets(t, reference)
  }

  /** The three fields the scan writes beneath each target. */
  function Resolution(status: string, now: nat, data: Charge): Record
  {
    map["status" := Str(status), "updatedAt" := Num(now), "paystackData" := ChargeData(data)]
  }

  /** The ledger after the scan for `reference` and its update. */
  function Resolved(t: Tree, reference: Option<string>, status: string, now: nat, data: Charge): Tree
  {
    PatchOverLeaves(t, Uniform(Targets(t, reference), Resolution(status, now, data)))
  }

  /** The inner `forEach` over the fields of `r`, the record at the flat deposit `p`. */
  method CollectLeaves(p: Path, r: Record, reference: Option<string>, fields: Record) returns (w: FieldWrites)
    requires |p| == 2
    ensures forall q :: q in w <==> |q| == 3 && q[..2] == p && q[2] in r && LeafMatches(r[q[2]], reference)
    ensures forall q :: q in w ==> w[q] == fields
  {
    w := map[];
    var todo := r.Keys;
    while todo != {}
      invariant todo <= r.Keys
      invariant forall q :: q in w <==>
                  |q| == 3 && q[..2] == p && q[2] in r && q[2] !in todo && LeafMatches(r[q[2]], reference)
      invariant forall q :: q in w ==> w[q] == fields
      decreases todo
    {
      var f :| f in todo;
      forall q | |q| == 3 && q[..2] == p && q[2] == f ensures q == p + [f] {
        assert q == q[..2] + [q[2]];
      }
      if LeafMatches(r[f], reference) {
        assert (p + [f])[..2] == p && (p + [f])[2] == f;
        w := w[p + [f] := fields];
      }
      todo := todo - {f};
    }
  }

  /** The nested `forEach` over the children of `deposits` that fills `updates`. */
  method CollectUpdates(snapshot: Tree, reference: Option<string>, status: string, now: nat, data: Charge)
    returns (updates: FieldWrites)
    ensures updates.Keys == Targets(snapshot, reference)
    ensures forall p :: p in updates ==> updates[p] == Resolution(status, now, data)
  {
    var fields := Resolution(status, now, data);
    updates := map[];
    var todo := snapshot.Keys;
    while todo != {}
      invariant todo <= snapshot.Keys
      invariant forall q :: q in updates <==>
                  (q in Matches(snapshot, reference) && q !in todo) ||
                  (IsLeafTarget(snapshot, reference, q) && q[..2] !in todo)
      invariant forall q :: q in updates ==> updates[q] == fields
      decreases todo
    {
      var p :| p in todo;
      var d := snapshot[p];
      if IsNestedDeposit(p) && ReferenceMatches(d, reference) {
        updates := updates[p := fields];
      }
      if IsFlatDeposit(p) {
        var leaves := CollectLeaves(p, d, reference, fields);
        updates := updates + leaves;
      }
      todo := todo - {p};
    }
  }

  /**
   * After the scan's update: the matching nested deposits carry the
   * resolution; each matching leaf of a flat deposit has become a record
   * holding the resolution and is gone from its deposit; every other record
   * and field is as it was.
   */
  lemma ScanFrame(t: Tree, reference: Option<string>, fields: Record)
    ensures var after := PatchOverLeaves(t, Uniform(Targets(t, reference), fields));
            && after.Keys == t.Keys + LeafTargets(t, reference)
            && (forall p :: p in Matches(t, reference) ==> after[p] == t[p] + fields)
            && (forall q :: IsLeafTarget(t, reference, q) ==> after[q] == Base(t, q) + fields)
            && (forall p :: p in t && IsFlatDeposit(p) ==>
                  && (forall f :: f in after[p] <==> f in t[p] && p + [f] !in Targets(t, reference))
                  && (forall f :: f in after[p] ==> after[p][f] == t[p][f]))
            && (forall p :: p in t && !IsFlatDeposit(p) && p !in Targets(t, reference) ==> after[p] == t[p])
  {
    var ps := Targets(t, reference);
    var w := Uniform(ps, fields);
    var after := PatchOverLeaves(t, w);
    forall p | p in ps ensures Surviving(Base(t, p), p, w) == Base(t, p) {
      DeepFieldsSurvive(Base(t, p), p, ps, fields);
    }
    forall p | p in t && !IsFlatDeposit(p) && p !in ps ensures after[p] == t[p] {
      ShallowFieldsSurvive(t[p], p, ps, fields);
    }
  }

  /** A target has three segments, so nothing is written beneath a target's own fields. */
  lemma DeepFieldsSurvive(r: Record, p: Path, ps: set<Path>, fields: Record)
    requires |p| == 3 && forall q :: q in ps ==> |q| == 3
    ensures Surviving(r, p, Uniform(ps, fields)) == r
  {
  }

  /** Only a record directly under `deposits` has fields at the depth of a target. */
  lemma ShallowFieldsSurvive(r: Record, p: Path, ps: set<Path>, fields: Record)
    requires !IsFlatDeposit(p) && forall q :: q in ps ==> |q| == 3 && q[0] == "deposits"
    ensures Surviving(r, p, Uniform(ps, fields)) == r
  {
    forall f | f in r ensures p + [f] !in ps {
      if |p| == 2 {
        assert (p + [f])[0] == p[0];
      }
    }
  }

  /** A scan for an event that carries a reference leaves a flat deposit alone when none of its fields names a nested deposit. */
  lemma ReferencedScanKeepsFlat(t: Tree, reference: Option<string>, fields: Record, p: Path)
    requires reference.Some? && p in t && IsFlatDeposit(p)
    requires forall f :: f in t[p] ==> p + [f] !in t
    ensures PatchOverLeaves(t, Uniform(Targets(t, reference), fields))[p] == t[p]
  {
    var after := PatchOverLeaves(t, Uniform(Targets(t, reference), fields));
    ScanFrame(t, reference, fields);
    assert after[p].Keys == t[p].Keys;
  }

  /**
   * A scan for an event without a reference takes every truthy primitive field
   * of a flat deposit: the field is gone from the deposit, and a record holding
   * the resolution stands at its path.
   */
  lemma AbsentReferenceTakesLeaf(t: Tree, fields: Record, p: Path, f: string)
    requires p in t && IsFlatDeposit(p) && f in t[p] && IsLeaf(t[p][f]) && TruthyValue(Some(t[p][f]))
    ensures var after := PatchOverLeaves(t, Uniform(Targets(t, None), fields));
            && f !in after[p]
            && p + [f] in after && after[p + [f]] == Base(t, p + [f]) + fields
  {
    var q := p + [f];
    assert q[..2] == p && q[2] == f;
    assert IsLeafTarget(t, None, q);
    ScanFrame(t, None, fields);
  }

  predicate IsSuccessEvent(e: Event)
  {
    e.name == Some("charge.success") || (e.data.Some? && e.data.value.status == Some("success"))
  }

  predicate IsFailedEvent(e: Event)
  {
    e.name == Some("charge.failed") || (e.data.Some? && e.data.value.status == Some("failed"))
  }

  /** `verifyRes.ok && verifyJson && verifyJson.data && verifyJson.data.status === 'success'`. */
  predicate Verified(v: VerifyReply)
  {
    v.httpOk && v.data.Some? && v.data.value.status == Some("success")
  }

  /** The transaction record of lines 82-89; `amount / 100` is kept exact as hundredths. */
  function ApprovedTransaction(reference: string, data: Charge, now: nat): Record
    requires data.amount.Some?
  {
    map["amount" := Hundredths(data.amount.value), "action" := Str("deposit"), "status" := Str("approved"),
        "reference" := Str(reference), "timestamp" := Num(now), "paystack" := ChargeData(data)]
  }

  /** The ledger after a verified success: the scan for the event's reference approves what it matches. */
  function Approve(t: Tree, trx: Charge, v: Charge, now: nat): Tree
  {
    Resolved(t, trx.reference, "approved", now, v)
  }

  /**
   * The transaction insert throws: a user id, but a record that `set` refuses,
   * because its `reference` is `undefined` or its `amount` is NaN.
   */
  predicate InsertThrows(trx: Charge, v: Charge)
  {
    v.metadataUid != "" && (trx.reference.None? || v.amount.None?)
  }

  /**
   * The state after a verified success: `Approve`, plus a new approved
   * transaction under `users/{metadata.uid}/transactions/{txKey}` when the
   * gateway names a user, at a key nothing occupied.
   */
  ghost predicate Succeeded(before: Tree, after: Tree, trx: Charge, v: Charge, now: nat, txKey: string)
  {
    var approved := Approve(before, trx, v, now);
    if v.metadataUid == "" then after == approved
    else
      var t := TransactionPath(v.metadataUid, txKey);
      && trx.reference.Some? && v.amount.Some?
      && t !in approved
      && after == approved[t := ApprovedTransaction(trx.reference.value, v, now)]
  }

  /** A scan for an event that carries a reference adds no record. */
  lemma ReferencedScanKeepsKeys(t: Tree, reference: Option<string>, status: string, now: nat, data: Charge)
    requires reference.Some?
    ensures Resolved(t, reference, status, now, data).Keys == t.Keys
  {
    assert Targets(t, reference) <= t.Keys;
  }

  /** Each processed success event with a user id adds one record: replays are not deduplicated. */
  lemma {:induction false} SuccessAddsOneRecord(before: Tree, after: Tree, trx: Charge, v: Charge, now: nat, txKey: string)
    requires Succeeded(before, after, trx, v, now, txKey)
    requires v.metadataUid != ""
    ensures |after| == |before| + 1
  {
    var approved := Approve(before, trx, v, now);
    ReferencedScanKeepsKeys(before, trx.reference, "approved", now, v);
    var t := TransactionPath(v.metadataUid, txKey);
    assert after.Keys == approved.Keys + {t};
    assert |after.Keys| == |approved.Keys| + 1;
  }

  /** The success branch (lines 49-92), once `trx` is known to exist. */
  method SucceedCharge(db: Database, trx: Charge, reply: Option<VerifyReply>, now: nat)
    returns (ok: bool, ghost txKey: string)
    modifies db
    ensures reply.None? ==> !ok && db.root == old(db.root)
    ensures reply.Some? && !Verified(reply.value) ==> ok && db.root == old(db.root)
    ensures reply.Some? && Verified(reply.value) ==>
              var v := reply.value.data.value;
              && ok == !InsertThrows(trx, v)
              && (if ok then Succeeded(old(db.root), db.root, trx, v, now, txKey)
                  else db.root == Approve(old(db.root), trx, v, now))
  {
    txKey := "";
    if reply.None? {
      return false, txKey;
    }
    var answer := reply.value;
    if !answer.httpOk || answer.data.None? || answer.data.value.status != Some("success") {
      return true, txKey;
    }
    ok, txKey := ApproveVerified(db, trx, answer.data.value, now);
  }

  /** Lines 62-90: approve the matching deposits, then push the user's transaction. */
  method ApproveVerified(db: Database, trx: Charge, v: Charge, now: nat)
    returns (ok: bool, ghost txKey: string)
    modifies db
    ensures ok == !InsertThrows(trx, v)
    ensures ok ==> Succeeded(old(db.root), db.root, trx, v, now, txKey)
    ensures !ok ==> db.root == Approve(old(db.root), trx, v, now)
  {
    txKey := "";
    Resolve(db, trx.reference, "approved", now, v);
    var uid := v.metadataUid;
    if uid != "" {
      if trx.reference.None? || v.amount.None? {
        return false, txKey;
      }
      txKey := PushTransaction(db, uid, ApprovedTransaction(trx.reference.value, v, now));
    }
    ok := true;
  }

  /** Lines 81-89: `users/{uid}/transactions.push()`, then `set` of the new record. */
  method PushTransaction(db: Database, uid: string, record: Record) returns (key: string)
    modifies db
    ensures TransactionPath(uid, key) !in old(db.root)
    ensures db.root == old(db.root)[TransactionPath(uid, key) := record]
  {
    key := db.Push(["users", uid, "transactions"]);
    var t := TransactionPath(uid, key);
    assert t == ["users", uid, "transactions"] + [key];
    PushedPathFree(db.root, ["users", uid, "transactions"], key);
    OverwriteFresh(db.root, t, record);
    db.SetRecords(map[t := record]);
  }

  /** Lines 62-76 and 97-111: the scan, and the update when something matched. */
  method Resolve(db: Database, reference: Option<string>, status: string, now: nat, data: Charge)
    modifies db
    ensures db.root == Resolved(old(db.root), reference, status, now, data)
  {
    var snapshot := db.root;
    var updates := CollectUpdates(snapshot, reference, status, now, data);
    assert updates == Uniform(Targets(snapshot, reference), Resolution(status, now, data));
    if |updates| > 0 {
      db.UpdateOverLeaves(updates);
    } else {
      PatchOverNothing(snapshot);
    }
  }

  /** The failure branch (lines 95-112), once `trx` is known to exist. */
  method DeclineCharge(db: Database, trx: Charge, now: nat)
    modifies db
    ensures db.root == Resolved(old(db.root), trx.reference, "declined", now, trx)
  {
    Resolve(db, trx.reference, "declined", now, trx);
  }

  /** The signature header equals the HMAC of the raw body. */
  predicate Signed(secret: Option<string>, hmac: Hmac, body: string, signature: string)
  {
    secret.Some? && hmac(secret.value, body) == signature
  }

  /**
   * What a signed, parsed event does: the success branch, then the failure
   * branch on the state the success branch left (`mid`).
   */
  ghost predicate Processed(before: Tree, after: Tree, e: Event, reply: Option<VerifyReply>, now: nat,
                            outcome: Outcome, called: bool, mid: Tree, txKey: string)
  {
    var success := IsSuccessEvent(e);
    if success && e.data.None? then
      // `trx.reference` on an undefined `trx`
      outcome == Respond(500) && !called && after == before
    else
      && called == success
      && (if success && reply.None? then outcome == Respond(500) && after == before
          else if success && Verified(reply.value) && InsertThrows(e.data.value, reply.value.data.value) then
            outcome == Respond(500) && after == Approve(before, e.data.value, reply.value.data.value, now)
          else
            && (if success && Verified(reply.value)
                then Succeeded(before, mid, e.data.value, reply.value.data.value, now, txKey)
                else mid == before)
            && (if !IsFailedEvent(e) then outcome == Respond(200) && after == mid
                else if e.data.None? then outcome == Respond(500) && after == mid
                else
                  && outcome == Respond(200)
                  && after == Resolved(mid, e.data.value.reference, "declined", now, e.data.value)))
  }

  /** `exports.handler`, from the signature check on (the HTTP method check is not modelled). */
  method Handler(db: Database, secret: Option<string>, hmac: Hmac, body: string, signature: string,
                 payload: Option<Event>, reply: Option<VerifyReply>, now: nat)
    returns (outcome: Outcome, gatewayCalled: bool, ghost mid: Tree, ghost txKey: string)
    modifies db
    ensures secret.None? ==> outcome == Throws && !gatewayCalled && db.root == old(db.root)
    ensures secret.Some? && hmac(secret.value, body) != signature ==>
              outcome == Respond(400) && !gatewayCalled && db.root == old(db.root)
    ensures Signed(secret, hmac, body, signature) && payload.None? ==>
              outcome == Respond(400) && !gatewayCalled && db.root == old(db.root)
    ensures Signed(secret, hmac, body, signature) && payload.Some? ==>
              Processed(old(db.root), db.root, payload.value, reply, now, outcome, gatewayCalled, mid, txKey)
  {
    gatewayCalled, mid, txKey := false, db.root, "";
    if secret.None? {
      return Throws, gatewayCalled, mid, txKey;
    }
    var computed := hmac(secret.value, body);
    if computed != signature {
      return Respond(400), gatewayCalled, mid, txKey;
    }
    if payload.None? {
      return Respond(400), gatewayCalled, mid, txKey;
    }
    var eventName, trx := payload.value.name, payload.value.data;

    if eventName == Some("charge.success") || (trx.Some? && trx.value.status == Some("success")) {
      if trx.None? {
        return Respond(500), gatewayCalled, mid, txKey;
      }
      gatewayCalled := true;
      var ok;
      ok, txKey := SucceedCharge(db, trx.value, reply, now);
      if !ok {
        return Respond(500), gatewayCalled, mid, txKey;
      }
    }
    mid := db.root;

    if eventName == Some("charge.failed") || (trx.Some? && trx.value.status == Some("failed")) {
      if trx.None? {
        return Respond(500), gatewayCalled, mid, txKey;
      }
      DeclineCharge(db, trx.value, now);
    }
    outcome := Respond(200);
  }
}
