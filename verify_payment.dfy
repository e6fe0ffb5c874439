/**
 * `netlify/functions/verifyPayment.js`: the client-side confirmation. Once the
 * gateway confirms a charge, every record directly under `deposits` whose
 * `reference` is the charge's reference is set to `approved`.
 *
 * The query only sees the records directly under `deposits`: deposits stored
 * at `deposits/{uid}/{depId}` are never approved here.
 */
module VerifyPayment {
  import opened Js
  import opened Gateway
  import opened Store

  /** The children of `deposits` that `orderByChild('reference').equalTo(reference)` returns. */
  function ByReference(t: Tree, reference: string): set<Path>
  {
    set p | p in t && IsFlatDeposit(p) && Get(t[p], "reference") == Some(Str(reference))
  }

  /** The fields written onto each matching deposit; `timeTxt` and `date` are the locale strings of `now`. */
  function ApprovalFields(now: nat, timeTxt: string, date: string): Record
  {
    map["status" := Str("approved"), "timestamp" := Num(now), "timeTxt" := Str(timeTxt), "date" := Str(date)]
  }

  /** The ledger after approving `reference` at `now`. */
  function Approved(t: Tree, reference: string, now: nat, timeTxt: string, date: string): Tree
  {
    Patch(t, Uniform(ByReference(t, reference), ApprovalFields(now, timeTxt, date)))
  }

  /** `verifyData.data && verifyData.data.status === 'success'`. */
  predicate ChargeSucceeded(v: VerifyReply)
  {
    v.data.Some? && v.data.value.status == Some("success")
  }

  /**
   * Approval: every deposit carrying the reference is `approved` with
   * `timestamp = now` and keeps its other fields; every other record is as it
   * was; no record is added or removed.
   */
  lemma ApprovedRecords(t: Tree, reference: string, now: nat, timeTxt: string, date: string)
    ensures var after := Approved(t, reference, now, timeTxt, date);
            && after.Keys == t.Keys
            && (forall p :: p in ByReference(t, reference) ==>
                  after[p] == t[p] + ApprovalFields(now, timeTxt, date)
                  && Get(after[p], "status") == Some(Str("approved")))
            && (forall p :: p in t && p !in ByReference(t, reference) ==> after[p] == t[p])
  {
    assert ByReference(t, reference) <= t.Keys;
  }

  /** With no matching record, approval writes nothing. */
  lemma NoMatchNoChange(t: Tree, reference: string, now: nat, timeTxt: string, date: string)
    requires ByReference(t, reference) == {}
    ensures Approved(t, reference, now, timeTxt, date) == t
  {
    assert Uniform({}, ApprovalFields(now, timeTxt, date)) == map[];
  }

  /** Confirming the same charge twice at the same instant changes nothing the first confirmation did not. */
  lemma {:induction false} ApprovalIdempotent(t: Tree, reference: string, now: nat, timeTxt: string, date: string)
    ensures var once := Approved(t, reference, now, timeTxt, date);
            Approved(once, reference, now, timeTxt, date) == once
  {
    var fields := ApprovalFields(now, timeTxt, date);
    var once := Approved(t, reference, now, timeTxt, date);
    ApprovedRecords(t, reference, now, timeTxt, date);
    forall p | p in once ensures (p in ByReference(once, reference) <==> p in ByReference(t, reference)) {
      if p in ByReference(t, reference) {
        assert Get(once[p], "reference") == Get(t[p], "reference");
      }
    }
    assert ByReference(once, reference) == ByReference(t, reference);
    var twice := Approved(once, reference, now, timeTxt, date);
    forall p | p in twice ensures twice[p] == once[p] {
      if p in ByReference(t, reference) {
        assert twice[p] == once[p] + fields;
        assert once[p] + fields == once[p];
      }
    }
  }

  /** Deposits at `deposits/{uid}/{depId}` are never approved by this handler. */
  lemma NestedUntouched(t: Tree, reference: string, now: nat, timeTxt: string, date: string, p: Path)
    requires p in t && IsNestedDeposit(p)
    ensures Approved(t, reference, now, timeTxt, date)[p] == t[p]
  {
    ApprovedRecords(t, reference, now, timeTxt, date);
  }

  /** Lines 31-50: the query, and one update per deposit it returns. */
  method ApproveAll(db: Database, reference: string, now: nat, timeTxt: string, date: string)
    modifies db
    ensures db.root == Approved(old(db.root), reference, now, timeTxt, date)
  {
    var snapshot := db.root;
    var found := ByReference(snapshot, reference);
    var fields := ApprovalFields(now, timeTxt, date);
    if found == {} {
      NoMatchNoChange(snapshot, reference, now, timeTxt, date);
      return;
    }
    ghost var done: set<Path> := {};
    var todo := found;
    while todo != {}
      invariant todo <= found
      invariant done <= found
      invariant forall p :: p in found ==> (p in done <==> p !in todo)
      invariant db.root == Patch(snapshot, Uniform(done, fields))
      decreases todo
    {
      var p :| p in todo;
      PatchStep(snapshot, Uniform(done, fields), p, fields);
      UniformStep(done, p, fields);
      db.UpdateFields(map[p := fields]);
      done := done + {p};
      todo := todo - {p};
    }
    assert done == found;
  }

  /**
   * `exports.handler`. `request` is `None` when the body is not a JSON object,
   * and otherwise its `reference` ("" when missing); `reply` is `None` when the
   * verify call or its `.json()` throws.
   */
  method Handler(db: Database, secret: string, request: Option<string>, reply: Option<VerifyReply>,
                 now: nat, timeTxt: string, date: string)
    returns (code: int, gatewayCalled: bool)
    modifies db
    ensures secret == "" ==> code == 500 && !gatewayCalled && db.root == old(db.root)
    ensures secret != "" && request.None? ==> code == 500 && !gatewayCalled && db.root == old(db.root)
    ensures secret != "" && request == Some("") ==> code == 400 && !gatewayCalled && db.root == old(db.root)
    ensures gatewayCalled <==> secret != "" && request.Some? && request.value != ""
    ensures gatewayCalled && reply.None? ==> code == 500 && db.root == old(db.root)
    ensures gatewayCalled && reply.Some? && !reply.value.status ==> code == 400 && db.root == old(db.root)
    ensures gatewayCalled && reply.Some? && reply.value.status ==>
              code == 200 &&
              db.root == (if ChargeSucceeded(reply.value)
                          then Approved(old(db.root), request.value, now, timeTxt, date)
                          else old(db.root))
  {
    if secret == "" {
      return 500, false;
    }
    if request.None? {
      return 500, false;
    }
    var reference := request.value;
    if reference == "" {
      return 400, false;
    }
    gatewayCalled := true;
    if reply.None? {
      return 500, gatewayCalled;
    }
    var verifyData := reply.value;
    if !verifyData.status {
      return 400, gatewayCalled;
    }
    if ChargeSucceeded(verifyData) {
      ApproveAll(db, reference, now, timeTxt, date);
    }
    code := 200;
  }
}
