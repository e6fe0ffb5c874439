/**
 * `netlify/functions/initializePayment.js`: a second deposit flow. The
 * request is checked, the gateway initializes the payment, and only then is
 * a `pending` deposit pushed directly under `deposits`, carrying the
 * gateway's reference. This is the record that the client-side confirmation
 * approves and the staleness sweep cancels.
 */
module InitializePayment {
  import opened Js
  import opened Gateway
  import opened Store
  import AutoCancel
  import VerifyPayment
  import InitPay

  /** The outcome of the request checks. */
  datatype Check = Accepted(amount: int) | Missing | InvalidAmount

  /** Lines 15-22: every field present, then `Number(amount)` a number greater than 0. */
  function Validate(req: PayRequest): (c: Check)
  {
    if !Truthy(req.uid) || !Truthy(req.amount) || !Truthy(req.email) then Missing
    else match ToNumber(req.amount)
      case None => InvalidAmount
      case Some(n) => if n <= 0 then InvalidAmount else Accepted(n)
  }

  /** Which requests are accepted, and that every accepted amount is positive. */
  lemma ValidateMeaning(req: PayRequest)
    ensures Validate(req).Accepted? <==>
              Truthy(req.uid) && Truthy(req.email) && ToNumber(req.amount).Some? && ToNumber(req.amount).value > 0
    ensures Validate(req).Accepted? ==> Validate(req).amount == ToNumber(req.amount).value > 0
    ensures Validate(req) == Missing <==> !Truthy(req.uid) || !Truthy(req.email) || !Truthy(req.amount)
  {
  }

  /** Unlike init-pay, "0" and "-5" are refused. */
  lemma NonPositiveRefused(uid: string, email: string)
    requires uid != "" && email != ""
    ensures Validate(PayRequest(Text(uid), Text(email), Text("0"))) == InvalidAmount
    ensures Validate(PayRequest(Text(uid), Text(email), Text("-5"))) == InvalidAmount
  {
    assert ParseRadix("0", 10) == Some(0);
    assert ParseRadix("5", 10) == Some(5);
    assert "-5"[1..] == "5";
  }

  /** `depositData`; `timeTxt` and `date` are the locale strings of `now`. */
  function PendingDeposit(uid: Input, email: Input, amount: int, reference: string, now: nat,
                          date: string, timeTxt: string): Record
    requires Truthy(uid) && Truthy(email)
  {
    map["uid" := Stored(uid), "email" := Stored(email), "amount" := Num(amount), "status" := Str("pending"),
        "reference" := Str(reference), "createdAt" := Num(now), "date" := Str(date), "timeTxt" := Str(timeTxt)]
  }

  /** The new deposit is swept by the staleness sweep exactly when it is more than thirty minutes old. */
  lemma PendingExpires(uid: Input, email: Input, amount: int, reference: string, now: nat,
                       date: string, timeTxt: string, later: int)
    requires Truthy(uid) && Truthy(email)
    ensures AutoCancel.IsStale(PendingDeposit(uid, email, amount, reference, now, date, timeTxt), later)
            <==> later - now > AutoCancel.ThirtyMinutes
  {
    var dep := PendingDeposit(uid, email, amount, reference, now, date, timeTxt);
    AutoCancel.StaleByAge(dep, later, now);
  }

  /**
   * The client-side confirmation of the gateway's reference approves the new
   * deposit, which keeps its user, email and amount.
   */
  lemma ConfirmationApprovesDeposit(before: Tree, key: string, uid: Input, email: Input, amount: int,
                                    reference: string, now: nat, date: string, timeTxt: string,
                                    later: nat, laterTime: string, laterDate: string)
    requires Truthy(uid) && Truthy(email)
    ensures var dep := PendingDeposit(uid, email, amount, reference, now, date, timeTxt);
            var after := VerifyPayment.Approved(before[FlatDepositPath(key) := dep], reference, later, laterTime, laterDate);
            && after[FlatDepositPath(key)] == dep + VerifyPayment.ApprovalFields(later, laterTime, laterDate)
            && Get(after[FlatDepositPath(key)], "status") == Some(Str("approved"))
            && Get(after[FlatDepositPath(key)], "amount") == Some(Num(amount))
            && Get(after[FlatDepositPath(key)], "uid") == Some(Stored(uid))
  {
    var dep := PendingDeposit(uid, email, amount, reference, now, date, timeTxt);
    var t := before[FlatDepositPath(key) := dep];
    assert FlatDepositPath(key) in VerifyPayment.ByReference(t, reference);
    VerifyPayment.ApprovedRecords(t, reference, later, laterTime, laterDate);
  }

  /** The two request checks agree on what this handler accepts; init-pay also takes a missing email and a non-positive amount. */
  lemma ValidatorsAgree(req: PayRequest)
    ensures Validate(req).Accepted? <==>
              InitPay.Validate(req).Some? && InitPay.Validate(req).value > 0 && Truthy(req.email)
    ensures Validate(req).Accepted? ==> InitPay.Validate(req) == Some(Validate(req).amount)
  {
  }

  /** The initialize call succeeded and its `data` carries a `reference` for the deposit. */
  predicate Initialized(reply: Option<InitReply>)
  {
    && reply.Some? && reply.value.httpOk && reply.value.status
    && reply.value.data.Some? && reply.value.data.value.reference.Some?
  }

  /**
   * `exports.handler`. `request` is `None` when the body is not a JSON object;
   * `reply` is `None` when the initialize call or its `.json()` throws.
   */
  method Handler(db: Database, secret: string, request: Option<PayRequest>, reply: Option<InitReply>,
                 now: nat, date: string, timeTxt: string)
    returns (code: int, data: Option<InitData>, gatewayCalled: bool, ghost key: string)
    modifies db
    ensures secret == "" ==> code == 500 && !gatewayCalled && db.root == old(db.root)
    ensures secret != "" && request.None? ==> code == 500 && !gatewayCalled && db.root == old(db.root)
    ensures secret != "" && request.Some? && !Validate(request.value).Accepted? ==>
              code == 400 && !gatewayCalled && db.root == old(db.root)
    ensures gatewayCalled <==> secret != "" && request.Some? && Validate(request.value).Accepted?
    ensures gatewayCalled && !Initialized(reply) ==> code == 500 && db.root == old(db.root)
    ensures gatewayCalled && Initialized(reply) ==>
              var req := request.value;
              var reference := reply.value.data.value.reference.value;
              && code == 200
              && FlatDepositPath(key) !in old(db.root)
              && db.root == old(db.root)[FlatDepositPath(key) := PendingDeposit(req.uid, req.email,
                   Validate(req).amount, reference, now, date, timeTxt)]
              && |db.root| == |old(db.root)| + 1
              && FlatDepositPath(key) in VerifyPayment.ByReference(db.root, reference)
    ensures data.Some? <==> code == 200
    ensures code == 200 ==> data == reply.value.data
  {
    key := "";
    if secret == "" {
      return 500, None, false, key;
    }
    if request.None? {
      return 500, None, false, key;
    }
    var req := request.value;
    var checked := Validate(req);
    if !checked.Accepted? {
      return 400, None, false, key;
    }
    gatewayCalled := true;
    if reply.None? {
      return 500, None, gatewayCalled, key;
    }
    var response := reply.value;
    if !response.httpOk || !response.status {
      return 500, None, gatewayCalled, key;
    }
    if response.data.None? {
      // `data.data.reference` on a missing `data`
      return 500, None, gatewayCalled, key;
    }
    var init := response.data.value;
    if init.reference.None? {
      // `ref.set` refuses the `undefined` reference
      return 500, None, gatewayCalled, key;
    }

    var record := PendingDeposit(req.uid, req.email, checked.amount, init.reference.value, now, date, timeTxt);
    key := PushDeposit(db, record);
    assert FlatDepositPath(key) in VerifyPayment.ByReference(db.root, init.reference.value);
    code, data := 200, Some(init);
  }

  /** Lines 46 and 58: `deposits.push()`, then `set` of the new record. */
  method PushDeposit(db: Database, record: Record) returns (key: string)
    modifies db
    ensures FlatDepositPath(key) !in old(db.root)
    ensures db.root == old(db.root)[FlatDepositPath(key) := record]
    ensures |db.root| == |old(db.root)| + 1
  {
    key := db.Push(["deposits"]);
    var p := FlatDepositPath(key);
    assert p == ["deposits"] + [key];
    PushedPathFree(db.root, ["deposits"], key);
    OverwriteFresh(db.root, p, record);
    db.SetRecords(map[p := record]);
  }
}
