/**
 * `netlify/functions/init-pay.js`: a user starts a deposit. The handler checks
 * the request, builds its own reference, writes the `initiated` deposit, its
 * transaction and the `pay_references` index entry in one multi-path update,
 * and only then asks the gateway to initialize the payment.
 */
module InitPay {
  import opened Js
  import opened Gateway
  import opened Store
  import WebhookPaystack

  /** `!uid || !amount || isNaN(Number(amount))` rejects; otherwise the amount is `Number(amount)`. */
  function Validate(req: PayRequest): (amount: Option<int>)
  {
    if !Truthy(req.uid) || !Truthy(req.amount) then None
    else ToNumber(req.amount)
  }

  /** Which amounts are accepted, kind by kind, for a request with a truthy uid. */
  lemma ValidateCases(req: PayRequest)
    requires Truthy(req.uid)
    ensures req.amount.Absent? || req.amount.Null? ==> Validate(req).None?
    ensures req.amount.Flag? ==> Validate(req) == (if req.amount.b then Some(1) else None)
    ensures req.amount.Numeric? ==> Validate(req) == (if req.amount.n != 0 then Some(req.amount.n) else None)
    ensures req.amount.Text? ==>
              Validate(req) == (if req.amount.s == "" then None else ParseNumber(req.amount.s))
  {
  }

  /** A printed non-zero integer amount is accepted as that integer. */
  lemma AcceptsPrintedAmount(uid: string, email: Input, n: int)
    requires uid != "" && n != 0
    ensures Validate(PayRequest(Text(uid), email, Text(IntToString(n)))) == Some(n)
  {
    NumberOfString(n);
  }

  /** A request without a truthy uid is rejected whatever its amount. */
  lemma MissingUidRejected(req: PayRequest)
    requires !Truthy(req.uid)
    ensures Validate(req).None?
  {
  }

  /** The amount is not checked for sign: "0" and "-5" are accepted as they are. */
  lemma NonPositiveAccepted(uid: string)
    requires uid != ""
    ensures Validate(PayRequest(Text(uid), Absent, Text("0"))) == Some(0)
    ensures Validate(PayRequest(Text(uid), Absent, Text("-5"))) == Some(-5)
  {
    assert ParseRadix("0", 10) == Some(0);
    assert ParseRadix("5", 10) == Some(5);
    assert "-5"[1..] == "5";
  }

  // ---------------------------------------------------------------------------
  // The reference `AMR-<now in base 36>-<nonce>`

  /** `AMR-${Date.now().toString(36)}-${nonce}`, with `nonce` the random integer. */
  function Reference(now: nat, nonce: nat): (r: string)
    ensures |r| >= 7 && r[..4] == "AMR-"
  {
    "AMR-" + Radix(now, 36) + "-" + Radix(nonce, 10)
  }

  /** Recovers the instant and the nonce from a reference. */
  function ParseReference(s: string): Option<(nat, nat)>
  {
    if |s| < 4 || s[..4] != "AMR-" then None
    else
      var rest := s[4..];
      match IndexOf(rest, '-')
      case None => None
      case Some(i) =>
        match (ParseRadix(rest[..i], 36), ParseRadix(rest[i + 1..], 10))
        case (Some(t), Some(n)) => Some((t, n))
        case _ => None
  }

  /** A reference gives back the instant and the nonce it was built from. */
  lemma {:induction false} ReferenceRoundTrip(now: nat, nonce: nat)
    ensures ParseReference(Reference(now, nonce)) == Some((now, nonce))
  {
    var s := Reference(now, nonce);
    var stamp, digits := Radix(now, 36), Radix(nonce, 10);
    var rest := s[4..];
    assert rest == stamp + "-" + digits;
    forall j | 0 <= j < |stamp| ensures rest[j] != '-' {
      assert rest[j] == stamp[j];
      assert DigitValue(stamp[j]).Some?;
    }
    assert rest[|stamp|] == '-';
    assert IndexOf(rest, '-') == Some(|stamp|);
    assert rest[..|stamp|] == stamp;
    assert rest[|stamp| + 1..] == digits;
    ParseRadixInverse(now, 36);
    ParseRadixInverse(nonce, 10);
  }

  /** Two references are equal only when built from the same instant and nonce. */
  lemma ReferenceInjective(now1: nat, nonce1: nat, now2: nat, nonce2: nat)
    requires Reference(now1, nonce1) == Reference(now2, nonce2)
    ensures now1 == now2 && nonce1 == nonce2
  {
    ReferenceRoundTrip(now1, nonce1);
    ReferenceRoundTrip(now2, nonce2);
  }

  /** `Math.floor(Math.random() * 90000 + 10000)` always prints as five digits. */
  lemma NonceDigits(now: nat, nonce: nat)
    requires 10000 <= nonce <= 99999
    ensures |Radix(nonce, 10)| == 5
    ensures |Reference(now, nonce)| == 10 + |Radix(now, 36)|
  {
    assert Pow10(4) == 10000 && Pow10(5) == 100000;
    DecimalLength(nonce, 5);
  }

  // ---------------------------------------------------------------------------
  // The three records

  function DepositRecord(uid: Input, amount: int, reference: string, now: nat): Record
    requires Truthy(uid)
  {
    map["amount" := Num(amount), "status" := Str("initiated"), "timestamp" := Num(now), "updatedAt" := Num(now),
        "uid" := Stored(uid), "reference" := Str(reference), "note" := Str("initiated via init-pay")]
  }

  function TransactionRecord(amount: int, depId: string, now: nat): Record
  {
    map["type" := Str("credit"), "action" := Str("deposit"), "amount" := Num(amount), "status" := Str("initiated"),
        "timestamp" := Num(now), "depositId" := Str(depId), "updatedAt" := Num(now), "createdBy" := Str("system")]
  }

  /** `pay_references/{reference} = { uid, depId, txId, createdAt }`. */
  function IndexEntry(uid: Input, depId: string, txId: string, now: nat): Record
    requires Truthy(uid)
  {
    map["uid" := Stored(uid), "depId" := Str(depId), "txId" := Str(txId), "createdAt" := Num(now)]
  }

  /** The `updates` object of lines 76-79: three paths, each a whole record. */
  function InitWrites(uid: Input, amount: int, depId: string, txId: string, now: nat, nonce: nat)
    : (w: map<Path, Record>)
    requires Truthy(uid)
  {
    var reference := Reference(now, nonce);
    var key := InputString(uid);
    map[DepositPath(key, depId) := DepositRecord(uid, amount, reference, now),
        TransactionPath(key, txId) := TransactionRecord(amount, depId, now),
        IndexPath(reference) := IndexEntry(uid, depId, txId, now)]
  }

  /** The update writes exactly three distinct records. */
  lemma ThreeRecords(uid: Input, amount: int, depId: string, txId: string, now: nat, nonce: nat)
    requires Truthy(uid)
    ensures |InitWrites(uid, amount, depId, txId, now, nonce)| == 3
  {
    var key, reference := InputString(uid), Reference(now, nonce);
    var d, t, i := DepositPath(key, depId), TransactionPath(key, txId), IndexPath(reference);
    assert d[0] != t[0] && d[0] != i[0] && t[0] != i[0];
    assert InitWrites(uid, amount, depId, txId, now, nonce).Keys == {d, t, i};
  }

  /**
   * The index entry leads the signed webhook back to the deposit and the
   * transaction written beside it, and its `txId` is truthy, so the webhook
   * updates both.
   */
  lemma IndexResolves(uid: Input, depId: string, txId: string, now: nat)
    requires Truthy(uid) && txId != ""
    ensures var entry := IndexEntry(uid, depId, txId, now);
            && WebhookPaystack.EntryDeposit(entry) == DepositPath(InputString(uid), depId)
            && WebhookPaystack.EntryTransaction(entry) == TransactionPath(InputString(uid), txId)
            && TruthyValue(Get(entry, "txId"))
  {
  }

  /**
   * After init-pay's write, a webhook for its reference finds the index entry,
   * and the entry points at the `initiated` deposit and transaction.
   */
  lemma {:induction false} WebhookFindsDeposit(before: Tree, uid: Input, amount: int, depId: string, txId: string,
                              now: nat, nonce: nat)
    requires Truthy(uid) && txId != ""
    ensures var after := Overwrite(before, InitWrites(uid, amount, depId, txId, now, nonce));
            var index := IndexPath(Reference(now, nonce));
            && index in after
            && WebhookPaystack.EntryDeposit(after[index]) in after
            && after[WebhookPaystack.EntryDeposit(after[index])]["status"] == Str("initiated")
            && WebhookPaystack.EntryTransaction(after[index]) in after
            && after[WebhookPaystack.EntryTransaction(after[index])]["status"] == Str("initiated")
  {
    var w := InitWrites(uid, amount, depId, txId, now, nonce);
    var key, reference := InputString(uid), Reference(now, nonce);
    var d, t, i := DepositPath(key, depId), TransactionPath(key, txId), IndexPath(reference);
    assert d in w && t in w && i in w;
    assert w[i] == IndexEntry(uid, depId, txId, now);
    IndexResolves(uid, depId, txId, now);
  }

  /**
   * `exports.handler`, from the body parse on (the HTTP method check is not
   * modelled). `request` is `None` when the body is not valid JSON; `reply`
   * is `None` when the initialize call or its `.json()` throws.
   */
  method Handler(db: Database, request: Option<PayRequest>, secret: string, reply: Option<InitReply>,
                 now: nat, nonce: nat)
    returns (code: int, data: Option<InitData>, gatewayCalled: bool, ghost depId: string, ghost txId: string)
    requires 10000 <= nonce <= 99999
    modifies db
    ensures request.None? || Validate(request.value).None? ==>
              code == 400 && data.None? && !gatewayCalled && db.root == old(db.root)
    ensures request.Some? && Validate(request.value).Some? ==>
              var uid := request.value.uid;
              var key := InputString(uid);
              && depId != "" && txId != ""
              && (forall q :: q in old(db.root) ==> q != DepositPath(key, depId) && !Below(DepositPath(key, depId), q))
              && (forall q :: q in old(db.root) ==>
                    q != TransactionPath(key, txId) && !Below(TransactionPath(key, txId), q))
              && db.root == Overwrite(old(db.root), InitWrites(uid, Validate(request.value).value, depId, txId, now, nonce))
              && gatewayCalled == (secret != "")
              && (secret == "" ==> code == 500)
              && (gatewayCalled && reply.None? ==> code == 500)
              && (gatewayCalled && reply.Some? && (!reply.value.httpOk || reply.value.data.None?) ==> code == 502)
              && (gatewayCalled && reply.Some? && reply.value.httpOk && reply.value.data.Some? ==> code == 200)
    ensures data.Some? <==> code == 200
    ensures code == 200 ==> data == reply.value.data
  {
    depId, txId := "", "";
    if request.None? {
      return 400, None, false, depId, txId;
    }
    var req := request.value;
    var checked := Validate(req);
    if checked.None? {
      return 400, None, false, depId, txId;
    }
    var uid, amount := req.uid, checked.value;
    var key := InputString(uid);

    var dep := db.Push(["deposits", key]);
    depId := dep;
    var tx := db.Push(["users", key, "transactions"]);
    txId := tx;
    var reference := Reference(now, nonce);
    assert DepositPath(key, dep) == ["deposits", key] + [dep];
    assert TransactionPath(key, tx) == ["users", key, "transactions"] + [tx];
    PushedPathFree(db.root, ["deposits", key], dep);
    PushedPathFree(db.root, ["users", key, "transactions"], tx);

    var updates: map<Path, Record> := map[];
    updates := updates[DepositPath(key, dep) := DepositRecord(uid, amount, reference, now)];
    updates := updates[TransactionPath(key, tx) := TransactionRecord(amount, dep, now)];
    updates := updates[IndexPath(reference) := IndexEntry(uid, dep, tx, now)];
    assert updates == InitWrites(uid, amount, dep, tx, now, nonce);
    db.SetRecords(updates);

    if secret == "" {
      return 500, None, false, depId, txId;
    }
    gatewayCalled := true;
    if reply.None? {
      return 500, None, gatewayCalled, depId, txId;
    }
    var psJson := reply.value;
    if !psJson.httpOk || psJson.data.None? {
      return 502, None, gatewayCalled, depId, txId;
    }
    code, data := 200, psJson.data;
  }
}
