/**
 * What the handlers receive: the client's payment request, and what they read
 * out of the payment gateway (Paystack). The gateway itself is not modelled:
 * each answer it gives is an input to the handler that asked for it.
 */
module Gateway {
  import opened Js

  /**
   * The `data` object of a gateway transaction, as far as the handlers read it:
   * `reference`, `status`, `amount` (in kobo) and `metadata.uid` ("" when
   * absent or falsy). `None` means the key is missing; for `amount` it also
   * covers a value that is not a number, so that `amount / 100` is NaN.
   */
  datatype Charge = Charge(reference: Option<string>, status: Option<string>, amount: Option<int>, metadataUid: string)

  /** A parsed webhook body: `event` and `data`. */
  datatype Event = Event(name: Option<string>, data: Option<Charge>)

  /**
   * The answer of `GET /transaction/verify/{reference}`: the HTTP `ok` flag,
   * whether the JSON `status` is `true`, and the JSON `data` (`None` when the
   * JSON is null or has no `data`).
   */
  datatype VerifyReply = VerifyReply(httpOk: bool, status: bool, data: Option<Charge>)

  /** The `data` object of `POST /transaction/initialize`; `reference` is `None` when missing. */
  datatype InitData = InitData(authorizationUrl: string, reference: Option<string>)

  /** The answer of `POST /transaction/initialize`. */
  datatype InitReply = InitReply(httpOk: bool, status: bool, data: Option<InitData>)

  /** The fields `uid`, `email` and `amount` of a payment request body; `Absent` when missing. */
  datatype PayRequest = PayRequest(uid: Input, email: Input, amount: Input)

  /** `crypto.createHmac('sha512', secret).update(body).digest('hex')`, left uninterpreted. */
  type Hmac = (string, string) -> string
}
