/** The server-side payment verification callable (`verifyPaystackPayment`).
    It re-checks a client-reported payment against the payment provider with
    the secret key and short-circuits on the first failed check, each failure
    mapping to one result code. The provider call, the duplicate-reference
    query and the environment are inputs: what they answered, or that they threw. */
module Verification {
  import opened Js
  import opened Results

  datatype Code =
    | InvalidInput
    | InvalidAmount
    | ServiceError
    | PaystackFailed
    | PaymentNotSuccess
    | AmountMismatch
    | DuplicatePayment
    | VerificationError

  /** The code string sent to the caller. */
  function CodeName(c: Code): string {
    match c
    case InvalidInput => "INVALID_INPUT"
    case InvalidAmount => "INVALID_AMOUNT"
    case ServiceError => "SERVICE_ERROR"
    case PaystackFailed => "PAYSTACK_FAILED"
    case PaymentNotSuccess => "PAYMENT_NOT_SUCCESS"
    case AmountMismatch => "AMOUNT_MISMATCH"
    case DuplicatePayment => "DUPLICATE_PAYMENT"
    case VerificationError => "VERIFICATION_ERROR"
  }

  datatype ProviderCustomer = ProviderCustomer(email: string, id: int)

  datatype Authorization = Authorization(
    authorizationCode: string, bin: string, last4: string,
    expMonth: string, expYear: string, channel: string, cardType: string)

  /** The provider's transaction record; `amount` is in kobo. */
  datatype Transaction = Transaction(
    status: string, amount: Number, reference: string, paidAt: string,
    customer: Option<ProviderCustomer>, authorization: Option<Authorization>)

  /** What the provider's verify endpoint did: the HTTP call threw (network
      failure, timeout, non-2xx status), or it answered with an envelope
      `status` and a `data` field that may be missing. */
  datatype ProviderReply =
    | Unreachable
    | Reply(status: Value, data: Option<Transaction>)

  /** The query for an order whose `payment.reference` equals the reference. */
  datatype Lookup = LookupFailed | LookupDone(found: bool)

  /** `request.data`: absent (null or undefined), or an object with two fields of any JavaScript type. */
  datatype Request = NoData | Data(reference: Value, amount: Value)

  datatype Input = Input(request: Request, secretKey: string, provider: ProviderReply, existing: Lookup)

  /** The normalised success payload; `amount` is in naira. */
  datatype Payload = Payload(
    reference: string, amount: Number, status: string, paidAt: string,
    customerEmail: Option<string>, customerId: Option<int>,
    authorization: Option<Authorization>)

  datatype Outcome =
    | Verified(data: Payload)
    | Rejected(code: Code, error: string)

  /** Largest accepted difference, in naira, between the expected and the provider's amount. */
  const Tolerance: real := 0.01

  const GenericError: string := "Unable to verify payment. Please contact support."

  /** The message sent with each fixed-text code. */
  function FixedMessage(c: Code): string {
    match c
    case InvalidInput => "Missing payment reference or amount"
    case InvalidAmount => "Invalid amount"
    case ServiceError => "Payment service not configured"
    case PaystackFailed => "Payment verification failed with Paystack"
    case PaymentNotSuccess => "Payment status is "
    case AmountMismatch => "Amount mismatch detected"
    case DuplicatePayment => "This payment reference has already been used"
    case VerificationError => GenericError
  }

  /** A truthy amount passes the type check only if it is a positive number. */
  predicate PositiveNumber(v: Value) {
    v.Num? && v.n.Finite? && v.n.value > 0.0
  }

  /** The reconciliation test: does the provider's naira amount differ from the expected one?
      `failClosed` decides the NaN case: false is the comparison as written, where
      `Math.abs(NaN) > 0.01` is false; true treats a non-numeric amount as a mismatch. */
  predicate Mismatch(naira: Number, expected: real, failClosed: bool) {
    match naira
    case Finite(a) => Abs(a - expected) > Tolerance
    case NaN => failClosed
  }

  function SuccessPayload(tx: Transaction): (p: Payload)
    ensures p.reference == tx.reference && p.status == tx.status && p.paidAt == tx.paidAt
    ensures tx.amount.Finite? ==> p.amount == Finite(tx.amount.value / 100.0)
    ensures p.customerEmail.Some? <==> tx.customer.Some?
    ensures tx.customer.Some? ==>
      p.customerEmail == Some(tx.customer.value.email) && p.customerId == Some(tx.customer.value.id)
    ensures tx.customer.None? ==> p.customerId.None?
    ensures p.authorization == tx.authorization
  {
    Payload(
      tx.reference, DivideBy100(tx.amount), tx.status, tx.paidAt,
      if tx.customer.Some? then Some(tx.customer.value.email) else None,
      if tx.customer.Some? then Some(tx.customer.value.id) else None,
      tx.authorization)
  }

  /** The check chain, shared by the as-written and the corrected verifier. */
  function Chain(inp: Input, failClosed: bool): Outcome {
    match inp.request
    case NoData => Rejected(VerificationError, GenericError)
    case Data(reference, amount) =>
      if !Truthy(reference) || !Truthy(amount) then Rejected(InvalidInput, FixedMessage(InvalidInput))
      else if !PositiveNumber(amount) then Rejected(InvalidAmount, FixedMessage(InvalidAmount))
      else if inp.secretKey == "" then Rejected(ServiceError, FixedMessage(ServiceError))
      else match inp.provider
        case Unreachable => Rejected(VerificationError, GenericError)
        case Reply(status, data) =>
          if status != Bool(true) then Rejected(PaystackFailed, FixedMessage(PaystackFailed))
          else match data
            case None => Rejected(VerificationError, GenericError)
            case Some(tx) =>
              if tx.status != "success" then Rejected(PaymentNotSuccess, "Payment status is " + tx.status)
              else if Mismatch(DivideBy100(tx.amount), amount.n.value, failClosed) then
                Rejected(AmountMismatch, FixedMessage(AmountMismatch))
              else match inp.existing
                case LookupFailed => Rejected(VerificationError, GenericError)
                case LookupDone(found) =>
                  if found then Rejected(DuplicatePayment, FixedMessage(DuplicatePayment))
                  else Verified(SuccessPayload(tx))
  }

  /** What a verified outcome of the chain carries, and the message each rejection sends. */
  lemma ChainOutcome(inp: Input, failClosed: bool, r: Outcome)
    requires r == Chain(inp, failClosed)
    ensures r.Verified? ==>
      && inp.request.Data? && PositiveNumber(inp.request.amount) && inp.secretKey != ""
      && inp.provider.Reply? && inp.provider.data.Some?
      && !Mismatch(DivideBy100(inp.provider.data.value.amount), inp.request.amount.n.value, failClosed)
      && inp.existing == LookupDone(false)
      && r.data == SuccessPayload(inp.provider.data.value)
    ensures r.Rejected? && r.code == VerificationError ==> r.error == GenericError
    ensures r.Rejected? && r.code == PaymentNotSuccess ==>
      inp.provider.Reply? && inp.provider.data.Some? &&
      r.error == "Payment status is " + inp.provider.data.value.status
    ensures r.Rejected? && r.code != PaymentNotSuccess ==> r.error == FixedMessage(r.code)
  {
  }

  // ---------------------------------------------------------------------------
  // Every check the verifier makes, in the order it makes them. A check
  // "fails" on an input only where its data is there to look at; the order
  // ensures the earlier checks have already established that.

  datatype Check =
    | RequestReadable
    | InputPresent
    | AmountValid
    | KeyConfigured
    | ProviderReached
    | EnvelopeOk
    | TransactionPresent
    | StatusSuccess
    | AmountMatches
    | LookupAnswered
    | NotDuplicate

  /** Position of each check in the order the verifier makes them. */
  function Rank(c: Check): nat {
    match c
    case RequestReadable => 0
    case InputPresent => 1
    case AmountValid => 2
    case KeyConfigured => 3
    case ProviderReached => 4
    case EnvelopeOk => 5
    case TransactionPresent => 6
    case StatusSuccess => 7
    case AmountMatches => 8
    case LookupAnswered => 9
    case NotDuplicate => 10
  }

  /** The code a failing check reports. */
  function CodeOf(c: Check): Code {
    match c
    case RequestReadable => VerificationError
    case InputPresent => InvalidInput
    case AmountValid => InvalidAmount
    case KeyConfigured => ServiceError
    case ProviderReached => VerificationError
    case EnvelopeOk => PaystackFailed
    case TransactionPresent => VerificationError
    case StatusSuccess => PaymentNotSuccess
    case AmountMatches => AmountMismatch
    case LookupAnswered => VerificationError
    case NotDuplicate => DuplicatePayment
  }

  predicate Fails(c: Check, inp: Input, failClosed: bool) {
    match c
    case RequestReadable => inp.request.NoData?
    case InputPresent => inp.request.Data? && (!Truthy(inp.request.reference) || !Truthy(inp.request.amount))
    case AmountValid => inp.request.Data? && !PositiveNumber(inp.request.amount)
    case KeyConfigured => inp.secretKey == ""
    case ProviderReached => inp.provider.Unreachable?
    case EnvelopeOk => inp.provider.Reply? && inp.provider.status != Bool(true)
    case TransactionPresent => inp.provider.Reply? && inp.provider.data.None?
    case StatusSuccess =>
      inp.provider.Reply? && inp.provider.data.Some? && inp.provider.data.value.status != "success"
    case AmountMatches =>
      && inp.request.Data? && PositiveNumber(inp.request.amount)
      && inp.provider.Reply? && inp.provider.data.Some?
      && Mismatch(DivideBy100(inp.provider.data.value.amount), inp.request.amount.n.value, failClosed)
    case LookupAnswered => inp.existing.LookupFailed?
    case NotDuplicate => inp.existing.LookupDone? && inp.existing.found
  }

  /** `c` fails and every check made before it passes. */
  predicate FirstFailure(c: Check, inp: Input, failClosed: bool) {
    Fails(c, inp, failClosed) && forall d :: Rank(d) < Rank(c) ==> !Fails(d, inp, failClosed)
  }

  /** All checks pass. */
  predicate Accepted(inp: Input, failClosed: bool) {
    forall c :: !Fails(c, inp, failClosed)
  }

  /** The chain verifies exactly when every check passes, and otherwise reports
      the code of the first failing check in the fixed order. */
  lemma ChainFollowsCheckOrder(inp: Input, failClosed: bool)
    ensures Chain(inp, failClosed).Verified? <==> Accepted(inp, failClosed)
    ensures Chain(inp, failClosed).Rejected? ==>
      exists c :: FirstFailure(c, inp, failClosed) && Chain(inp, failClosed).code == CodeOf(c)
  {
    var r := Chain(inp, failClosed);
    if r.Rejected? {
      var c := FailingCheck(inp, failClosed);
      assert FirstFailure(c, inp, failClosed);
    } else {
      forall c ensures !Fails(c, inp, failClosed) {
      }
    }
  }

  /** The check the chain stopped at, for an input it rejects. */
  function FailingCheck(inp: Input, failClosed: bool): (c: Check)
    requires Chain(inp, failClosed).Rejected?
    ensures FirstFailure(c, inp, failClosed) && Chain(inp, failClosed).code == CodeOf(c)
  {
    if inp.request.NoData? then RequestReadable
    else if !Truthy(inp.request.reference) || !Truthy(inp.request.amount) then InputPresent
    else if !PositiveNumber(inp.request.amount) then AmountValid
    else if inp.secretKey == "" then KeyConfigured
    else FailingProviderCheck(inp, failClosed)
  }

  /** The check the chain stopped at, once the request and the key have passed. */
  function FailingProviderCheck(inp: Input, failClosed: bool): (c: Check)
    requires Chain(inp, failClosed).Rejected?
    requires inp.request.Data? && Truthy(inp.request.reference) && Truthy(inp.request.amount)
    requires PositiveNumber(inp.request.amount) && inp.secretKey != ""
    ensures FirstFailure(c, inp, failClosed) && Chain(inp, failClosed).code == CodeOf(c)
  {
    if inp.provider.Unreachable? then ProviderReached
    else if inp.provider.status != Bool(true) then EnvelopeOk
    else if inp.provider.data.None? then TransactionPresent
    else if inp.provider.data.value.status != "success" then StatusSuccess
    else if Mismatch(DivideBy100(inp.provider.data.value.amount), inp.request.amount.n.value, failClosed) then AmountMatches
    else if inp.existing.LookupFailed? then LookupAnswered
    else NotDuplicate
  }

  // ---------------------------------------------------------------------------
  // The verifier as written and as evidently intended.

  /** `verifyPaystackPayment` as written: a provider amount that is not a number
      (missing, so `undefined / 100` is NaN) passes reconciliation. */
  function VerifyAsWritten(inp: Input): (r: Outcome)
    ensures r.Verified? <==> Accepted(inp, false)
    ensures r.Verified? ==>
      inp.provider.Reply? && inp.provider.data.Some? && r.data == SuccessPayload(inp.provider.data.value)
  {
    ChainFollowsCheckOrder(inp, false);
    ChainOutcome(inp, false, Chain(inp, false));
    Chain(inp, false)
  }

  /** The verifier with reconciliation failing closed on a non-numeric provider amount. */
  function Verify(inp: Input): (r: Outcome)
    ensures r.Verified? <==> Accepted(inp, true)
    ensures r.Verified? ==>
      && inp.request.Data? && PositiveNumber(inp.request.amount) && inp.secretKey != ""
      && inp.provider.Reply? && inp.provider.data.Some?
      && inp.provider.data.value.amount.Finite?
      && r.data.amount == Finite(inp.provider.data.value.amount.value / 100.0)
      && Abs(r.data.amount.value - inp.request.amount.n.value) <= Tolerance
      && inp.existing == LookupDone(false)
    ensures r.Verified? ==>
      inp.provider.Reply? && inp.provider.data.Some? && r.data == SuccessPayload(inp.provider.data.value)
    ensures r.Rejected? && r.code == VerificationError ==> r.error == GenericError
    ensures r.Rejected? && r.code == PaymentNotSuccess ==>
      inp.provider.Reply? && inp.provider.data.Some? &&
      r.error == "Payment status is " + inp.provider.data.value.status
    ensures r.Rejected? && r.code != PaymentNotSuccess ==> r.error == FixedMessage(r.code)
  {
    ChainFollowsCheckOrder(inp, true);
    ChainOutcome(inp, true, Chain(inp, true));
    Chain(inp, true)
  }

  /** The verifier reports the code of the first failing check, in the fixed order. */
  lemma VerifyFollowsCheckOrder(inp: Input)
    ensures Verify(inp).Rejected? ==> exists c :: FirstFailure(c, inp, true) && Verify(inp).code == CodeOf(c)
  {
    ChainFollowsCheckOrder(inp, true);
  }

  // ---------------------------------------------------------------------------
  // Properties of the corrected verifier.

  /** A missing reference or a falsy amount (including 0 and NaN) is INVALID_INPUT, never INVALID_AMOUNT. */
  lemma FalsyInputIsInvalidInput(inp: Input)
    requires inp.request.Data?
    requires !Truthy(inp.request.reference) || !Truthy(inp.request.amount)
    ensures Verify(inp) == Rejected(InvalidInput, "Missing payment reference or amount")
  {
  }

  /** A truthy amount that is not a positive number is INVALID_AMOUNT. */
  lemma BadAmountIsInvalidAmount(inp: Input)
    requires inp.request.Data? && Truthy(inp.request.reference) && Truthy(inp.request.amount)
    requires !PositiveNumber(inp.request.amount)
    ensures Verify(inp) == Rejected(InvalidAmount, "Invalid amount")
  {
  }

  /** Without a secret key the result is SERVICE_ERROR whatever the provider and the order store would have said. */
  lemma NoKeyNeverReachesProvider(inp: Input, provider: ProviderReply, existing: Lookup)
    requires inp.request.Data? && Truthy(inp.request.reference) && PositiveNumber(inp.request.amount)
    requires inp.secretKey == ""
    ensures Verify(inp) == Rejected(ServiceError, "Payment service not configured")
    ensures Verify(inp.(provider := provider, existing := existing)) == Verify(inp)
  {
  }

  /** A provider amount more than 0.01 naira away from the expected amount is AMOUNT_MISMATCH, never verified. */
  lemma MismatchIsRejected(inp: Input)
    requires inp.request.Data? && Truthy(inp.request.reference) && PositiveNumber(inp.request.amount)
    requires inp.secretKey != ""
    requires inp.provider.Reply? && inp.provider.status == Bool(true) && inp.provider.data.Some?
    requires inp.provider.data.value.status == "success"
    requires inp.provider.data.value.amount.Finite?
    requires Abs(inp.provider.data.value.amount.value / 100.0 - inp.request.amount.n.value) > Tolerance
    ensures Verify(inp) == Rejected(AmountMismatch, "Amount mismatch detected")
  {
  }

  /** Once an order carries the reference, a payment that verified before is refused as a duplicate. */
  lemma ReplayIsRejected(inp: Input)
    requires Verify(inp).Verified?
    ensures Verify(inp.(existing := LookupDone(true))) ==
      Rejected(DuplicatePayment, "This payment reference has already been used")
  {
  }

  /** Which provider status was seen is echoed in the PAYMENT_NOT_SUCCESS message. */
  lemma NotSuccessEchoesStatus(inp: Input, status: string)
    requires inp.request.Data? && Truthy(inp.request.reference) && PositiveNumber(inp.request.amount)
    requires inp.secretKey != ""
    requires inp.provider.Reply? && inp.provider.status == Bool(true) && inp.provider.data.Some?
    requires inp.provider.data.value.status == status && status != "success"
    ensures Verify(inp) == Rejected(PaymentNotSuccess, "Payment status is " + status)
  {
  }

  /** The worked example: 150000 kobo reported for an expected 1500 naira verifies with amount 1500. */
  lemma ExampleVerifies(tx: Transaction)
    requires tx.status == "success" && tx.amount == Finite(150000.0) && tx.reference == "abc123"
    ensures var inp := Input(Data(Str("abc123"), Num(Finite(1500.0))), "sk_live", Reply(Bool(true), Some(tx)), LookupDone(false));
      Verify(inp).Verified? && Verify(inp).data.amount == Finite(1500.0) && Verify(inp).data.reference == "abc123"
  {
  }

  // ---------------------------------------------------------------------------
  // The reconciliation defect, exhibited.

  /** As written, a successful transaction without a numeric amount is verified, with amount NaN. */
  lemma {:induction false} AsWrittenAcceptsMissingAmount(tx: Transaction)
    requires tx.status == "success" && tx.amount == NaN
    ensures var inp := Input(Data(Str("abc123"), Num(Finite(1500.0))), "sk_live", Reply(Bool(true), Some(tx)), LookupDone(false));
      VerifyAsWritten(inp).Verified? && VerifyAsWritten(inp).data.amount == NaN
      && Verify(inp) == Rejected(AmountMismatch, "Amount mismatch detected")
  {
    var inp := Input(Data(Str("abc123"), Num(Finite(1500.0))), "sk_live", Reply(Bool(true), Some(tx)), LookupDone(false));
    assert Chain(inp, false).Verified?;
  }

  /** The two verifiers differ only on a non-numeric provider amount. */
  lemma VerifiersAgreeOnNumericAmounts(inp: Input)
    requires !(inp.provider.Reply? && inp.provider.data.Some? && inp.provider.data.value.amount.NaN?)
    ensures VerifyAsWritten(inp) == Verify(inp)
  {
  }
}
