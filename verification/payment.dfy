/** The browser side of Paystack: `initializePaystackPayment` builds the
    checkout-widget setup (amount in kobo, a reference, the configured key,
    currency and channels) and routes the widget's two events to the caller's
    callbacks; `generateReference` makes `prefix-timestamp-random`. The clock
    and `Math.random()` are parameters; whether the widget script is loaded is
    a flag. */
module Payment {
  import opened Results
  import opened Js
  import opened Decimal
  import Verification

  // ---------------------------------------------------------------------------
  // Configuration

  const PublicKey: string := "pk_test_7c2d6be07d36ea7046409e7cf58a186db27bbba9"
  const Currency: string := "NGN"
  const Channels: seq<string> := ["card", "bank", "ussd", "qr", "mobile_money", "bank_transfer"]

  // ---------------------------------------------------------------------------
  // References

  const DefaultPrefix: string := "MP"

  /** The random part is drawn from [0, RandomRange). */
  const RandomRange: nat := 1000000

  /** `Math.floor(Math.random() * 1000000)`, given the draw `u` of `Math.random()`. */
  function RandomPart(u: real): (n: nat)
    requires 0.0 <= u < 1.0
    ensures n < RandomRange
    ensures n as real <= u * 1000000.0 < n as real + 1.0
  {
    Floor(u * 1000000.0)
  }

  /** `generateReference(prefix)` at clock reading `now` (milliseconds) and random draw `u`. */
  function GenerateReference(prefix: string, now: nat, u: real): (r: string)
    requires 0.0 <= u < 1.0
    ensures |r| >= |prefix| + 4
    ensures r[..|prefix| + 1] == prefix + "-"
  {
    prefix + "-" + ToDecimal(now) + "-" + ToDecimal(RandomPart(u))
  }

  /** The three parts of a generated reference. */
  datatype Reference = Reference(prefix: string, timestamp: nat, random: nat)

  /** The position of the last `c` in `s`, or -1 (`lastIndexOf`). */
  function LastIndexOf(s: string, c: char): (k: int)
    ensures -1 <= k < |s|
    ensures k >= 0 ==> s[k] == c && forall j :: k < j < |s| ==> s[j] != c
    ensures k == -1 ==> forall j :: 0 <= j < |s| ==> s[j] != c
  {
    if |s| == 0 then -1
    else if s[|s| - 1] == c then |s| - 1
    else LastIndexOf(s[..|s| - 1], c)
  }

  /** Reads a reference back: the text after the last dash and between the last
      two dashes must be non-empty digit strings; the prefix is everything before. */
  function ParseReference(s: string): (r: Option<Reference>)
  {
    var k := LastIndexOf(s, '-');
    if k < 0 then None
    else
      var j := LastIndexOf(s[..k], '-');
      if j < 0 then None
      else
        var stamp := s[j + 1..k];
        var rand := s[k + 1..];
        if |stamp| == 0 || |rand| == 0 || !AllDigits(stamp) || !AllDigits(rand) then None
        else Some(Reference(s[..j], Decimal.Value(stamp), Decimal.Value(rand)))
  }

  /** The last dash of `x + "-" + y` is the one before `y` when `y` has none. */
  lemma {:induction false} LastDashBefore(x: string, y: string)
    requires forall i :: 0 <= i < |y| ==> y[i] != '-'
    ensures LastIndexOf(x + "-" + y, '-') == |x|
  {
    var s := x + "-" + y;
    if |y| == 0 {
      assert s == x + "-";
    } else {
      var y' := y[..|y| - 1];
      assert s[..|s| - 1] == x + "-" + y';
      assert s[|s| - 1] == y[|y| - 1];
      LastDashBefore(x, y');
    }
  }

  lemma DigitsHaveNoDash(y: string)
    requires AllDigits(y)
    ensures forall i :: 0 <= i < |y| ==> y[i] != '-'
  {
    forall i | 0 <= i < |y|
      ensures y[i] != '-'
    {
      assert IsDigit(y[i]);
    }
  }

  /** A generated reference reads back as its prefix, the clock reading and the random part. */
  lemma ParseGenerated(prefix: string, now: nat, u: real)
    requires 0.0 <= u < 1.0
    ensures ParseReference(GenerateReference(prefix, now, u)) == Some(Reference(prefix, now, RandomPart(u)))
  {
    var a := ToDecimal(now);
    var b := ToDecimal(RandomPart(u));
    var front := prefix + "-" + a;
    var s := GenerateReference(prefix, now, u);
    assert s == front + "-" + b;
    DigitsHaveNoDash(a);
    DigitsHaveNoDash(b);
    LastDashBefore(front, b);
    var k := |front|;
    assert s[..k] == prefix + "-" + a;
    LastDashBefore(prefix, a);
    assert LastIndexOf(s, '-') == k;
    assert LastIndexOf(s[..k], '-') == |prefix|;
    assert s[|prefix| + 1..k] == a;
    assert s[k + 1..] == b;
    assert s[..|prefix|] == prefix;
    ValueOfToDecimal(now);
    ValueOfToDecimal(RandomPart(u));
    assert |a| > 0 && |b| > 0 && AllDigits(a) && AllDigits(b);
  }

  /** Two references generated with the same prefix differ whenever their clock
      readings or their random parts do. */
  lemma DistinctDrawsGiveDistinctReferences(prefix: string, now1: nat, u1: real, now2: nat, u2: real)
    requires 0.0 <= u1 < 1.0 && 0.0 <= u2 < 1.0
    requires now1 != now2 || RandomPart(u1) != RandomPart(u2)
    ensures GenerateReference(prefix, now1, u1) != GenerateReference(prefix, now2, u2)
  {
    ParseGenerated(prefix, now1, u1);
    ParseGenerated(prefix, now2, u2);
  }

  // ---------------------------------------------------------------------------
  // initializePaystackPayment

  /** The caller's payment data. `reference` is None when not given; the two
      flags say whether `onSuccess` and `onClose` were supplied. */
  datatype PaymentData = PaymentData(
    email: string, amount: real, reference: Option<string>,
    hasOnSuccess: bool, hasOnClose: bool)

  /** The argument of `PaystackPop.setup`, without the metadata and the callbacks. */
  datatype Setup = Setup(
    key: string, email: string, amountKobo: int, currency: string,
    reference: string, channels: seq<string>)

  /** `reference || generateReference()`: an undefined or empty reference is replaced. */
  predicate GivenReference(data: PaymentData) {
    data.reference.Some? && data.reference.value != ""
  }

  /** `initializePaystackPayment`: nothing happens without the widget script;
      otherwise the amount in naira is rounded to kobo and the widget is set up
      with the configured key, currency and channels. */
  function InitializePayment(scriptLoaded: bool, data: PaymentData, now: nat, u: real): (r: Option<Setup>)
    requires 0.0 <= u < 1.0
    ensures r.None? <==> !scriptLoaded
    ensures r.Some? ==> r.value.amountKobo as real - 0.5 <= data.amount * 100.0 < r.value.amountKobo as real + 0.5
    ensures r.Some? && GivenReference(data) ==> r.value.reference == data.reference.value
    ensures r.Some? && !GivenReference(data) ==>
      ParseReference(r.value.reference) == Some(Reference(DefaultPrefix, now, RandomPart(u)))
    ensures r.Some? ==> r.value.reference != ""
    ensures r.Some? ==> r.value.email == data.email
    ensures r.Some? ==> r.value.key == PublicKey && r.value.currency == Currency && r.value.channels == Channels
  {
    if !scriptLoaded then None
    else
      var reference := if GivenReference(data) then data.reference.value else GenerateReference(DefaultPrefix, now, u);
      ParseGenerated(DefaultPrefix, now, u);
      Some(Setup(PublicKey, data.email, Round(data.amount * 100.0), Currency, reference, Channels))
  }

  /** A whole number of naira is charged exactly. */
  lemma WholeNairaIsExact(naira: int)
    ensures Round(naira as real * 100.0) == 100 * naira
  {
    var r := Round(naira as real * 100.0);
    assert r as real - 0.5 <= (100 * naira) as real < r as real + 0.5;
  }

  /** The kobo the widget charges, read back in naira by the server-side verifier,
      reconciles with the amount the customer was asked for. */
  lemma ChargedAmountReconciles(naira: real)
    ensures !Verification.Mismatch(Finite(Round(naira * 100.0) as real / 100.0), naira, true)
  {
    var k := Round(naira * 100.0) as real;
    assert k - 0.5 <= naira * 100.0 < k + 0.5;
    assert k / 100.0 - 0.005 <= naira < k / 100.0 + 0.005;
  }

  // ---------------------------------------------------------------------------
  // Widget callbacks

  /** What the widget reports: a successful payment with its response, or the window closing. */
  datatype Event = PaymentSucceeded(response: string) | WindowClosed

  /** A call into the caller's code. */
  datatype Call = OnSuccess(response: string) | OnClose

  /** The `callback` and `onClose` handlers: each forwards its event to the
      matching caller callback when one was supplied. */
  function Dispatch(data: PaymentData, e: Event): (calls: seq<Call>)
    ensures |calls| <= 1
    ensures calls != [] <==> if e.PaymentSucceeded? then data.hasOnSuccess else data.hasOnClose
    ensures forall c :: c in calls ==> (c.OnSuccess? <==> e.PaymentSucceeded?)
    ensures forall c :: c in calls && c.OnSuccess? ==> c.response == e.response
  {
    match e
    case PaymentSucceeded(response) => if data.hasOnSuccess then [OnSuccess(response)] else []
    case WindowClosed => if data.hasOnClose then [OnClose] else []
  }

  /** Over any run of widget events, the caller sees exactly one call per event
      it registered a callback for, in event order. */
  function DispatchAll(data: PaymentData, events: seq<Event>): (calls: seq<Call>)
  {
    if |events| == 0 then [] else Dispatch(data, events[0]) + DispatchAll(data, events[1..])
  }

  function Successes(events: seq<Event>): nat {
    if |events| == 0 then 0 else (if events[0].PaymentSucceeded? then 1 else 0) + Successes(events[1..])
  }

  function SuccessCalls(calls: seq<Call>): nat {
    if |calls| == 0 then 0 else (if calls[0].OnSuccess? then 1 else 0) + SuccessCalls(calls[1..])
  }

  lemma {:induction false} SuccessCallsConcat(a: seq<Call>, b: seq<Call>)
    ensures SuccessCalls(a + b) == SuccessCalls(a) + SuccessCalls(b)
  {
    if |a| == 0 {
      assert a + b == b;
    } else {
      assert (a + b)[1..] == a[1..] + b;
      SuccessCallsConcat(a[1..], b);
    }
  }

  /** With `onSuccess` supplied, it runs once per successful payment and never otherwise. */
  lemma {:induction false} OneSuccessCallPerPayment(data: PaymentData, events: seq<Event>)
    ensures SuccessCalls(DispatchAll(data, events)) == if data.hasOnSuccess then Successes(events) else 0
  {
    if |events| > 0 {
      var head := Dispatch(data, events[0]);
      SuccessCallsConcat(head, DispatchAll(data, events[1..]));
      OneSuccessCallPerPayment(data, events[1..]);
      if head != [] {
        assert head[1..] == [];
      }
    }
  }
}
