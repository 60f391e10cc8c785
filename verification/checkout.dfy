/** The checkout page: the customer form, its validation, and the order draft
    it hands to the order service. The page receives the cart summary as
    navigation state, which is missing when the page is opened directly. */
module Checkout {
  import opened Results
  import opened Text
  import opened Js
  import Cart
  import Orders
  import MenuService

  /** The form's fields, by their input `name`. */
  datatype Field = Name | Phone | Email | Street | Area | Notes

  datatype Form = Form(name: string, phone: string, email: string, address: string, area: string, notes: string)

  /** The form as first rendered. */
  const EmptyForm: Form := Form("", "", "", "", "", "")

  /** Error text per field; a field with no entry has never had an error. */
  type Errors = map<Field, string>

  function Get(form: Form, f: Field): string {
    match f
    case Name => form.name
    case Phone => form.phone
    case Email => form.email
    case Street => form.address
    case Area => form.area
    case Notes => form.notes
  }

  function Set(form: Form, f: Field, v: string): (r: Form)
    ensures Get(r, f) == v
    ensures forall g :: g != f ==> Get(r, g) == Get(form, g)
  {
    match f
    case Name => form.(name := v)
    case Phone => form.(phone := v)
    case Email => form.(email := v)
    case Street => form.(address := v)
    case Area => form.(area := v)
    case Notes => form.(notes := v)
  }

  /** `handleInputChange`: store the typed value, and blank the field's error if it showed one. */
  function HandleInputChange(form: Form, errors: Errors, f: Field, v: string): (r: (Form, Errors))
    ensures Get(r.0, f) == v
    ensures forall g :: g != f ==> Get(r.0, g) == Get(form, g)
    ensures r.1.Keys == errors.Keys
    ensures forall g :: g != f && g in errors ==> r.1[g] == errors[g]
    ensures f in errors ==> r.1[f] == ""
  {
    var errors' := if f in errors && errors[f] != "" then errors[f := ""] else errors;
    (Set(form, f, v), errors')
  }

  // ---------------------------------------------------------------------------
  // Validation

  /** `/^[\d\s+()-]+$/`: one or more digits, white space, `+`, `(`, `)` or `-`. */
  predicate PhoneChar(c: char) {
    ('0' <= c <= '9') || IsSpace(c) || c == '+' || c == '(' || c == ')' || c == '-'
  }

  predicate PhonePattern(s: string) {
    |s| > 0 && forall i :: 0 <= i < |s| ==> PhoneChar(s[i])
  }

  const NameRequired: string := "Name is required"
  const PhoneRequired: string := "Phone number is required"
  const PhoneInvalid: string := "Invalid phone number"
  const AddressRequired: string := "Delivery address is required"
  const AreaRequired: string := "Please select your area"

  function Required(value: string, message: string): (e: Option<string>)
    ensures e.Some? <==> IsBlank(value)
    ensures e.Some? ==> e.value == message
  {
    if Trim(value) == "" then Some(message) else None
  }

  /** The phone is first checked for presence, then against the pattern. */
  function PhoneError(phone: string): (e: Option<string>)
    ensures e.Some? <==> IsBlank(phone) || !PhonePattern(phone)
    ensures e.Some? ==> e.value == if IsBlank(phone) then PhoneRequired else PhoneInvalid
  {
    if Trim(phone) == "" then Some(PhoneRequired)
    else if !PhonePattern(phone) then Some(PhoneInvalid)
    else None
  }

  /** The error map holding exactly the errors that are present. */
  function Collect(name: Option<string>, phone: Option<string>, street: Option<string>, area: Option<string>)
    : (e: Errors)
    ensures Name in e <==> name.Some?
    ensures Phone in e <==> phone.Some?
    ensures Street in e <==> street.Some?
    ensures Area in e <==> area.Some?
    ensures Email !in e && Notes !in e
    ensures Name in e ==> e[Name] == name.value
    ensures Phone in e ==> e[Phone] == phone.value
    ensures Street in e ==> e[Street] == street.value
    ensures Area in e ==> e[Area] == area.value
  {
    var e0: Errors := map[];
    var e1 := if name.Some? then e0[Name := name.value] else e0;
    var e2 := if phone.Some? then e1[Phone := phone.value] else e1;
    var e3 := if street.Some? then e2[Street := street.value] else e2;
    if area.Some? then e3[Area := area.value] else e3
  }

  /** `validateForm`'s new error map. Name and phone are always checked; street and
      area only for delivery. The area is a select, so it is tested untrimmed. */
  function Validate(form: Form, orderType: string): (errors: Errors)
    ensures Name in errors <==> IsBlank(form.name)
    ensures Phone in errors <==> IsBlank(form.phone) || !PhonePattern(form.phone)
    ensures Street in errors <==> orderType == "delivery" && IsBlank(form.address)
    ensures Area in errors <==> orderType == "delivery" && form.area == ""
    ensures Email !in errors && Notes !in errors
    ensures Name in errors ==> errors[Name] == NameRequired
    ensures Phone in errors ==> errors[Phone] == if IsBlank(form.phone) then PhoneRequired else PhoneInvalid
    ensures Street in errors ==> errors[Street] == AddressRequired
    ensures Area in errors ==> errors[Area] == AreaRequired
  {
    var delivery := orderType == "delivery";
    Collect(
      Required(form.name, NameRequired),
      PhoneError(form.phone),
      if delivery then Required(form.address, AddressRequired) else None,
      if delivery && form.area == "" then Some(AreaRequired) else None)
  }

  /** What the page means by a complete form, stated field by field. */
  predicate Acceptable(form: Form, orderType: string) {
    && !IsBlank(form.name)
    && !IsBlank(form.phone) && PhonePattern(form.phone)
    && (orderType == "delivery" ==> !IsBlank(form.address) && form.area != "")
  }

  /** The form validates exactly when it is acceptable. */
  lemma ValidIffAcceptable(form: Form, orderType: string)
    ensures Validate(form, orderType) == map[] <==> Acceptable(form, orderType)
  {
    var e := Validate(form, orderType);
    if !Acceptable(form, orderType) {
      assert Name in e || Phone in e || Street in e || Area in e;
    } else {
      assert forall f :: f !in e;
    }
  }

  /** A blank phone is reported as missing, never as malformed. */
  lemma BlankPhoneIsRequired(form: Form, orderType: string)
    requires IsBlank(form.phone)
    ensures Validate(form, orderType)[Phone] == PhoneRequired
  {
  }

  /** For pickup neither the street nor the area is looked at. */
  lemma PickupIgnoresAddress(form: Form, street: string, area: string)
    ensures Validate(form, "pickup") == Validate(form.(address := street, area := area), "pickup")
  {
  }

  /** A phone with a letter in it is malformed, not missing. */
  lemma LetterInPhoneIsInvalid(form: Form, orderType: string, i: nat)
    requires i < |form.phone| && (IsLowerAscii(form.phone[i]) || IsUpperAscii(form.phone[i]))
    ensures Phone in Validate(form, orderType) && Validate(form, orderType)[Phone] == PhoneInvalid
  {
    LetterBreaksPattern(form.phone, i);
  }

  lemma LetterBreaksPattern(phone: string, i: nat)
    requires i < |phone| && (IsLowerAscii(phone[i]) || IsUpperAscii(phone[i]))
    ensures !IsBlank(phone) && !PhonePattern(phone)
  {
    LetterIsNeitherSpaceNorPhoneChar(phone[i]);
  }

  lemma LetterIsNeitherSpaceNorPhoneChar(c: char)
    requires IsLowerAscii(c) || IsUpperAscii(c)
    ensures !IsSpace(c) && !PhoneChar(c)
  {
    assert 65 <= c as int <= 90 || 97 <= c as int <= 122;
  }

  // ---------------------------------------------------------------------------
  // The order draft

  /** `paymentMethod === 'cash' ? 'pending' : 'awaiting'`. */
  function PaymentStatusFor(paymentMethod: string): (s: string)
    ensures s == "pending" <==> paymentMethod == "cash"
    ensures s == "pending" || s == "awaiting"
  {
    if paymentMethod == "cash" then "pending" else "awaiting"
  }

  function Money(x: real): Option<Number> { Some(Finite(x)) }

  /** `orderToCreate` as written: for pickup the fee is zeroed but the cart's
      total, which includes the delivery fee, is passed on unchanged. With no
      navigation state every cart field is undefined. */
  function DraftAsWritten(state: Option<Cart.CartSummary>, form: Form, orderType: string, paymentMethod: string)
    : (d: Orders.Draft)
    ensures d.total == if state.Some? then Money(state.value.total) else None
  {
    var delivery := orderType == "delivery";
    Orders.Draft(
      if state.Some? then Some(state.value.cartItems) else None,
      Some(Orders.Details(form.name, form.phone, form.email, form.address, form.area, form.notes)),
      Some(orderType),
      if delivery then Some(Orders.Address(form.address, form.area)) else None,
      if state.Some? then Money(state.value.subtotal as real) else None,
      if state.Some? then Money(state.value.discount) else Money(0.0),
      if !delivery then Money(0.0) else if state.Some? then Money(state.value.deliveryFee as real) else None,
      if state.Some? then Money(state.value.total) else None,
      Some(paymentMethod),
      Some(PaymentStatusFor(paymentMethod)),
      Some(form.notes))
  }

  /** The draft with the pickup total corrected: the fee the cart added is taken back off. */
  function Draft(state: Option<Cart.CartSummary>, form: Form, orderType: string, paymentMethod: string)
    : (d: Orders.Draft)
    ensures d.address.Some? <==> orderType == "delivery"
    ensures d.address.Some? ==> d.address.value == Orders.Address(form.address, form.area)
    ensures orderType != "delivery" ==> d.deliveryFee == Money(0.0)
    ensures orderType == "delivery" && state.Some? ==> d.deliveryFee == Money(state.value.deliveryFee as real)
    ensures d.paymentStatus == Some(if paymentMethod == "cash" then "pending" else "awaiting")
    ensures d == DraftAsWritten(state, form, orderType, paymentMethod).(total := d.total)
  {
    var d := DraftAsWritten(state, form, orderType, paymentMethod);
    if orderType != "delivery" && state.Some? then
      d.(total := Money(state.value.total - state.value.deliveryFee as real))
    else d
  }

  /** `handlePlaceOrder` up to the call into the order service: an invalid form
      stops everything; a valid one yields the draft to store. */
  function PlaceOrderAsWritten(state: Option<Cart.CartSummary>, form: Form, orderType: string, paymentMethod: string)
    : (r: Option<Orders.Draft>)
    ensures r.None? <==> Validate(form, orderType) != map[]
    ensures r.Some? ==> r.value == DraftAsWritten(state, form, orderType, paymentMethod)
  {
    if Validate(form, orderType) != map[] then None else Some(DraftAsWritten(state, form, orderType, paymentMethod))
  }

  function PlaceOrder(state: Option<Cart.CartSummary>, form: Form, orderType: string, paymentMethod: string)
    : (r: Option<Orders.Draft>)
    ensures r.None? <==> !Acceptable(form, orderType)
    ensures r.Some? ==> r.value == Draft(state, form, orderType, paymentMethod)
  {
    ValidIffAcceptable(form, orderType);
    if Validate(form, orderType) != map[] then None else Some(Draft(state, form, orderType, paymentMethod))
  }

  /** A stored order's money adds up: total = subtotal - discount + delivery fee. */
  predicate TotalAddsUp(o: Orders.Order) {
    o.total == o.subtotal - o.discount + o.deliveryFee
  }

  /** A pickup order for one 2000 item, as written, is stored with total 2500 but
      subtotal 2000, no discount and no delivery fee. */
  lemma PickupTotalKeepsFeeAsWritten(item: MenuService.MenuItem, form: Form, now: nat, t: int)
    requires item.price == 2000
    requires Acceptable(form, "pickup")
    ensures var r := PlaceOrderAsWritten(Some(Cart.Summarize([item], 0.0)), form, "pickup", "cash");
      && r.Some?
      && var o := Orders.BuildOrder(r.value, now, t, t);
      && o.total == 2500.0 && o.subtotal == 2000.0 && o.discount == 0.0 && o.deliveryFee == 0.0
      && !TotalAddsUp(o)
  {
    ValidIffAcceptable(form, "pickup");
    var s := Cart.Summarize([item], 0.0);
    OneItemSummary(item);
    AsWrittenMoney(s, form, "pickup", "cash", now, t);
  }

  lemma OneItemSummary(item: MenuService.MenuItem)
    requires item.price == 2000
    ensures var s := Cart.Summarize([item], 0.0);
      s.subtotal == 2000 && s.deliveryFee == 500 && s.discount == 0.0 && s.total == 2500.0
  {
    Cart.SubtotalOfOne(item);
  }

  /** The money fields an as-written draft carries into the stored order. */
  lemma AsWrittenMoney(s: Cart.CartSummary, form: Form, orderType: string, paymentMethod: string, now: nat, t: int)
    ensures var o := Orders.BuildOrder(DraftAsWritten(Some(s), form, orderType, paymentMethod), now, t, t);
      && o.total == s.total && o.subtotal == s.subtotal as real && o.discount == s.discount
      && o.deliveryFee == (if orderType == "delivery" then s.deliveryFee as real else 0.0)
  {
  }

  /** A summary whose money adds up gives a stored order whose money adds up, for delivery and pickup alike. */
  lemma DraftAddsUp(s: Cart.CartSummary, form: Form, orderType: string, paymentMethod: string, now: nat, t: int)
    requires s.total == s.subtotal as real - s.discount + s.deliveryFee as real
    ensures TotalAddsUp(Orders.BuildOrder(Draft(Some(s), form, orderType, paymentMethod), now, t, t))
  {
  }

  /** With the correction every order placed from the cart adds up. */
  lemma PlacedOrderAddsUp(cart: seq<MenuService.MenuItem>, rate: real, form: Form, orderType: string,
                          paymentMethod: string, now: nat, t: int)
    requires Acceptable(form, orderType)
    ensures var r := PlaceOrder(Some(Cart.Summarize(cart, rate)), form, orderType, paymentMethod);
      r.Some? && TotalAddsUp(Orders.BuildOrder(r.value, now, t, t))
  {
    var s := Cart.Summarize(cart, rate);
    DraftAddsUp(s, form, orderType, paymentMethod, now, t);
  }

  /** What the order service stores for a placed order, end to end. */
  lemma PlacedOrderIsStored(s: Cart.CartSummary, form: Form, orderType: string,
                            paymentMethod: string, now: nat, t: int)
    requires Acceptable(form, orderType) && orderType != "" && paymentMethod != ""
    ensures var r := PlaceOrder(Some(s), form, orderType, paymentMethod);
      && r.Some?
      && var o := Orders.BuildOrder(r.value, now, t, t);
      && o.status == "pending"
      && (o.paymentStatus == "pending" <==> paymentMethod == "cash")
      && o.paymentMethod == paymentMethod && o.orderType == orderType
      && o.items == s.cartItems
      && (o.address.None? <==> orderType != "delivery")
      && o.subtotal == s.subtotal as real
  {
    StoredFields(s, form, orderType, paymentMethod, now, t);
  }

  lemma StoredFields(s: Cart.CartSummary, form: Form, orderType: string, paymentMethod: string, now: nat, t: int)
    requires orderType != "" && paymentMethod != ""
    ensures var o := Orders.BuildOrder(Draft(Some(s), form, orderType, paymentMethod), now, t, t);
      && o.status == "pending"
      && (o.paymentStatus == "pending" <==> paymentMethod == "cash")
      && o.paymentMethod == paymentMethod && o.orderType == orderType
      && o.items == s.cartItems
      && (o.address.None? <==> orderType != "delivery")
      && o.subtotal == s.subtotal as real
  {
    var d := Draft(Some(s), form, orderType, paymentMethod);
    assert d.items == Some(s.cartItems) && d.orderType == Some(orderType) && d.paymentMethod == Some(paymentMethod);
    assert d.subtotal == Money(s.subtotal as real);
    assert "awaiting"[0] != "pending"[0];
  }
}
