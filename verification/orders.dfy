/** The order service: building an order document from a draft, the order
    number, lookups, field updates, and the day's statistics. The order
    collection is a map from document id to order; the clock and the ids the
    store assigns are inputs. */
module Orders {
  import opened Results
  import opened Seqs
  import opened Js
  import opened Decimal
  import Cart

  type OrderId = string

  /** The customer form as submitted, or the empty object the service falls back to. */
  datatype Customer =
    | NoDetails
    | Details(name: string, phone: string, email: string, address: string, area: string, notes: string)

  datatype Address = Address(street: string, area: string)

  /** What a caller passes to `createOrder`. A field that is absent (undefined or
      null) is None; money is a JavaScript number, so it may be NaN. */
  datatype Draft = Draft(
    items: Option<seq<Cart.LineItem>>,
    customer: Option<Customer>,
    orderType: Option<string>,
    address: Option<Address>,
    subtotal: Option<Number>,
    discount: Option<Number>,
    deliveryFee: Option<Number>,
    total: Option<Number>,
    paymentMethod: Option<string>,
    paymentStatus: Option<string>,
    notes: Option<string>)

  /** A stored order document. Timestamps are milliseconds. */
  datatype Order = Order(
    orderNumber: string,
    items: seq<Cart.LineItem>,
    customer: Customer,
    orderType: string,
    address: Option<Address>,
    subtotal: real,
    discount: real,
    deliveryFee: real,
    total: real,
    paymentMethod: string,
    paymentStatus: string,
    status: string,
    notes: string,
    createdAt: int,
    updatedAt: int)

  type Store = map<OrderId, Order>

  const NotFound: string := "Order not found"

  // ---------------------------------------------------------------------------
  // Order numbers

  /** `MP${Date.now().toString().slice(-8)}`. */
  function OrderNumber(now: nat): (s: string)
    ensures |s| >= 3 && s[..2] == "MP" && AllDigits(s[2..])
    ensures Decimal.Value(s[2..]) == now % Pow10(8)
    ensures now >= Pow10(7) ==> |s| == 10
  {
    var digits := Last(ToDecimal(now), 8);
    ValueOfLastDigits(now, 8);
    EightDigitsFrom(now);
    assert ("MP" + digits)[2..] == digits;
    "MP" + digits
  }

  lemma EightDigitsFrom(now: nat)
    ensures now >= Pow10(7) ==> |ToDecimal(now)| >= 8
  {
    if now >= Pow10(7) {
      ToDecimalLength(now, 7);
    }
  }

  /** Orders placed less than 10^8 ms (about 27.8 hours) apart get different numbers. */
  lemma NearbyOrderNumbersDiffer(n: nat, m: nat)
    requires n >= Pow10(7) && m >= Pow10(7) && n != m
    requires n < m + Pow10(8) && m < n + Pow10(8)
    ensures OrderNumber(n) != OrderNumber(m)
  {
    if OrderNumber(n) == OrderNumber(m) {
      CloseCongruentEqual(n, m, Pow10(8));
    }
  }

  /** Orders placed exactly 10^8 ms apart get the same number: numbers are not unique. */
  lemma OrderNumbersRepeat(n: nat)
    requires n >= Pow10(7)
    ensures OrderNumber(n) == OrderNumber(n + Pow10(8))
  {
    OrderNumbersShareDigits(n);
    SameDigitsAfterPrefix(OrderNumber(n), OrderNumber(n + Pow10(8)));
  }

  lemma OrderNumbersShareDigits(n: nat)
    requires n >= Pow10(7)
    ensures |OrderNumber(n)| == |OrderNumber(n + Pow10(8))| == 10
    ensures Decimal.Value(OrderNumber(n)[2..]) == Decimal.Value(OrderNumber(n + Pow10(8))[2..])
  {
    AddModulus(n, Pow10(8));
  }

  /** Two strings of one length, one two-letter prefix and digit tails of one value are equal. */
  lemma SameDigitsAfterPrefix(a: string, b: string)
    requires |a| == |b| >= 2 && a[..2] == b[..2]
    requires AllDigits(a[2..]) && AllDigits(b[2..])
    requires Decimal.Value(a[2..]) == Decimal.Value(b[2..])
    ensures a == b
  {
    ValueInjective(a[2..], b[2..]);
    assert a == a[..2] + a[2..] && b == b[..2] + b[2..];
  }

  // ---------------------------------------------------------------------------
  // Creating orders

  /** `value || fallback` for an optional string: the empty string is falsy. */
  function StringOr(v: Option<string>, fallback: string): (s: string)
    ensures v.Some? && v.value != "" ==> s == v.value
    ensures v.None? || v.value == "" ==> s == fallback
  {
    if v.Some? && v.value != "" then v.value else fallback
  }

  /** `value || 0` for an optional number: undefined, 0 and NaN all become 0. */
  function MoneyOrZero(v: Option<Number>): (x: real)
    ensures v.Some? && v.value.Finite? ==> x == v.value.value
    ensures v.None? || v.value.NaN? ==> x == 0.0
  {
    if v.Some? && v.value.Finite? then v.value.value else 0.0
  }

  /** The order document `createOrder` stores for `draft`: every missing or
      falsy field takes its default, and the status always starts as pending. */
  function BuildOrder(draft: Draft, now: nat, createdAt: int, updatedAt: int): (o: Order)
    ensures o.status == "pending"
    ensures o.orderNumber == OrderNumber(now)
    ensures o.createdAt == createdAt && o.updatedAt == updatedAt
    ensures o.items == draft.items.GetOr([])
    ensures o.customer == draft.customer.GetOr(NoDetails)
    ensures o.address == draft.address
    ensures o.orderType == StringOr(draft.orderType, "delivery")
    ensures o.paymentMethod == StringOr(draft.paymentMethod, "cash")
    ensures o.paymentStatus == StringOr(draft.paymentStatus, "pending")
    ensures o.notes == StringOr(draft.notes, "")
    ensures o.subtotal == MoneyOrZero(draft.subtotal) && o.discount == MoneyOrZero(draft.discount)
    ensures o.deliveryFee == MoneyOrZero(draft.deliveryFee) && o.total == MoneyOrZero(draft.total)
  {
    Order(
      OrderNumber(now),
      draft.items.GetOr([]),
      draft.customer.GetOr(NoDetails),
      StringOr(draft.orderType, "delivery"),
      draft.address,
      MoneyOrZero(draft.subtotal),
      MoneyOrZero(draft.discount),
      MoneyOrZero(draft.deliveryFee),
      MoneyOrZero(draft.total),
      StringOr(draft.paymentMethod, "cash"),
      StringOr(draft.paymentStatus, "pending"),
      "pending",
      StringOr(draft.notes, ""),
      createdAt,
      updatedAt)
  }

  /** The created order as returned to the caller: the new id and the stored fields. */
  datatype Created = Created(id: OrderId, order: Order)

  /** What the store does with `addDoc`: keep the document under a fresh id, or reject the write. */
  datatype WriteOutcome = Written(newId: OrderId) | WriteRejected(error: string)

  /** `createOrder`: store the built document under the id the store assigns. A
      rejected write is rethrown to the caller and stores nothing. */
  function CreateOrder(store: Store, draft: Draft, now: nat, createdAt: int, updatedAt: int, write: WriteOutcome)
    : (r: (Store, Result<Created>))
    requires write.Written? ==> write.newId !in store
    ensures write.WriteRejected? ==> r.0 == store && r.1 == Err(write.error)
    ensures write.Written? ==>
      r.1.Ok? && r.1.value.id == write.newId && r.0 == store[write.newId := r.1.value.order]
    ensures r.1.Ok? ==> r.1.value.order == BuildOrder(draft, now, createdAt, updatedAt)
  {
    match write
    case WriteRejected(error) => (store, Err(error))
    case Written(newId) =>
      var o := BuildOrder(draft, now, createdAt, updatedAt);
      (store[newId := o], Ok(Created(newId, o)))
  }

  /** Creating an order leaves every existing order as it was. */
  lemma CreateKeepsOthers(store: Store, draft: Draft, now: nat, createdAt: int, updatedAt: int, newId: OrderId, id: OrderId)
    requires newId !in store && id in store
    ensures var s := CreateOrder(store, draft, now, createdAt, updatedAt, Written(newId)).0;
      (forall k :: k in s <==> k in store || k == newId) && s[id] == store[id]
  {
  }

  /** The draft that spells out every field of a stored order. */
  function DraftOf(o: Order): Draft {
    Draft(Some(o.items), Some(o.customer), Some(o.orderType), o.address,
      Some(Finite(o.subtotal)), Some(Finite(o.discount)), Some(Finite(o.deliveryFee)),
      Some(Finite(o.total)), Some(o.paymentMethod), Some(o.paymentStatus), Some(o.notes))
  }

  /** Defaulting is idempotent: rebuilding a fresh order from its own fields gives it back. */
  lemma RebuildIsIdentity(draft: Draft, now: nat, createdAt: int, updatedAt: int)
    ensures var o := BuildOrder(draft, now, createdAt, updatedAt);
      BuildOrder(DraftOf(o), now, createdAt, updatedAt) == o
  {
  }

  /** A draft that asks for another status still starts out pending. */
  lemma StatusAlwaysStartsPending(store: Store, draft: Draft, now: nat, newId: OrderId, t: int)
    requires newId !in store
    ensures GetOrder(CreateOrder(store, draft, now, t, t, Written(newId)).0, newId).Ok?
    ensures GetOrder(CreateOrder(store, draft, now, t, t, Written(newId)).0, newId).value.order.status == "pending"
  {
  }

  /** A rejected write leaves every lookup as it was: no partial order appears. */
  lemma RejectedCreateStoresNothing(store: Store, draft: Draft, now: nat, t: int, error: string, id: OrderId)
    ensures var (s, c) := CreateOrder(store, draft, now, t, t, WriteRejected(error));
      c.Err? && GetOrder(s, id) == GetOrder(store, id)
  {
  }

  // ---------------------------------------------------------------------------
  // Lookups

  /** `getOrder`: the order with this id, or "Order not found". */
  function GetOrder(store: Store, id: OrderId): (r: Result<Created>)
    ensures r.Ok? <==> id in store
    ensures r.Ok? ==> r.value == Created(id, store[id])
    ensures r.Err? ==> r.message == NotFound
  {
    if id in store then Ok(Created(id, store[id])) else Err(NotFound)
  }

  /** An order just created is found under the id it was returned with. */
  lemma CreatedOrderIsFound(store: Store, draft: Draft, now: nat, createdAt: int, updatedAt: int, newId: OrderId)
    requires newId !in store
    ensures var (s, c) := CreateOrder(store, draft, now, createdAt, updatedAt, Written(newId));
      c.Ok? && GetOrder(s, c.value.id) == c
  {
  }

  function HasNumber(number: string): Created -> bool {
    (c: Created) => c.order.orderNumber == number
  }

  /** No document before position `k` has this number. */
  predicate FirstWithNumber(docs: seq<Created>, number: string, k: int) {
    forall j :: 0 <= j < k && j < |docs| ==> docs[j].order.orderNumber != number
  }

  /** `getOrderByNumber`: the first document, in the order the query returned
      them, whose number matches; or "Order not found". */
  function GetOrderByNumber(docs: seq<Created>, number: string): (r: Result<Created>)
    ensures r.Err? <==> forall i :: 0 <= i < |docs| ==> docs[i].order.orderNumber != number
    ensures r.Err? ==> r.message == NotFound
    ensures r.Ok? ==> r.value.order.orderNumber == number
    ensures r.Ok? ==> exists k :: 0 <= k < |docs| && docs[k] == r.value && FirstWithNumber(docs, number, k)
  {
    var k := IndexWhere(docs, HasNumber(number));
    if k < 0 then Err(NotFound) else Ok(docs[k])
  }

  // ---------------------------------------------------------------------------
  // Updates

  /** A partial update: the fields `updateOrder` is given, each None when absent. */
  datatype Patch = Patch(
    items: Option<seq<Cart.LineItem>>,
    customer: Option<Customer>,
    orderType: Option<string>,
    address: Option<Option<Address>>,
    subtotal: Option<real>,
    discount: Option<real>,
    deliveryFee: Option<real>,
    total: Option<real>,
    paymentMethod: Option<string>,
    paymentStatus: Option<string>,
    status: Option<string>,
    notes: Option<string>,
    updatedAt: Option<int>)

  const EmptyPatch: Patch := Patch(None, None, None, None, None, None, None, None, None, None, None, None, None)

  function Apply(o: Order, p: Patch): Order {
    o.(items := p.items.GetOr(o.items),
       customer := p.customer.GetOr(o.customer),
       orderType := p.orderType.GetOr(o.orderType),
       address := p.address.GetOr(o.address),
       subtotal := p.subtotal.GetOr(o.subtotal),
       discount := p.discount.GetOr(o.discount),
       deliveryFee := p.deliveryFee.GetOr(o.deliveryFee),
       total := p.total.GetOr(o.total),
       paymentMethod := p.paymentMethod.GetOr(o.paymentMethod),
       paymentStatus := p.paymentStatus.GetOr(o.paymentStatus),
       status := p.status.GetOr(o.status),
       notes := p.notes.GetOr(o.notes),
       updatedAt := p.updatedAt.GetOr(o.updatedAt))
  }

  /** `updateOrder`: merge the given fields, then stamp `updatedAt` with the
      clock, overriding any `updatedAt` among them. An absent document is an error. */
  function UpdateOrder(store: Store, id: OrderId, p: Patch, now: int): (r: Result<Store>)
    ensures r.Err? <==> id !in store
    ensures r.Ok? ==> r.value.Keys == store.Keys
    ensures r.Ok? ==> forall other :: other in store && other != id ==> r.value[other] == store[other]
    ensures r.Ok? ==> r.value[id].updatedAt == now
    ensures r.Ok? ==> r.value[id] == Apply(store[id], p).(updatedAt := now)
  {
    if id in store then Ok(store[id := Apply(store[id], p.(updatedAt := Some(now)))]) else Err(NotFound)
  }

  /** `updateOrderStatus`: set the status and `updatedAt`; nothing else changes. */
  function UpdateOrderStatus(store: Store, id: OrderId, status: string, now: int): (r: Result<Store>)
    ensures r.Err? <==> id !in store
    ensures r.Ok? ==> r.value.Keys == store.Keys
    ensures r.Ok? ==> forall other :: other in store && other != id ==> r.value[other] == store[other]
    ensures r.Ok? ==> r.value[id].status == status && r.value[id].updatedAt == now
    ensures r.Ok? ==> r.value[id].(status := store[id].status, updatedAt := store[id].updatedAt) == store[id]
  {
    if id in store then Ok(store[id := store[id].(status := status, updatedAt := now)]) else Err(NotFound)
  }

  /** `updatePaymentStatus`: set the payment status and `updatedAt`; nothing else changes. */
  function UpdatePaymentStatus(store: Store, id: OrderId, paymentStatus: string, now: int): (r: Result<Store>)
    ensures r.Err? <==> id !in store
    ensures r.Ok? ==> r.value.Keys == store.Keys
    ensures r.Ok? ==> forall other :: other in store && other != id ==> r.value[other] == store[other]
    ensures r.Ok? ==> r.value[id].paymentStatus == paymentStatus && r.value[id].updatedAt == now
    ensures r.Ok? ==>
      r.value[id].(paymentStatus := store[id].paymentStatus, updatedAt := store[id].updatedAt) == store[id]
  {
    if id in store then Ok(store[id := store[id].(paymentStatus := paymentStatus, updatedAt := now)])
    else Err(NotFound)
  }

  /** A field after a merge: the patched value when one was given, otherwise the old one. */
  predicate Merged<T(==)>(patched: Option<T>, before: T, after: T) {
    match patched
    case Some(v) => after == v
    case None => after == before
  }

  /** `updateOrder` writes every field the patch names and keeps every field it does not. */
  lemma UpdateMergesPatch(store: Store, id: OrderId, p: Patch, now: int)
    requires id in store
    ensures var o, n := store[id], UpdateOrder(store, id, p, now).value[id];
      && Merged(p.items, o.items, n.items)
      && Merged(p.customer, o.customer, n.customer)
      && Merged(p.orderType, o.orderType, n.orderType)
      && Merged(p.address, o.address, n.address)
      && Merged(p.subtotal, o.subtotal, n.subtotal)
      && Merged(p.discount, o.discount, n.discount)
      && Merged(p.deliveryFee, o.deliveryFee, n.deliveryFee)
      && Merged(p.total, o.total, n.total)
      && Merged(p.paymentMethod, o.paymentMethod, n.paymentMethod)
      && Merged(p.paymentStatus, o.paymentStatus, n.paymentStatus)
      && Merged(p.status, o.status, n.status)
      && Merged(p.notes, o.notes, n.notes)
      && n.updatedAt == now
  {
  }

  /** The single-field updates are `updateOrder` with a one-field patch. */
  lemma StatusUpdatesArePatches(store: Store, id: OrderId, s: string, now: int)
    ensures UpdateOrderStatus(store, id, s, now) == UpdateOrder(store, id, EmptyPatch.(status := Some(s)), now)
    ensures UpdatePaymentStatus(store, id, s, now)
      == UpdateOrder(store, id, EmptyPatch.(paymentStatus := Some(s)), now)
  {
  }

  /** A caller cannot backdate an order: the clock wins over a patched `updatedAt`. */
  lemma ClockOverridesPatchedTime(store: Store, id: OrderId, p: Patch, t: int, now: int)
    requires id in store
    ensures UpdateOrder(store, id, p.(updatedAt := Some(t)), now) == UpdateOrder(store, id, p, now)
  {
  }

  /** An empty patch only touches `updatedAt`. */
  lemma EmptyPatchOnlyStamps(store: Store, id: OrderId, now: int)
    requires id in store
    ensures UpdateOrder(store, id, EmptyPatch, now).value[id] == store[id].(updatedAt := now)
  {
  }

  // ---------------------------------------------------------------------------
  // Statistics

  datatype Stats = Stats(
    totalOrders: nat, totalRevenue: real, pendingOrders: nat, completedOrders: nat,
    averageOrderValue: real)

  /** `orders.reduce((sum, order) => sum + order.total, 0)`. */
  function Revenue(orders: seq<Order>): real {
    if |orders| == 0 then 0.0 else orders[0].total + Revenue(orders[1..])
  }

  function HasStatus(status: string): Order -> bool {
    (o: Order) => o.status == status
  }

  /** `getTodaysStats` over the day's orders. */
  function TodaysStats(orders: seq<Order>): (s: Stats)
    ensures s.totalOrders == |orders|
    ensures s.totalRevenue == Revenue(orders)
    ensures s.pendingOrders == |Filter(orders, HasStatus("pending"))|
    ensures s.completedOrders == |Filter(orders, HasStatus("delivered"))|
    ensures s.pendingOrders + s.completedOrders <= s.totalOrders
    ensures |orders| == 0 ==> s.averageOrderValue == 0.0 && s.totalRevenue == 0.0
  {
    PendingAndDeliveredDisjoint(orders);
    var revenue := Revenue(orders);
    var pending := |Filter(orders, HasStatus("pending"))|;
    var completed := |Filter(orders, HasStatus("delivered"))|;
    Stats(|orders|, revenue, pending, completed, AverageOf(revenue, |orders|))
  }

  /** No order is both pending and delivered. */
  lemma PendingAndDeliveredDisjoint(orders: seq<Order>)
    ensures |Filter(orders, HasStatus("pending"))| + |Filter(orders, HasStatus("delivered"))| <= |orders|
  {
    assert "pending"[0] != "delivered"[0];
    FilterDisjointLength(orders, HasStatus("pending"), HasStatus("delivered"));
  }

  /** `count > 0 ? total / count : 0`. */
  function AverageOf(total: real, count: nat): real {
    if count > 0 then total / count as real else 0.0
  }

  /** The average scaled back by the number of orders is the revenue. */
  lemma AverageScalesBack(orders: seq<Order>)
    requires |orders| > 0
    ensures TodaysStats(orders).averageOrderValue * (|orders| as real) == TodaysStats(orders).totalRevenue
  {
    var st, n := TodaysStats(orders), |orders| as real;
    assert st.averageOrderValue == st.totalRevenue / n;
    DivideThenMultiply(st.totalRevenue, n);
  }

  lemma DivideThenMultiply(a: real, n: real)
    requires n > 0.0
    ensures (a / n) * n == a
  {
  }

  lemma {:induction false} RevenueConcat(a: seq<Order>, b: seq<Order>)
    ensures Revenue(a + b) == Revenue(a) + Revenue(b)
  {
    if |a| == 0 {
      assert a + b == b;
    } else {
      assert (a + b)[1..] == a[1..] + b;
      RevenueConcat(a[1..], b);
    }
  }

  /** Revenue lies between the count times the smallest and the largest total. */
  lemma {:induction false} RevenueBounds(orders: seq<Order>, lo: real, hi: real)
    requires forall i :: 0 <= i < |orders| ==> lo <= orders[i].total <= hi
    ensures (|orders| as real) * lo <= Revenue(orders) <= (|orders| as real) * hi
  {
    if |orders| > 0 {
      assert lo <= orders[0].total <= hi;
      RevenueBounds(orders[1..], lo, hi);
    }
  }

  /** The average order value lies between the smallest and the largest order total. */
  lemma AverageWithinRange(orders: seq<Order>, lo: real, hi: real)
    requires |orders| > 0
    requires forall i :: 0 <= i < |orders| ==> lo <= orders[i].total <= hi
    ensures lo <= TodaysStats(orders).averageOrderValue <= hi
  {
    var st := TodaysStats(orders);
    assert st.averageOrderValue == Revenue(orders) / (|orders| as real);
    MeanBetween(orders, lo, hi);
  }

  lemma MeanBetween(orders: seq<Order>, lo: real, hi: real)
    requires |orders| > 0
    requires forall i :: 0 <= i < |orders| ==> lo <= orders[i].total <= hi
    ensures lo <= Revenue(orders) / (|orders| as real) <= hi
  {
    var n, t := |orders| as real, Revenue(orders);
    RevenueBounds(orders, lo, hi);
    DivideThenMultiply(t, n);
    QuotientBetween(t / n, n, t, lo, hi);
  }
}
