/** The cart page. The cart itself is the sequence of menu items the customer
    added, one entry per unit; the page shows it grouped by item id with a
    quantity, computes the totals, adjusts quantities, applies promo codes and
    hands a summary to the checkout page. */
module Cart {
  import opened Results
  import opened Seqs
  import opened Text
  import opened MenuService
  import Decimal

  /** A grouped cart line: the item (as first added) and how many units of it the cart holds. */
  datatype LineItem = LineItem(item: MenuItem, quantity: nat)

  /** The flat delivery fee in naira, charged whenever the subtotal is positive. */
  const DeliveryFee: int := 500

  // ---------------------------------------------------------------------------
  // Queries on the flat cart

  function HasId(id: ItemId): MenuItem -> bool {
    (e: MenuItem) => e.id == id
  }

  function LacksId(id: ItemId): MenuItem -> bool {
    (e: MenuItem) => e.id != id
  }

  predicate InCart(cart: seq<MenuItem>, id: ItemId) {
    exists i :: 0 <= i < |cart| && cart[i].id == id
  }

  /** How many units of item `id` the cart holds. */
  function Count(cart: seq<MenuItem>, id: ItemId): nat {
    |Filter(cart, HasId(id))|
  }

  /** `cart.findIndex(item => item.id === id)`. */
  function IndexOfId(cart: seq<MenuItem>, id: ItemId): (k: int)
    ensures -1 <= k < |cart|
    ensures k == -1 <==> !InCart(cart, id)
    ensures k >= 0 ==> cart[k].id == id && forall j :: 0 <= j < k ==> cart[j].id != id
  {
    IndexWhere(cart, HasId(id))
  }

  /** `cart.find(item => item.id === id)` when there is a match. */
  function FirstWithId(cart: seq<MenuItem>, id: ItemId): (e: MenuItem)
    requires InCart(cart, id)
    ensures e in cart && e.id == id
  {
    cart[IndexOfId(cart, id)]
  }

  function Price(e: MenuItem): int { e.price }

  /** `cart.reduce((sum, item) => sum + item.price, 0)`. */
  function Subtotal(cart: seq<MenuItem>): int {
    SumOf(cart, Price)
  }

  /** A unit is in the cart exactly when its count is positive. */
  lemma CountPositive(cart: seq<MenuItem>, id: ItemId)
    ensures Count(cart, id) > 0 <==> InCart(cart, id)
  {
    var f := Filter(cart, HasId(id));
    if InCart(cart, id) {
      var i :| 0 <= i < |cart| && cart[i].id == id;
      assert cart[i] in cart && HasId(id)(cart[i]);
    }
    if |f| > 0 {
      assert f[0] in f;
      var i :| 0 <= i < |cart| && cart[i] == f[0];
    }
  }

  /** Appending a unit adds one to its own id's count and leaves every other count alone. */
  lemma CountAppend(cart: seq<MenuItem>, e: MenuItem)
    ensures forall id :: Count(cart + [e], id) == Count(cart, id) + (if e.id == id then 1 else 0)
  {
    forall id
      ensures Count(cart + [e], id) == Count(cart, id) + (if e.id == id then 1 else 0)
    {
      FilterConcat(cart, [e], HasId(id));
      assert [e][1..] == [];
    }
  }

  /** Deleting the unit at `k` takes one off its id's count and leaves every other count alone. */
  lemma CountRemoveAt(cart: seq<MenuItem>, k: nat)
    requires k < |cart|
    ensures forall id ::
      Count(cart[..k] + cart[k + 1..], id) == Count(cart, id) - (if cart[k].id == id then 1 else 0)
    ensures Subtotal(cart[..k] + cart[k + 1..]) == Subtotal(cart) - cart[k].price
  {
    var a, b := cart[..k], cart[k + 1..];
    assert cart == a + [cart[k]] + b;
    forall id
      ensures Count(a + b, id) == Count(cart, id) - (if cart[k].id == id then 1 else 0)
    {
      FilterConcat(a, b, HasId(id));
      FilterConcat(a + [cart[k]], b, HasId(id));
      FilterConcat(a, [cart[k]], HasId(id));
      assert [cart[k]][1..] == [];
    }
    SumConcat(a, b, Price);
    SumConcat(a + [cart[k]], b, Price);
    SumConcat(a, [cart[k]], Price);
  }

  // ---------------------------------------------------------------------------
  // The grouped view (`getCartWithQuantities`)

  function LineHasId(id: ItemId): LineItem -> bool {
    (l: LineItem) => l.item.id == id
  }

  predicate HasLine(lines: seq<LineItem>, id: ItemId) {
    exists i :: 0 <= i < |lines| && lines[i].item.id == id
  }

  function Quantity(l: LineItem): int { l.quantity }

  /** What the cart line shows as the line total: unit price times quantity. */
  function LineAmount(l: LineItem): int { l.item.price * l.quantity }

  function TotalQuantity(lines: seq<LineItem>): int {
    SumOf(lines, Quantity)
  }

  function LinesTotal(lines: seq<LineItem>): int {
    SumOf(lines, LineAmount)
  }

  /** No two lines share an item id. */
  predicate DistinctLines(lines: seq<LineItem>) {
    forall i, j :: 0 <= i < j < |lines| ==> lines[i].item.id != lines[j].item.id
  }

  /** A line stands for units in the cart: its item is the first unit added with
      that id, and its quantity is the number of units with that id. */
  predicate LineMatches(l: LineItem, cart: seq<MenuItem>) {
    && InCart(cart, l.item.id)
    && l.item == FirstWithId(cart, l.item.id)
    && l.quantity == Count(cart, l.item.id)
  }

  /** Every line stands for its units. */
  predicate AllMatch(lines: seq<LineItem>, cart: seq<MenuItem>) {
    forall i :: 0 <= i < |lines| ==> LineMatches(lines[i], cart)
  }

  /** Every unit in the cart has a line. */
  predicate Covers(lines: seq<LineItem>, cart: seq<MenuItem>) {
    forall k :: 0 <= k < |cart| ==> HasLine(lines, cart[k].id)
  }

  /** `lines` is a grouping of `cart`: one line per distinct id, each line
      standing for its units, nothing left out, and so the quantities add up
      to the number of units. */
  predicate IsGrouping(lines: seq<LineItem>, cart: seq<MenuItem>) {
    && DistinctLines(lines)
    && AllMatch(lines, cart)
    && Covers(lines, cart)
    && TotalQuantity(lines) == |cart|
  }

  /** One step of the grouping loop: bump the quantity of the unit's line, or open a line for it. */
  function Bump(lines: seq<LineItem>, e: MenuItem): seq<LineItem> {
    var k := IndexWhere(lines, LineHasId(e.id));
    if k < 0 then lines + [LineItem(e, 1)]
    else lines[k := lines[k].(quantity := lines[k].quantity + 1)]
  }

  /** The grouped cart the page lists and passes on to checkout. */
  function Group(cart: seq<MenuItem>): (lines: seq<LineItem>)
    ensures IsGrouping(lines, cart)
  {
    if |cart| == 0 then []
    else
      var front, x := cart[..|cart| - 1], cart[|cart| - 1];
      assert cart == front + [x];
      var g := Group(front);
      GroupStep(front, x, g);
      Bump(g, x)
  }

  /** Facts about the first unit with an id once a unit is appended. */
  lemma FirstWithIdAppend(front: seq<MenuItem>, x: MenuItem)
    ensures forall id :: InCart(front, id) ==>
      InCart(front + [x], id) && FirstWithId(front + [x], id) == FirstWithId(front, id)
    ensures InCart(front + [x], x.id)
    ensures !InCart(front, x.id) ==> FirstWithId(front + [x], x.id) == x
  {
    var c := front + [x];
    assert c[|front|] == x;
    forall id | InCart(front, id)
      ensures InCart(c, id) && FirstWithId(c, id) == FirstWithId(front, id)
    {
      IndexWhereAppend(front, x, HasId(id));
      var k := IndexOfId(front, id);
      assert c[k] == front[k];
    }
    IndexWhereAppend(front, x, HasId(x.id));
  }

  /** A line for another item still stands for its units after a unit is appended. */
  lemma OtherLineMatches(l: LineItem, front: seq<MenuItem>, x: MenuItem)
    requires LineMatches(l, front) && l.item.id != x.id
    ensures LineMatches(l, front + [x])
  {
    CountAppend(front, x);
    FirstWithIdAppend(front, x);
  }

  /** The appended unit's line, bumped by one, still stands for its units. */
  lemma BumpedLineMatches(l: LineItem, front: seq<MenuItem>, x: MenuItem)
    requires LineMatches(l, front) && l.item.id == x.id
    ensures LineMatches(l.(quantity := l.quantity + 1), front + [x])
  {
    CountAppend(front, x);
    FirstWithIdAppend(front, x);
  }

  /** A unit whose id is new gets a line of its own with quantity one. */
  lemma NewLineMatches(front: seq<MenuItem>, x: MenuItem)
    requires !InCart(front, x.id)
    ensures LineMatches(LineItem(x, 1), front + [x])
  {
    CountAppend(front, x);
    FirstWithIdAppend(front, x);
    CountPositive(front, x.id);
  }

  lemma GroupStep(front: seq<MenuItem>, x: MenuItem, g: seq<LineItem>)
    requires IsGrouping(g, front)
    ensures IsGrouping(Bump(g, x), front + [x])
  {
    var k := IndexWhere(g, LineHasId(x.id));
    if k < 0 {
      GroupStepNewLine(front, x, g);
    } else {
      GroupStepBump(front, x, g, k);
    }
  }

  lemma GroupStepNewLine(front: seq<MenuItem>, x: MenuItem, g: seq<LineItem>)
    requires IsGrouping(g, front)
    requires IndexWhere(g, LineHasId(x.id)) < 0
    ensures IsGrouping(Bump(g, x), front + [x])
  {
    BumpOpensLine(g, x);
    NoLineMeansNewItem(front, x, g);
    NewLineGrouping(front, x, g);
  }

  lemma BumpOpensLine(g: seq<LineItem>, x: MenuItem)
    requires IndexWhere(g, LineHasId(x.id)) < 0
    ensures Bump(g, x) == g + [LineItem(x, 1)]
  {
  }

  lemma NewLineGrouping(front: seq<MenuItem>, x: MenuItem, g: seq<LineItem>)
    requires IsGrouping(g, front)
    requires IndexWhere(g, LineHasId(x.id)) < 0 && !InCart(front, x.id)
    ensures IsGrouping(g + [LineItem(x, 1)], front + [x])
  {
    NewLineKeepsMatches(front, x, g);
    NewLineCoversAndCounts(front, x, g);
  }

  lemma NewLineKeepsMatches(front: seq<MenuItem>, x: MenuItem, g: seq<LineItem>)
    requires DistinctLines(g) && AllMatch(g, front)
    requires IndexWhere(g, LineHasId(x.id)) < 0 && !InCart(front, x.id)
    ensures DistinctLines(g + [LineItem(x, 1)]) && AllMatch(g + [LineItem(x, 1)], front + [x])
  {
    MatchesAfterNewLine(front, x, g, g + [LineItem(x, 1)]);
    DistinctAfterNewLine(g, x, g + [LineItem(x, 1)]);
  }

  lemma NewLineCoversAndCounts(front: seq<MenuItem>, x: MenuItem, g: seq<LineItem>)
    requires Covers(g, front) && TotalQuantity(g) == |front|
    ensures Covers(g + [LineItem(x, 1)], front + [x])
    ensures TotalQuantity(g + [LineItem(x, 1)]) == |front + [x]|
  {
    CoversAfterNewLine(front, x, g);
    QuantityAfterNewLine(g, x, g + [LineItem(x, 1)]);
  }

  lemma GroupStepBump(front: seq<MenuItem>, x: MenuItem, g: seq<LineItem>, k: nat)
    requires IsGrouping(g, front)
    requires k < |g| && IndexWhere(g, LineHasId(x.id)) == k
    ensures IsGrouping(Bump(g, x), front + [x])
  {
    BumpFindsLine(g, x, k);
    BumpedGrouping(front, x, g, k);
  }

  lemma BumpFindsLine(g: seq<LineItem>, x: MenuItem, k: nat)
    requires k < |g| && IndexWhere(g, LineHasId(x.id)) == k
    ensures g[k].item.id == x.id && Bump(g, x) == Bumped(g, k)
  {
    BumpFindsId(g, x, k);
    BumpRaisesLine(g, x, k);
  }

  lemma BumpFindsId(g: seq<LineItem>, x: MenuItem, k: nat)
    requires k < |g| && IndexWhere(g, LineHasId(x.id)) == k
    ensures g[k].item.id == x.id
  {
    assert LineHasId(x.id)(g[k]);
  }

  lemma BumpRaisesLine(g: seq<LineItem>, x: MenuItem, k: nat)
    requires k < |g| && IndexWhere(g, LineHasId(x.id)) == k
    ensures Bump(g, x) == Bumped(g, k)
  {
  }

  /** The lines with the `k`-th quantity raised by one. */
  function Bumped(g: seq<LineItem>, k: nat): seq<LineItem>
    requires k < |g|
  {
    g[k := g[k].(quantity := g[k].quantity + 1)]
  }

  lemma BumpedGrouping(front: seq<MenuItem>, x: MenuItem, g: seq<LineItem>, k: nat)
    requires IsGrouping(g, front)
    requires k < |g| && g[k].item.id == x.id
    ensures IsGrouping(Bumped(g, k), front + [x])
  {
    BumpedMatches(front, x, g, k);
    BumpedCoversAndCounts(front, x, g, k);
  }

  lemma BumpedMatches(front: seq<MenuItem>, x: MenuItem, g: seq<LineItem>, k: nat)
    requires DistinctLines(g) && AllMatch(g, front)
    requires k < |g| && g[k].item.id == x.id
    ensures DistinctLines(Bumped(g, k)) && AllMatch(Bumped(g, k), front + [x])
  {
    MatchesAfterBump(front, x, g, k, Bumped(g, k));
    DistinctAfterBump(g, k, Bumped(g, k));
  }

  lemma BumpedCoversAndCounts(front: seq<MenuItem>, x: MenuItem, g: seq<LineItem>, k: nat)
    requires Covers(g, front) && TotalQuantity(g) == |front|
    requires k < |g| && g[k].item.id == x.id
    ensures Covers(Bumped(g, k), front + [x])
    ensures TotalQuantity(Bumped(g, k)) == |front + [x]|
  {
    CoversAfterBump(front, x, g, k);
    QuantityAfterBump(g, k, Bumped(g, k));
  }

  lemma DistinctAfterNewLine(g: seq<LineItem>, x: MenuItem, r: seq<LineItem>)
    requires DistinctLines(g)
    requires IndexWhere(g, LineHasId(x.id)) < 0
    requires r == g + [LineItem(x, 1)]
    ensures DistinctLines(r)
  {
    forall i, j | 0 <= i < j < |r|
      ensures r[i].item.id != r[j].item.id
    {
      assert r[i] == g[i];
      if j == |g| {
        assert !LineHasId(x.id)(g[i]);
      } else {
        assert r[j] == g[j];
      }
    }
  }

  lemma DistinctAfterBump(g: seq<LineItem>, k: nat, r: seq<LineItem>)
    requires DistinctLines(g)
    requires k < |g| && r == g[k := g[k].(quantity := g[k].quantity + 1)]
    ensures DistinctLines(r)
  {
    assert forall i :: 0 <= i < |g| ==> r[i].item == g[i].item;
  }

  lemma QuantityAfterNewLine(g: seq<LineItem>, x: MenuItem, r: seq<LineItem>)
    requires r == g + [LineItem(x, 1)]
    ensures TotalQuantity(r) == TotalQuantity(g) + 1
  {
    SumConcat(g, [LineItem(x, 1)], Quantity);
    assert SumOf([LineItem(x, 1)], Quantity) == 1;
  }

  lemma QuantityAfterBump(g: seq<LineItem>, k: nat, r: seq<LineItem>)
    requires k < |g| && r == g[k := g[k].(quantity := g[k].quantity + 1)]
    ensures TotalQuantity(r) == TotalQuantity(g) + 1
  {
    SumUpdate(g, k, r[k], Quantity);
  }

  /** With every unit covered, an id without a line is not in the cart. */
  lemma NoLineMeansNewItem(front: seq<MenuItem>, x: MenuItem, g: seq<LineItem>)
    requires Covers(g, front)
    requires IndexWhere(g, LineHasId(x.id)) < 0
    ensures !InCart(front, x.id)
  {
    forall j | 0 <= j < |front|
      ensures front[j].id != x.id
    {
      assert HasLine(g, front[j].id);
      var i :| 0 <= i < |g| && g[i].item.id == front[j].id;
      assert !LineHasId(x.id)(g[i]);
    }
  }

  lemma MatchesAfterNewLine(front: seq<MenuItem>, x: MenuItem, g: seq<LineItem>, r: seq<LineItem>)
    requires AllMatch(g, front)
    requires IndexWhere(g, LineHasId(x.id)) < 0
    requires !InCart(front, x.id)
    requires r == g + [LineItem(x, 1)]
    ensures AllMatch(r, front + [x])
  {
    forall i | 0 <= i < |r|
      ensures LineMatches(r[i], front + [x])
    {
      if i < |g| {
        assert r[i] == g[i] && !LineHasId(x.id)(g[i]);
        OtherLineMatches(g[i], front, x);
      } else {
        NewLineMatches(front, x);
      }
    }
  }

  lemma CoversAfterNewLine(front: seq<MenuItem>, x: MenuItem, g: seq<LineItem>)
    requires Covers(g, front)
    ensures Covers(g + [LineItem(x, 1)], front + [x])
  {
    var c, r := front + [x], g + [LineItem(x, 1)];
    forall j | 0 <= j < |c|
      ensures HasLine(r, c[j].id)
    {
      if j < |front| {
        assert c[j] == front[j] && HasLine(g, front[j].id);
        var i :| 0 <= i < |g| && g[i].item.id == front[j].id;
        assert r[i].item.id == c[j].id;
      } else {
        assert r[|g|].item.id == c[j].id;
      }
    }
  }

  lemma MatchesAfterBump(front: seq<MenuItem>, x: MenuItem, g: seq<LineItem>, k: nat, r: seq<LineItem>)
    requires k < |g| && g[k].item.id == x.id
    requires r == g[k := g[k].(quantity := g[k].quantity + 1)]
    requires DistinctLines(g)
    requires AllMatch(g, front)
    ensures AllMatch(r, front + [x])
  {
    forall i | 0 <= i < |r|
      ensures LineMatches(r[i], front + [x])
    {
      if i == k {
        BumpedLineMatches(g[i], front, x);
      } else {
        assert r[i] == g[i] && g[i].item.id != g[k].item.id;
        OtherLineMatches(g[i], front, x);
      }
    }
  }

  lemma CoversAfterBump(front: seq<MenuItem>, x: MenuItem, g: seq<LineItem>, k: nat)
    requires k < |g| && g[k].item.id == x.id
    requires Covers(g, front)
    ensures Covers(g[k := g[k].(quantity := g[k].quantity + 1)], front + [x])
  {
    var c, r := front + [x], g[k := g[k].(quantity := g[k].quantity + 1)];
    forall j | 0 <= j < |c|
      ensures HasLine(r, c[j].id)
    {
      if j < |front| {
        assert c[j] == front[j] && HasLine(g, front[j].id);
        var i :| 0 <= i < |g| && g[i].item.id == front[j].id;
        assert r[i].item.id == c[j].id;
      } else {
        assert r[k].item.id == c[j].id;
      }
    }
  }

  /** All units with the same id carry the same price, as units added from one menu do. */
  predicate UniformPrices(cart: seq<MenuItem>) {
    forall i, j :: 0 <= i < |cart| && 0 <= j < |cart| && cart[i].id == cart[j].id ==>
      cart[i].price == cart[j].price
  }

  /** The line totals the page lists add up to the subtotal it charges. */
  lemma {:induction false} LinesAddUpToSubtotal(cart: seq<MenuItem>)
    requires UniformPrices(cart)
    ensures LinesTotal(Group(cart)) == Subtotal(cart)
  {
    if |cart| == 0 {
      EmptyCartHasNoLines(cart);
    } else {
      LastUnit(cart);
      LinesAddUpToSubtotal(cart[..|cart| - 1]);
      LastUnitAddsUp(cart);
    }
  }

  lemma EmptyCartHasNoLines(cart: seq<MenuItem>)
    requires |cart| == 0
    ensures LinesTotal(Group(cart)) == Subtotal(cart) == 0
  {
    assert Group(cart) == [];
  }

  /** If the earlier units' lines add up, so do the lines after the last unit. */
  lemma LastUnitAddsUp(cart: seq<MenuItem>)
    requires |cart| > 0
    requires LinesTotal(Group(cart[..|cart| - 1])) == Subtotal(cart[..|cart| - 1])
    requires PricedLikeFirst(cart[..|cart| - 1], cart[|cart| - 1])
    ensures LinesTotal(Group(cart)) == Subtotal(cart)
  {
    var front, x := cart[..|cart| - 1], cart[|cart| - 1];
    LastUnit(cart);
    GroupLast(cart);
    LinesTotalStep(front, x, Group(front));
  }

  /** A unit priced like the first unit with its id, if there is one. */
  predicate PricedLikeFirst(front: seq<MenuItem>, x: MenuItem) {
    InCart(front, x.id) ==> FirstWithId(front, x.id).price == x.price
  }

  /** The cart seen as its earlier units and its last one. */
  lemma LastUnit(cart: seq<MenuItem>)
    requires |cart| > 0
    ensures var front, x := cart[..|cart| - 1], cart[|cart| - 1];
      && Subtotal(cart) == Subtotal(front) + x.price
      && (UniformPrices(cart) ==> UniformPrices(front))
      && (UniformPrices(cart) ==> PricedLikeFirst(front, x))
  {
    var front, x := cart[..|cart| - 1], cart[|cart| - 1];
    assert cart == front + [x];
    assert forall k :: 0 <= k < |front| ==> front[k] == cart[k];
    SumConcat(front, [x], Price);
    if UniformPrices(cart) && InCart(front, x.id) {
      var i := IndexOfId(front, x.id);
      assert cart[i] == front[i] && cart[|front|] == x;
    }
  }

  lemma GroupLast(cart: seq<MenuItem>)
    requires |cart| > 0
    ensures Group(cart) == Bump(Group(cart[..|cart| - 1]), cart[|cart| - 1])
  {
  }

  /** Adding a unit to the grouping adds its price to the line totals. */
  lemma LinesTotalStep(front: seq<MenuItem>, x: MenuItem, g: seq<LineItem>)
    requires AllMatch(g, front)
    requires PricedLikeFirst(front, x)
    ensures LinesTotal(Bump(g, x)) == LinesTotal(g) + x.price
  {
    var k := IndexWhere(g, LineHasId(x.id));
    if k < 0 {
      BumpOpensLine(g, x);
      SumConcat(g, [LineItem(x, 1)], LineAmount);
      assert SumOf([LineItem(x, 1)], LineAmount) == x.price;
    } else {
      BumpFindsLine(g, x, k);
      assert LineMatches(g[k], front);
      BumpedLineAmount(g, k, x.price);
    }
  }

  lemma BumpedLineAmount(g: seq<LineItem>, k: nat, price: int)
    requires k < |g| && g[k].item.price == price
    ensures LinesTotal(Bumped(g, k)) == LinesTotal(g) + price
  {
    var l := g[k];
    assert LineAmount(l.(quantity := l.quantity + 1)) == LineAmount(l) + price by {
      assert l.item.price * (l.quantity + 1) == l.item.price * l.quantity + l.item.price;
    }
    SumUpdate(g, k, l.(quantity := l.quantity + 1), LineAmount);
  }

  // ---------------------------------------------------------------------------
  // Quantity changes

  /** The plus button: append another unit of the line's item (the first one added). */
  function Increase(cart: seq<MenuItem>, id: ItemId): (r: seq<MenuItem>)
    requires InCart(cart, id)
    ensures |r| == |cart| + 1 && r[..|cart|] == cart
    ensures Count(r, id) == Count(cart, id) + 1
    ensures forall other :: other != id ==> Count(r, other) == Count(cart, other)
    ensures r[|cart|] == FirstWithId(cart, id)
    ensures Subtotal(r) == Subtotal(cart) + FirstWithId(cart, id).price
  {
    var e := FirstWithId(cart, id);
    CountAppend(cart, e);
    SumConcat(cart, [e], Price);
    assert (cart + [e])[..|cart|] == cart;
    cart + [e]
  }

  /** The minus button: delete the first unit with the id; no unit, no change. */
  function Decrease(cart: seq<MenuItem>, id: ItemId): (r: seq<MenuItem>)
    ensures !InCart(cart, id) ==> r == cart
    ensures InCart(cart, id) ==>
      && |r| == |cart| - 1
      && Count(r, id) == Count(cart, id) - 1
      && Subtotal(r) == Subtotal(cart) - FirstWithId(cart, id).price
    ensures forall other :: other != id ==> Count(r, other) == Count(cart, other)
    ensures InCart(cart, id) ==> IsSubsequence(r, cart)
    ensures InCart(cart, id) ==>
      var k := IndexOfId(cart, id);
      r[..k] == cart[..k] && r[k..] == cart[k + 1..]
  {
    var k := IndexOfId(cart, id);
    if k == -1 then cart
    else
      CountRemoveAt(cart, k);
      DeleteIsSubsequence(cart, k);
      var r := cart[..k] + cart[k + 1..];
      assert r[..k] == cart[..k] && r[k..] == cart[k + 1..];
      r
  }

  /** `updateQuantity`: a positive change adds a unit, any other change removes one. */
  function UpdateQuantity(cart: seq<MenuItem>, id: ItemId, change: int): (r: seq<MenuItem>)
    requires change > 0 ==> InCart(cart, id)
    ensures change > 0 ==> Count(r, id) == Count(cart, id) + 1
    ensures change <= 0 && InCart(cart, id) ==> Count(r, id) == Count(cart, id) - 1
    ensures change <= 0 && !InCart(cart, id) ==> r == cart
    ensures forall other :: other != id ==> Count(r, other) == Count(cart, other)
    ensures change > 0 ==>
      r == cart + [FirstWithId(cart, id)] && Subtotal(r) == Subtotal(cart) + FirstWithId(cart, id).price
    ensures change <= 0 && InCart(cart, id) ==>
      (var k := IndexOfId(cart, id); r == cart[..k] + cart[k + 1..])
      && Subtotal(r) == Subtotal(cart) - FirstWithId(cart, id).price
  {
    if change > 0 then Increase(cart, id) else Decrease(cart, id)
  }

  /** Adding a unit and then taking one away leaves every count and the subtotal as they were. */
  lemma IncreaseThenDecrease(cart: seq<MenuItem>, id: ItemId)
    requires InCart(cart, id)
    ensures forall other :: Count(Decrease(Increase(cart, id), id), other) == Count(cart, other)
    ensures Subtotal(Decrease(Increase(cart, id), id)) == Subtotal(cart)
  {
    IncreaseKeepsFirst(cart, id);
    IncreaseThenDecreaseCounts(cart, id);
  }

  lemma IncreaseKeepsFirst(cart: seq<MenuItem>, id: ItemId)
    requires InCart(cart, id)
    ensures InCart(Increase(cart, id), id)
    ensures FirstWithId(Increase(cart, id), id) == FirstWithId(cart, id)
  {
    var r := Increase(cart, id);
    var k := IndexOfId(cart, id);
    assert r[k] == cart[k];
    IndexWhereAppend(cart, FirstWithId(cart, id), HasId(id));
  }

  lemma IncreaseThenDecreaseCounts(cart: seq<MenuItem>, id: ItemId)
    requires InCart(cart, id)
    ensures forall other :: Count(Decrease(Increase(cart, id), id), other) == Count(cart, other)
  {
    var r := Increase(cart, id);
    assert r[IndexOfId(cart, id)].id == id;
  }

  /** `removeItem`: drop every unit of the item, keeping the order of the rest. */
  function RemoveItem(cart: seq<MenuItem>, id: ItemId): (r: seq<MenuItem>)
    ensures !InCart(r, id) && Count(r, id) == 0
    ensures forall other :: other != id ==> Count(r, other) == Count(cart, other)
    ensures |r| == |cart| - Count(cart, id)
    ensures IsSubsequence(r, cart)
  {
    var r := Filter(cart, LacksId(id));
    assert forall i :: 0 <= i < |r| ==> r[i] in r;
    FilterDropsAll(r, HasId(id));
    forall other | other != id
      ensures Count(r, other) == Count(cart, other)
    {
      FilterOfFilter(cart, LacksId(id), HasId(other));
    }
    FilterPartition(cart, HasId(id), LacksId(id));
    FilterIsSubsequence(cart, LacksId(id));
    r
  }

  /** After removing an item the grouped view has no line for it and keeps every other line. */
  lemma RemovedItemHasNoLine(cart: seq<MenuItem>, id: ItemId, other: ItemId)
    ensures !HasLine(Group(RemoveItem(cart, id)), id)
    ensures other != id && InCart(cart, other) ==> HasLine(Group(RemoveItem(cart, id)), other)
  {
    var r := RemoveItem(cart, id);
    NoUnitsNoLine(Group(r), r, id);
    if other != id && InCart(cart, other) {
      CountPositive(cart, other);
      CountPositive(r, other);
      UnitsHaveLine(Group(r), r, other);
    }
  }

  /** A grouping has no line for an id the cart does not hold. */
  lemma NoUnitsNoLine(g: seq<LineItem>, cart: seq<MenuItem>, id: ItemId)
    requires AllMatch(g, cart) && !InCart(cart, id)
    ensures !HasLine(g, id)
  {
    forall i | 0 <= i < |g|
      ensures g[i].item.id != id
    {
      assert LineMatches(g[i], cart);
    }
  }

  /** A grouping has a line for every id the cart holds. */
  lemma UnitsHaveLine(g: seq<LineItem>, cart: seq<MenuItem>, id: ItemId)
    requires Covers(g, cart) && InCart(cart, id)
    ensures HasLine(g, id)
  {
    var j :| 0 <= j < |cart| && cart[j].id == id;
    assert HasLine(g, cart[j].id);
  }

  // ---------------------------------------------------------------------------
  // Promo codes

  /** The promo codes the cart accepts and their discount rates. No property of
      `Object.prototype` is spelled in capitals, so a lookup finds these four only. */
  const PromoCodes: map<string, real> :=
    map["FIRST15" := 0.15, "FRIYAY" := 0.20, "WELCOME10" := 0.10, "LOYALTY" := 0.25]

  datatype PromoOutcome = Applied(rate: real) | InvalidPromoCode

  /** Look the typed code up in capitals. */
  function LookupPromo(input: string): (o: PromoOutcome)
    ensures o.Applied? <==> ToUpper(input) in PromoCodes
    ensures o.Applied? ==> 0.0 < o.rate < 1.0
    ensures o.Applied? ==> o.rate == PromoCodes[ToUpper(input)]
  {
    var code := ToUpper(input);
    if code in PromoCodes then Applied(PromoCodes[code]) else InvalidPromoCode
  }

  /** `applyPromoCode`: the discount rate after the customer presses Apply. A valid
      code replaces the current rate; an invalid one only raises an alert. */
  function ApplyPromoCode(rate: real, input: string): (r: real)
    ensures LookupPromo(input).InvalidPromoCode? ==> r == rate
    ensures LookupPromo(input).Applied? ==> r in PromoCodes.Values
    ensures LookupPromo(input).Applied? ==> r == PromoCodes[ToUpper(input)]
  {
    match LookupPromo(input)
    case Applied(newRate) => newRate
    case InvalidPromoCode => rate
  }

  /** The typed code's case does not matter. */
  lemma PromoIgnoresCase(input: string)
    ensures LookupPromo(ToLower(input)) == LookupPromo(input)
  {
    UpperOfLower(input);
  }

  /** Applying the same code twice is applying it once; codes do not stack. */
  lemma PromoIdempotent(rate: real, input: string)
    ensures ApplyPromoCode(ApplyPromoCode(rate, input), input) == ApplyPromoCode(rate, input)
  {
  }

  lemma FriyayInLowerCase()
    ensures LookupPromo("friyay") == Applied(0.20)
    ensures LookupPromo("FREEFOOD") == InvalidPromoCode
  {
    assert ToUpper("friyay") == "FRIYAY";
    assert ToUpper("FREEFOOD") == "FREEFOOD";
  }

  // ---------------------------------------------------------------------------
  // Totals and the hand-off to checkout

  /** The summary the page shows and the state it navigates to checkout with. */
  datatype CartSummary = CartSummary(
    cartItems: seq<LineItem>, subtotal: int, deliveryFee: int, discount: real, total: real)

  /** The promo discount on a subtotal. */
  function DiscountOf(subtotal: int, rate: real): real {
    subtotal as real * rate
  }

  function Summarize(cart: seq<MenuItem>, rate: real): (s: CartSummary)
    ensures IsGrouping(s.cartItems, cart)
    ensures s.subtotal == Subtotal(cart)
    ensures s.deliveryFee == if s.subtotal > 0 then DeliveryFee else 0
    ensures s.discount == DiscountOf(s.subtotal, rate)
    ensures s.total == s.subtotal as real - s.discount + s.deliveryFee as real
  {
    var subtotal := Subtotal(cart);
    var fee := if subtotal > 0 then DeliveryFee else 0;
    var discount := DiscountOf(subtotal, rate);
    CartSummary(Group(cart), subtotal, fee, discount, subtotal as real - discount + fee as real)
  }

  /** With prices that are not negative and a rate that is a fraction, the discount is
      at most the subtotal, so the total is between the fee and subtotal plus fee. */
  lemma TotalsAreBounded(cart: seq<MenuItem>, rate: real)
    requires forall i :: 0 <= i < |cart| ==> cart[i].price >= 0
    requires 0.0 <= rate <= 1.0
    ensures var s := Summarize(cart, rate);
      && 0.0 <= s.discount <= s.subtotal as real
      && s.deliveryFee as real <= s.total <= (s.subtotal + s.deliveryFee) as real
  {
    SubtotalNonNegative(cart);
    SummaryBounds(Summarize(cart, rate), rate);
  }

  lemma SummaryBounds(s: CartSummary, rate: real)
    requires 0 <= s.subtotal
    requires 0 <= s.deliveryFee
    requires 0.0 <= rate <= 1.0
    requires s.discount == DiscountOf(s.subtotal, rate)
    requires s.total == s.subtotal as real - s.discount + s.deliveryFee as real
    ensures 0.0 <= s.discount <= s.subtotal as real
    ensures s.deliveryFee as real <= s.total <= (s.subtotal + s.deliveryFee) as real
  {
    DiscountWithinSubtotal(s.subtotal, rate);
    assert (s.subtotal + s.deliveryFee) as real == s.subtotal as real + s.deliveryFee as real;
  }

  lemma DiscountWithinSubtotal(subtotal: int, rate: real)
    requires 0 <= subtotal && 0.0 <= rate <= 1.0
    ensures 0.0 <= DiscountOf(subtotal, rate) <= subtotal as real
  {
    FractionOf(subtotal as real, rate);
  }

  lemma FractionOf(a: real, rate: real)
    requires a >= 0.0 && 0.0 <= rate <= 1.0
    ensures 0.0 <= a * rate <= a
  {
    assert a * (1.0 - rate) >= 0.0;
  }

  lemma {:induction false} SubtotalNonNegative(cart: seq<MenuItem>)
    requires forall i :: 0 <= i < |cart| ==> cart[i].price >= 0
    ensures Subtotal(cart) >= 0
  {
    if |cart| > 0 {
      assert cart[0].price >= 0;
      SubtotalNonNegative(cart[1..]);
    }
  }

  /** `handleCheckout`: an empty cart only raises an alert; otherwise the summary goes to checkout. */
  function HandleCheckout(cart: seq<MenuItem>, rate: real): (r: Option<CartSummary>)
    ensures r.None? <==> |cart| == 0
    ensures r.Some? ==> TotalQuantity(r.value.cartItems) == |cart| && |r.value.cartItems| > 0
    ensures r.Some? ==> r.value.subtotal == Subtotal(cart)
    ensures r.Some? ==> r.value == Summarize(cart, rate)
  {
    if |cart| == 0 then None
    else
      var s := Summarize(cart, rate);
      assert HasLine(s.cartItems, cart[0].id);
      Some(s)
  }

  /** Two units of a 1125 item and one 650 item: subtotal 2900, fee 500, total 3400. */
  lemma TwoOfOneAndOneOfAnother(a: MenuItem, b: MenuItem)
    requires a.price == 1125 && b.price == 650 && a.id != b.id
    ensures var s := Summarize([a, a, b], 0.0);
      s.subtotal == 2900 && s.deliveryFee == 500 && s.total == 3400.0
    ensures Count([a, a, b], a.id) == 2
  {
    var cart := [a, a, b];
    assert cart[1..] == [a, b] && cart[1..][1..] == [b] && [b][1..] == [];
    assert SumOf([b], Price) == 650;
    assert SumOf([a, b], Price) == 1775;
    assert Subtotal(cart) == 2900;
    assert Filter([b], HasId(a.id)) == [];
    assert Filter([a, b], HasId(a.id)) == [a];
  }

  /** A key that `Object.values` lists before all others, in numeric order: the
      canonical decimal numeral of an integer below 2^32 - 1 (an array index). */
  predicate IsArrayIndexKey(key: string) {
    && |key| > 0 && Decimal.AllDigits(key)
    && (key[0] != '0' || |key| == 1)
    && Decimal.Value(key) < 0xFFFF_FFFF
  }

  /** The bundled items' numeric ids become array-index keys; a padded numeral,
      a name or the empty string does not. */
  lemma ArrayIndexKeys()
    ensures IsArrayIndexKey("1") && IsArrayIndexKey("0") && IsArrayIndexKey("42")
    ensures !IsArrayIndexKey("01") && !IsArrayIndexKey("wrap-1") && !IsArrayIndexKey("")
  {
    assert Decimal.Value("42") == 42 by {
      assert "42"[..1] == "4" && "4"[..0] == "";
    }
    assert !Decimal.IsDigit("wrap-1"[0]);
  }

  /** The same cart shows two lines in the order the items were first added:
      the first item with quantity 2, then the second with quantity 1. With ids
      that are not array indices this is also the order `Object.values` gives. */
  lemma TwoOfOneAndOneOfAnotherLines(a: MenuItem, b: MenuItem, rate: real)
    requires a.id != b.id
    requires !IsArrayIndexKey(a.id) && !IsArrayIndexKey(b.id)
    ensures Summarize([a, a, b], rate).cartItems == [LineItem(a, 2), LineItem(b, 1)]
  {
    ThreeUnits(a, b);
    GroupOfThree(a, b);
  }

  lemma ThreeUnits(a: MenuItem, b: MenuItem)
    ensures [a, a] + [b] == [a, a, b]
  {
  }

  lemma GroupOfOne(a: MenuItem)
    ensures Group([a]) == [LineItem(a, 1)]
  {
    GroupAppendNew([], a);
    assert [] + [a] == [a];
  }

  lemma GroupOfTwo(a: MenuItem)
    ensures Group([a, a]) == [LineItem(a, 2)]
  {
    GroupOfOne(a);
    OnlyLineFound(LineItem(a, 1), a.id);
    GroupAppendKnown([a], a, 0);
    assert [a] + [a] == [a, a];
  }

  lemma GroupOfThree(a: MenuItem, b: MenuItem)
    requires a.id != b.id
    ensures Group([a, a] + [b]) == [LineItem(a, 2), LineItem(b, 1)]
  {
    GroupOfTwo(a);
    SecondLineOpens([a, a], LineItem(a, 2), b);
  }

  lemma SecondLineOpens(front: seq<MenuItem>, l: LineItem, b: MenuItem)
    requires Group(front) == [l] && l.item.id != b.id
    ensures Group(front + [b]) == [l, LineItem(b, 1)]
  {
    OnlyLineMissed(l, b.id);
    GroupAppendNew(front, b);
  }

  lemma OnlyLineFound(l: LineItem, id: ItemId)
    requires l.item.id == id
    ensures IndexWhere([l], LineHasId(id)) == 0
  {
    assert LineHasId(id)([l][0]);
  }

  lemma OnlyLineMissed(l: LineItem, id: ItemId)
    requires l.item.id != id
    ensures IndexWhere([l], LineHasId(id)) == -1
  {
    assert !LineHasId(id)([l][0]);
  }

  /** A unit of an id the grouping has no line for opens a new last line. */
  lemma GroupAppendNew(cart: seq<MenuItem>, x: MenuItem)
    requires IndexWhere(Group(cart), LineHasId(x.id)) < 0
    ensures Group(cart + [x]) == Group(cart) + [LineItem(x, 1)]
  {
    GroupLast(cart + [x]);
    assert (cart + [x])[..|cart|] == cart;
    BumpOpensLine(Group(cart), x);
  }

  /** A unit of an id the grouping has a line for raises that line's quantity. */
  lemma GroupAppendKnown(cart: seq<MenuItem>, x: MenuItem, k: nat)
    requires k < |Group(cart)| && IndexWhere(Group(cart), LineHasId(x.id)) == k
    ensures Group(cart + [x]) == Bumped(Group(cart), k)
  {
    GroupLast(cart + [x]);
    assert (cart + [x])[..|cart|] == cart;
    BumpRaisesLine(Group(cart), x, k);
  }

  lemma SubtotalOfOne(a: MenuItem)
    ensures Subtotal([a]) == a.price
  {
    assert [a][1..] == [];
    assert SumOf([a], Price) == Price(a) + SumOf([], Price);
  }

  /** FRIYAY on a 2000 subtotal takes 400 off: 2000 - 400 + 500 = 2100. */
  lemma FriyayOnTwoThousand(a: MenuItem)
    requires a.price == 2000
    ensures var s := Summarize([a], ApplyPromoCode(0.0, "FRIYAY"));
      s.discount == 400.0 && s.total == 2100.0
  {
    assert ToUpper("FRIYAY") == "FRIYAY";
    SubtotalOfOne(a);
  }
}
