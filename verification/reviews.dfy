/** The testimonials carousel: a fixed list of reviews, a current index that
    the timer and the arrow buttons rotate and the dots set, the role each card
    plays around the current one, and the average rating shown in the header. */
module Reviews {
  import opened Seqs
  import Decimal
  import opened Js

  datatype Review = Review(id: nat, name: string, location: string, rating: int, verified: bool)

  /** The six reviews the component ships with (text, dates and pictures omitted). */
  const Shipped: seq<Review> := [
    Review(1, "Chidi Okafor", "Lekki, Lagos", 5, true),
    Review(2, "Amina Mohammed", "Victoria Island", 5, true),
    Review(3, "Tunde Bakare", "Ikoyi", 5, true),
    Review(4, "Sarah Johnson", "Ajah", 4, true),
    Review(5, "Ibrahim Suleiman", "Lekki Phase 2", 5, true),
    Review(6, "Ngozi Eze", "Victoria Island", 5, true)
  ]

  /** The auto-rotation period in milliseconds. */
  const RotationPeriod: nat := 5000

  // ---------------------------------------------------------------------------
  // Navigation

  /** `(prev + 1) % reviews.length`: the next arrow and every timer tick. */
  function Next(current: nat, n: nat): (r: nat)
    requires n > 0
    ensures r < n
    ensures current < n - 1 ==> r == current + 1
    ensures current == n - 1 ==> r == 0
  {
    (current + 1) % n
  }

  /** `(prev - 1 + reviews.length) % reviews.length`: the previous arrow. */
  function Prev(current: nat, n: nat): (r: nat)
    requires n > 0 && current < n
    ensures r < n
    ensures current > 0 ==> r == current - 1
    ensures current == 0 ==> r == n - 1
  {
    (current - 1 + n) % n
  }

  /** The arrows undo each other. */
  lemma ArrowsAreInverse(current: nat, n: nat)
    requires 0 < n && current < n
    ensures Prev(Next(current, n), n) == current
    ensures Next(Prev(current, n), n) == current
  {
  }

  /** The index after `k` timer ticks. */
  function Rotate(current: nat, n: nat, k: nat): (r: nat)
    requires 0 < n && current < n
    ensures r < n
  {
    if k == 0 then current else Next(Rotate(current, n, k - 1), n)
  }

  /** After `k` ticks the carousel has moved `k` places round the ring. */
  lemma {:induction false} RotateIsOffset(current: nat, n: nat, k: nat)
    requires 0 < n && current < n
    ensures Rotate(current, n, k) == (current + k) % n
  {
    if k > 0 {
      var p := Rotate(current, n, k - 1);
      RotateIsOffset(current, n, k - 1);
      assert p == (current + k - 1) % n;
      AddOneMod(current + k - 1, n);
      assert Rotate(current, n, k) == (p + 1) % n;
    }
  }

  lemma AddOneMod(m: nat, n: nat)
    requires n > 0
    ensures (m % n + 1) % n == (m + 1) % n
  {
    var q, r := m / n, m % n;
    assert m == q * n + r;
    if r + 1 == n {
      Decimal.ModUnique(r + 1, n, 1, 0);
      assert m + 1 == (q + 1) * n + 0;
      Decimal.ModUnique(m + 1, n, q + 1, 0);
    } else {
      Decimal.ModUnique(r + 1, n, 0, r + 1);
      Decimal.ModUnique(m + 1, n, q, r + 1);
    }
  }

  /** A full round of ticks shows every review once and comes back to the start. */
  lemma FullRoundReturns(current: nat, n: nat)
    requires 0 < n && current < n
    ensures Rotate(current, n, n) == current
  {
    RotateIsOffset(current, n, n);
    Decimal.ModUnique(current + n, n, 1, current);
  }

  // ---------------------------------------------------------------------------
  // Cards and dots

  /** The classes a card carries besides `review-card`. */
  datatype Role = Role(active: bool, prev: bool, next: bool)

  /** The role of the card at `index` when `current` is shown. */
  function CardRole(index: nat, current: nat, n: nat): (r: Role)
    requires 0 < n && current < n
    ensures r.active <==> index == current
    ensures r.prev <==> index == Prev(current, n)
    ensures r.next <==> index == Next(current, n)
  {
    Role(index == current, index == (current - 1 + n) % n, index == (current + 1) % n)
  }

  /** With three or more reviews the current card has exactly one neighbour on
      each side, and no card plays two roles. */
  lemma RolesAreDistinct(current: nat, n: nat)
    requires 3 <= n && current < n
    ensures forall i :: 0 <= i < n ==> CardRole(i, current, n).active ==> !CardRole(i, current, n).prev && !CardRole(i, current, n).next
    ensures forall i :: 0 <= i < n ==> !(CardRole(i, current, n).prev && CardRole(i, current, n).next)
    ensures CardRole(Prev(current, n), current, n).prev && CardRole(Next(current, n), current, n).next
  {
  }

  /** With only two reviews the other card is both the previous and the next one. */
  lemma TwoReviewsShareNeighbour(current: nat)
    requires current < 2
    ensures CardRole(1 - current, current, 2) == Role(false, true, true)
  {
  }

  /** The dot under a review is highlighted exactly when its card is the active one. */
  function DotActive(index: nat, current: nat, n: nat): (active: bool)
    requires 0 < n && current < n
    ensures active == CardRole(index, current, n).active
  {
    index == current
  }

  /** Clicking the dot of review `index` shows that review: its dot alone is highlighted. */
  function ClickDot(index: nat, n: nat): (current: nat)
    requires index < n
    ensures current < n
    ensures DotActive(index, current, n)
    ensures forall j :: 0 <= j < n && j != index ==> !DotActive(j, current, n)
  {
    index
  }

  // ---------------------------------------------------------------------------
  // Average rating

  function Rating(r: Review): int { r.rating }

  /** `reviews.reduce((sum, r) => sum + r.rating, 0) / reviews.length`, before `toFixed(1)`. */
  function AverageRating(reviews: seq<Review>): (avg: real)
    requires |reviews| > 0
    ensures avg * |reviews| as real == SumOf(reviews, Rating) as real
  {
    SumOf(reviews, Rating) as real / |reviews| as real
  }

  lemma {:induction false} SumBetween(reviews: seq<Review>, lo: int, hi: int)
    requires forall i :: 0 <= i < |reviews| ==> lo <= reviews[i].rating <= hi
    ensures lo * |reviews| <= SumOf(reviews, Rating) <= hi * |reviews|
  {
    if |reviews| > 0 {
      SumBetween(reviews[1..], lo, hi);
      assert lo * |reviews| == lo + lo * (|reviews| - 1);
      assert hi * |reviews| == hi + hi * (|reviews| - 1);
    }
  }

  /** The average lies between the lowest and the highest rating. */
  lemma AverageBetween(reviews: seq<Review>, lo: int, hi: int)
    requires |reviews| > 0
    requires forall i :: 0 <= i < |reviews| ==> lo <= reviews[i].rating <= hi
    ensures lo as real <= AverageRating(reviews) <= hi as real
  {
    var m, total := |reviews|, SumOf(reviews, Rating);
    SumBetween(reviews, lo, hi);
    ProductAsReal(lo, m);
    ProductAsReal(hi, m);
    assert m as real * lo as real <= total as real <= m as real * hi as real;
    QuotientBetween(AverageRating(reviews), m as real, total as real, lo as real, hi as real);
  }

  lemma ProductAsReal(a: int, m: nat)
    ensures (a * m) as real == m as real * a as real
  {
  }

  /** The shipped reviews average 29/6, which `toFixed(1)` shows as 4.8. */
  lemma ShippedAverage()
    ensures AverageRating(Shipped) == 29.0 / 6.0
    ensures 4.75 <= AverageRating(Shipped) < 4.85
  {
    assert SumOf(Shipped, Rating) == 29 by {
      var s := Shipped;
      assert s[1..][1..][1..][1..][1..][1..] == [];
    }
  }
}
