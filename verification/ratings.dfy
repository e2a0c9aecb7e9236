/**
 * The catalog's aggregate star rating (`calculateAverageRating` in
 * data/products.ts): the mean of a product's approved review ratings,
 * rounded to one decimal, held here in tenths of a star.
 */
module Ratings {
  import opened Types
  import opened Seqs

  /** The reviews that count towards a product's rating: its own, and approved. */
  function CountsFor(productId: int): Review -> bool
  {
    (r: Review) => r.productId == productId && r.status == Approved
  }

  function OfProduct(productId: int): Review -> bool
  {
    (r: Review) => r.productId == productId
  }

  function SumRatings(reviews: seq<Review>): int
  {
    if |reviews| == 0 then 0 else SumRatings(reviews[..|reviews| - 1]) + reviews[|reviews| - 1].rating
  }

  lemma {:induction false} SumRatingsAppend(a: seq<Review>, b: seq<Review>)
    ensures SumRatings(a + b) == SumRatings(a) + SumRatings(b)
    decreases |b|
  {
    if |b| == 0 {
      assert a + b == a;
    } else {
      assert (a + b)[..|a + b| - 1] == a + b[..|b| - 1];
      SumRatingsAppend(a, b[..|b| - 1]);
    }
  }

  /** `(k + 1) * x` spelled out. */
  lemma MulSucc(k: int, x: int)
    ensures (k + 1) * x == k * x + x
  {
  }

  /** Multiplying by a non-negative factor keeps order. */
  lemma MulMonotone(n: int, a: int, b: int)
    requires n >= 0 && a <= b
    ensures n * a <= n * b
  {
    assert n * b - n * a == n * (b - a);
  }

  /** Floor division brackets its dividend. */
  lemma DivBrackets(a: int, d: int)
    requires d > 0
    ensures d * (a / d) <= a < d * (a / d + 1)
  {
    assert a == d * (a / d) + a % d;
    MulSucc(a / d, d);
  }

  /** Ratings all within `[lo, hi]` sum to between `n * lo` and `n * hi`. */
  lemma {:induction false} SumRatingsBounds(reviews: seq<Review>, lo: int, hi: int)
    requires forall r :: r in reviews ==> lo <= r.rating <= hi
    ensures |reviews| * lo <= SumRatings(reviews) <= |reviews| * hi
    decreases |reviews|
  {
    if |reviews| > 0 {
      var k := |reviews| - 1;
      var init := reviews[..k];
      assert reviews[k] in reviews;
      assert forall r :: r in init ==> r in reviews;
      SumRatingsBounds(init, lo, hi);
      MulSucc(k, lo);
      MulSucc(k, hi);
    }
  }

  /**
   * The rating in tenths: 0 with no approved review, otherwise the mean of
   * the approved ratings times ten, rounded half up on the exact mean.
   */
  function AverageRatingTenths(reviews: seq<Review>, productId: int): (tenths: int)
    ensures var approved := Filter(CountsFor(productId), reviews);
      && (|approved| == 0 ==> tenths == 0)
      && (|approved| > 0 ==>
            2 * |approved| * tenths <= 20 * SumRatings(approved) + |approved| < 2 * |approved| * (tenths + 1))
  {
    var approved := Filter(CountsFor(productId), reviews);
    var n := |approved|;
    if n == 0 then 0
    else
      DivBrackets(20 * SumRatings(approved) + n, 2 * n);
      (20 * SumRatings(approved) + n) / (2 * n)
  }

  /** A rounded mean of `n` values within `[lo, hi]` stays within `[lo, hi]`. */
  lemma RoundedMeanBounds(n: int, sum: int, t: int, lo: int, hi: int)
    requires n > 0
    requires n * lo <= sum <= n * hi
    requires 2 * n * t <= 20 * sum + n < 2 * n * (t + 1)
    ensures 10 * lo <= t <= 10 * hi
  {
    var m := 2 * n;
    assert m * (10 * hi + 1) == 20 * (n * hi) + m by {
      assert m * (10 * hi + 1) == m * (10 * hi) + m;
    }
    assert m * (10 * lo) == 20 * (n * lo);
    if t > 10 * hi {
      MulMonotone(m, 10 * hi + 1, t);
    }
    if t < 10 * lo {
      MulMonotone(m, t + 1, 10 * lo);
    }
  }

  /** With every approved rating in `[lo, hi]` stars, the rating lies in `[lo, hi]` too. */
  lemma AverageWithinRatings(reviews: seq<Review>, productId: int, lo: int, hi: int)
    requires exists r :: r in reviews && CountsFor(productId)(r)
    requires forall r :: r in reviews && CountsFor(productId)(r) ==> lo <= r.rating <= hi
    ensures 10 * lo <= AverageRatingTenths(reviews, productId) <= 10 * hi
  {
    var approved := Filter(CountsFor(productId), reviews);
    var r :| r in reviews && CountsFor(productId)(r);
    assert r in approved;
    SumRatingsBounds(approved, lo, hi);
    RoundedMeanBounds(|approved|, SumRatings(approved), AverageRatingTenths(reviews, productId), lo, hi);
  }

  /** A review that is not approved, or is for another product, leaves the rating as it was. */
  lemma NonCountingReviewIgnored(reviews: seq<Review>, extra: Review, productId: int)
    requires extra.status != Approved || extra.productId != productId
    ensures AverageRatingTenths(reviews + [extra], productId) == AverageRatingTenths(reviews, productId)
  {
    FilterAppend(CountsFor(productId), reviews, [extra]);
    assert Filter(CountsFor(productId), [extra]) == [];
    assert Filter(CountsFor(productId), reviews) + [] == Filter(CountsFor(productId), reviews);
  }

  /** The product's review list: its reviews of every status, in order. */
  function ProductReviews(reviews: seq<Review>, productId: int): (r: seq<Review>)
    ensures forall x :: x in r <==> x in reviews && x.productId == productId
    ensures IsSubsequence(r, reviews)
  {
    Filter(OfProduct(productId), reviews)
  }

  /** The reviews behind the rating are the approved ones of the product's review list, in the same order. */
  lemma RatingReadsApprovedOfListed(reviews: seq<Review>, productId: int)
    ensures Filter(CountsFor(productId), reviews)
         == Filter((r: Review) => r.status == Approved, ProductReviews(reviews, productId))
  {
    FilterFilter((r: Review) => r.status == Approved, OfProduct(productId), CountsFor(productId), reviews);
  }
}
