/** The "My Reviews" page: the reviews read from the "reviews" storage key,
    deleting one product's reviews or all of them (each mirrored to storage),
    the four sort orders, the average and the per-star histogram, and the
    label and colour shown for a rating. */
module ReviewPage {
  import opened JsBuiltins
  import opened Storage

  datatype PageReview = PageReview(
    productId: int,
    productTitle: string,
    productImage: string,
    rating: int,
    timestamp: int)

  const ReviewsKey: string := "reviews"

  /** `JSON.parse(localStorage.getItem("reviews") || "[]")`: a missing key
      and an empty text both read as `[]`; unparseable text makes JSON.parse
      throw, which nothing catches (`None`). */
  function ParseStored(stored: Option<StoredText<PageReview>>): (r: Option<seq<PageReview>>)
    ensures r.None? <==> stored == Some(Malformed)
    ensures stored == None || stored == Some(EmptyText) ==> r == Some([])
    ensures HoldsList(stored) ==> r == Some(stored.value.items)
  {
    match stored
    case None => Some([])
    case Some(EmptyText) => Some([])
    case Some(Json(items)) => Some(items)
    case Some(Malformed) => None
  }

  // ---------------------------------------------------------------------------
  // Deleting

  function NotForProduct(productId: int): PageReview -> bool {
    (review: PageReview) => review.productId != productId
  }

  /** The list `handleDeleteReview(productId)` keeps. */
  function DeleteByProduct(reviews: seq<PageReview>, productId: int): (r: seq<PageReview>)
    ensures forall x :: x in r <==> x in reviews && x.productId != productId
    ensures forall x :: x in reviews ==>
      multiset(r)[x] == if x.productId != productId then multiset(reviews)[x] else 0
    ensures IsSubsequence(r, reviews)
  {
    FilterIsSubsequence(reviews, NotForProduct(productId));
    Filter(reviews, NotForProduct(productId))
  }

  lemma DeleteIdempotent(reviews: seq<PageReview>, productId: int)
    ensures DeleteByProduct(DeleteByProduct(reviews, productId), productId)
         == DeleteByProduct(reviews, productId)
  {
    FilterIdempotent(reviews, NotForProduct(productId));
  }

  // ---------------------------------------------------------------------------
  // Sorting

  /** The order a sort option asks for; anything unrecognised falls to the
      comparator's `default` branch, which orders as "newest". */
  datatype SortMode = Newest | Oldest | RatingHigh | RatingLow

  function ModeOf(sortBy: string): SortMode {
    if sortBy == "oldest" then Oldest
    else if sortBy == "rating-high" then RatingHigh
    else if sortBy == "rating-low" then RatingLow
    else Newest
  }

  /** The key the comparator orders by, ascending. */
  function Rank(mode: SortMode, r: PageReview): int {
    match mode
    case Newest => -r.timestamp
    case Oldest => r.timestamp
    case RatingHigh => -r.rating
    case RatingLow => r.rating
  }

  /** The comparator handed to `sort`, including its `default` branch. Each
      result is a difference of keys, so the comparator is a consistent total
      preorder and sorting by it sorts by the key. */
  function Compare(sortBy: string, a: PageReview, b: PageReview): (c: int)
    ensures c == Rank(ModeOf(sortBy), a) - Rank(ModeOf(sortBy), b)
  {
    match sortBy
    case "newest" => b.timestamp - a.timestamp
    case "oldest" => a.timestamp - b.timestamp
    case "rating-high" => b.rating - a.rating
    case "rating-low" => a.rating - b.rating
    case _ => b.timestamp - a.timestamp
  }

  predicate SortedBy(mode: SortMode, s: seq<PageReview>) {
    forall i, j :: 0 <= i < j < |s| ==> Rank(mode, s[i]) <= Rank(mode, s[j])
  }

  /** Inserts `x` after every element that does not compare greater, which
      keeps equal elements in arrival order. */
  function Insert(mode: SortMode, x: PageReview, s: seq<PageReview>): (r: seq<PageReview>)
    requires SortedBy(mode, s)
    ensures SortedBy(mode, r)
    ensures multiset(r) == multiset(s) + multiset{x}
  {
    if s == [] then [x]
    else if Rank(mode, x) < Rank(mode, s[0]) then [x] + s
    else
      var rest := Insert(mode, x, s[1..]);
      assert s == [s[0]] + s[1..];
      InsertAbove(mode, s[0], x, s[1..], rest);
      [s[0]] + rest
  }

  lemma InsertAbove(mode: SortMode, low: PageReview, x: PageReview, s: seq<PageReview>, r: seq<PageReview>)
    requires Rank(mode, low) <= Rank(mode, x)
    requires forall y :: y in s ==> Rank(mode, low) <= Rank(mode, y)
    requires SortedBy(mode, r) && multiset(r) == multiset(s) + multiset{x}
    ensures SortedBy(mode, [low] + r)
  {
    forall j | 0 <= j < |r| ensures Rank(mode, low) <= Rank(mode, r[j]) {
      assert r[j] in multiset(r);
    }
  }

  /** `[...reviews].sort(comparator)`: a sorted copy; the state array is not
      reordered. */
  function SortReviews(sortBy: string, reviews: seq<PageReview>): (r: seq<PageReview>)
    ensures SortedBy(ModeOf(sortBy), r)
    ensures multiset(r) == multiset(reviews)
    decreases |reviews|
  {
    if reviews == [] then []
    else
      var n := |reviews| - 1;
      assert reviews == reviews[..n] + [reviews[n]];
      Insert(ModeOf(sortBy), reviews[n], SortReviews(sortBy, reviews[..n]))
  }

  /** What each sort option shows; an unrecognised option sorts as "newest". */
  lemma SortOrderByMode(sortBy: string, reviews: seq<PageReview>)
    ensures var r := SortReviews(sortBy, reviews);
      && (sortBy == "oldest" ==>
            forall i, j :: 0 <= i < j < |r| ==> r[i].timestamp <= r[j].timestamp)
      && (sortBy == "rating-high" ==>
            forall i, j :: 0 <= i < j < |r| ==> r[i].rating >= r[j].rating)
      && (sortBy == "rating-low" ==>
            forall i, j :: 0 <= i < j < |r| ==> r[i].rating <= r[j].rating)
      && (sortBy != "oldest" && sortBy != "rating-high" && sortBy != "rating-low" ==>
            forall i, j :: 0 <= i < j < |r| ==> r[i].timestamp >= r[j].timestamp)
  {
  }

  // ---------------------------------------------------------------------------
  // Aggregates

  function RatingOf(review: PageReview): int {
    review.rating
  }

  /** `reviews.reduce((sum, review) => sum + review.rating, 0)`. */
  function RatingSum(reviews: seq<PageReview>): (sum: int)
    ensures sum == Sum(reviews, RatingOf)
    ensures RatingsInRange(reviews) ==> |reviews| <= sum <= 5 * |reviews|
  {
    ReduceIsSum(reviews, RatingOf, 0);
    if RatingsInRange(reviews) then
      SumBounds(reviews);
      ReduceSum(reviews, RatingOf, 0)
    else ReduceSum(reviews, RatingOf, 0)
  }

  predicate RatingsInRange(reviews: seq<PageReview>) {
    forall i :: 0 <= i < |reviews| ==> 1 <= reviews[i].rating <= 5
  }

  lemma {:induction false} SumBounds(reviews: seq<PageReview>)
    requires RatingsInRange(reviews)
    ensures |reviews| <= Sum(reviews, RatingOf) <= 5 * |reviews|
  {
    if reviews != [] {
      assert RatingsInRange(reviews[1..]) by {
        forall i | 0 <= i < |reviews[1..]| ensures 1 <= reviews[1..][i].rating <= 5 {
          assert reviews[1..][i] == reviews[i + 1];
        }
      }
      SumBounds(reviews[1..]);
    }
  }

  /** Real-arithmetic helper for `MeanBounds`: the product of two positive
      reals is positive. */
  lemma ProductPositive(a: real, b: real)
    requires a > 0.0 && b > 0.0
    ensures a * b > 0.0
  {
  }

  /** A sum between `n` and `5n` over `n` items has a mean in 1..5. */
  lemma MeanBounds(sum: real, n: real)
    requires n > 0.0 && n <= sum <= 5.0 * n
    ensures 1.0 <= sum / n <= 5.0
  {
    var q := sum / n;
    assert q * n == sum;
    if q > 5.0 {
      ProductPositive(q - 5.0, n);
      assert false;
    }
    if q < 1.0 {
      ProductPositive(1.0 - q, n);
      assert false;
    }
  }

  /** `averageRating` before rounding: 0 for no reviews, otherwise the mean,
      which lies within the star range when every rating does. */
  function AverageRating(reviews: seq<PageReview>): (avg: real)
    ensures |reviews| == 0 ==> avg == 0.0
    ensures |reviews| > 0 ==> avg * (|reviews| as real) == RatingSum(reviews) as real
    ensures |reviews| > 0 && RatingsInRange(reviews) ==> 1.0 <= avg <= 5.0
  {
    if |reviews| > 0 then
      var n := |reviews| as real;
      var avg := RatingSum(reviews) as real / n;
      if RatingsInRange(reviews) then
        MeanBounds(RatingSum(reviews) as real, n);
        avg
      else avg
    else 0.0
  }

  function HasRating(stars: int): PageReview -> bool {
    (review: PageReview) => review.rating == stars
  }

  /** `ratingDistribution[stars]`. */
  function RatingCount(reviews: seq<PageReview>, stars: int): (n: nat)
    ensures n <= |reviews|
    ensures n > 0 <==> exists x :: x in reviews && x.rating == stars
  {
    var kept := Filter(reviews, HasRating(stars));
    assert kept != [] ==> kept[0] in kept;
    |kept|
  }

  /** The first review adds one to its own bar and nothing to the others. */
  lemma CountFirst(reviews: seq<PageReview>, stars: int)
    requires reviews != []
    ensures RatingCount(reviews, stars)
         == RatingCount(reviews[1..], stars) + if reviews[0].rating == stars then 1 else 0
  {
  }

  /** With every rating in 1..5, the five histogram bars add up to the
      number of reviews. */
  lemma {:induction false} DistributionTotal(reviews: seq<PageReview>)
    requires RatingsInRange(reviews)
    ensures RatingCount(reviews, 5) + RatingCount(reviews, 4) + RatingCount(reviews, 3)
          + RatingCount(reviews, 2) + RatingCount(reviews, 1) == |reviews|
  {
    if reviews != [] {
      assert RatingsInRange(reviews[1..]) by {
        forall i | 0 <= i < |reviews[1..]| ensures 1 <= reviews[1..][i].rating <= 5 {
          assert reviews[1..][i] == reviews[i + 1];
        }
      }
      DistributionTotal(reviews[1..]);
      CountFirst(reviews, 5);
      CountFirst(reviews, 4);
      CountFirst(reviews, 3);
      CountFirst(reviews, 2);
      CountFirst(reviews, 1);
    }
  }

  // ---------------------------------------------------------------------------
  // Labels

  /** `getRatingText(rating)`. */
  function RatingText(rating: int): (text: string)
    ensures text != "" <==> 1 <= rating <= 5
  {
    match rating
    case 5 => "Absolutely Love It!"
    case 4 => "Really Good"
    case 3 => "It's Okay"
    case 2 => "Not Great"
    case 1 => "Disappointed"
    case _ => ""
  }

  /** Different star counts get different texts. */
  lemma RatingTextDistinct(a: int, b: int)
    requires 1 <= a <= 5 && 1 <= b <= 5 && a != b
    ensures RatingText(a) != RatingText(b)
  {
  }

  /** `getRatingColor(rating)`. */
  function RatingColor(rating: int): (colour: string)
    ensures colour == "text-green-600" <==> rating >= 4
    ensures colour == "text-yellow-600" <==> rating == 3
    ensures colour == "text-red-600" <==> rating < 3
  {
    if rating >= 4 then "text-green-600"
    else if rating >= 3 then "text-yellow-600"
    else "text-red-600"
  }

  // ---------------------------------------------------------------------------
  // The page

  class ReviewsPage {
    var reviews: seq<PageReview>
    var isLoaded: bool
    var sortBy: string
    const storage: LocalStorage<PageReview>

    constructor (storage: LocalStorage<PageReview>)
      ensures this.storage == storage
      ensures reviews == [] && !isLoaded && sortBy == "newest"
    {
      this.storage := storage;
      reviews := [];
      isLoaded := false;
      sortBy := "newest";
    }

    /** The mount effect. When the stored text cannot be parsed the effect
        throws before changing anything (`ok` is false). The 300 ms delay
        before `isLoaded` is folded into the same step. */
    method Load() returns (ok: bool)
      modifies this
      ensures ok <==> storage.GetItem(ReviewsKey) != Some(Malformed)
      ensures ok ==> isLoaded && Some(reviews) == ParseStored(storage.GetItem(ReviewsKey))
      ensures !ok ==> reviews == old(reviews) && isLoaded == old(isLoaded)
      ensures sortBy == old(sortBy)
    {
      var parsed := ParseStored(storage.GetItem(ReviewsKey));
      match parsed {
        case None => ok := false;
        case Some(items) =>
          reviews := items;
          isLoaded := true;
          ok := true;
      }
    }

    /** `handleDeleteReview(productId)`. */
    method DeleteReview(productId: int)
      modifies this, storage
      ensures reviews == DeleteByProduct(old(reviews), productId)
      ensures storage.entries == old(storage.entries)[ReviewsKey := Json(reviews)]
      ensures isLoaded == old(isLoaded) && sortBy == old(sortBy)
    {
      var updated := DeleteByProduct(reviews, productId);
      reviews := updated;
      storage.SetItem(ReviewsKey, updated);
    }

    /** `handleClearAllReviews()`. */
    method ClearAllReviews()
      modifies this, storage
      ensures reviews == []
      ensures storage.entries == old(storage.entries) - {ReviewsKey}
      ensures isLoaded == old(isLoaded) && sortBy == old(sortBy)
    {
      reviews := [];
      storage.RemoveItem(ReviewsKey);
    }

    /** The sort selector's `onChange`. */
    method SetSortBy(value: string)
      modifies this
      ensures sortBy == value && reviews == old(reviews) && isLoaded == old(isLoaded)
    {
      sortBy := value;
    }

    /** `sortedReviews`. */
    function SortedReviews(): (r: seq<PageReview>)
      reads this
      ensures SortedBy(ModeOf(sortBy), r)
      ensures multiset(r) == multiset(reviews)
    {
      SortReviews(sortBy, reviews)
    }
  }
}
