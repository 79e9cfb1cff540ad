/** The review container: product ratings keyed by product id. Adding a
    review for a product already rated changes only its rating; a review for
    a new product is appended. */
module ReviewContext {

  datatype Review = Review(id: int, title: string, price: int, image: string, rating: int)

  /** Some entry has this id (`prev.find(r => r.id === id)` is truthy). */
  predicate HasReview(reviews: seq<Review>, id: int) {
    exists i :: 0 <= i < |reviews| && reviews[i].id == id
  }

  predicate UniqueIds(reviews: seq<Review>) {
    forall i, j :: 0 <= i < j < |reviews| ==> reviews[i].id != reviews[j].id
  }

  /** `prev.map(r => r.id === id ? { ...r, rating } : r)`: the update of
      `updateReview(id, rating)`. */
  function SetRating(reviews: seq<Review>, id: int, rating: int): (r: seq<Review>)
    ensures |r| == |reviews|
    ensures forall i :: 0 <= i < |r| ==>
      r[i] == if reviews[i].id == id then reviews[i].(rating := rating) else reviews[i]
  {
    if reviews == [] then []
    else
      var head := if reviews[0].id == id then reviews[0].(rating := rating) else reviews[0];
      [head] + SetRating(reviews[1..], id, rating)
  }

  /** Updating an id that no entry has leaves the list as it was. */
  lemma SetRatingAbsent(reviews: seq<Review>, id: int, rating: int)
    requires !HasReview(reviews, id)
    ensures SetRating(reviews, id, rating) == reviews
  {
    var r := SetRating(reviews, id, rating);
    forall i | 0 <= i < |r| ensures r[i] == reviews[i] {
      assert reviews[i].id != id;
    }
  }

  /** Setting a rating keeps every id in place, so distinct ids stay distinct. */
  lemma SetRatingKeepsIds(reviews: seq<Review>, id: int, rating: int)
    ensures forall i :: 0 <= i < |reviews| ==> SetRating(reviews, id, rating)[i].id == reviews[i].id
    ensures UniqueIds(reviews) ==> UniqueIds(SetRating(reviews, id, rating))
  {
  }

  /** The update of `addReview(review)`: upsert by id. */
  function Upsert(reviews: seq<Review>, review: Review): (r: seq<Review>)
    ensures HasReview(reviews, review.id) ==> |r| == |reviews|
    ensures HasReview(reviews, review.id) ==> forall i :: 0 <= i < |r| ==>
      && r[i].id == reviews[i].id
      && r[i].title == reviews[i].title
      && r[i].price == reviews[i].price
      && r[i].image == reviews[i].image
      && r[i].rating == (if reviews[i].id == review.id then review.rating else reviews[i].rating)
    ensures !HasReview(reviews, review.id) ==> r == reviews + [review]
    ensures forall i :: 0 <= i < |r| && r[i].id == review.id ==> r[i].rating == review.rating
    ensures HasReview(r, review.id)
    ensures UniqueIds(reviews) ==> UniqueIds(r)
  {
    if HasReview(reviews, review.id) then
      SetRatingKeepsIds(reviews, review.id, review.rating);
      var r := SetRating(reviews, review.id, review.rating);
      var k :| 0 <= k < |reviews| && reviews[k].id == review.id;
      assert r[k].id == review.id;
      r
    else
      var r := reviews + [review];
      assert r[|reviews|] == review;
      r
  }

  /** Rating the same product twice leaves one entry, with the second rating. */
  lemma {:induction false} RateTwiceKeepsOneEntry(reviews: seq<Review>, first: Review, second: Review)
    requires !HasReview(reviews, first.id) && second.id == first.id
    ensures var r := Upsert(Upsert(reviews, first), second);
      && |r| == |reviews| + 1
      && r[..|reviews|] == reviews
      && r[|reviews|] == first.(rating := second.rating)
  {
    var once := Upsert(reviews, first);
    var r := Upsert(once, second);
    assert once[|reviews|] == first;
    forall i | 0 <= i < |reviews| ensures r[i] == reviews[i] {
      assert once[i] == reviews[i];
      assert reviews[i].id != first.id;
    }
  }

  class ReviewProvider {
    var reviews: seq<Review>

    constructor ()
      ensures reviews == []
    {
      reviews := [];
    }

    /** `addReview(review)`. */
    method AddReview(review: Review)
      modifies this
      ensures reviews == Upsert(old(reviews), review)
    {
      reviews := Upsert(reviews, review);
    }

    /** `updateReview(id, rating)`. */
    method UpdateReview(id: int, rating: int)
      modifies this
      ensures reviews == SetRating(old(reviews), id, rating)
    {
      reviews := SetRating(reviews, id, rating);
    }
  }
}
