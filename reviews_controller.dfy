/**
 * controllers/reviews.js: the reviews of a bootcamp, one review with its
 * bootcamp populated, and the create, update and delete handlers with
 * their existence and ownership checks. Update and delete go through
 * `findByIdAndUpdate` and `deleteOne`, which run neither the `save` nor
 * the `remove` hook, so neither recomputes the bootcamp's average.
 */
module ReviewsController {
  import opened Common
  import opened Entities
  import opened ReviewSchema
  import opened Models

  /** The acting user owns the review or is an administrator. */
  function MayChange(review: Review, actor: Principal): (r: bool)
    ensures actor.role == "admin" ==> r
    ensures actor.role != "admin" ==> (r <==> review.user == actor.id)
  {
    review.user == actor.id || actor.role == "admin"
  }

  /**
   * `getReviews` with a `bootcampId`: every review of that bootcamp and no
   * other, in id order, with their number. (Without one, the handler
   * answers with the shared `advancedResults`, which is not part of this
   * model.)
   */
  method GetReviews(db: Database, bootcampId: Id) returns (r: Reply<Doc<Review>>)
    requires db.Valid()
    ensures r.Listing? && r.status == 200 && r.count == |r.items|
    ensures forall d :: d in r.items <==> d.id in db.reviews && db.reviews[d.id] == d.fields && d.fields.bootcamp == bootcampId
    ensures forall i, j :: 0 <= i < j < |r.items| ==> r.items[i].id < r.items[j].id
  {
    var reviews := FindAll(db.reviews, db.nextId, (review: Review) => review.bootcamp == bootcampId);
    forall d: Doc<Review> | d.id in db.reviews && db.reviews[d.id] == d.fields && d.fields.bootcamp == bootcampId
      ensures d in reviews
    {
      MatchingComplete(db.reviews, db.nextId, (review: Review) => review.bootcamp == bootcampId, d.id);
    }
    r := Listing(200, |reviews|, reviews);
  }

  /** `getReview`: the review with its bootcamp's name and description, or a 404. */
  method GetReview(db: Database, id: Id) returns (r: Reply<Populated<Review>>)
    ensures r.Data? <==> id in db.reviews
    ensures r.Data? ==>
      && r.status == 200
      && r.data.doc == Doc(id, db.reviews[id])
      && r.data.bootcamp == Summary(db.bootcamps, db.reviews[id].bootcamp)
    ensures !r.Data? ==> r == Failed(ErrorResponse("no review for this id", 404))
  {
    if id !in db.reviews {
      return Failed(ErrorResponse("no review for this id", 404));
    }
    var review := db.reviews[id];
    r := Data(200, Populated(Doc(id, review), Summary(db.bootcamps, review.bootcamp)));
  }

  /**
   * `addReview`: the route's bootcamp and the acting user override the
   * body's; a missing bootcamp is a 404 with nothing created; otherwise
   * `Review.create`, whose validation or unique index may reject the
   * review, and whose `save` hook recomputes the bootcamp's average.
   */
  method AddReview(db: Database, bootcampId: Id, actor: Principal, body: ReviewBody) returns (r: Reply<Doc<Review>>)
    requires db.Valid()
    modifies db
    ensures db.Valid()
    ensures bootcampId !in old(db.bootcamps) ==>
      && r == Failed(ErrorResponse("we do not have this bootcamp", 404))
      && db.bootcamps == old(db.bootcamps) && db.reviews == old(db.reviews) && db.nextId == old(db.nextId)
    ensures bootcampId in old(db.bootcamps) ==>
      var v := Validate(body.(bootcamp := Some(bootcampId), user := Some(actor.id)));
      if v.Failure? then
        && r == Failed(Thrown(ValidationError))
        && db.reviews == old(db.reviews) && db.bootcamps == old(db.bootcamps) && db.nextId == old(db.nextId)
      else if PairTaken(old(db.reviews), bootcampId, actor.id, None) then
        && r == Failed(Thrown(DuplicateKey))
        && db.reviews == old(db.reviews) && db.bootcamps == old(db.bootcamps) && db.nextId == old(db.nextId)
      else
        && r == Data(201, Doc(old(db.nextId), v.value))
        && db.nextId == old(db.nextId) + 1
        && v.value.bootcamp == bootcampId && v.value.user == actor.id
        && db.reviews == old(db.reviews)[old(db.nextId) := v.value]
        && db.bootcamps == WithAverage(old(db.bootcamps), db.reviews, bootcampId, db.nextId)
    ensures db.courses == old(db.courses)
  {
    var request := body.(bootcamp := Some(bootcampId), user := Some(actor.id));
    if bootcampId !in db.bootcamps {
      return Failed(ErrorResponse("we do not have this bootcamp", 404));
    }
    var review := db.CreateReview(request);
    if review.Failure? {
      return Failed(Thrown(review.error));
    }
    r := Data(201, review.value);
  }

  /**
   * `updateReview`: a 404 for a missing review, a 401 unless the actor may
   * change it; otherwise `findByIdAndUpdate` with validators, which checks
   * only the fields the body names and then the unique index. The answer
   * is 201, and the bootcamp's average is left as it was.
   */
  method UpdateReview(db: Database, id: Id, actor: Principal, patch: ReviewBody) returns (r: Reply<Doc<Review>>)
    requires db.Valid()
    modifies db
    ensures db.Valid()
    ensures db.bootcamps == old(db.bootcamps) && db.courses == old(db.courses) && db.nextId == old(db.nextId)
    ensures id !in old(db.reviews) ==>
      r == Failed(ErrorResponse("we do not have this review", 404)) && db.reviews == old(db.reviews)
    ensures id in old(db.reviews) && !MayChange(old(db.reviews)[id], actor) ==>
      r == Failed(ErrorResponse("can not update a review", 401)) && db.reviews == old(db.reviews)
    ensures id in old(db.reviews) && MayChange(old(db.reviews)[id], actor) ==>
      var updated := ApplyPatch(old(db.reviews)[id], patch);
      if !ValidPatch(patch) then
        r == Failed(Thrown(ValidationError)) && db.reviews == old(db.reviews)
      else if PairTaken(old(db.reviews), updated.bootcamp, updated.user, Some(id)) then
        r == Failed(Thrown(DuplicateKey)) && db.reviews == old(db.reviews)
      else
        r == Data(201, Doc(id, updated)) && db.reviews == old(db.reviews)[id := updated]
  {
    if id !in db.reviews {
      return Failed(ErrorResponse("we do not have this review", 404));
    }
    var review := db.reviews[id];
    if !MayChange(review, actor) {
      return Failed(ErrorResponse("can not update a review", 401));
    }
    if !ValidPatch(patch) {
      return Failed(Thrown(ValidationError));
    }
    var updated := ApplyPatch(review, patch);
    if PairTaken(db.reviews, updated.bootcamp, updated.user, Some(id)) {
      return Failed(Thrown(DuplicateKey));
    }
    PatchKeepsValid(review, patch);
    WriteKeepsUnique(db.reviews, id, updated);
    db.reviews := db.reviews[id := updated];
    r := Data(201, Doc(id, updated));
  }

  /**
   * `deleteReview`: a 404 for a missing review, a 401 unless the actor may
   * delete it; otherwise `deleteOne` removes exactly that review and the
   * answer is 201 with `data: {}`. The bootcamp's average is left as it was.
   */
  method DeleteReview(db: Database, id: Id, actor: Principal) returns (r: Reply<Doc<Review>>)
    requires db.Valid()
    modifies db
    ensures db.Valid()
    ensures db.bootcamps == old(db.bootcamps) && db.courses == old(db.courses) && db.nextId == old(db.nextId)
    ensures id !in old(db.reviews) ==>
      r == Failed(ErrorResponse("we do not have this review", 404)) && db.reviews == old(db.reviews)
    ensures id in old(db.reviews) && !MayChange(old(db.reviews)[id], actor) ==>
      r == Failed(ErrorResponse("can not delete a review", 401)) && db.reviews == old(db.reviews)
    ensures id in old(db.reviews) && MayChange(old(db.reviews)[id], actor) ==>
      r == Deleted(201) && db.reviews == old(db.reviews) - {id}
  {
    if id !in db.reviews {
      return Failed(ErrorResponse("we do not have this review", 404));
    }
    if !MayChange(db.reviews[id], actor) {
      return Failed(ErrorResponse("can not delete a review", 401));
    }
    RemoveKeepsUnique(db.reviews, id);
    db.reviews := db.reviews - {id};
    r := Deleted(201);
  }

  /**
   * `deleteReview` with the average recomputed once the review is gone, as
   * the `remove` hook of the model is there to do: when reviews of the
   * bootcamp remain, their mean is what the bootcamp then holds.
   */
  method DeleteReviewAndAverage(db: Database, id: Id, actor: Principal) returns (r: Reply<Doc<Review>>)
    requires db.Valid()
    modifies db
    ensures db.Valid()
    ensures db.courses == old(db.courses) && db.nextId == old(db.nextId)
    ensures id !in old(db.reviews) ==>
      && r == Failed(ErrorResponse("we do not have this review", 404))
      && db.reviews == old(db.reviews) && db.bootcamps == old(db.bootcamps)
    ensures id in old(db.reviews) && !MayChange(old(db.reviews)[id], actor) ==>
      && r == Failed(ErrorResponse("can not delete a review", 401))
      && db.reviews == old(db.reviews) && db.bootcamps == old(db.bootcamps)
    ensures id in old(db.reviews) && MayChange(old(db.reviews)[id], actor) ==>
      && r == Deleted(201) && db.reviews == old(db.reviews) - {id}
      && db.bootcamps == WithAverage(old(db.bootcamps), db.reviews, old(db.reviews)[id].bootcamp, db.nextId)
  {
    if id !in db.reviews {
      return Failed(ErrorResponse("we do not have this review", 404));
    }
    var review := db.reviews[id];
    if !MayChange(review, actor) {
      return Failed(ErrorResponse("can not delete a review", 401));
    }
    RemoveKeepsUnique(db.reviews, id);
    db.reviews := db.reviews - {id};
    db.GetAverageReview(review.bootcamp);
    r := Deleted(201);
  }

  /**
   * `addReview` by a user who has not reviewed the bootcamp yet, with a body
   * that validates: the review is stored under the counter, and the
   * bootcamp then holds the mean of its reviews.
   */
  method AddFreshReview(db: Database, bootcampId: Id, actor: Principal, body: ReviewBody) returns (ghost v: Review)
    requires db.Valid() && bootcampId in db.bootcamps
    requires Validate(body.(bootcamp := Some(bootcampId), user := Some(actor.id))).Success?
    requires !PairTaken(db.reviews, bootcampId, actor.id, None)
    modifies db
    ensures db.Valid() && bootcampId in db.bootcamps
    ensures v.bootcamp == bootcampId && v.user == actor.id && Some(v.rating) == body.rating
    ensures db.nextId == old(db.nextId) + 1 && db.reviews == old(db.reviews)[old(db.nextId) := v]
    ensures db.bootcamps[bootcampId].averageRating == MeanRating(db.reviews, bootcampId, db.nextId)
  {
    v := Validate(body.(bootcamp := Some(bootcampId), user := Some(actor.id))).value;
    StoredIsCounted(db.reviews[db.nextId := v], bootcampId, db.nextId + 1, db.nextId);
    var added := AddReview(db, bootcampId, actor, body);
  }

  /**
   * The setting of the stale average: a stored bootcamp without reviews,
   * and two different users whose bodies, rated 8 and 4, validate.
   */
  ghost predicate EightThenFourSetup(db: Database, bootcampId: Id, first: Principal, second: Principal, firstBody: ReviewBody, secondBody: ReviewBody)
    reads db
  {
    && bootcampId in db.bootcamps
    && RatingCount(db.reviews, bootcampId, db.nextId) == 0
    && first.id != second.id
    && firstBody.rating == Some(8.0) && secondBody.rating == Some(4.0)
    && Validate(firstBody.(bootcamp := Some(bootcampId), user := Some(first.id))).Success?
    && Validate(secondBody.(bootcamp := Some(bootcampId), user := Some(second.id))).Success?
  }

  /**
   * Two users review a bootcamp without reviews, rated 8 and then 4: both
   * reviews are stored, under consecutive ids, and the bootcamp holds 6.
   */
  method AddEightThenFour(db: Database, bootcampId: Id, first: Principal, second: Principal, firstBody: ReviewBody, secondBody: ReviewBody)
    returns (ghost v1: Review, ghost v2: Review)
    requires db.Valid() && EightThenFourSetup(db, bootcampId, first, second, firstBody, secondBody)
    modifies db
    ensures db.Valid() && bootcampId in db.bootcamps
    ensures v1.bootcamp == bootcampId && v1.rating == 8.0
    ensures v2.bootcamp == bootcampId && v2.rating == 4.0 && v2.user == second.id
    ensures db.nextId == old(db.nextId) + 2
    ensures db.reviews == old(db.reviews)[old(db.nextId) := v1][old(db.nextId) + 1 := v2]
    ensures db.bootcamps[bootcampId].averageRating == Some(6.0)
  {
    var n := db.nextId;
    ghost var before := db.reviews;
    NoCountNoPair(before, bootcampId, n, first.id);
    v1 := AddFreshReview(db, bootcampId, first, firstBody);
    PairFreeAfterOther(before, bootcampId, n, v1, second.id);
    v2 := AddFreshReview(db, bootcampId, second, secondBody);
    EightThenFourStored(before, bootcampId, n, v1, v2, db.reviews, db.nextId, db.bootcamps[bootcampId].averageRating);
  }

  /**
   * The stale average, request by request: on a bootcamp without reviews,
   * two users add reviews rated 8 and 4 (the bootcamp then holds 6), and
   * the second user deletes theirs. The bootcamp still holds 6 while the
   * one remaining review is rated 8.
   */
  method StaleAverageAfterDelete(db: Database, bootcampId: Id, first: Principal, second: Principal, firstBody: ReviewBody, secondBody: ReviewBody)
    requires db.Valid() && EightThenFourSetup(db, bootcampId, first, second, firstBody, secondBody)
    modifies db
    ensures db.Valid()
    ensures bootcampId in db.bootcamps && db.bootcamps[bootcampId].averageRating == Some(6.0)
    ensures MeanRating(db.reviews, bootcampId, db.nextId) == Some(8.0)
  {
    var n := db.nextId;
    ghost var before := db.reviews;
    ghost var v1, v2 := AddEightThenFour(db, bootcampId, first, second, firstBody, secondBody);
    ghost var two := db.reviews;
    assert n + 1 in two && two[n + 1] == v2 && MayChange(v2, second);
    var removed := DeleteReview(db, n + 1, second);
    EightFourThenRemove(before, bootcampId, n, v1, v2, db.reviews, db.nextId);
  }
}
