/**
 * The declarative half of models/Review.js: the schema's field rules, the
 * unique `(bootcamp, user)` index, and the mean rating that the
 * aggregation `{ $match: { bootcamp }, $group: { $avg: '$rating' } }`
 * computes, taken exactly over the reals.
 */
module ReviewSchema {
  import opened Common
  import opened JsText
  import opened Entities

  const TitleMaxLength: nat := 100
  const MinRating: real := 1.0
  const MaxRating: real := 10.0

  /** A title after the `trim` setter: required (so not empty) and within `maxlength`. */
  predicate ValidTitle(t: string) {
    t != [] && Utf16Length(t) <= TitleMaxLength
  }

  predicate ValidRating(x: real) {
    MinRating <= x <= MaxRating
  }

  /** What the schema lets into the collection. */
  predicate ValidReview(r: Review) {
    Trimmed(r.title) && ValidTitle(r.title) && r.text != [] && ValidRating(r.rating)
  }

  /**
   * `Review.create(body)`: the `trim` setter, then the `required`,
   * `maxlength`, `min` and `max` validators. A string that is empty is
   * missing as far as `required` is concerned.
   */
  function Validate(body: ReviewBody): (r: Result<Review, Exception>)
    ensures r.Success? ==> ValidReview(r.value)
    ensures r.Success? ==> body.title.Some? && r.value.title == Trim(body.title.value)
    ensures r.Failure? ==> r.error == ValidationError
  {
    if && body.title.Some? && ValidTitle(Trim(body.title.value))
       && body.text.Some? && body.text.value != []
       && body.rating.Some? && ValidRating(body.rating.value)
       && body.bootcamp.Some? && body.user.Some?
    then
      Success(Review(Trim(body.title.value), body.text.value, body.rating.value, body.bootcamp.value, body.user.value))
    else
      Failure(ValidationError)
  }

  /** The body that would recreate a stored review. */
  function BodyOf(r: Review): ReviewBody {
    ReviewBody(Some(r.title), Some(r.text), Some(r.rating), Some(r.bootcamp), Some(r.user))
  }

  /** Validation accepts a body exactly when every rule of the schema holds. */
  lemma ValidateAcceptsExactly(body: ReviewBody)
    ensures Validate(body).Success? <==>
      && body.title.Some? && Trim(body.title.value) != [] && Utf16Length(Trim(body.title.value)) <= 100
      && body.text.Some? && body.text.value != []
      && body.rating.Some? && 1.0 <= body.rating.value <= 10.0
      && body.bootcamp.Some? && body.user.Some?
  {
  }

  /** A stored review passes validation again unchanged. */
  lemma ValidateStoredReview(r: Review)
    requires ValidReview(r)
    ensures Validate(BodyOf(r)) == Success(r)
  {
    TrimmedIsFixed(r.title);
  }

  /**
   * `findByIdAndUpdate(id, body, { runValidators: true })` validates only
   * the paths the body names, after the same `trim` setter.
   */
  function ValidPatch(p: ReviewBody): (r: bool)
    ensures Validate(p).Success? ==> r
    ensures p.title.Some? && p.text.Some? && p.rating.Some? && p.bootcamp.Some? && p.user.Some? && r ==>
      Validate(p).Success?
  {
    && (p.title.Some? ==> ValidTitle(Trim(p.title.value)))
    && (p.text.Some? ==> p.text.value != [])
    && (p.rating.Some? ==> ValidRating(p.rating.value))
  }

  /** The named paths overwritten, the others kept. */
  function ApplyPatch(r: Review, p: ReviewBody): (updated: Review)
    ensures p == ReviewBody(None, None, None, None, None) ==> updated == r
    ensures Validate(p).Success? ==> updated == Validate(p).value
  {
    Review(
      if p.title.Some? then Trim(p.title.value) else r.title,
      if p.text.Some? then p.text.value else r.text,
      if p.rating.Some? then p.rating.value else r.rating,
      if p.bootcamp.Some? then p.bootcamp.value else r.bootcamp,
      if p.user.Some? then p.user.value else r.user)
  }

  /** An update that passes its validators leaves a review the schema accepts. */
  lemma PatchKeepsValid(r: Review, p: ReviewBody)
    requires ValidReview(r) && ValidPatch(p)
    ensures ValidReview(ApplyPatch(r, p))
  {
  }

  /** Same key of the unique index `{ bootcamp: 1, user: 1 }`. */
  predicate SamePair(r: Review, bootcamp: Id, user: Id) {
    r.bootcamp == bootcamp && r.user == user
  }

  /** The unique index holds: no two reviews share a `(bootcamp, user)` pair. */
  ghost predicate UniquePairs(reviews: map<Id, Review>) {
    forall i, j :: i in reviews && j in reviews && i != j ==>
      !SamePair(reviews[i], reviews[j].bootcamp, reviews[j].user)
  }

  /** Some review other than `except` already holds the pair. */
  predicate PairTaken(reviews: map<Id, Review>, bootcamp: Id, user: Id, except: Option<Id>) {
    exists id :: id in reviews && Some(id) != except && SamePair(reviews[id], bootcamp, user)
  }

  /** The index admits a write of `r` under `id` exactly when no other review holds its pair. */
  lemma WriteKeepsUnique(reviews: map<Id, Review>, id: Id, r: Review)
    requires UniquePairs(reviews)
    ensures UniquePairs(reviews[id := r]) <==> !PairTaken(reviews, r.bootcamp, r.user, Some(id))
  {
    var m := reviews[id := r];
    if !PairTaken(reviews, r.bootcamp, r.user, Some(id)) {
      forall i, j | i in m && j in m && i != j
        ensures !SamePair(m[i], m[j].bootcamp, m[j].user)
      {
        if i == id {
          assert !SamePair(reviews[j], r.bootcamp, r.user);
        }
      }
    } else {
      var k :| k in reviews && Some(k) != Some(id) && SamePair(reviews[k], r.bootcamp, r.user);
      assert k in m && id in m && k != id && SamePair(m[k], m[id].bootcamp, m[id].user);
    }
  }

  /** Removing a review never breaks the unique index. */
  lemma RemoveKeepsUnique(reviews: map<Id, Review>, id: Id)
    requires UniquePairs(reviews)
    ensures UniquePairs(reviews - {id})
  {
    var m := reviews - {id};
    forall i, j | i in m && j in m && i != j
      ensures !SamePair(m[i], m[j].bootcamp, m[j].user)
    {
      assert m[i] == reviews[i] && m[j] == reviews[j];
    }
  }

  /** The sum of the ratings of the reviews of `bootcamp` among ids below `n`. */
  function RatingSum(reviews: map<Id, Review>, bootcamp: Id, n: nat): real {
    if n == 0 then 0.0 else
      var last := if n - 1 in reviews && reviews[n - 1].bootcamp == bootcamp then reviews[n - 1].rating else 0.0;
      RatingSum(reviews, bootcamp, n - 1) + last
  }

  /** How many reviews of `bootcamp` there are among ids below `n`. */
  function RatingCount(reviews: map<Id, Review>, bootcamp: Id, n: nat): nat {
    if n == 0 then 0 else
      var last := if n - 1 in reviews && reviews[n - 1].bootcamp == bootcamp then 1 else 0;
      RatingCount(reviews, bootcamp, n - 1) + last
  }

  /**
   * The `$avg` group of the aggregation: absent when no review matches;
   * since every rating lies in [1, 10], so does the mean.
   */
  function MeanRating(reviews: map<Id, Review>, bootcamp: Id, n: nat): (r: Option<real>)
    ensures r.Some? <==> RatingCount(reviews, bootcamp, n) > 0
    ensures r.Some? && RatingsValid(reviews) ==> ValidRating(r.value)
  {
    var count := RatingCount(reviews, bootcamp, n);
    if count == 0 then None
    else
      var sum := RatingSum(reviews, bootcamp, n);
      if RatingsValid(reviews) then
        SumWithinCount(reviews, bootcamp, n);
        DivideWithin(sum, count as real, MinRating, MaxRating);
        Some(sum / count as real)
      else
        Some(sum / count as real)
  }

  predicate RatingsValid(reviews: map<Id, Review>) {
    forall id :: id in reviews ==> ValidRating(reviews[id].rating)
  }

  lemma {:induction false} SumWithinCount(reviews: map<Id, Review>, bootcamp: Id, n: nat)
    requires RatingsValid(reviews)
    ensures MinRating * RatingCount(reviews, bootcamp, n) as real <= RatingSum(reviews, bootcamp, n)
    ensures RatingSum(reviews, bootcamp, n) <= MaxRating * RatingCount(reviews, bootcamp, n) as real
  {
    if n > 0 {
      SumWithinCount(reviews, bootcamp, n - 1);
    }
  }

  lemma DivideWithin(sum: real, c: real, lo: real, hi: real)
    requires c > 0.0 && lo * c <= sum <= hi * c
    ensures lo <= sum / c <= hi
  {
    var q := sum / c;
    assert q * c == sum;
    assert (q - lo) * c >= 0.0;
    assert (hi - q) * c >= 0.0;
  }

  /** Reviews stored at ids from `n` upwards do not enter the sums below `n`. */
  lemma {:induction false} SumsIgnoreHigherIds(reviews: map<Id, Review>, bootcamp: Id, n: nat, k: Id, r: Review)
    requires n <= k
    ensures RatingSum(reviews[k := r], bootcamp, n) == RatingSum(reviews, bootcamp, n)
    ensures RatingCount(reviews[k := r], bootcamp, n) == RatingCount(reviews, bootcamp, n)
  {
    if n > 0 {
      SumsIgnoreHigherIds(reviews, bootcamp, n - 1, k, r);
    }
  }

  /** Storing a review under a new id `n` adds its rating to its own bootcamp's sum and count only. */
  lemma SumsAfterInsert(reviews: map<Id, Review>, bootcamp: Id, n: nat, r: Review)
    ensures RatingSum(reviews[n := r], bootcamp, n + 1)
      == RatingSum(reviews, bootcamp, n) + (if r.bootcamp == bootcamp then r.rating else 0.0)
    ensures RatingCount(reviews[n := r], bootcamp, n + 1)
      == RatingCount(reviews, bootcamp, n) + (if r.bootcamp == bootcamp then 1 else 0)
  {
    SumsIgnoreHigherIds(reviews, bootcamp, n, n, r);
  }

  /** Removing review `k` (below `n`) takes its rating out of its bootcamp's sum and count. */
  lemma {:induction false} SumsAfterRemove(reviews: map<Id, Review>, bootcamp: Id, n: nat, k: Id)
    requires k in reviews && k < n
    ensures var hit := reviews[k].bootcamp == bootcamp;
      && RatingSum(reviews - {k}, bootcamp, n) == RatingSum(reviews, bootcamp, n) - (if hit then reviews[k].rating else 0.0)
      && RatingCount(reviews - {k}, bootcamp, n) + (if hit then 1 else 0) == RatingCount(reviews, bootcamp, n)
  {
    if n - 1 == k {
      SumsUnaffected(reviews, bootcamp, k, k);
    } else {
      SumsAfterRemove(reviews, bootcamp, n - 1, k);
    }
  }

  lemma {:induction false} SumsUnaffected(reviews: map<Id, Review>, bootcamp: Id, n: nat, k: Id)
    requires n <= k
    ensures RatingSum(reviews - {k}, bootcamp, n) == RatingSum(reviews, bootcamp, n)
    ensures RatingCount(reviews - {k}, bootcamp, n) == RatingCount(reviews, bootcamp, n)
  {
    if n > 0 {
      SumsUnaffected(reviews, bootcamp, n - 1, k);
    }
  }

  /** A stored review of `bootcamp` below `n` is counted. */
  lemma {:induction false} StoredIsCounted(reviews: map<Id, Review>, bootcamp: Id, n: nat, k: Id)
    requires k in reviews && k < n && reviews[k].bootcamp == bootcamp
    ensures RatingCount(reviews, bootcamp, n) > 0
  {
    if k < n - 1 {
      StoredIsCounted(reviews, bootcamp, n - 1, k);
    }
  }

  /** With no review of `bootcamp` below `n` and every id below `n`, no user holds a pair with it. */
  lemma NoCountNoPair(reviews: map<Id, Review>, bootcamp: Id, n: nat, user: Id)
    requires forall id :: id in reviews ==> id < n
    requires RatingCount(reviews, bootcamp, n) == 0
    ensures !PairTaken(reviews, bootcamp, user, None)
  {
    if PairTaken(reviews, bootcamp, user, None) {
      var k :| k in reviews && SamePair(reviews[k], bootcamp, user);
      StoredIsCounted(reviews, bootcamp, n, k);
    }
  }

  /** The same once one review of another user is stored under `n`. */
  lemma PairFreeAfterOther(reviews: map<Id, Review>, bootcamp: Id, n: nat, r: Review, user: Id)
    requires forall id :: id in reviews ==> id < n
    requires RatingCount(reviews, bootcamp, n) == 0 && r.user != user
    ensures !PairTaken(reviews[n := r], bootcamp, user, None)
  {
    NoCountNoPair(reviews, bootcamp, n, user);
  }

  lemma {:induction false} NoCountNoSum(reviews: map<Id, Review>, bootcamp: Id, n: nat)
    requires RatingCount(reviews, bootcamp, n) == 0
    ensures RatingSum(reviews, bootcamp, n) == 0.0
  {
    if n > 0 {
      NoCountNoSum(reviews, bootcamp, n - 1);
    }
  }

  /**
   * A bootcamp without reviews that receives a review rated 8 has mean 8;
   * a second review rated 4 brings the mean to 6.
   */
  lemma EightThenFour(reviews: map<Id, Review>, bootcamp: Id, n: nat, first: Review, second: Review)
    requires RatingCount(reviews, bootcamp, n) == 0
    requires first.bootcamp == bootcamp && first.rating == 8.0
    requires second.bootcamp == bootcamp && second.rating == 4.0
    ensures MeanRating(reviews[n := first], bootcamp, n + 1) == Some(8.0)
    ensures MeanRating(reviews[n := first][n + 1 := second], bootcamp, n + 2) == Some(6.0)
  {
    NoCountNoSum(reviews, bootcamp, n);
    SumsAfterInsert(reviews, bootcamp, n, first);
    SumsAfterInsert(reviews[n := first], bootcamp, n + 1, second);
  }

  /** What a bootcamp holds after the reviews rated 8 and 4: their mean, 6. */
  lemma EightThenFourStored(reviews: map<Id, Review>, bootcamp: Id, n: nat, first: Review, second: Review,
                            after: map<Id, Review>, next: nat, stored: Option<real>)
    requires RatingCount(reviews, bootcamp, n) == 0
    requires first.bootcamp == bootcamp && first.rating == 8.0
    requires second.bootcamp == bootcamp && second.rating == 4.0
    requires after == reviews[n := first][n + 1 := second] && next == n + 2
    requires stored == MeanRating(after, bootcamp, next)
    ensures stored == Some(6.0)
  {
    EightThenFour(reviews, bootcamp, n, first, second);
  }

  /**
   * On a bootcamp without reviews below `n`, reviews rated 8 and 4 stored
   * at `n` and `n + 1`, then the second removed: the mean is back to 8.
   */
  lemma EightFourThenRemove(reviews: map<Id, Review>, bootcamp: Id, n: nat, first: Review, second: Review,
                            rest: map<Id, Review>, next: nat)
    requires RatingCount(reviews, bootcamp, n) == 0
    requires first.bootcamp == bootcamp && first.rating == 8.0
    requires second.bootcamp == bootcamp && second.rating == 4.0
    requires rest == reviews[n := first][n + 1 := second] - {n + 1} && next == n + 2
    ensures MeanRating(rest, bootcamp, next) == Some(8.0)
  {
    var one := reviews[n := first];
    var two := one[n + 1 := second];
    NoCountNoSum(reviews, bootcamp, n);
    SumsAfterInsert(reviews, bootcamp, n, first);
    SumsAfterInsert(one, bootcamp, n + 1, second);
    SumsAfterRemove(two, bootcamp, n + 2, n + 1);
  }

  /**
   * Two reviews of a bootcamp rated 8 and 4 have mean 6; once the second
   * is removed, the mean of what remains is 8.
   */
  lemma MeanAfterRemovingOne(bootcamp: Id, first: Review, second: Review)
    requires first.bootcamp == bootcamp && first.rating == 8.0
    requires second.bootcamp == bootcamp && second.rating == 4.0
    ensures MeanRating(map[0 := first, 1 := second], bootcamp, 2) == Some(6.0)
    ensures MeanRating(map[0 := first, 1 := second] - {1}, bootcamp, 2) == Some(8.0)
  {
    var empty: map<Id, Review> := map[];
    var both := map[0 := first, 1 := second];
    assert empty[0 := first][1 := second] == both;
    SumsAfterInsert(empty, bootcamp, 0, first);
    SumsAfterInsert(empty[0 := first], bootcamp, 1, second);
    assert RatingSum(both, bootcamp, 2) == 12.0 && RatingCount(both, bootcamp, 2) == 2;
    SumsAfterRemove(both, bootcamp, 2, 1);
  }
}
