/**
 * The three collections as one store, with the operations of models/Review.js
 * that change it: `getAverageReview`, and the `post('save')` and
 * `pre('remove')` hooks that call it. Every document id comes from one
 * counter, so an id names at most one document of one collection.
 */
module Models {
  import opened Common
  import opened Entities
  import opened ReviewSchema

  /** One group of the `$group` stage: the bootcamp and the `$avg` of its ratings. */
  datatype RatingGroup = RatingGroup(bootcamp: Id, averageRating: real)

  /**
   * `Model.find(filter)` over the ids below `bound`: the documents that
   * satisfy `keep`, in ascending id order.
   */
  function Matching<T>(m: map<Id, T>, bound: nat, keep: T -> bool): (docs: seq<Doc<T>>)
    ensures forall d :: d in docs ==> d.id < bound && d.id in m && m[d.id] == d.fields && keep(d.fields)
    ensures forall i, j :: 0 <= i < j < |docs| ==> docs[i].id < docs[j].id
  {
    if bound == 0 then []
    else
      var last := if bound - 1 in m && keep(m[bound - 1]) then [Doc(bound - 1, m[bound - 1])] else [];
      Matching(m, bound - 1, keep) + last
  }

  /** Every stored document below the bound that satisfies the filter is found. */
  lemma {:induction false} MatchingComplete<T>(m: map<Id, T>, bound: nat, keep: T -> bool, id: Id)
    requires id < bound && id in m && keep(m[id])
    ensures Doc(id, m[id]) in Matching(m, bound, keep)
  {
    if id < bound - 1 {
      MatchingComplete(m, bound - 1, keep, id);
    }
  }

  /** The scan behind `Model.find(filter)`. */
  method FindAll<T>(m: map<Id, T>, bound: nat, keep: T -> bool) returns (docs: seq<Doc<T>>)
    ensures docs == Matching(m, bound, keep)
  {
    docs := [];
    var id := 0;
    while id < bound
      invariant id <= bound
      invariant docs == Matching(m, id, keep)
    {
      if id in m && keep(m[id]) {
        docs := docs + [Doc(id, m[id])];
      }
      id := id + 1;
    }
  }

  /** The aggregation averages over exactly the reviews that `find({ bootcamp })` lists. */
  lemma {:induction false} CountIsListed(reviews: map<Id, Review>, bootcamp: Id, n: nat)
    ensures |Matching(reviews, n, (review: Review) => review.bootcamp == bootcamp)| == RatingCount(reviews, bootcamp, n)
  {
    if n > 0 {
      CountIsListed(reviews, bootcamp, n - 1);
    }
  }

  /**
   * The bootcamps after `getAverageReview(bootcamp)`: the matching
   * bootcamp's `averageRating` set to the mean, when there is a mean to
   * set and a bootcamp to set it on; otherwise nothing.
   */
  function WithAverage(bootcamps: map<Id, Bootcamp>, reviews: map<Id, Review>, bootcamp: Id, n: nat): (r: map<Id, Bootcamp>)
    ensures r.Keys == bootcamps.Keys
    ensures forall id :: id in bootcamps && id != bootcamp ==> r[id] == bootcamps[id]
  {
    var mean := MeanRating(reviews, bootcamp, n);
    if mean.Some? && bootcamp in bootcamps then
      bootcamps[bootcamp := bootcamps[bootcamp].(averageRating := mean)]
    else
      bootcamps
  }

  /**
   * What the recomputation leaves on a bootcamp: its old average when no
   * review of it exists, the mean of its reviews otherwise; and that mean,
   * like every rating, lies in [1, 10].
   */
  lemma AverageWritten(bootcamps: map<Id, Bootcamp>, reviews: map<Id, Review>, bootcamp: Id, n: nat)
    requires bootcamp in bootcamps && RatingsValid(reviews)
    ensures var stored := WithAverage(bootcamps, reviews, bootcamp, n)[bootcamp];
      && stored.name == bootcamps[bootcamp].name
      && stored.description == bootcamps[bootcamp].description
      && stored.user == bootcamps[bootcamp].user
      && (RatingCount(reviews, bootcamp, n) == 0 ==> stored.averageRating == bootcamps[bootcamp].averageRating)
      && (RatingCount(reviews, bootcamp, n) > 0 ==>
            && stored.averageRating == Some(RatingSum(reviews, bootcamp, n) / RatingCount(reviews, bootcamp, n) as real)
            && ValidRating(stored.averageRating.value))
  {
  }

  /** What `populate` puts in place of a bootcamp reference. */
  function Summary(bootcamps: map<Id, Bootcamp>, id: Id): (r: Option<BootcampSummary>)
    ensures r.Some? <==> id in bootcamps
    ensures r.Some? ==> r.value == BootcampSummary(id, bootcamps[id].name, bootcamps[id].description)
  {
    if id in bootcamps then Some(BootcampSummary(id, bootcamps[id].name, bootcamps[id].description)) else None
  }

  class Database {
    var bootcamps: map<Id, Bootcamp>
    var courses: map<Id, Course>
    var reviews: map<Id, Review>
    var nextId: Id

    /** Ids below the counter; every review passes its schema; the unique index holds. */
    ghost predicate Valid()
      reads this
    {
      && (forall id :: id in bootcamps ==> id < nextId)
      && (forall id :: id in courses ==> id < nextId)
      && (forall id :: id in reviews ==> id < nextId)
      && (forall id :: id in reviews ==> ValidReview(reviews[id]))
      && UniquePairs(reviews)
    }

    constructor ()
      ensures Valid()
      ensures bootcamps == map[] && courses == map[] && reviews == map[] && nextId == 0
    {
      bootcamps := map[];
      courses := map[];
      reviews := map[];
      nextId := 0;
    }

    /** `Bootcamp.create(body)`: the new document under a fresh id. */
    method InsertBootcamp(b: Bootcamp) returns (id: Id)
      requires Valid()
      modifies this
      ensures Valid()
      ensures id == old(nextId) && id !in old(bootcamps) && nextId == id + 1
      ensures bootcamps == old(bootcamps)[id := b]
      ensures courses == old(courses) && reviews == old(reviews)
    {
      id := nextId;
      bootcamps := bootcamps[id := b];
      nextId := id + 1;
    }

    /** `Course.create(body)`: the new document under a fresh id. */
    method InsertCourse(c: Course) returns (id: Id)
      requires Valid()
      modifies this
      ensures Valid()
      ensures id == old(nextId) && id !in old(courses) && nextId == id + 1
      ensures courses == old(courses)[id := c]
      ensures bootcamps == old(bootcamps) && reviews == old(reviews)
    {
      id := nextId;
      courses := courses[id := c];
      nextId := id + 1;
    }

    /**
     * The aggregation `[{ $match: { bootcamp } }, { $group: { _id: '$bootcamp',
     * averageRating: { $avg: '$rating' } } }]`: no group when no review
     * matches, otherwise one group holding the mean.
     */
    method Aggregate(bootcamp: Id) returns (groups: seq<RatingGroup>)
      ensures groups == [] <==> RatingCount(reviews, bootcamp, nextId) == 0
      ensures groups != [] ==>
        groups == [RatingGroup(bootcamp, MeanRating(reviews, bootcamp, nextId).value)]
    {
      var sum := 0.0;
      var count := 0;
      var id := 0;
      while id < nextId
        invariant id <= nextId
        invariant sum == RatingSum(reviews, bootcamp, id)
        invariant count == RatingCount(reviews, bootcamp, id)
      {
        if id in reviews && reviews[id].bootcamp == bootcamp {
          sum := sum + reviews[id].rating;
          count := count + 1;
        }
        id := id + 1;
      }
      if count == 0 {
        groups := [];
      } else {
        groups := [RatingGroup(bootcamp, sum / count as real)];
      }
    }

    /**
     * `Review.getAverageReview(bootcamp)`. With no group, reading
     * `obj[0].averageRating` throws a TypeError that the `catch` logs, and
     * nothing is written; `findByIdAndUpdate` on a missing bootcamp writes
     * nothing either.
     */
    method GetAverageReview(bootcamp: Id)
      requires Valid()
      modifies this
      ensures Valid()
      ensures bootcamps == WithAverage(old(bootcamps), reviews, bootcamp, nextId)
      ensures courses == old(courses) && reviews == old(reviews) && nextId == old(nextId)
    {
      var groups := Aggregate(bootcamp);
      if groups == [] {
        return;
      }
      if bootcamp in bootcamps {
        bootcamps := bootcamps[bootcamp := bootcamps[bootcamp].(averageRating := Some(groups[0].averageRating))];
      }
    }

    /**
     * `Review.create(body)`: validation, then the unique index, then the
     * insert, then the `post('save')` hook recomputing the bootcamp's mean,
     * which now counts the new review.
     */
    method CreateReview(body: ReviewBody) returns (r: Result<Doc<Review>, Exception>)
      requires Valid()
      modifies this
      ensures Valid()
      ensures var v := Validate(body);
        r.Failure? <==> v.Failure? || PairTaken(old(reviews), v.value.bootcamp, v.value.user, None)
      ensures r.Failure? ==>
        && (r.error == ValidationError <==> Validate(body).Failure?)
        && (r.error == ValidationError || r.error == DuplicateKey)
        && bootcamps == old(bootcamps) && courses == old(courses) && reviews == old(reviews) && nextId == old(nextId)
      ensures r.Success? ==>
        && Validate(body) == Success(r.value.fields)
        && r.value.id == old(nextId) && nextId == old(nextId) + 1
        && reviews == old(reviews)[r.value.id := r.value.fields]
        && bootcamps == WithAverage(old(bootcamps), reviews, r.value.fields.bootcamp, nextId)
        && courses == old(courses)
    {
      var v := Validate(body);
      if v.Failure? {
        return Failure(v.error);
      }
      var review := v.value;
      if PairTaken(reviews, review.bootcamp, review.user, None) {
        return Failure(DuplicateKey);
      }
      var id := nextId;
      WriteKeepsUnique(reviews, id, review);
      reviews := reviews[id := review];
      nextId := id + 1;
      GetAverageReview(review.bootcamp);
      r := Success(Doc(id, review));
    }

    /**
     * `review.remove()`: the `pre('remove')` hook recomputes the mean while
     * the review is still stored, so the mean it writes counts the review
     * that is then removed.
     */
    method RemoveReview(id: Id)
      requires Valid() && id in reviews
      modifies this
      ensures Valid()
      ensures bootcamps == WithAverage(old(bootcamps), old(reviews), old(reviews)[id].bootcamp, nextId)
      ensures reviews == old(reviews) - {id}
      ensures courses == old(courses) && nextId == old(nextId)
    {
      var bootcamp := reviews[id].bootcamp;
      GetAverageReview(bootcamp);
      RemoveKeepsUnique(reviews, id);
      var rest := reviews - {id};
      assert forall k :: k in rest ==> k in reviews && rest[k] == reviews[k];
      reviews := rest;
    }
  }
}
