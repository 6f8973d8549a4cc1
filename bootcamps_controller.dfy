/**
 * controllers/bootcamps.js: the listing with its query translation and
 * pagination, and the four single-bootcamp handlers as transitions of the
 * store. `getBootcampsInRadius` is not part of this model.
 */
module BootcampsController {
  import opened Common
  import opened JsText
  import opened Json
  import opened Entities
  import opened Models
  import opened QueryTranslator

  /** The message of the 404 of `getBootcamp` and `deleteBootcamp` (spelled as the handler spells it). */
  function NotFoundIfOf(id: Id): string {
    "Bootcamp not found with if of " + NatToString(id)
  }

  /** The message of the 404 of `updateBootcamp`. */
  function NotFoundIdOf(id: Id): string {
    "Bootcamp not found with id of " + NatToString(id)
  }

  /** `{ success: true, count, pagination, data }` with its status. */
  datatype BootcampsPage = BootcampsPage(status: int, count: nat, pagination: Pagination, data: seq<Doc<Bootcamp>>)

  /** Every listed document is the stored bootcamp under its id, and no id is listed twice. */
  ghost predicate StoredRows(db: Database, rows: seq<Doc<Bootcamp>>)
    reads db
  {
    && (forall d :: d in rows ==> d.id in db.bootcamps && db.bootcamps[d.id] == d.fields)
    && (forall i, j :: 0 <= i < j < |rows| ==> rows[i].id != rows[j].id)
  }

  /**
   * `getBootcamps`. `found` stands for what the database answers for the
   * filter in the requested sort order, before `skip` and `limit`: the
   * stored bootcamps that match, whole (the `select` projection is not
   * applied to them), or the exception the evaluation of the
   * filter, the projection or the sort raises. `total` is the number of all
   * bootcamps, whatever the filter.
   */
  method GetBootcamps(db: Database, query: seq<Entry>, found: Result<seq<Doc<Bootcamp>>, Exception>)
    returns (r: Result<BootcampsPage, Error>)
    requires found.Success? ==> StoredRows(db, found.value)
    ensures TranslationFails(query) ==> r == Failure(Thrown(TypeError))
    ensures !TranslationFails(query) ==>
      var page, limit := PageOf(query).value, LimitOf(query).value;
      && ((page - 1) * limit < 0 ==> r == Failure(Thrown(NegativeSkip)))
      && ((page - 1) * limit >= 0 && found.Failure? ==> r == Failure(Thrown(found.error)))
      && ((page - 1) * limit >= 0 && found.Success? ==>
            && r.Success?
            && r.value.status == 200
            && r.value.data == Window(found.value, (page - 1) * limit, limit)
            && r.value.count == |r.value.data|
            && r.value.pagination == Paginate(page, limit, |db.bootcamps|))
    ensures r.Success? ==> StoredRows(db, r.value.data)
  {
    var plan := TranslateQuery(query);
    if plan.Failure? {
      return Failure(Thrown(plan.error));
    }
    var total := |db.bootcamps|;
    var p := plan.value;
    if p.startIndex < 0 {
      return Failure(Thrown(NegativeSkip));
    }
    if found.Failure? {
      return Failure(Thrown(found.error));
    }
    var bootcamps := Window(found.value, p.startIndex, p.limit);
    var pagination := Pagination(None, None);
    if p.endIndex < total {
      pagination := pagination.(next := Some(PageRef(p.page + 1, p.limit)));
    }
    if p.startIndex > 0 {
      pagination := pagination.(prev := Some(PageRef(p.page - 1, p.limit)));
    }
    r := Success(BootcampsPage(200, |bootcamps|, pagination, bootcamps));
  }

  /** `getBootcamp`: the bootcamp, or a 404 naming the id. */
  method GetBootcamp(db: Database, id: Id) returns (r: Reply<Doc<Bootcamp>>)
    ensures r.Data? <==> id in db.bootcamps
    ensures r.Data? ==> r.status == 200 && r.data == Doc(id, db.bootcamps[id])
    ensures !r.Data? ==> r == Failed(ErrorResponse(NotFoundIfOf(id), 404))
  {
    if id !in db.bootcamps {
      return Failed(ErrorResponse(NotFoundIfOf(id), 404));
    }
    r := Data(200, Doc(id, db.bootcamps[id]));
  }

  /** `createBootcamp`: the body stored under a fresh id, answered with 201. */
  method CreateBootcamp(db: Database, body: Bootcamp) returns (r: Reply<Doc<Bootcamp>>)
    requires db.Valid()
    modifies db
    ensures db.Valid()
    ensures r == Data(201, Doc(old(db.nextId), body))
    ensures old(db.nextId) !in old(db.bootcamps) && db.nextId == old(db.nextId) + 1
    ensures db.bootcamps == old(db.bootcamps)[old(db.nextId) := body]
    ensures db.courses == old(db.courses) && db.reviews == old(db.reviews)
  {
    var id := db.InsertBootcamp(body);
    r := Data(201, Doc(id, body));
  }

  /** `updateBootcamp`: the named fields replaced, or a 404 with nothing changed. */
  method UpdateBootcamp(db: Database, id: Id, patch: BootcampPatch) returns (r: Reply<Doc<Bootcamp>>)
    requires db.Valid()
    modifies db
    ensures db.Valid()
    ensures id !in old(db.bootcamps) ==>
      r == Failed(ErrorResponse(NotFoundIdOf(id), 404)) && db.bootcamps == old(db.bootcamps)
    ensures id in old(db.bootcamps) ==>
      && r == Data(200, Doc(id, PatchBootcamp(old(db.bootcamps)[id], patch)))
      && db.bootcamps == old(db.bootcamps)[id := r.data.fields]
    ensures db.courses == old(db.courses) && db.reviews == old(db.reviews) && db.nextId == old(db.nextId)
  {
    if id !in db.bootcamps {
      return Failed(ErrorResponse(NotFoundIdOf(id), 404));
    }
    var updated := PatchBootcamp(db.bootcamps[id], patch);
    db.bootcamps := db.bootcamps[id := updated];
    r := Data(200, Doc(id, updated));
  }

  /** `deleteBootcamp`: that bootcamp gone and `data: {}`, or a 404 with nothing changed. */
  method DeleteBootcamp(db: Database, id: Id) returns (r: Reply<Doc<Bootcamp>>)
    requires db.Valid()
    modifies db
    ensures db.Valid()
    ensures id !in old(db.bootcamps) ==>
      r == Failed(ErrorResponse(NotFoundIfOf(id), 404)) && db.bootcamps == old(db.bootcamps)
    ensures id in old(db.bootcamps) ==> r == Deleted(200) && db.bootcamps == old(db.bootcamps) - {id}
    ensures db.courses == old(db.courses) && db.reviews == old(db.reviews) && db.nextId == old(db.nextId)
  {
    if id !in db.bootcamps {
      return Failed(ErrorResponse(NotFoundIfOf(id), 404));
    }
    db.bootcamps := db.bootcamps - {id};
    r := Deleted(200);
  }

  /**
   * As written, `next` is reported from the count of all bootcamps, so
   * whenever the matches end within this page but the store holds more
   * bootcamps (30 bootcamps, none or up to 25 matching, page 1 of 25), a
   * next page is announced and that page is empty.
   */
  lemma NextPageBeyondMatches(page: int, limit: int, found: seq<Doc<Bootcamp>>, total: nat)
    requires page >= 1 && limit >= 1
    requires |found| <= page * limit < total
    ensures Paginate(page, limit, total).next == Some(PageRef(page + 1, limit))
    ensures Window(found, page * limit, limit) == []
  {
  }

  /** The evidently intended pagination: `total` counts the matches. */
  function PaginateMatches(page: int, limit: int, found: seq<Doc<Bootcamp>>): Pagination {
    Paginate(page, limit, |found|)
  }

  /** Counting the matches, a next page is announced exactly when it holds rows. */
  lemma NextPageHoldsRows(page: int, limit: int, found: seq<Doc<Bootcamp>>)
    requires page >= 1 && limit >= 1
    ensures PaginateMatches(page, limit, found).next.Some? <==> Window(found, page * limit, limit) != []
  {
    assert page * limit >= 0;
    if page * limit < |found| {
      assert Window(found, page * limit, limit)[0] == found[page * limit];
    }
  }
}
