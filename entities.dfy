/**
 * The documents of the three collections the controllers touch, the
 * request bodies they accept, the acting user, and the two ways a handler
 * ends: a JSON envelope with a status, or an error passed to `next`.
 */
module Entities {
  import opened Common

  /** Document ids; one counter hands them out for every collection. */
  type Id = nat

  /** The Bootcamp model itself is not part of this model; these are the fields the core reads or writes. */
  datatype Bootcamp = Bootcamp(name: string, description: string, user: Id, averageRating: Option<real>)

  /** The Course model is not part of this model either; `bootcamp` is the reference the handlers set and filter on. */
  datatype Course = Course(title: string, description: string, bootcamp: Id)

  /** A stored review (models/Review.js); `title` is stored trimmed. */
  datatype Review = Review(title: string, text: string, rating: real, bootcamp: Id, user: Id)

  /** A stored document with its id. */
  datatype Doc<T> = Doc(id: Id, fields: T)

  /** The fields of a JSON body meant for a Review; every one may be missing. */
  datatype ReviewBody = ReviewBody(
    title: Option<string>, text: Option<string>, rating: Option<real>,
    bootcamp: Option<Id>, user: Option<Id>)

  /** An update body for a Bootcamp: the fields it names are overwritten. */
  datatype BootcampPatch = BootcampPatch(
    name: Option<string>, description: Option<string>, user: Option<Id>,
    averageRating: Option<real>)

  /** An update body for a Course. */
  datatype CoursePatch = CoursePatch(title: Option<string>, description: Option<string>, bootcamp: Option<Id>)

  /** A bootcamp after `findByIdAndUpdate` with `patch`: the named fields replaced. */
  function PatchBootcamp(b: Bootcamp, patch: BootcampPatch): Bootcamp {
    Bootcamp(
      if patch.name.Some? then patch.name.value else b.name,
      if patch.description.Some? then patch.description.value else b.description,
      if patch.user.Some? then patch.user.value else b.user,
      if patch.averageRating.Some? then Some(patch.averageRating.value) else b.averageRating)
  }

  /** A course after `findByIdAndUpdate` with `patch`. */
  function PatchCourse(c: Course, patch: CoursePatch): Course {
    Course(
      if patch.title.Some? then patch.title.value else c.title,
      if patch.description.Some? then patch.description.value else c.description,
      if patch.bootcamp.Some? then patch.bootcamp.value else c.bootcamp)
  }

  /** `populate({ path: 'bootcamp', select: 'name description' })`: the referenced bootcamp's id, name and description. */
  datatype BootcampSummary = BootcampSummary(id: Id, name: string, description: string)

  /** A document with its `bootcamp` reference populated; `None` when the bootcamp no longer exists. */
  datatype Populated<T> = Populated(doc: Doc<T>, bootcamp: Option<BootcampSummary>)

  /** `req.user`, filled in by the authentication middleware. */
  datatype Principal = Principal(id: Id, role: string)

  /** Errors thrown by the database driver or the runtime rather than built by a handler. */
  datatype Exception =
    | ValidationError   // a schema validator rejected the document
    | DuplicateKey      // a unique index rejected the write
    | TypeError         // a method called on a value of the wrong type
    | NegativeSkip      // the database refuses a negative skip
    | CastError         // a filter value the schema cannot cast to its path's type
    | QueryRejected     // the database refuses the filter or the projection itself

  /**
   * What reaches the central error handler: an `ErrorResponse` a handler
   * built with its message and status, or a thrown exception that
   * `asyncHandler` forwarded. The error handler is not part of this model.
   */
  datatype Error = ErrorResponse(message: string, statusCode: int) | Thrown(exception: Exception)

  /** A handler's outcome. */
  datatype Reply<T> =
    | Data(status: int, data: T)                      // { success: true, data }
    | Listing(status: int, count: nat, items: seq<T>) // { success: true, count, data: [...] }
    | Deleted(status: int)                            // { success: true, data: {} }
    | Failed(error: Error)                            // next(error)
}
