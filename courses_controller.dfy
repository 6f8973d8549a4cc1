/**
 * controllers/courses.js: the courses of a bootcamp, one course with its
 * bootcamp populated, and create, update and delete. Unlike reviews,
 * courses carry no ownership check, and `addCourse` answers 200.
 */
module CoursesController {
  import opened Common
  import opened Entities
  import opened Models

  /**
   * `getCourses` with a `bootcampId`: every course of that bootcamp and no
   * other, in id order, with their number. (Without one, the handler
   * answers with the shared `advancedResults`, which is not part of this
   * model.)
   */
  method GetCourses(db: Database, bootcampId: Id) returns (r: Reply<Doc<Course>>)
    requires db.Valid()
    ensures r.Listing? && r.status == 200 && r.count == |r.items|
    ensures forall d :: d in r.items <==> d.id in db.courses && db.courses[d.id] == d.fields && d.fields.bootcamp == bootcampId
    ensures forall i, j :: 0 <= i < j < |r.items| ==> r.items[i].id < r.items[j].id
  {
    var courses := FindAll(db.courses, db.nextId, (course: Course) => course.bootcamp == bootcampId);
    forall d: Doc<Course> | d.id in db.courses && db.courses[d.id] == d.fields && d.fields.bootcamp == bootcampId
      ensures d in courses
    {
      MatchingComplete(db.courses, db.nextId, (course: Course) => course.bootcamp == bootcampId, d.id);
    }
    r := Listing(200, |courses|, courses);
  }

  /** `getCourse`: the course with its bootcamp's name and description, or a 404. */
  method GetCourse(db: Database, id: Id) returns (r: Reply<Populated<Course>>)
    ensures r.Data? <==> id in db.courses
    ensures r.Data? ==>
      && r.status == 200
      && r.data.doc == Doc(id, db.courses[id])
      && r.data.bootcamp == Summary(db.bootcamps, db.courses[id].bootcamp)
    ensures !r.Data? ==> r == Failed(ErrorResponse("No course with this id", 404))
  {
    if id !in db.courses {
      return Failed(ErrorResponse("No course with this id", 404));
    }
    var course := db.courses[id];
    r := Data(200, Populated(Doc(id, course), Summary(db.bootcamps, course.bootcamp)));
  }

  /**
   * `addCourse`: the route's bootcamp overrides the body's; a missing
   * bootcamp is a 404 with nothing created; otherwise the course is stored
   * under a fresh id and answered with 200.
   */
  method AddCourse(db: Database, bootcampId: Id, body: Course) returns (r: Reply<Doc<Course>>)
    requires db.Valid()
    modifies db
    ensures db.Valid()
    ensures bootcampId !in old(db.bootcamps) ==>
      r == Failed(ErrorResponse("No bootcamp with this id", 404)) && db.courses == old(db.courses) && db.nextId == old(db.nextId)
    ensures bootcampId in old(db.bootcamps) ==>
      && r == Data(200, Doc(old(db.nextId), body.(bootcamp := bootcampId)))
      && old(db.nextId) !in old(db.courses) && db.nextId == old(db.nextId) + 1
      && db.courses == old(db.courses)[old(db.nextId) := body.(bootcamp := bootcampId)]
    ensures db.bootcamps == old(db.bootcamps) && db.reviews == old(db.reviews)
  {
    var request := body.(bootcamp := bootcampId);
    if bootcampId !in db.bootcamps {
      return Failed(ErrorResponse("No bootcamp with this id", 404));
    }
    var id := db.InsertCourse(request);
    r := Data(200, Doc(id, request));
  }

  /** `updateCourse`: the named fields replaced for anyone, or a 404 with nothing changed. */
  method UpdateCourse(db: Database, id: Id, patch: CoursePatch) returns (r: Reply<Doc<Course>>)
    requires db.Valid()
    modifies db
    ensures db.Valid()
    ensures id !in old(db.courses) ==>
      r == Failed(ErrorResponse("No course with this id", 404)) && db.courses == old(db.courses)
    ensures id in old(db.courses) ==>
      && r == Data(200, Doc(id, PatchCourse(old(db.courses)[id], patch)))
      && db.courses == old(db.courses)[id := r.data.fields]
    ensures db.bootcamps == old(db.bootcamps) && db.reviews == old(db.reviews) && db.nextId == old(db.nextId)
  {
    if id !in db.courses {
      return Failed(ErrorResponse("No course with this id", 404));
    }
    var updated := PatchCourse(db.courses[id], patch);
    db.courses := db.courses[id := updated];
    r := Data(200, Doc(id, updated));
  }

  /** `deleteCourse`: that course gone and `data: {}`, or a 404 with nothing changed. */
  method DeleteCourse(db: Database, id: Id) returns (r: Reply<Doc<Course>>)
    requires db.Valid()
    modifies db
    ensures db.Valid()
    ensures id !in old(db.courses) ==>
      r == Failed(ErrorResponse("No course with this id", 404)) && db.courses == old(db.courses)
    ensures id in old(db.courses) ==> r == Deleted(200) && db.courses == old(db.courses) - {id}
    ensures db.bootcamps == old(db.bootcamps) && db.reviews == old(db.reviews) && db.nextId == old(db.nextId)
  {
    if id !in db.courses {
      return Failed(ErrorResponse("No course with this id", 404));
    }
    db.courses := db.courses - {id};
    r := Deleted(200);
  }
}
