/**
 * EnrollmentService: at most one enrollment per (user, course), created
 * ACTIVE by enroll and moved to CANCELLED or COMPLETED afterwards.
 */
module Enrollments {
  import opened Wrappers
  import opened Entities
  import opened Repositories

  datatype EnrollmentStatus = ACTIVE | COMPLETED | EXPIRED | CANCELLED

  /** An enrollments row; like the entity it holds its course, not only the course's id. */
  datatype Enrollment = Enrollment(
    id: Id,
    user: Id,
    course: Row<Course>,
    status: EnrollmentStatus,
    enrolledAt: Option<Timestamp>,
    completedAt: Option<Timestamp>)

  /** EnrollmentDTO: the enrollment with its course's fields. */
  datatype EnrollmentView = EnrollmentView(
    id: Id,
    courseId: Id,
    courseTitle: string,
    courseDescription: Option<string>,
    courseCategory: Option<string>,
    status: EnrollmentStatus,
    enrolledAt: Option<Timestamp>,
    completedAt: Option<Timestamp>)

  datatype EnrollmentError =
    | CourseNotFound(courseId: Id)       // ResourceNotFoundException("Course", "id", courseId)
    | EnrollmentNotFound(courseId: Id)   // ResourceNotFoundException("Enrollment", "courseId", courseId)

  // ---------------------------------------------------------------------------
  // The enrollments table
  // ---------------------------------------------------------------------------

  /** The unique constraint on (user_id, course_id). */
  predicate UniquePairs(es: seq<Enrollment>)
  {
    forall i, j :: 0 <= i < j < |es| ==> !(es[i].user == es[j].user && es[i].course.id == es[j].course.id)
  }

  /** findByUser_IdAndCourse_Id, as the position of the row found. */
  function Find(es: seq<Enrollment>, user: Id, course: Id): (r: Option<nat>)
    ensures r.Some? ==> r.value < |es| && es[r.value].user == user && es[r.value].course.id == course
    ensures r.None? <==> forall i :: 0 <= i < |es| ==> !(es[i].user == user && es[i].course.id == course)
  {
    if es == [] then None
    else if es[|es| - 1].user == user && es[|es| - 1].course.id == course then Some(|es| - 1)
    else
      var r := Find(es[..|es| - 1], user, course);
      assert forall i :: 0 <= i < |es| - 1 ==> es[i] == es[..|es| - 1][i];
      r
  }

  /** With the unique constraint each row is the one found for its pair. */
  lemma FindAt(es: seq<Enrollment>, i: nat)
    requires UniquePairs(es) && i < |es|
    ensures Find(es, es[i].user, es[i].course.id) == Some(i)
  {
    var f := Find(es, es[i].user, es[i].course.id);
    assert es[f.value].user == es[i].user && es[f.value].course.id == es[i].course.id;
  }

  /** convertToDTO. */
  function ToView(e: Enrollment): EnrollmentView
  {
    EnrollmentView(e.id, e.course.id, e.course.value.title, e.course.value.description, e.course.value.category,
                   e.status, e.enrolledAt, e.completedAt)
  }

  /** The table after enroll(user, courseId) for an existing course. */
  function AfterEnroll(es: seq<Enrollment>, user: Id, course: Row<Course>, now: Timestamp, newId: Id): seq<Enrollment>
  {
    if Find(es, user, course.id).Some? then es
    else es + [Enrollment(newId, user, course, ACTIVE, Some(now), None)]
  }

  /** The table after a found enrollment's status (and possibly completion time) is rewritten. */
  function SetStatus(es: seq<Enrollment>, i: nat, status: EnrollmentStatus, completedAt: Option<Timestamp>): (r: seq<Enrollment>)
    requires i < |es|
    ensures |r| == |es|
  {
    es[i := es[i].(status := status, completedAt := if completedAt.Some? then completedAt else es[i].completedAt)]
  }

  /** enroll creates a row only for a pair without one, so the unique constraint is kept; a new row is ACTIVE. */
  lemma EnrollKeepsPairsUnique(es: seq<Enrollment>, user: Id, course: Row<Course>, now: Timestamp, newId: Id)
    requires UniquePairs(es)
    ensures var after := AfterEnroll(es, user, course, now, newId);
            && UniquePairs(after)
            && Find(after, user, course.id).Some?
            && (Find(es, user, course.id).None? ==>
                  after[Find(after, user, course.id).value] == Enrollment(newId, user, course, ACTIVE, Some(now), None)
                  && |after| == |es| + 1)
  {
    var after := AfterEnroll(es, user, course, now, newId);
    if Find(es, user, course.id).None? {
      FindAt(after, |es|);
    }
  }

  /** Enrolling twice is enrolling once: the second call finds the row the first created. */
  lemma EnrollIdempotent(es: seq<Enrollment>, user: Id, course: Row<Course>, now: Timestamp, newId: Id,
                          later: Timestamp, otherId: Id)
    ensures var once := AfterEnroll(es, user, course, now, newId);
            AfterEnroll(once, user, course, later, otherId) == once
  {
    var once := AfterEnroll(es, user, course, now, newId);
    if Find(es, user, course.id).None? {
      assert once[|es|].user == user && once[|es|].course.id == course.id;
    }
  }

  /** Rewriting a row's status keeps every pair where it was and every other row as it was. */
  lemma SetStatusKeeps(es: seq<Enrollment>, i: nat, status: EnrollmentStatus, completedAt: Option<Timestamp>)
    requires i < |es| && UniquePairs(es)
    ensures var after := SetStatus(es, i, status, completedAt);
            && UniquePairs(after)
            && (forall j :: 0 <= j < |es| && j != i ==> after[j] == es[j])
            && (forall u, c :: Find(after, u, c) == Find(es, u, c))
  {
    var after := SetStatus(es, i, status, completedAt);
    forall u, c ensures Find(after, u, c) == Find(es, u, c) {
      var f := Find(es, u, c);
      if f.Some? {
        FindAt(after, f.value);
      } else {
        assert forall j :: 0 <= j < |after| ==> !(after[j].user == u && after[j].course.id == c) by {
          forall j | 0 <= j < |after| ensures !(after[j].user == u && after[j].course.id == c) {
            assert after[j].user == es[j].user && after[j].course.id == es[j].course.id;
          }
        }
      }
    }
  }

  predicate ActiveFor(e: Enrollment, user: Id)
  {
    e.user == user && e.status == ACTIVE
  }

  class EnrollmentService {
    /** The enrollments table. */
    var enrollments: seq<Enrollment>
    /** The course table, which this service only reads. */
    const courses: seq<Row<Course>>

    ghost predicate Valid()
      reads this
    {
      UniquePairs(enrollments)
    }

    constructor(courses: seq<Row<Course>>)
      ensures this.courses == courses && enrollments == [] && Valid()
    {
      this.courses := courses;
      enrollments := [];
    }

    /** existsByUser_IdAndCourse_Id: whether an enrollment exists, whatever its status. */
    function IsEnrolled(user: Id, courseId: Id): (r: bool)
      reads this
      ensures r <==> exists i :: 0 <= i < |enrollments| && enrollments[i].user == user && enrollments[i].course.id == courseId
    {
      Find(enrollments, user, courseId).Some?
    }

    /** getActiveEnrollments: the user's ACTIVE enrollments, in table order, as DTOs. */
    function GetActiveEnrollments(user: Id): (r: seq<EnrollmentView>)
      reads this
      ensures var active := Select(enrollments, (e: Enrollment) => ActiveFor(e, user));
              && |r| == |active|
              && (forall i :: 0 <= i < |r| ==> r[i] == ToView(active[i]) && r[i].status == ACTIVE)
              && (forall e :: e in enrollments && ActiveFor(e, user) ==> ToView(e) in r)
    {
      var active := Select(enrollments, (e: Enrollment) => ActiveFor(e, user));
      assert forall i :: 0 <= i < |active| ==> active[i] in active;
      MapSeq(active, ToView)
    }

    /** enroll at time now; newId is the id the database would generate. */
    method Enroll(user: Id, courseId: Id, now: Timestamp, newId: Id) returns (r: Result<EnrollmentView, EnrollmentError>)
      requires Valid()
      modifies this
      ensures Valid()
      ensures r.Err? <==> FindById(courses, courseId).None?
      ensures r.Err? ==> r.error == CourseNotFound(courseId) && enrollments == old(enrollments)
      ensures r.Ok? ==> enrollments == AfterEnroll(old(enrollments), user, Row(courseId, FindById(courses, courseId).value), now, newId)
      ensures r.Ok? ==> IsEnrolled(user, courseId) && r.value == ToView(enrollments[Find(enrollments, user, courseId).value])
      ensures r.Ok? && old(IsEnrolled(user, courseId)) ==> enrollments == old(enrollments)
      ensures r.Ok? && !old(IsEnrolled(user, courseId)) ==> r.value.status == ACTIVE && r.value.id == newId
    {
      var course := FindById(courses, courseId);
      if course.None? {
        return Err(CourseNotFound(courseId));
      }
      EnrollKeepsPairsUnique(enrollments, user, Row(courseId, course.value), now, newId);
      var existing := Find(enrollments, user, courseId);
      if existing.Some? {
        return Ok(ToView(enrollments[existing.value]));
      }
      var enrollment := Enrollment(newId, user, Row(courseId, course.value), ACTIVE, Some(now), None);
      enrollments := enrollments + [enrollment];
      FindAt(enrollments, |enrollments| - 1);
      r := Ok(ToView(enrollment));
    }

    /** cancelEnrollment. */
    method CancelEnrollment(user: Id, courseId: Id) returns (r: Result<(), EnrollmentError>)
      requires Valid()
      modifies this
      ensures Valid()
      ensures r.Err? <==> !old(IsEnrolled(user, courseId))
      ensures r.Err? ==> r.error == EnrollmentNotFound(courseId) && enrollments == old(enrollments)
      ensures r.Ok? ==> enrollments == SetStatus(old(enrollments), Find(old(enrollments), user, courseId).value, CANCELLED, None)
      ensures r.Ok? ==> IsEnrolled(user, courseId) && enrollments[Find(enrollments, user, courseId).value].status == CANCELLED
    {
      var found := Find(enrollments, user, courseId);
      if found.None? {
        return Err(EnrollmentNotFound(courseId));
      }
      SetStatusKeeps(enrollments, found.value, CANCELLED, None);
      enrollments := enrollments[found.value := enrollments[found.value].(status := CANCELLED)];
      r := Ok(());
    }

    /** markAsCompleted at time now. */
    method MarkAsCompleted(user: Id, courseId: Id, now: Timestamp) returns (r: Result<EnrollmentView, EnrollmentError>)
      requires Valid()
      modifies this
      ensures Valid()
      ensures r.Err? <==> !old(IsEnrolled(user, courseId))
      ensures r.Err? ==> r.error == EnrollmentNotFound(courseId) && enrollments == old(enrollments)
      ensures r.Ok? ==> enrollments == SetStatus(old(enrollments), Find(old(enrollments), user, courseId).value, COMPLETED, Some(now))
      ensures r.Ok? ==> r.value.status == COMPLETED && r.value.completedAt == Some(now) && r.value.courseId == courseId
      ensures r.Ok? ==> r.value == ToView(enrollments[Find(old(enrollments), user, courseId).value])
    {
      var found := Find(enrollments, user, courseId);
      if found.None? {
        return Err(EnrollmentNotFound(courseId));
      }
      SetStatusKeeps(enrollments, found.value, COMPLETED, Some(now));
      var enrollment := enrollments[found.value].(status := COMPLETED, completedAt := Some(now));
      enrollments := enrollments[found.value := enrollment];
      r := Ok(ToView(enrollment));
    }
  }
}
