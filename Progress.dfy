/**
 * ProgressService: one progress record per (user, lesson), created on the
 * first update and changed field by field by later ones, and the study
 * activity computed from the completed records.
 */
module Progress {
  import opened Wrappers
  import opened Entities
  import opened Repositories

  /** A user_progress row. Null columns are None. */
  datatype UserProgress = UserProgress(
    id: Id,
    user: Id,
    lesson: Id,
    watchedSeconds: Option<int>,
    totalDurationSeconds: Option<int>,
    completed: Option<bool>,
    lastWatchedAt: Option<Timestamp>,
    completedAt: Option<Timestamp>)

  /** UpdateProgressRequest: a null field asks for no change. */
  datatype UpdateRequest = UpdateRequest(
    lessonId: Id,
    watchedSeconds: Option<int>,
    totalDurationSeconds: Option<int>,
    completed: Option<bool>)

  /** ProgressDTO. */
  datatype ProgressView = ProgressView(
    id: Option<Id>,
    lessonId: Id,
    lessonTitle: string,
    watchedSeconds: Option<int>,
    totalDurationSeconds: Option<int>,
    completed: Option<bool>,
    lastWatchedAt: Option<Timestamp>,
    completedAt: Option<Timestamp>)

  datatype ProgressError = LessonNotFound(lessonId: Id)

  // ---------------------------------------------------------------------------
  // The user_progress table
  // ---------------------------------------------------------------------------

  predicate SameKey(p: UserProgress, q: UserProgress)
  {
    p.user == q.user && p.lesson == q.lesson
  }

  /** The unique constraint on (user_id, lesson_id). */
  predicate UniqueKeys(records: seq<UserProgress>)
  {
    forall i, j :: 0 <= i < j < |records| ==> !SameKey(records[i], records[j])
  }

  /** findByUserIdAndLessonId, as the position of the row found. */
  function Find(records: seq<UserProgress>, user: Id, lesson: Id): (r: Option<nat>)
    ensures r.Some? ==> r.value < |records| && records[r.value].user == user && records[r.value].lesson == lesson
    ensures r.None? <==> forall i :: 0 <= i < |records| ==> !(records[i].user == user && records[i].lesson == lesson)
  {
    if records == [] then None
    else
      var last := records[|records| - 1];
      if last.user == user && last.lesson == lesson then Some(|records| - 1)
      else
        var r := Find(records[..|records| - 1], user, lesson);
        assert forall i :: 0 <= i < |records| - 1 ==> records[i] == records[..|records| - 1][i];
        r
  }

  function RecordOf(records: seq<UserProgress>, user: Id, lesson: Id): Option<UserProgress>
  {
    match Find(records, user, lesson)
    case None => None
    case Some(i) => Some(records[i])
  }

  /** With the unique constraint, the row holding a key is the one found. */
  lemma RecordAt(records: seq<UserProgress>, i: nat)
    requires UniqueKeys(records) && i < |records|
    ensures RecordOf(records, records[i].user, records[i].lesson) == Some(records[i])
  {
    var f := Find(records, records[i].user, records[i].lesson);
    assert SameKey(records[f.value], records[i]);
  }

  /** The new UserProgress of the orElseGet branch: every progress column null. */
  function NewProgress(id: Id, user: Id, lesson: Id): UserProgress
  {
    UserProgress(id, user, lesson, None, None, None, None, None)
  }

  /** The field updates of updateProgress applied to one row at time now. */
  function Updated(p: UserProgress, request: UpdateRequest, now: Timestamp): (r: UserProgress)
    ensures r.id == p.id && r.user == p.user && r.lesson == p.lesson
    ensures request.watchedSeconds.None? ==> r.watchedSeconds == p.watchedSeconds
    ensures request.watchedSeconds.Some? ==> r.watchedSeconds == request.watchedSeconds
    ensures request.totalDurationSeconds.None? ==> r.totalDurationSeconds == p.totalDurationSeconds
    ensures request.totalDurationSeconds.Some? ==> r.totalDurationSeconds == request.totalDurationSeconds
    ensures request.completed.None? ==> r.completed == p.completed
    ensures request.completed.Some? ==> r.completed == request.completed
    // completedAt is written once, on the first completion, and never cleared
    ensures p.completedAt.Some? ==> r.completedAt == p.completedAt
    ensures r.completedAt != p.completedAt <==> p.completedAt.None? && request.completed == Some(true)
    ensures r.completedAt != p.completedAt ==> r.completedAt == Some(now)
    ensures r.lastWatchedAt == Some(now)
  {
    var p1 := if request.watchedSeconds.Some? then p.(watchedSeconds := request.watchedSeconds) else p;
    var p2 := if request.totalDurationSeconds.Some? then p1.(totalDurationSeconds := request.totalDurationSeconds) else p1;
    var p3 :=
      if request.completed.Some? then
        var c := p2.(completed := request.completed);
        if request.completed.value && c.completedAt.None? then c.(completedAt := Some(now)) else c
      else p2;
    p3.(lastWatchedAt := Some(now))
  }

  /** The table after updateProgress saved the found-or-created row for (user, request.lessonId). */
  function Upsert(records: seq<UserProgress>, user: Id, request: UpdateRequest, now: Timestamp, newId: Id): seq<UserProgress>
  {
    match Find(records, user, request.lessonId)
    case Some(i) => records[i := Updated(records[i], request, now)]
    case None => records + [Updated(NewProgress(newId, user, request.lessonId), request, now)]
  }

  /** The progress a row shows: the row updated, or a fresh row updated. */
  function UpdatedRecord(records: seq<UserProgress>, user: Id, request: UpdateRequest, now: Timestamp, newId: Id): UserProgress
  {
    Updated(RecordOf(records, user, request.lessonId).GetOr(NewProgress(newId, user, request.lessonId)), request, now)
  }

  /** At most one row per (user, lesson): an update either rewrites the existing row or adds the only one. */
  lemma UpsertUnique(records: seq<UserProgress>, user: Id, request: UpdateRequest, now: Timestamp, newId: Id)
    requires UniqueKeys(records)
    ensures UniqueKeys(Upsert(records, user, request, now, newId))
    ensures |Upsert(records, user, request, now, newId)| ==
            |records| + (if RecordOf(records, user, request.lessonId).None? then 1 else 0)
  {
  }

  /**
   * After an update the key (user, request.lessonId) holds the updated row,
   * and every other key holds what it held before.
   */
  lemma UpsertRecords(records: seq<UserProgress>, user: Id, request: UpdateRequest, now: Timestamp, newId: Id, u: Id, l: Id)
    requires UniqueKeys(records)
    ensures RecordOf(Upsert(records, user, request, now, newId), u, l) ==
            if u == user && l == request.lessonId then Some(UpdatedRecord(records, user, request, now, newId))
            else RecordOf(records, u, l)
  {
    var after := Upsert(records, user, request, now, newId);
    UpsertUnique(records, user, request, now, newId);
    var f := Find(records, user, request.lessonId);
    var g := Find(records, u, l);
    if u == user && l == request.lessonId {
      var k := if f.Some? then f.value else |records|;
      assert after[k] == UpdatedRecord(records, user, request, now, newId);
      RecordAt(after, k);
    } else if g.Some? {
      assert after[g.value] == records[g.value];
      RecordAt(after, g.value);
    } else {
      assert forall i :: 0 <= i < |after| ==> !(after[i].user == u && after[i].lesson == l) by {
        forall i | 0 <= i < |after| ensures !(after[i].user == u && after[i].lesson == l) {
          if i < |records| && (f.None? || i != f.value) { assert after[i] == records[i]; }
        }
      }
    }
  }

  /** Once a row holds a completion time, no later update overwrites or clears it. */
  lemma CompletedAtSticky(records: seq<UserProgress>, user: Id, request: UpdateRequest, now: Timestamp, newId: Id,
                          u: Id, l: Id, t: Timestamp)
    requires UniqueKeys(records)
    requires RecordOf(records, u, l).Some? && RecordOf(records, u, l).value.completedAt == Some(t)
    ensures RecordOf(Upsert(records, user, request, now, newId), u, l).Some?
    ensures RecordOf(Upsert(records, user, request, now, newId), u, l).value.completedAt == Some(t)
  {
    UpsertRecords(records, user, request, now, newId, u, l);
  }

  // ---------------------------------------------------------------------------
  // getStudyActivity
  // ---------------------------------------------------------------------------

  /** Kept by findByUserIdAndCompletedTrue and the completedAt != null filter. */
  predicate Counted(p: UserProgress, user: Id)
  {
    p.user == user && p.completed == Some(true) && p.completedAt.Some?
  }

  /** Collectors.groupingBy(completion date, counting()), the date written as its day. */
  function Activity(records: seq<UserProgress>, user: Id): map<int, nat>
  {
    if records == [] then map[]
    else
      var m := Activity(records[..|records| - 1], user);
      var p := records[|records| - 1];
      if Counted(p, user) then
        var d := p.completedAt.value.day;
        m[d := (if d in m then m[d] else 0) + 1]
      else m
  }

  /** The completion days of the user's counted rows, each row contributing one. */
  ghost function DayBag(records: seq<UserProgress>, user: Id): multiset<int>
  {
    if records == [] then multiset{}
    else
      var p := records[|records| - 1];
      DayBag(records[..|records| - 1], user) + (if Counted(p, user) then multiset{p.completedAt.value.day} else multiset{})
  }

  /** One day of the study activity: present exactly when in the bag, with the bag's multiplicity. */
  lemma {:induction false} ActivityDay(records: seq<UserProgress>, user: Id, d: int)
    ensures d in Activity(records, user) <==> d in DayBag(records, user)
    ensures d in Activity(records, user) ==> Activity(records, user)[d] == DayBag(records, user)[d]
  {
    if records != [] {
      ActivityDay(records[..|records| - 1], user, d);
    }
  }

  lemma {:induction false} DayBagSize(records: seq<UserProgress>, user: Id)
    ensures |DayBag(records, user)| == |Select(records, (p: UserProgress) => Counted(p, user))|
  {
    if records != [] {
      var init := records[..|records| - 1];
      var p := records[|records| - 1];
      DayBagSize(init, user);
      assert records == init + [p];
      SelectAppend(init, [p], (p: UserProgress) => Counted(p, user));
    }
  }

  /**
   * The study activity is the counting function of that bag: the counts
   * are the multiplicities of the days, so together they add up to the
   * number of the user's completed rows with a completion time.
   */
  lemma ActivitySum(records: seq<UserProgress>, user: Id)
    ensures forall d :: (d in Activity(records, user) <==> d in DayBag(records, user))
    ensures forall d :: d in Activity(records, user) ==> Activity(records, user)[d] == DayBag(records, user)[d]
    ensures |DayBag(records, user)| == |Select(records, (p: UserProgress) => Counted(p, user))|
  {
    forall d ensures (d in Activity(records, user) <==> d in DayBag(records, user))
                  && (d in Activity(records, user) ==> Activity(records, user)[d] == DayBag(records, user)[d]) {
      ActivityDay(records, user, d);
    }
    DayBagSize(records, user);
  }

  /** A day's count is the number of the user's rows completed on that day; days with none are absent. */
  lemma {:induction false} ActivityCounts(records: seq<UserProgress>, user: Id, d: int)
    ensures var sel := Select(records, (p: UserProgress) => Counted(p, user) && p.completedAt.value.day == d);
            && (d in Activity(records, user) <==> |sel| > 0)
            && (d in Activity(records, user) ==> Activity(records, user)[d] == |sel|)
  {
    if records != [] {
      var init := records[..|records| - 1];
      var p := records[|records| - 1];
      ActivityCounts(init, user, d);
      assert records == init + [p];
      SelectAppend(init, [p], (p: UserProgress) => Counted(p, user) && p.completedAt.value.day == d);
    }
  }

  // ---------------------------------------------------------------------------
  // The service
  // ---------------------------------------------------------------------------

  function ToView(p: UserProgress, lessonTitle: string): ProgressView
  {
    ProgressView(Some(p.id), p.lesson, lessonTitle, p.watchedSeconds, p.totalDurationSeconds, p.completed,
                 p.lastWatchedAt, p.completedAt)
  }

  /** The request markAsComplete builds: completed = true and nothing else. */
  function CompleteOnly(lessonId: Id): UpdateRequest
  {
    UpdateRequest(lessonId, None, None, Some(true))
  }

  /** Marking complete leaves the watched and total seconds as they were. */
  lemma CompleteOnlyKeepsSeconds(p: UserProgress, lessonId: Id, now: Timestamp)
    ensures var r := Updated(p, CompleteOnly(lessonId), now);
            && r.watchedSeconds == p.watchedSeconds
            && r.totalDurationSeconds == p.totalDurationSeconds
            && r.completed == Some(true)
            && r.completedAt.Some?
  {
  }

  /** The foreign key: every row names an existing lesson. */
  predicate LessonsExist(records: seq<UserProgress>, lessons: seq<Row<Lesson>>)
  {
    forall i :: 0 <= i < |records| ==> FindById(lessons, records[i].lesson).Some?
  }

  /** An update of an existing lesson keeps both table constraints and leaves the updated row under its key. */
  lemma UpsertValid(records: seq<UserProgress>, lessons: seq<Row<Lesson>>, user: Id, request: UpdateRequest,
                    now: Timestamp, newId: Id)
    requires UniqueKeys(records) && LessonsExist(records, lessons)
    requires FindById(lessons, request.lessonId).Some?
    ensures var after := Upsert(records, user, request, now, newId);
            && UniqueKeys(after) && LessonsExist(after, lessons)
            && RecordOf(after, user, request.lessonId) == Some(UpdatedRecord(records, user, request, now, newId))
  {
    UpsertUnique(records, user, request, now, newId);
    UpsertRecords(records, user, request, now, newId, user, request.lessonId);
    var after := Upsert(records, user, request, now, newId);
    assert forall i :: 0 <= i < |after| ==> after[i].lesson == request.lessonId || (i < |records| && after[i] == records[i]);
  }

  /** The field updates of updateProgress, one request field at a time. */
  method ApplyRequest(row: UserProgress, request: UpdateRequest, now: Timestamp) returns (progress: UserProgress)
    ensures progress == Updated(row, request, now)
  {
    progress := row;
    if request.watchedSeconds.Some? {
      progress := progress.(watchedSeconds := request.watchedSeconds);
    }
    if request.totalDurationSeconds.Some? {
      progress := progress.(totalDurationSeconds := request.totalDurationSeconds);
    }
    if request.completed.Some? {
      progress := progress.(completed := request.completed);
      if request.completed.value && progress.completedAt.None? {
        progress := progress.(completedAt := Some(now));
      }
    }
    progress := progress.(lastWatchedAt := Some(now));
  }

  class ProgressService {
    /** The user_progress table. */
    var records: seq<UserProgress>
    /** The lesson table, which this service only reads. */
    const lessons: seq<Row<Lesson>>

    /** The unique constraint, and every row naming an existing lesson (the foreign key). */
    ghost predicate Valid()
      reads this
    {
      UniqueKeys(records) && LessonsExist(records, lessons)
    }

    constructor(lessons: seq<Row<Lesson>>)
      ensures this.lessons == lessons && records == [] && Valid()
    {
      this.lessons := lessons;
      records := [];
    }

    /** getProgressForLesson: the saved row, or an empty progress for an existing lesson. */
    function GetProgressForLesson(user: Id, lessonId: Id): (r: Result<ProgressView, ProgressError>)
      reads this
      ensures r.Err? <==> FindById(lessons, lessonId).None?
      ensures r.Ok? ==> r.value.lessonId == lessonId && r.value.lessonTitle == FindById(lessons, lessonId).value.title
      ensures RecordOf(records, user, lessonId).None? && r.Ok? ==>
                && r.value.id.None? && r.value.watchedSeconds == Some(0) && r.value.completed == Some(false)
                && r.value.totalDurationSeconds.None? && r.value.lastWatchedAt.None? && r.value.completedAt.None?
      ensures RecordOf(records, user, lessonId).Some? && r.Ok? ==>
                r.value == ToView(RecordOf(records, user, lessonId).value, FindById(lessons, lessonId).value.title)
    {
      match FindById(lessons, lessonId)
      case None => Err(LessonNotFound(lessonId))
      case Some(lesson) =>
        match RecordOf(records, user, lessonId)
        case None => Ok(ProgressView(None, lessonId, lesson.title, Some(0), None, Some(false), None, None))
        case Some(p) => Ok(ToView(p, lesson.title))
    }

    /** getStudyActivity. */
    function GetStudyActivity(user: Id): (r: map<int, nat>)
      reads this
      ensures forall d :: d in r ==> r[d] == DayBag(records, user)[d] > 0
      ensures forall d :: d !in r ==> DayBag(records, user)[d] == 0
      ensures |DayBag(records, user)| == |Select(records, (p: UserProgress) => Counted(p, user))|
    {
      ActivitySum(records, user);
      Activity(records, user)
    }

    /** updateProgress at time now; newId is the id the database would generate for a new row. */
    method UpdateProgress(user: Id, request: UpdateRequest, now: Timestamp, newId: Id)
      returns (r: Result<ProgressView, ProgressError>)
      requires Valid()
      modifies this
      ensures Valid()
      ensures r.Err? <==> FindById(lessons, request.lessonId).None?
      ensures r.Err? ==> r.error == LessonNotFound(request.lessonId) && records == old(records)
      ensures r.Ok? ==> records == Upsert(old(records), user, request, now, newId)
      ensures r.Ok? ==> r == Ok(ToView(UpdatedRecord(old(records), user, request, now, newId),
                                      FindById(lessons, request.lessonId).value.title))
      ensures r.Ok? ==> GetProgressForLesson(user, request.lessonId) == r
    {
      var lesson := FindById(lessons, request.lessonId);
      if lesson.None? {
        return Err(LessonNotFound(request.lessonId));
      }
      var found := Find(records, user, request.lessonId);
      var progress := if found.Some? then records[found.value] else NewProgress(newId, user, request.lessonId);
      progress := ApplyRequest(progress, request, now);
      ghost var before := records;
      UpsertValid(records, lessons, user, request, now, newId);
      records := if found.Some? then records[found.value := progress] else records + [progress];
      assert records == Upsert(before, user, request, now, newId);
      r := Ok(ToView(progress, lesson.value.title));
    }

    /** markAsComplete: updateProgress with completed = true and no other field. */
    method MarkAsComplete(user: Id, lessonId: Id, now: Timestamp, newId: Id)
      returns (r: Result<ProgressView, ProgressError>)
      requires Valid()
      modifies this
      ensures Valid()
      ensures r.Err? <==> FindById(lessons, lessonId).None?
      ensures r.Err? ==> records == old(records)
      ensures r.Ok? ==> records == Upsert(old(records), user, CompleteOnly(lessonId), now, newId)
      ensures r.Ok? ==> r.value.completed == Some(true) && r.value.completedAt.Some?
      ensures r.Ok? ==> r.value.watchedSeconds == old(RecordOf(records, user, lessonId)).GetOr(NewProgress(newId, user, lessonId)).watchedSeconds
    {
      r := UpdateProgress(user, CompleteOnly(lessonId), now, newId);
    }
  }
}
