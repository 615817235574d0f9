/**
 * SearchService.search: one query against the titles (and, for courses,
 * descriptions and categories) of every course, module and lesson.
 */
module Search {
  import opened Wrappers
  import opened JavaText
  import opened Entities
  import opened Repositories

  datatype CourseResult = CourseResult(id: Id, title: string, description: Option<string>, category: Option<string>)

  datatype ModuleResult = ModuleResult(id: Id, title: string, courseId: Option<Id>, courseTitle: string)

  datatype LessonResult = LessonResult(
    id: Id,
    title: string,
    lessonGroupId: Option<Id>,
    lessonGroupTitle: string,
    moduleTitle: string,
    courseTitle: string)

  datatype SearchResult = SearchResult(
    courses: seq<CourseResult>,
    modules: seq<ModuleResult>,
    lessons: seq<LessonResult>,
    totalResults: int)

  const UNKNOWN_GROUP: string := "Unknown Group"
  const UNKNOWN_MODULE: string := "Unknown Module"
  const UNKNOWN_COURSE: string := "Unknown Course"

  // ---------------------------------------------------------------------------
  // Matching
  // ---------------------------------------------------------------------------

  /**
   * pattern.matcher(text).find() for Pattern.compile(Pattern.quote(term),
   * CASE_INSENSITIVE): the term occurs in the text as a literal, letters
   * compared without regard to case.
   */
  predicate Finds(text: string, term: string)
  {
    Contains(ToLower(text), ToLower(term))
  }

  predicate MatchesCourse(c: Course, term: string)
  {
    || Finds(c.title, term)
    || (c.description.Some? && Finds(c.description.value, term))
    || (c.category.Some? && Finds(c.category.value, term))
  }

  predicate MatchesModule(m: Module, term: string) { Finds(m.title, term) }

  predicate MatchesLesson(l: Lesson, term: string) { Finds(l.title, term) }

  /** A text holding the term verbatim is found, whatever metacharacters the term holds. */
  lemma VerbatimFound(text: string, term: string)
    requires Contains(text, term)
    ensures Finds(text, term)
  {
    ContainsLower(text, term);
  }

  /** The case of the letters of the text does not matter. */
  lemma FindsIgnoresTextCase(text: string, term: string)
    ensures Finds(ToLower(text), term) == Finds(text, term)
  {
    ToLowerIdempotent(text);
  }

  // ---------------------------------------------------------------------------
  // Result rows
  // ---------------------------------------------------------------------------

  /** module.getCourse(): the course row the module references, if any. */
  function CourseOf(t: Tables, m: Module): (r: Option<Row<Course>>)
    ensures r.Some? ==> m.course == Some(r.value.id) && r.value in t.courses
  {
    match m.course
    case None => None
    case Some(cid) =>
      match FindById(t.courses, cid)
      case None => None
      case Some(c) => Some(Row(cid, c))
  }

  /** group.getModule(). */
  function ModuleOf(t: Tables, g: LessonGroup): (r: Option<Row<Module>>)
    ensures r.Some? ==> g.parentModule == Some(r.value.id) && r.value in t.modules
  {
    match g.parentModule
    case None => None
    case Some(mid) =>
      match FindById(t.modules, mid)
      case None => None
      case Some(m) => Some(Row(mid, m))
  }

  /** lesson.getLessonGroup(). */
  function GroupOf(t: Tables, l: Lesson): (r: Option<Row<LessonGroup>>)
    ensures r.Some? ==> l.lessonGroup == Some(r.value.id) && r.value in t.groups
  {
    match l.lessonGroup
    case None => None
    case Some(gid) =>
      match FindById(t.groups, gid)
      case None => None
      case Some(g) => Some(Row(gid, g))
  }

  function ToCourseResult(row: Row<Course>): CourseResult
  {
    CourseResult(row.id, row.value.title, row.value.description, row.value.category)
  }

  function ToModuleResult(t: Tables, row: Row<Module>): (r: ModuleResult)
    ensures r.id == row.id && r.title == row.value.title
  {
    match CourseOf(t, row.value)
    case None => ModuleResult(row.id, row.value.title, None, UNKNOWN_COURSE)
    case Some(c) => ModuleResult(row.id, row.value.title, Some(c.id), c.value.title)
  }

  function ToLessonResult(t: Tables, row: Row<Lesson>): (r: LessonResult)
    ensures r.id == row.id && r.title == row.value.title
  {
    match GroupOf(t, row.value)
    case None => LessonResult(row.id, row.value.title, None, UNKNOWN_GROUP, UNKNOWN_MODULE, UNKNOWN_COURSE)
    case Some(g) =>
      match ModuleOf(t, g.value)
      case None => LessonResult(row.id, row.value.title, Some(g.id), g.value.title, UNKNOWN_MODULE, UNKNOWN_COURSE)
      case Some(m) =>
        var courseTitle := match CourseOf(t, m.value) case Some(c) => c.value.title case None => UNKNOWN_COURSE;
        LessonResult(row.id, row.value.title, Some(g.id), g.value.title, m.value.title, courseTitle)
  }

  // ---------------------------------------------------------------------------
  // search
  // ---------------------------------------------------------------------------

  function CourseHits(rows: seq<Row<Course>>, term: string): seq<CourseResult>
  {
    MapSeq(Select(rows, (r: Row<Course>) => MatchesCourse(r.value, term)), ToCourseResult)
  }

  function ModuleHits(t: Tables, rows: seq<Row<Module>>, term: string): seq<ModuleResult>
  {
    MapSeq(Select(rows, (r: Row<Module>) => MatchesModule(r.value, term)), (r: Row<Module>) => ToModuleResult(t, r))
  }

  function LessonHits(t: Tables, rows: seq<Row<Lesson>>, term: string): seq<LessonResult>
  {
    MapSeq(Select(rows, (r: Row<Lesson>) => MatchesLesson(r.value, term)), (r: Row<Lesson>) => ToLessonResult(t, r))
  }

  /** A query that is null or only whitespace. */
  predicate Blank(query: Option<string>) { query.None? || Trim(query.value) == [] }

  /** The search term: the trimmed query, lower-cased. */
  function Term(query: string): string { ToLower(Trim(query)) }

  function SearchAll(t: Tables, query: Option<string>): (r: SearchResult)
    ensures Blank(query) ==> r == SearchResult([], [], [], 0)
    ensures r.totalResults == |r.courses| + |r.modules| + |r.lessons|
    ensures |r.courses| <= |t.courses| && |r.modules| <= |t.modules| && |r.lessons| <= |t.lessons|
  {
    if Blank(query) then SearchResult([], [], [], 0)
    else
      var term := Term(query.value);
      var courseResults := CourseHits(t.courses, term);
      var moduleResults := ModuleHits(t, t.modules, term);
      var lessonResults := LessonHits(t, t.lessons, term);
      SearchResult(courseResults, moduleResults, lessonResults,
                   |courseResults| + |moduleResults| + |lessonResults|)
  }

  // ---------------------------------------------------------------------------
  // What search guarantees
  // ---------------------------------------------------------------------------

  /** Two courses with the same result row match the same terms. */
  lemma SameCourseResult(a: Row<Course>, b: Row<Course>, term: string)
    requires ToCourseResult(a) == ToCourseResult(b)
    ensures MatchesCourse(a.value, term) == MatchesCourse(b.value, term)
  {
  }

  /** A course is listed exactly when its title, description or category holds the term. */
  lemma CourseListed(t: Tables, query: string, row: Row<Course>)
    requires !Blank(Some(query)) && row in t.courses
    ensures ToCourseResult(row) in SearchAll(t, Some(query)).courses <==> MatchesCourse(row.value, Term(query))
  {
    var term := Term(query);
    var p := (r: Row<Course>) => MatchesCourse(r.value, term);
    var sel := Select(t.courses, p);
    var hits := SearchAll(t, Some(query)).courses;
    assert hits == MapSeq(sel, ToCourseResult);
    if MatchesCourse(row.value, term) {
      assert row in sel;
      var i :| 0 <= i < |sel| && sel[i] == row;
      assert hits[i] == ToCourseResult(row);
    }
    if ToCourseResult(row) in hits {
      var i :| 0 <= i < |hits| && hits[i] == ToCourseResult(row);
      assert sel[i] in sel;
      SameCourseResult(sel[i], row, term);
    }
  }

  /** A module is listed exactly when its title holds the term. */
  lemma ModuleListed(t: Tables, query: string, row: Row<Module>)
    requires !Blank(Some(query)) && row in t.modules
    ensures ToModuleResult(t, row) in SearchAll(t, Some(query)).modules <==> MatchesModule(row.value, Term(query))
  {
    var term := Term(query);
    var p := (r: Row<Module>) => MatchesModule(r.value, term);
    var sel := Select(t.modules, p);
    var hits := SearchAll(t, Some(query)).modules;
    assert hits == MapSeq(sel, (r: Row<Module>) => ToModuleResult(t, r));
    if MatchesModule(row.value, term) {
      assert row in sel;
      var i :| 0 <= i < |sel| && sel[i] == row;
      assert hits[i] == ToModuleResult(t, row);
    }
    if ToModuleResult(t, row) in hits {
      var i :| 0 <= i < |hits| && hits[i] == ToModuleResult(t, row);
      assert sel[i] in sel;
      assert ToModuleResult(t, sel[i]).title == sel[i].value.title;
    }
  }

  /** A lesson is listed exactly when its title holds the term. */
  lemma LessonListed(t: Tables, query: string, row: Row<Lesson>)
    requires !Blank(Some(query)) && row in t.lessons
    ensures ToLessonResult(t, row) in SearchAll(t, Some(query)).lessons <==> MatchesLesson(row.value, Term(query))
  {
    var term := Term(query);
    var p := (r: Row<Lesson>) => MatchesLesson(r.value, term);
    var sel := Select(t.lessons, p);
    var hits := SearchAll(t, Some(query)).lessons;
    assert hits == MapSeq(sel, (r: Row<Lesson>) => ToLessonResult(t, r));
    if MatchesLesson(row.value, term) {
      assert row in sel;
      var i :| 0 <= i < |sel| && sel[i] == row;
      assert hits[i] == ToLessonResult(t, row);
    }
    if ToLessonResult(t, row) in hits {
      var i :| 0 <= i < |hits| && hits[i] == ToLessonResult(t, row);
      assert sel[i] in sel;
      assert ToLessonResult(t, sel[i]).title == sel[i].value.title;
    }
  }

  lemma MapSeqAppend<T, U>(a: seq<T>, b: seq<T>, f: T -> U)
    ensures MapSeq(a + b, f) == MapSeq(a, f) + MapSeq(b, f)
  {
    assert |MapSeq(a + b, f)| == |MapSeq(a, f) + MapSeq(b, f)|;
    forall i | 0 <= i < |a + b| ensures MapSeq(a + b, f)[i] == (MapSeq(a, f) + MapSeq(b, f))[i] {
      if i < |a| { assert (a + b)[i] == a[i]; } else { assert (a + b)[i] == b[i - |a|]; }
    }
  }

  /** Results keep the repository order: the hits of two stretches of a table are the hits of each, in turn. */
  lemma HitsKeepOrder(t: Tables, a: seq<Row<Course>>, b: seq<Row<Course>>, ma: seq<Row<Module>>, mb: seq<Row<Module>>,
                      la: seq<Row<Lesson>>, lb: seq<Row<Lesson>>, term: string)
    ensures CourseHits(a + b, term) == CourseHits(a, term) + CourseHits(b, term)
    ensures ModuleHits(t, ma + mb, term) == ModuleHits(t, ma, term) + ModuleHits(t, mb, term)
    ensures LessonHits(t, la + lb, term) == LessonHits(t, la, term) + LessonHits(t, lb, term)
  {
    var pc := (r: Row<Course>) => MatchesCourse(r.value, term);
    SelectAppend(a, b, pc);
    MapSeqAppend(Select(a, pc), Select(b, pc), ToCourseResult);
    var pm := (r: Row<Module>) => MatchesModule(r.value, term);
    SelectAppend(ma, mb, pm);
    MapSeqAppend(Select(ma, pm), Select(mb, pm), (r: Row<Module>) => ToModuleResult(t, r));
    var pl := (r: Row<Lesson>) => MatchesLesson(r.value, term);
    SelectAppend(la, lb, pl);
    MapSeqAppend(Select(la, pl), Select(lb, pl), (r: Row<Lesson>) => ToLessonResult(t, r));
  }

  /** The query's letter case does not matter: its lower-cased form gives the same results. */
  lemma QueryCaseIgnored(t: Tables, query: string)
    ensures SearchAll(t, Some(ToLower(query))) == SearchAll(t, Some(query))
  {
    TrimLower(query);
    ToLowerIdempotent(Trim(query));
    assert Term(ToLower(query)) == Term(query);
    assert Blank(Some(ToLower(query))) == Blank(Some(query));
  }

  /**
   * A lesson's parent columns fall back in order: with no group all three
   * read "Unknown ...", with a group but no module the module and course
   * do, and with a module but no course only the course does.
   */
  lemma LessonFallbacks(t: Tables, row: Row<Lesson>)
    requires Linked(t) && row in t.lessons
    ensures var r := ToLessonResult(t, row);
            && r.id == row.id && r.title == row.value.title
            && (row.value.lessonGroup.None? <==> r.lessonGroupId.None?)
            && (row.value.lessonGroup.None? ==>
                  r.lessonGroupTitle == UNKNOWN_GROUP && r.moduleTitle == UNKNOWN_MODULE && r.courseTitle == UNKNOWN_COURSE)
            && (row.value.lessonGroup.Some? ==>
                  var g := FindById(t.groups, row.value.lessonGroup.value).value;
                  && r.lessonGroupId == row.value.lessonGroup && r.lessonGroupTitle == g.title
                  && (g.parentModule.None? ==> r.moduleTitle == UNKNOWN_MODULE && r.courseTitle == UNKNOWN_COURSE)
                  && (g.parentModule.Some? ==>
                        var m := FindById(t.modules, g.parentModule.value).value;
                        && r.moduleTitle == m.title
                        && (m.course.None? ==> r.courseTitle == UNKNOWN_COURSE)
                        && (m.course.Some? ==> r.courseTitle == FindById(t.courses, m.course.value).value.title)))
  {
    var i :| 0 <= i < |t.lessons| && t.lessons[i] == row;
    if row.value.lessonGroup.Some? {
      var g := FindById(t.groups, row.value.lessonGroup.value).value;
      var gi :| 0 <= gi < |t.groups| && t.groups[gi] == Row(row.value.lessonGroup.value, g);
      if g.parentModule.Some? {
        var m := FindById(t.modules, g.parentModule.value).value;
        var mi :| 0 <= mi < |t.modules| && t.modules[mi] == Row(g.parentModule.value, m);
      }
    }
  }

  /** A module's course columns: its course's id and title, or null and "Unknown Course" when it has none. */
  lemma ModuleFallback(t: Tables, row: Row<Module>)
    requires Linked(t) && row in t.modules
    ensures var r := ToModuleResult(t, row);
            && r.id == row.id && r.title == row.value.title && r.courseId == row.value.course
            && (row.value.course.None? ==> r.courseTitle == UNKNOWN_COURSE)
            && (row.value.course.Some? ==> r.courseTitle == FindById(t.courses, row.value.course.value).value.title)
  {
    var i :| 0 <= i < |t.modules| && t.modules[i] == row;
  }
}
