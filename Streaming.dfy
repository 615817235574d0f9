/**
 * StreamingService.getCourseHierarchy: a course with its modules, each
 * module with its lesson groups and each group with its lessons, every
 * level ordered by orderIndex with null indices last.
 */
module Streaming {
  import opened Wrappers
  import opened Entities
  import opened Repositories
  import opened Sorting

  // ---------------------------------------------------------------------------
  // Comparator.comparing(getOrderIndex, Comparator.nullsLast(naturalOrder()))
  // ---------------------------------------------------------------------------

  /** a sorts no later than b: any index before null, indices in ascending order. */
  predicate NullsLastLe(a: Option<int>, b: Option<int>)
  {
    b.None? || (a.Some? && a.value <= b.value)
  }

  lemma NullsLastTotal()
    ensures forall a, b :: NullsLastLe(a, b) || NullsLastLe(b, a)
    ensures forall a, b, c :: NullsLastLe(a, b) && NullsLastLe(b, c) ==> NullsLastLe(a, c)
  {
  }

  function ModuleLe(a: Row<Module>, b: Row<Module>): bool { NullsLastLe(a.value.orderIndex, b.value.orderIndex) }

  function GroupLe(a: Row<LessonGroup>, b: Row<LessonGroup>): bool { NullsLastLe(a.value.orderIndex, b.value.orderIndex) }

  function LessonLe(a: Row<Lesson>, b: Row<Lesson>): bool { NullsLastLe(a.value.orderIndex, b.value.orderIndex) }

  lemma ComparatorsTotal()
    ensures TotalPreorder(ModuleLe) && TotalPreorder(GroupLe) && TotalPreorder(LessonLe)
  {
    NullsLastTotal();
  }

  // ---------------------------------------------------------------------------
  // The hierarchy
  // ---------------------------------------------------------------------------

  datatype LessonNode = LessonNode(
    id: Id,
    title: string,
    duration: Option<string>,
    description: Option<string>,
    resourcePath: Option<string>)

  datatype GroupNode = GroupNode(id: Id, title: string, lessons: seq<LessonNode>)

  datatype ModuleNode = ModuleNode(id: Id, title: string, duration: Option<string>, lessonGroups: seq<GroupNode>)

  datatype CourseHierarchy = CourseHierarchy(
    id: Id,
    title: string,
    description: Option<string>,
    category: Option<string>,
    createdAt: Timestamp,
    modules: seq<ModuleNode>)

  datatype HierarchyError =
    | CourseNotFound(courseId: Id)   // ResourceNotFoundException("Course", "id", courseId)
    | NullCreateDate                 // course.getCreateDate().toString() on a null date

  /** group.getLessons(): the lesson collection the persistence layer loads for a group id, or null. */
  type LessonLoader = Id -> Option<seq<Row<Lesson>>>

  /** The loader JPA provides: the lessons whose lessonGroup is that id, never null. */
  function Association(t: Tables): LessonLoader
  {
    (gid: Id) => Some(Select(t.lessons, (l: Row<Lesson>) => l.value.lessonGroup == Some(gid)))
  }

  /** moduleRepository.findByCourse_Id. */
  function CourseModules(t: Tables, courseId: Id): seq<Row<Module>>
  {
    Select(t.modules, (m: Row<Module>) => m.value.course == Some(courseId))
  }

  function Ids<T>(rows: seq<Row<T>>): set<Id>
  {
    set i | 0 <= i < |rows| :: rows[i].id
  }

  /** lessonGroupRepository.findByModuleIn. */
  function GroupsOfModules(t: Tables, modules: seq<Row<Module>>): seq<Row<LessonGroup>>
  {
    var ids := Ids(modules);
    Select(t.groups, (g: Row<LessonGroup>) => g.value.parentModule.Some? && g.value.parentModule.value in ids)
  }

  /** groupsByModule.getOrDefault(moduleId, List.of()) over Collectors.groupingBy of the module's id. */
  function GroupsOf(allGroups: seq<Row<LessonGroup>>, moduleId: Id): seq<Row<LessonGroup>>
  {
    Select(allGroups, (g: Row<LessonGroup>) => g.value.parentModule == Some(moduleId))
  }

  function ToLessonNode(l: Row<Lesson>): LessonNode
  {
    LessonNode(l.id, l.value.title, l.value.duration, l.value.description, l.value.resourcePath)
  }

  /** The lessons shown for a group: its collection (empty when null), sorted. */
  function SortedLessons(lessonsOf: LessonLoader, groupId: Id): seq<Row<Lesson>>
  {
    SortBy(lessonsOf(groupId).GetOr([]), LessonLe)
  }

  function ToGroupNode(g: Row<LessonGroup>, lessonsOf: LessonLoader): GroupNode
  {
    GroupNode(g.id, g.value.title, MapSeq(SortedLessons(lessonsOf, g.id), ToLessonNode))
  }

  function ToModuleNode(m: Row<Module>, allGroups: seq<Row<LessonGroup>>, lessonsOf: LessonLoader): ModuleNode
  {
    ModuleNode(m.id, m.value.title, m.value.duration,
               MapSeq(SortBy(GroupsOf(allGroups, m.id), GroupLe), (g: Row<LessonGroup>) => ToGroupNode(g, lessonsOf)))
  }

  function GetCourseHierarchy(t: Tables, courseId: Id, lessonsOf: LessonLoader): (r: Result<CourseHierarchy, HierarchyError>)
    ensures r == Err(CourseNotFound(courseId)) <==> FindById(t.courses, courseId).None?
    ensures r.Ok? ==> r.value.id == courseId && Row(courseId, Course(r.value.title, r.value.description,
                        r.value.category, Some(r.value.createdAt))) in t.courses
  {
    match FindById(t.courses, courseId)
    case None => Err(CourseNotFound(courseId))
    case Some(course) =>
      if course.createDate.None? then Err(NullCreateDate)
      else
        var modules := CourseModules(t, courseId);
        var allGroups := GroupsOfModules(t, modules);
        Ok(CourseHierarchy(courseId, course.title, course.description, course.category, course.createDate.value,
                           MapSeq(SortBy(modules, ModuleLe), (m: Row<Module>) => ToModuleNode(m, allGroups, lessonsOf))))
  }

  // ---------------------------------------------------------------------------
  // What the hierarchy guarantees
  // ---------------------------------------------------------------------------

  /** A course without a creation date cannot be rendered: toString() is called on null. */
  lemma NullDateFails(t: Tables, courseId: Id, lessonsOf: LessonLoader)
    requires FindById(t.courses, courseId).Some? && FindById(t.courses, courseId).value.createDate.None?
    ensures GetCourseHierarchy(t, courseId, lessonsOf) == Err(NullCreateDate)
  {
  }

  /**
   * The modules shown are the course's modules, each once, ordered by
   * orderIndex with nulls last, modules with equal indices in their
   * repository order.
   */
  lemma ModulesOrdered(t: Tables, courseId: Id, lessonsOf: LessonLoader)
    requires GetCourseHierarchy(t, courseId, lessonsOf).Ok?
    ensures var shown := SortBy(CourseModules(t, courseId), ModuleLe);
            var h := GetCourseHierarchy(t, courseId, lessonsOf).value;
            && |h.modules| == |shown|
            && (forall i :: 0 <= i < |shown| ==> h.modules[i].id == shown[i].id && h.modules[i].title == shown[i].value.title)
            && SortedBy(shown, ModuleLe)
            && multiset(shown) == multiset(CourseModules(t, courseId))
            && (forall e :: Ties(shown, e, ModuleLe) == Ties(CourseModules(t, courseId), e, ModuleLe))
            && (forall m :: m in shown <==> m in t.modules && m.value.course == Some(courseId))
  {
    ComparatorsTotal();
    var ms := CourseModules(t, courseId);
    SortBySorted(ms, ModuleLe);
    forall e ensures Ties(SortBy(ms, ModuleLe), e, ModuleLe) == Ties(ms, e, ModuleLe) {
      SortByStable(ms, e, ModuleLe);
    }
    var shown := SortBy(ms, ModuleLe);
    forall m ensures m in shown <==> m in ms {
      assert m in shown <==> m in multiset(shown);
      assert m in ms <==> m in multiset(ms);
    }
  }

  /** The groups fetched for the course's modules, split by module, give each module exactly the groups naming it. */
  lemma ModuleGroupsExact(t: Tables, modules: seq<Row<Module>>, i: nat)
    requires i < |modules|
    ensures GroupsOf(GroupsOfModules(t, modules), modules[i].id)
            == Select(t.groups, (g: Row<LessonGroup>) => g.value.parentModule == Some(modules[i].id))
  {
    var ids := Ids(modules);
    assert modules[i].id in ids;
    var p := (g: Row<LessonGroup>) => g.value.parentModule.Some? && g.value.parentModule.value in ids;
    var q := (g: Row<LessonGroup>) => g.value.parentModule == Some(modules[i].id);
    SelectSelect(t.groups, p, q);
  }

  /** A module node lists its groups sorted by orderIndex, nulls last: a stable permutation of its groups. */
  lemma GroupsOrdered(m: Row<Module>, allGroups: seq<Row<LessonGroup>>, lessonsOf: LessonLoader)
    ensures var shown := SortBy(GroupsOf(allGroups, m.id), GroupLe);
            var node := ToModuleNode(m, allGroups, lessonsOf);
            && |node.lessonGroups| == |shown|
            && (forall i :: 0 <= i < |shown| ==> node.lessonGroups[i] == ToGroupNode(shown[i], lessonsOf))
            && SortedBy(shown, GroupLe)
            && multiset(shown) == multiset(GroupsOf(allGroups, m.id))
            && (forall e :: Ties(shown, e, GroupLe) == Ties(GroupsOf(allGroups, m.id), e, GroupLe))
  {
    ComparatorsTotal();
    var gs := GroupsOf(allGroups, m.id);
    SortBySorted(gs, GroupLe);
    forall e ensures Ties(SortBy(gs, GroupLe), e, GroupLe) == Ties(gs, e, GroupLe) {
      SortByStable(gs, e, GroupLe);
    }
  }

  /** A group node lists its lessons sorted by orderIndex, nulls last; a null collection shows no lessons. */
  lemma LessonsOrdered(g: Row<LessonGroup>, lessonsOf: LessonLoader)
    ensures var shown := SortedLessons(lessonsOf, g.id);
            var node := ToGroupNode(g, lessonsOf);
            && |node.lessons| == |shown|
            && (forall i :: 0 <= i < |shown| ==> node.lessons[i].id == shown[i].id && node.lessons[i].title == shown[i].value.title)
            && SortedBy(shown, LessonLe)
            && multiset(shown) == multiset(lessonsOf(g.id).GetOr([]))
            && (forall e :: Ties(shown, e, LessonLe) == Ties(lessonsOf(g.id).GetOr([]), e, LessonLe))
            && (lessonsOf(g.id).None? ==> node.lessons == [])
  {
    ComparatorsTotal();
    var ls := lessonsOf(g.id).GetOr([]);
    SortBySorted(ls, LessonLe);
    forall e ensures Ties(SortBy(ls, LessonLe), e, LessonLe) == Ties(ls, e, LessonLe) {
      SortByStable(ls, e, LessonLe);
    }
  }

  /** With the JPA association, a group shows exactly the lessons that name it. */
  lemma AssociationLessons(t: Tables, g: Row<LessonGroup>)
    ensures forall l :: l in SortedLessons(Association(t), g.id) <==> l in t.lessons && l.value.lessonGroup == Some(g.id)
  {
    var ls := Association(t)(g.id).value;
    var shown := SortedLessons(Association(t), g.id);
    forall l ensures l in shown <==> l in ls {
      assert l in shown <==> l in multiset(shown);
      assert l in ls <==> l in multiset(ls);
    }
  }

  /** Indices already in order (nulls last) are kept in their repository order. */
  lemma OrderedModulesKept(t: Tables, courseId: Id)
    requires SortedBy(CourseModules(t, courseId), ModuleLe)
    ensures SortBy(CourseModules(t, courseId), ModuleLe) == CourseModules(t, courseId)
  {
    ComparatorsTotal();
    SortBySortedInput(CourseModules(t, courseId), ModuleLe);
  }
}
