/**
 * AdminController: every endpoint first checks that the caller holds the
 * ADMIN role (403 otherwise), then reads or changes one table.
 */
module Admin {
  import opened Wrappers
  import opened Entities
  import opened Repositories
  import opened Users

  /** The ResponseEntity outcomes: 403, 404 or 200 with a body. */
  datatype Response<T> = Forbidden | NotFound | Success(body: T)

  const MADE_ADMIN: string := "User is now an admin"
  const REMOVED_ADMIN: string := "Admin role removed"

  /** isAdmin: false for a missing caller or null roles. */
  predicate IsAdmin(user: Option<User>)
  {
    user.Some? && user.value.roles.Some? && ADMIN in user.value.roles.value
  }

  lemma IsAdminCases(user: Option<User>)
    ensures user.None? ==> !IsAdmin(user)
    ensures user.Some? && user.value.roles.None? ==> !IsAdmin(user)
    ensures user.Some? && user.value.roles.Some? ==> (IsAdmin(user) <==> ADMIN in user.value.roles.value)
  {
  }

  // ---------------------------------------------------------------------------
  // Roles
  // ---------------------------------------------------------------------------

  /** The roles makeAdmin stores: ADMIN added, or USER and ADMIN when the set was null. */
  function GrantAdmin(roles: Option<set<Role>>): (r: set<Role>)
    ensures ADMIN in r
    ensures roles.Some? ==> roles.value <= r && r - {ADMIN} == roles.value - {ADMIN}
    ensures roles.None? ==> r == {USER, ADMIN}
  {
    if roles.None? then {USER, ADMIN} else roles.value + {ADMIN}
  }

  /** The roles removeAdmin stores for a non-null set: ADMIN gone, every other role kept. */
  function RevokeAdmin(roles: set<Role>): (r: set<Role>)
    ensures ADMIN !in r
    ensures forall x :: x != ADMIN ==> (x in r <==> x in roles)
  {
    roles - {ADMIN}
  }

  /** Granting twice is granting once. */
  lemma GrantIdempotent(roles: Option<set<Role>>)
    ensures GrantAdmin(Some(GrantAdmin(roles))) == GrantAdmin(roles)
  {
  }

  /** Granting to a set that already holds ADMIN changes nothing. */
  lemma GrantAdminNoop(roles: set<Role>)
    requires ADMIN in roles
    ensures GrantAdmin(Some(roles)) == roles
  {
  }

  /** Granting then revoking restores every non-admin role, and revoking then granting equals granting. */
  lemma GrantRevoke(roles: set<Role>)
    ensures RevokeAdmin(GrantAdmin(Some(roles))) == RevokeAdmin(roles)
    ensures GrantAdmin(Some(RevokeAdmin(roles))) == GrantAdmin(Some(roles))
  {
    assert RevokeAdmin(GrantAdmin(Some(roles))) == RevokeAdmin(roles);
  }

  /** The user makeAdmin saves is an admin; the one removeAdmin saves is not. */
  lemma RolesDecideAdmin(u: User)
    ensures IsAdmin(Some(u.(roles := Some(GrantAdmin(u.roles)))))
    ensures u.roles.Some? ==> !IsAdmin(Some(u.(roles := Some(RevokeAdmin(u.roles.value)))))
  {
  }

  // ---------------------------------------------------------------------------
  // Partial updates
  // ---------------------------------------------------------------------------

  datatype UpdateCourseRequest = UpdateCourseRequest(title: Option<string>, description: Option<string>, category: Option<string>)

  datatype UpdateModuleRequest = UpdateModuleRequest(title: Option<string>, orderIndex: Option<int>)

  datatype UpdateLessonRequest = UpdateLessonRequest(
    title: Option<string>,
    description: Option<string>,
    videoKey: Option<string>,
    orderIndex: Option<int>)

  function PatchCourse(c: Course, req: UpdateCourseRequest): (r: Course)
    ensures r.title == req.title.GetOr(c.title)
    ensures r.description == (if req.description.Some? then req.description else c.description)
    ensures r.category == (if req.category.Some? then req.category else c.category)
    ensures r.createDate == c.createDate
  {
    var c1 := if req.title.Some? then c.(title := req.title.value) else c;
    var c2 := if req.description.Some? then c1.(description := req.description) else c1;
    if req.category.Some? then c2.(category := req.category) else c2
  }

  function PatchModule(m: Module, req: UpdateModuleRequest): (r: Module)
    ensures r.title == req.title.GetOr(m.title)
    ensures r.orderIndex == (if req.orderIndex.Some? then req.orderIndex else m.orderIndex)
    ensures r.course == m.course && r.duration == m.duration
  {
    var m1 := if req.title.Some? then m.(title := req.title.value) else m;
    if req.orderIndex.Some? then m1.(orderIndex := req.orderIndex) else m1
  }

  /** videoKey is written to resourcePath; the storage type, duration and group are never touched. */
  function PatchLesson(l: Lesson, req: UpdateLessonRequest): (r: Lesson)
    ensures r.title == req.title.GetOr(l.title)
    ensures r.description == (if req.description.Some? then req.description else l.description)
    ensures r.resourcePath == (if req.videoKey.Some? then req.videoKey else l.resourcePath)
    ensures r.orderIndex == (if req.orderIndex.Some? then req.orderIndex else l.orderIndex)
    ensures r.duration == l.duration && r.storageType == l.storageType && r.lessonGroup == l.lessonGroup
  {
    var l1 := if req.title.Some? then l.(title := req.title.value) else l;
    var l2 := if req.description.Some? then l1.(description := req.description) else l1;
    var l3 := if req.videoKey.Some? then l2.(resourcePath := req.videoKey) else l2;
    if req.orderIndex.Some? then l3.(orderIndex := req.orderIndex) else l3
  }

  /** An empty request leaves the entity as it was, and applying the same request twice is applying it once. */
  lemma PatchesIdempotent(c: Course, m: Module, l: Lesson, cr: UpdateCourseRequest, mr: UpdateModuleRequest,
                          lr: UpdateLessonRequest)
    ensures PatchCourse(c, UpdateCourseRequest(None, None, None)) == c
    ensures PatchModule(m, UpdateModuleRequest(None, None)) == m
    ensures PatchLesson(l, UpdateLessonRequest(None, None, None, None)) == l
    ensures PatchCourse(PatchCourse(c, cr), cr) == PatchCourse(c, cr)
    ensures PatchModule(PatchModule(m, mr), mr) == PatchModule(m, mr)
    ensures PatchLesson(PatchLesson(l, lr), lr) == PatchLesson(l, lr)
  {
  }

  // ---------------------------------------------------------------------------
  // The controller
  // ---------------------------------------------------------------------------

  datatype Stats = Stats(totalUsers: nat, totalCourses: nat, totalModules: nat, totalLessons: nat, totalEnrollments: nat)

  /** UserDTO. */
  datatype UserView = UserView(
    id: Id,
    email: string,
    name: Option<string>,
    profilePicture: Option<string>,
    authProvider: Option<string>,
    roles: Option<set<Role>>,
    createdAt: Option<Timestamp>)

  /** The user's columns, the provider by its enum name or null, the roles as stored. */
  function ToUserView(u: Row<User>): (r: UserView)
    ensures r.id == u.id && r.email == u.value.email && r.name == u.value.name
    ensures r.profilePicture == u.value.profilePicture && r.roles == u.value.roles && r.createdAt == u.value.createdAt
    ensures r.authProvider.None? <==> u.value.authProvider.None?
    ensures r.authProvider == Some("LOCAL") <==> u.value.authProvider == Some(AuthProvider.LOCAL)
    ensures r.authProvider == Some("GOOGLE") <==> u.value.authProvider == Some(GOOGLE)
  {
    UserView(u.id, u.value.email, u.value.name, u.value.profilePicture,
             if u.value.authProvider.Some? then Some(ProviderName(u.value.authProvider.value)) else None,
             u.value.roles, u.value.createdAt)
  }

  class AdminController {
    var users: seq<Row<User>>
    var courses: seq<Row<Course>>
    var modules: seq<Row<Module>>
    var lessons: seq<Row<Lesson>>
    /** The number of rows of the enrollments table, which this controller only counts. */
    const enrollmentCount: nat

    constructor(users: seq<Row<User>>, courses: seq<Row<Course>>, modules: seq<Row<Module>>, lessons: seq<Row<Lesson>>,
                enrollmentCount: nat)
      ensures this.users == users && this.courses == courses && this.modules == modules && this.lessons == lessons
      ensures this.enrollmentCount == enrollmentCount
    {
      this.users := users;
      this.courses := courses;
      this.modules := modules;
      this.lessons := lessons;
      this.enrollmentCount := enrollmentCount;
    }

    /** getStats: the row counts, for admins only. */
    function GetStats(currentUser: Option<User>): (r: Response<Stats>)
      reads this
      ensures r.Forbidden? <==> !IsAdmin(currentUser)
      ensures r.Success? ==> r.body == Stats(|users|, |courses|, |modules|, |lessons|, enrollmentCount)
      ensures !r.NotFound?
    {
      if !IsAdmin(currentUser) then Forbidden
      else Success(Stats(|users|, |courses|, |modules|, |lessons|, enrollmentCount))
    }

    /** getAllUsers: every user as a DTO, for admins only. */
    function GetAllUsers(currentUser: Option<User>): (r: Response<seq<UserView>>)
      reads this
      ensures r.Forbidden? <==> !IsAdmin(currentUser)
      ensures r.Success? ==> |r.body| == |users|
      ensures r.Success? ==> forall i :: 0 <= i < |users| ==> r.body[i] == ToUserView(users[i])
      ensures !r.NotFound?
    {
      if !IsAdmin(currentUser) then Forbidden else Success(MapSeq(users, ToUserView))
    }

    method MakeAdmin(currentUser: Option<User>, userId: Id) returns (r: Response<string>)
      modifies this
      ensures courses == old(courses) && modules == old(modules) && lessons == old(lessons)
      ensures !IsAdmin(currentUser) ==> r == Forbidden && users == old(users)
      ensures IsAdmin(currentUser) && FindById(old(users), userId).None? ==> r == NotFound && users == old(users)
      ensures IsAdmin(currentUser) && FindById(old(users), userId).Some? ==>
                var target := FindById(old(users), userId).value;
                r == Success(MADE_ADMIN) && users == Save(old(users), userId, target.(roles := Some(GrantAdmin(target.roles))))
      ensures r.Success? ==> IsAdmin(FindById(users, userId))
      ensures forall other :: other != userId ==> FindById(users, other) == old(FindById(users, other))
    {
      if !IsAdmin(currentUser) {
        return Forbidden;
      }
      var targetUser := FindById(users, userId);
      if targetUser.None? {
        return NotFound;
      }
      var roles := targetUser.value.roles;
      var granted: set<Role>;
      if roles.None? {
        granted := {USER, ADMIN};
      } else {
        granted := roles.value + {ADMIN};
      }
      users := Save(users, userId, targetUser.value.(roles := Some(granted)));
      r := Success(MADE_ADMIN);
    }

    method RemoveAdmin(currentUser: Option<User>, userId: Id) returns (r: Response<string>)
      modifies this
      ensures courses == old(courses) && modules == old(modules) && lessons == old(lessons)
      ensures !IsAdmin(currentUser) ==> r == Forbidden && users == old(users)
      ensures IsAdmin(currentUser) && FindById(old(users), userId).None? ==> r == NotFound && users == old(users)
      ensures IsAdmin(currentUser) && FindById(old(users), userId).Some? ==>
                var target := FindById(old(users), userId).value;
                && r == Success(REMOVED_ADMIN)
                && (target.roles.None? ==> users == old(users))
                && (target.roles.Some? ==> users == Save(old(users), userId, target.(roles := Some(RevokeAdmin(target.roles.value)))))
      ensures r.Success? ==> !IsAdmin(FindById(users, userId))
      ensures forall other :: other != userId ==> FindById(users, other) == old(FindById(users, other))
    {
      if !IsAdmin(currentUser) {
        return Forbidden;
      }
      var targetUser := FindById(users, userId);
      if targetUser.None? {
        return NotFound;
      }
      var roles := targetUser.value.roles;
      if roles.Some? {
        users := Save(users, userId, targetUser.value.(roles := Some(roles.value - {ADMIN})));
      }
      r := Success(REMOVED_ADMIN);
    }

    method UpdateCourse(currentUser: Option<User>, id: Id, request: UpdateCourseRequest) returns (r: Response<Course>)
      modifies this
      ensures users == old(users) && modules == old(modules) && lessons == old(lessons)
      ensures !IsAdmin(currentUser) ==> r == Forbidden && courses == old(courses)
      ensures IsAdmin(currentUser) && FindById(old(courses), id).None? ==> r == NotFound && courses == old(courses)
      ensures IsAdmin(currentUser) && FindById(old(courses), id).Some? ==>
                var patched := PatchCourse(FindById(old(courses), id).value, request);
                r == Success(patched) && courses == Save(old(courses), id, patched)
    {
      if !IsAdmin(currentUser) {
        return Forbidden;
      }
      var course := FindById(courses, id);
      if course.None? {
        return NotFound;
      }
      var c := course.value;
      if request.title.Some? {
        c := c.(title := request.title.value);
      }
      if request.description.Some? {
        c := c.(description := request.description);
      }
      if request.category.Some? {
        c := c.(category := request.category);
      }
      courses := Save(courses, id, c);
      r := Success(c);
    }

    method UpdateModule(currentUser: Option<User>, id: Id, request: UpdateModuleRequest) returns (r: Response<Module>)
      modifies this
      ensures users == old(users) && courses == old(courses) && lessons == old(lessons)
      ensures !IsAdmin(currentUser) ==> r == Forbidden && modules == old(modules)
      ensures IsAdmin(currentUser) && FindById(old(modules), id).None? ==> r == NotFound && modules == old(modules)
      ensures IsAdmin(currentUser) && FindById(old(modules), id).Some? ==>
                var patched := PatchModule(FindById(old(modules), id).value, request);
                r == Success(patched) && modules == Save(old(modules), id, patched)
    {
      if !IsAdmin(currentUser) {
        return Forbidden;
      }
      var found := FindById(modules, id);
      if found.None? {
        return NotFound;
      }
      var m := found.value;
      if request.title.Some? {
        m := m.(title := request.title.value);
      }
      if request.orderIndex.Some? {
        m := m.(orderIndex := request.orderIndex);
      }
      modules := Save(modules, id, m);
      r := Success(m);
    }

    method UpdateLesson(currentUser: Option<User>, id: Id, request: UpdateLessonRequest) returns (r: Response<Lesson>)
      modifies this
      ensures users == old(users) && courses == old(courses) && modules == old(modules)
      ensures !IsAdmin(currentUser) ==> r == Forbidden && lessons == old(lessons)
      ensures IsAdmin(currentUser) && FindById(old(lessons), id).None? ==> r == NotFound && lessons == old(lessons)
      ensures IsAdmin(currentUser) && FindById(old(lessons), id).Some? ==>
                var patched := PatchLesson(FindById(old(lessons), id).value, request);
                r == Success(patched) && lessons == Save(old(lessons), id, patched)
    {
      if !IsAdmin(currentUser) {
        return Forbidden;
      }
      var lesson := FindById(lessons, id);
      if lesson.None? {
        return NotFound;
      }
      var l := lesson.value;
      if request.title.Some? {
        l := l.(title := request.title.value);
      }
      if request.description.Some? {
        l := l.(description := request.description);
      }
      if request.videoKey.Some? {
        l := l.(resourcePath := request.videoKey);
      }
      if request.orderIndex.Some? {
        l := l.(orderIndex := request.orderIndex);
      }
      lessons := Save(lessons, id, l);
      r := Success(l);
    }
  }
}
