/**
 * LocalImportController: the scan of the local library folder into courses,
 * modules, lesson groups and lessons. The file system is an abstract tree of
 * entries; the repositories are the store the scan appends to.
 */
module LocalImport {
  import opened Wrappers
  import opened JavaText
  import opened Entities
  import opened Sorting
  import opened UnixPath
  import VideoStreaming
  import GoogleDrive

  // ---------------------------------------------------------------------------
  // Titles
  // ---------------------------------------------------------------------------

  /** cleanTitle: every '_' becomes a space, then the result is trimmed. */
  function CleanTitle(folderName: string): (r: string)
    ensures '_' !in r
    ensures r != [] ==> !IsTrimSpace(r[0]) && !IsTrimSpace(r[|r| - 1])
    ensures |r| <= |folderName|
  {
    var spaced := ReplaceChar(folderName, '_', ' ');
    ReplaceCharRemoves(folderName, '_', ' ');
    var r := Trim(spaced);
    NotInSlice(spaced, '_', TrimOffset(spaced), TrimOffset(spaced) + |r|);
    r
  }

  lemma NotInSlice(s: string, c: char, i: nat, j: nat)
    requires i <= j <= |s| && c !in s
    ensures c !in s[i..j]
  {
    forall k | 0 <= k < j - i ensures s[i..j][k] != c {
      assert s[i..j][k] == s[i + k];
    }
  }

  /** Cleaning a cleaned title changes nothing. */
  lemma CleanTitleIdempotent(folderName: string)
    ensures CleanTitle(CleanTitle(folderName)) == CleanTitle(folderName)
  {
    var r := CleanTitle(folderName);
    ReplaceCharNoop(r, '_', ' ');
    TrimNoop(r);
  }

  lemma ReplaceCharNoop(s: string, a: char, b: char)
    requires a !in s
    ensures ReplaceChar(s, a, b) == s
  {
  }

  /** A title without '_' and without white space at its ends is already clean. */
  lemma CleanTitleKeeps(title: string)
    requires '_' !in title && (title != [] ==> !IsTrimSpace(title[0]) && !IsTrimSpace(title[|title| - 1]))
    ensures CleanTitle(title) == title
  {
    ReplaceCharNoop(title, '_', ' ');
    TrimNoop(title);
  }

  /** The ".mp4" ending, in any letter case, is cut off. */
  function StripMp4(fileName: string): string
  {
    if EndsWith(ToLower(fileName), ".mp4") then fileName[..|fileName| - 4] else fileName
  }

  /** replaceFirst("^\\d+[-.]\\s*", ""): one leading number with '-' or '.' after it, and the white space after that. */
  function StripNumberPrefix(t: string): string
  {
    var d := LeadingDigits(t);
    if d >= 1 && d < |t| && (t[d] == '-' || t[d] == '.') then
      var rest := t[d + 1..];
      rest[LeadingSpaces(rest)..]
    else t
  }

  /** replaceFirst("-\\d+K$", ""): one trailing "-<digits>K" size mark. */
  function StripSizeSuffix(t: string): string
  {
    if t != [] && t[|t| - 1] == 'K' then
      var u := t[..|t| - 1];
      var j := TrailingDigits(u);
      if j >= 1 && j < |u| && u[|u| - j - 1] == '-' then u[..|u| - j - 1] else t
    else t
  }

  /** The lesson title createLesson makes from a video's file name. */
  function LessonTitle(fileName: string): string
  {
    StripSizeSuffix(StripNumberPrefix(StripMp4(fileName)))
  }

  /**
   * "07. Intro-1213K.MP4" and the like: a number, '-' or '.', white space, the
   * title, a size mark and the extension in any case; the title is what remains.
   */
  lemma LessonTitleOfDecoratedName(number: string, sep: char, spaces: string, title: string, size: string, ext: string)
    requires number != [] && AllDigits(number) && (sep == '-' || sep == '.')
    requires forall i :: 0 <= i < |spaces| ==> IsRegexSpace(spaces[i])
    requires title == [] || !IsRegexSpace(title[0])
    requires size != [] && AllDigits(size) && |ext| == 4 && ToLower(ext) == ".mp4"
    ensures LessonTitle(number + [sep] + spaces + title + "-" + size + "K" + ext) == title
  {
    var t := title + "-" + size + "K";
    var body := number + [sep] + spaces + t;
    Regroup(number + [sep] + spaces, title, size, ext);
    StripMp4Of(body, ext);
    StripNumberPrefixOf(number, sep, spaces, t);
    StripSizeSuffixOf(title, size);
  }

  lemma Regroup(a: string, title: string, size: string, ext: string)
    ensures a + title + "-" + size + "K" + ext == a + (title + "-" + size + "K") + ext
  {
    var t1 := title + "-";
    var t2 := t1 + size;
    assert a + title + "-" == a + t1;
    assert a + t1 + size == a + t2;
    assert a + t2 + "K" == a + (t2 + "K");
  }

  lemma StripMp4Of(body: string, ext: string)
    requires |ext| == 4 && ToLower(ext) == ".mp4"
    ensures StripMp4(body + ext) == body
  {
    ToLowerConcat(body, ext);
    var name := body + ext;
    assert ToLower(name)[|name| - 4..] == ToLower(ext);
    assert name[..|name| - 4] == body;
  }

  lemma StripNumberPrefixOf(number: string, sep: char, spaces: string, t: string)
    requires number != [] && AllDigits(number) && (sep == '-' || sep == '.')
    requires forall i :: 0 <= i < |spaces| ==> IsRegexSpace(spaces[i])
    requires t == [] || !IsRegexSpace(t[0])
    ensures StripNumberPrefix(number + [sep] + spaces + t) == t
  {
    var body := number + [sep] + spaces + t;
    assert body[..|number|] == number;
    assert body[|number|] == sep;
    LeadingDigitsOf(number, body);
    var rest := body[|number| + 1..];
    assert rest == spaces + t;
    LeadingSpacesOf(spaces, t);
    assert rest[|spaces|..] == t;
  }

  lemma StripSizeSuffixOf(title: string, size: string)
    requires size != [] && AllDigits(size)
    ensures StripSizeSuffix(title + "-" + size + "K") == title
  {
    var t := title + "-" + size + "K";
    var u := title + "-" + size;
    assert t[..|t| - 1] == u;
    assert u == (title + "-") + size;
    TrailingDigitsOf(size, title + "-");
    assert u[|u| - |size| - 1] == '-';
    assert u[..|u| - |size| - 1] == title;
  }

  lemma {:induction false} LeadingDigitsOf(number: string, s: string)
    requires AllDigits(number) && |number| < |s| && s[..|number|] == number && !IsDigit(s[|number|])
    ensures LeadingDigits(s) == |number|
  {
    if number != [] {
      assert s[1..][..|number| - 1] == number[1..];
      LeadingDigitsOf(number[1..], s[1..]);
    }
  }

  lemma {:induction false} LeadingSpacesOf(spaces: string, s: string)
    requires forall i :: 0 <= i < |spaces| ==> IsRegexSpace(spaces[i])
    requires s == [] || !IsRegexSpace(s[0])
    ensures LeadingSpaces(spaces + s) == |spaces|
  {
    if spaces != [] {
      assert (spaces + s)[1..] == spaces[1..] + s;
      LeadingSpacesOf(spaces[1..], s);
    } else {
      assert spaces + s == s;
    }
  }

  lemma {:induction false} TrailingDigitsOf(digits: string, s: string)
    requires AllDigits(digits) && s != [] && !IsDigit(s[|s| - 1])
    ensures TrailingDigits(s + digits) == |digits|
  {
    if digits == [] {
      assert s + digits == s;
    } else {
      var init := digits[..|digits| - 1];
      assert (s + digits)[..|s + digits| - 1] == s + init;
      TrailingDigitsOf(init, s);
    }
  }

  /** resourcePath: the names under the library root joined by '/', every '\\' turned into '/'. */
  function RelativePath(names: seq<string>): (r: string)
    ensures '\\' !in r
  {
    ReplaceCharRemoves(Join(names, "/"), '\\', '/');
    ReplaceChar(Join(names, "/"), '\\', '/')
  }

  /** A name as a directory listing yields it: not empty, not "." or "..", and free of '/'. */
  predicate ListedName(n: string) { PlainName(n) && '/' !in n }

  /** A relative path of listed names without '\\' reads back, as a path, to exactly those names. */
  lemma RelativePathParses(names: seq<string>)
    requires names != [] && forall i :: 0 <= i < |names| ==> ListedName(names[i]) && '\\' !in names[i]
    ensures ParsePath(RelativePath(names)) == FsPath(false, names)
  {
    var joined := Join(names, "/");
    PiecesJoin(names, '/');
    JoinPieces(joined, '/');
    assert '\\' !in joined by {
      if '\\' in joined {
        var k :| 0 <= k < |joined| && joined[k] == '\\';
        var ps := Pieces(joined, '/');
        assert ps == names;
        PieceHolding(joined, '/', k);
      }
    }
    ReplaceCharNoop(joined, '\\', '/');
    NamesNonEmpty(names);
    assert joined != [] ==> joined[0] == names[0][0] by {
      if |names| > 1 {
        assert joined == names[0] + "/" + Join(names[1..], "/");
      }
    }
  }

  /** Every character of s other than the delimiter lies in one of its pieces. */
  lemma {:induction false} PieceHolding(s: string, d: char, k: nat)
    requires k < |s| && s[k] != d
    ensures exists i :: 0 <= i < |Pieces(s, d)| && s[k] in Pieces(s, d)[i]
  {
    var rest := Pieces(s[1..], d);
    if k == 0 {
      assert s[0] in Pieces(s, d)[0];
    } else {
      PieceHolding(s[1..], d, k - 1);
      var i :| 0 <= i < |rest| && s[1..][k - 1] in rest[i];
      if s[0] == d {
        assert Pieces(s, d)[i + 1] == rest[i];
      } else if i == 0 {
        assert Pieces(s, d)[0] == [s[0]] + rest[0];
      } else {
        assert Pieces(s, d)[i] == rest[i];
      }
    }
  }

  // ---------------------------------------------------------------------------
  // The library tree
  // ---------------------------------------------------------------------------

  /** A directory entry: a file, or a folder with its listing (in Files.list order). */
  datatype Entry = FileEntry(name: string) | DirEntry(name: string, children: seq<Entry>)

  function Children(e: Entry): seq<Entry>
  {
    if e.DirEntry? then e.children else []
  }

  /** p.toString().toLowerCase().endsWith(".mp4"): true for a folder with such a name too. */
  predicate IsVideo(e: Entry) { EndsWith(ToLower(e.name), ".mp4") }

  /** The entries that look like videos, in listing order. */
  function Videos(es: seq<Entry>): (r: seq<Entry>)
    ensures |r| <= |es|
    ensures forall i :: 0 <= i < |r| ==> IsVideo(r[i]) && r[i] in es
  {
    if es == [] then []
    else Videos(es[..|es| - 1]) + (if IsVideo(es[|es| - 1]) then [es[|es| - 1]] else [])
  }

  /** The entries that are folders, in listing order. */
  function Folders(es: seq<Entry>): (r: seq<Entry>)
    ensures |r| <= |es|
    ensures forall i :: 0 <= i < |r| ==> r[i].DirEntry? && r[i] in es
  {
    if es == [] then []
    else Folders(es[..|es| - 1]) + (if es[|es| - 1].DirEntry? then [es[|es| - 1]] else [])
  }

  lemma {:induction false} VideosEmpty(es: seq<Entry>)
    ensures Videos(es) == [] <==> forall i :: 0 <= i < |es| ==> !IsVideo(es[i])
  {
    if es != [] {
      var k := |es| - 1;
      var init := es[..k];
      VideosEmpty(init);
      var last := es[k];
      assert Videos(es) == Videos(init) + (if IsVideo(last) then [last] else []);
      if Videos(es) == [] {
        forall i | 0 <= i < |es| ensures !IsVideo(es[i]) {
          if i < k { assert es[i] == init[i]; }
        }
      }
      if forall i :: 0 <= i < |es| ==> !IsVideo(es[i]) {
        assert !IsVideo(last);
        forall i | 0 <= i < k ensures !IsVideo(init[i]) { assert init[i] == es[i]; }
        assert Videos(init) == [];
      }
    }
  }

  lemma {:induction false} FoldersEmpty(es: seq<Entry>)
    ensures Folders(es) == [] <==> forall i :: 0 <= i < |es| ==> es[i].FileEntry?
  {
    if es != [] {
      var k := |es| - 1;
      var init := es[..k];
      FoldersEmpty(init);
      assert Folders(es) == Folders(init) + (if es[k].DirEntry? then [es[k]] else []);
      assert forall i :: 0 <= i < k ==> init[i] == es[i];
    }
  }

  /** Videos and no sub-folders: the videos hang directly below, under one wrapper. */
  predicate FlatFolder(children: seq<Entry>)
  {
    Folders(children) == [] && Videos(children) != []
  }

  /** Path order of siblings: their names compared character by character, a prefix first. */
  predicate NameLe(a: string, b: string)
  {
    a == [] || (b != [] && (a[0] < b[0] || (a[0] == b[0] && NameLe(a[1..], b[1..]))))
  }

  lemma {:induction false} NameLeTotal(a: string, b: string)
    ensures NameLe(a, b) || NameLe(b, a)
  {
    if a != [] && b != [] && a[0] == b[0] {
      NameLeTotal(a[1..], b[1..]);
    }
  }

  lemma {:induction false} NameLeTrans(a: string, b: string, c: string)
    requires NameLe(a, b) && NameLe(b, c)
    ensures NameLe(a, c)
  {
    if a != [] && b != [] && c != [] && a[0] == b[0] && b[0] == c[0] {
      NameLeTrans(a[1..], b[1..], c[1..]);
    }
  }

  const ByName: (Entry, Entry) -> bool := (x: Entry, y: Entry) => NameLe(x.name, y.name)

  lemma ByNamePreorder()
    ensures TotalPreorder(ByName)
  {
    forall x: Entry, y: Entry ensures ByName(x, y) || ByName(y, x) {
      NameLeTotal(x.name, y.name);
    }
    forall x: Entry, y: Entry, z: Entry | ByName(x, y) && ByName(y, z) ensures ByName(x, z) {
      NameLeTrans(x.name, y.name, z.name);
    }
  }

  /** Stream.sorted() on the listed paths. */
  function Sorted(es: seq<Entry>): seq<Entry>
  {
    SortBy(es, ByName)
  }

  /** The order the scan visits siblings in: by name, and no entry lost or repeated. */
  lemma SortedSiblings(es: seq<Entry>)
    ensures SortedBy(Sorted(es), ByName) && multiset(Sorted(es)) == multiset(es)
  {
    ByNamePreorder();
    SortBySorted(es, ByName);
  }

  // ---------------------------------------------------------------------------
  // What the scan saves
  // ---------------------------------------------------------------------------

  /** The four repositories; an entity's id is its position in its sequence. */
  datatype Store = Store(courses: seq<Course>, modules: seq<Module>, groups: seq<LessonGroup>, lessons: seq<Lesson>)

  /** t is s with entities appended and none changed. */
  predicate Extends(s: Store, t: Store)
  {
    s.courses <= t.courses && s.modules <= t.modules && s.groups <= t.groups && s.lessons <= t.lessons
  }

  const DESCRIPTION := "Imported from local library"
  const CATEGORY := "General"
  const DEFAULT_MODULE := "Default Module"
  const LESSONS_GROUP := "Lessons"

  /**
   * How the scan turns names into titles: `folder` for courses, modules and
   * groups, `lesson` for video files. The structure of what the scan saves
   * does not depend on them; SCAN_TITLES are the controller's own.
   */
  datatype Titling = Titling(folder: string -> string, lesson: string -> string)

  const SCAN_TITLES: Titling := Titling(CleanTitle, LessonTitle)

  /** createLesson: a local lesson whose resource path is relative to the library root. */
  function LocalLesson(tt: Titling, video: Entry, dir: seq<string>, groupId: Id, order: nat): Lesson
  {
    Lesson(tt.lesson(video.name), None, None, Some(order), Some(RelativePath(dir + [video.name])), Some(LOCAL), Some(groupId))
  }

  /** The lessons for a group's sorted videos: order indices 0, 1, 2, ... */
  function LessonsFor(tt: Titling, videos: seq<Entry>, dir: seq<string>, groupId: Id): (ls: seq<Lesson>)
    ensures |ls| == |videos|
  {
    seq(|videos|, i requires 0 <= i < |videos| => LocalLesson(tt, videos[i], dir, groupId, i))
  }

  lemma LessonsForAt(tt: Titling, videos: seq<Entry>, dir: seq<string>, groupId: Id, j: nat)
    requires j < |videos|
    ensures LessonsFor(tt, videos, dir, groupId)[j] == LocalLesson(tt, videos[j], dir, groupId, j)
  {
  }

  /** The folder titles of folders, in order. */
  function FolderTitles(tt: Titling, folders: seq<Entry>): (r: seq<string>)
    ensures |r| == |folders|
  {
    if folders == [] then [] else FolderTitles(tt, folders[..|folders| - 1]) + [tt.folder(folders[|folders| - 1].name)]
  }

  lemma {:induction false} FolderTitlesAt(tt: Titling, folders: seq<Entry>, i: nat)
    requires i < |folders|
    ensures FolderTitles(tt, folders)[i] == tt.folder(folders[i].name)
  {
    var k := |folders| - 1;
    if i < k {
      FolderTitlesAt(tt, folders[..k], i);
    }
  }

  /** From position base on, gs holds one group per title, in order, with order indices 0, 1, 2, ... */
  predicate GroupsInOrder(gs: seq<LessonGroup>, base: nat, moduleId: Id, titles: seq<string>)
  {
    && |gs| == base + |titles|
    && forall i :: 0 <= i < |titles| ==> gs[base + i] == LessonGroup(titles[i], Some(moduleId), Some(i))
  }

  /** From position base on, ms holds one module per title, in order, with order indices 0, 1, 2, ... */
  predicate ModulesInOrder(ms: seq<Module>, base: nat, courseId: Id, titles: seq<string>)
  {
    && |ms| == base + |titles|
    && forall i :: 0 <= i < |titles| ==> ms[base + i] == Module(titles[i], Some(courseId), None, Some(i))
  }

  /** createLessonGroup and then createLesson for each of its videos. */
  function WithGroup(tt: Titling, s: Store, moduleId: Id, title: string, order: nat, videos: seq<Entry>, dir: seq<string>): (t: Store)
    ensures Extends(s, t) && t.courses == s.courses && t.modules == s.modules
    ensures t.groups == s.groups + [LessonGroup(tt.folder(title), Some(moduleId), Some(order))]
    ensures |t.lessons| == |s.lessons| + |videos|
  {
    s.(groups := s.groups + [LessonGroup(tt.folder(title), Some(moduleId), Some(order))],
       lessons := s.lessons + LessonsFor(tt, videos, dir, |s.groups|))
  }

  /** The lesson-group folders of a module, in the given order, each with its own videos. */
  function WithGroupFolders(tt: Titling, s: Store, moduleId: Id, folders: seq<Entry>, dir: seq<string>): (t: Store)
    ensures Extends(s, t) && t.courses == s.courses && t.modules == s.modules
    ensures |t.groups| == |s.groups| + |folders|
  {
    if folders == [] then s
    else
      var k := |folders| - 1;
      var f := folders[k];
      var pre := WithGroupFolders(tt, s, moduleId, folders[..k], dir);
      var t := WithGroup(tt, pre, moduleId, f.name, k, Sorted(Videos(Children(f))), dir + [f.name]);
      t
  }

  /** createModule, then one "Lessons" group for a flat folder or one group per sub-folder. */
  function WithModule(tt: Titling, s: Store, courseId: Id, title: string, order: nat, children: seq<Entry>, dir: seq<string>): (t: Store)
    ensures Extends(s, t) && t.courses == s.courses
    ensures t.modules == s.modules + [Module(tt.folder(title), Some(courseId), None, Some(order))]
  {
    var s1 := s.(modules := s.modules + [Module(tt.folder(title), Some(courseId), None, Some(order))]);
    var m := |s.modules|;
    if FlatFolder(children) then WithGroup(tt, s1, m, LESSONS_GROUP, 0, Sorted(Videos(children)), dir)
    else WithGroupFolders(tt, s1, m, Sorted(Folders(children)), dir)
  }

  /** The module folders of a course, in the given order. */
  function WithModuleFolders(tt: Titling, s: Store, courseId: Id, folders: seq<Entry>, dir: seq<string>): (t: Store)
    ensures Extends(s, t) && t.courses == s.courses
    ensures |t.modules| == |s.modules| + |folders|
  {
    if folders == [] then s
    else
      var k := |folders| - 1;
      var f := folders[k];
      var pre := WithModuleFolders(tt, s, courseId, folders[..k], dir);
      var t := WithModule(tt, pre, courseId, f.name, k, Children(f), dir + [f.name]);
      t
  }

  /**
   * One course folder: skipped when its name starts with '.'; otherwise a course,
   * then a "Default Module" wrapping the course's own videos when the folder is
   * flat, or one module per sub-folder in name order.
   */
  function WithCourse(tt: Titling, s: Store, folder: Entry, now: Timestamp): (t: Store)
    ensures Extends(s, t)
  {
    if StartsWith(folder.name, ".") then s
    else
      var s1 := s.(courses := s.courses + [Course(tt.folder(folder.name), Some(DESCRIPTION), Some(CATEGORY), Some(now))]);
      var c := |s.courses|;
      var children := Children(folder);
      if FlatFolder(children) then WithModule(tt, s1, c, DEFAULT_MODULE, 0, children, [folder.name])
      else WithModuleFolders(tt, s1, c, Sorted(Folders(children)), [folder.name])
  }

  /** The course folders in listing order; the i-th is created at clock(i). */
  function WithCourses(tt: Titling, s: Store, folders: seq<Entry>, clock: nat -> Timestamp): (t: Store)
    ensures Extends(s, t)
  {
    if folders == [] then s
    else
      var k := |folders| - 1;
      WithCourse(tt, WithCourses(tt, s, folders[..k], clock), folders[k], clock(k))
  }

  // ---------------------------------------------------------------------------
  // scanLocalLibrary
  // ---------------------------------------------------------------------------

  lemma LessonsForSnoc(videos: seq<Entry>, dir: seq<string>, groupId: Id, i: nat)
    requires i < |videos|
    ensures LessonsFor(SCAN_TITLES, videos[..i + 1], dir, groupId)
            == LessonsFor(SCAN_TITLES, videos[..i], dir, groupId) + [LocalLesson(SCAN_TITLES, videos[i], dir, groupId, i)]
  {
    var a := LessonsFor(SCAN_TITLES, videos[..i + 1], dir, groupId);
    var b := LessonsFor(SCAN_TITLES, videos[..i], dir, groupId) + [LocalLesson(SCAN_TITLES, videos[i], dir, groupId, i)];
    forall j | 0 <= j <= i ensures a[j] == b[j] {
      LessonsForAt(SCAN_TITLES, videos[..i + 1], dir, groupId, j);
      if j < i {
        LessonsForAt(SCAN_TITLES, videos[..i], dir, groupId, j);
      }
    }
  }

  lemma SnocAssoc<T>(a: seq<T>, b: seq<T>, x: T)
    ensures a + b + [x] == a + (b + [x])
  {
  }

  /** The innermost loop: createLesson for each sorted video, lessonOrder counting up from 0. */
  method CreateLessons(s: Store, groupId: Id, videos: seq<Entry>, dir: seq<string>) returns (t: Store, lessonsCreated: nat)
    ensures t == s.(lessons := s.lessons + LessonsFor(SCAN_TITLES, videos, dir, groupId))
    ensures lessonsCreated == |videos|
  {
    t := s;
    lessonsCreated := 0;
    var lessonOrder := 0;
    for i := 0 to |videos|
      invariant lessonOrder == i && lessonsCreated == i
      invariant t.courses == s.courses && t.modules == s.modules && t.groups == s.groups
      invariant t.lessons == s.lessons + LessonsFor(SCAN_TITLES, videos[..i], dir, groupId)
    {
      var fileName := videos[i].name;
      var lesson := Lesson(LessonTitle(fileName), None, None, Some(lessonOrder), Some(RelativePath(dir + [fileName])), Some(LOCAL), Some(groupId));
      assert lesson == LocalLesson(SCAN_TITLES, videos[i], dir, groupId, i);
      LessonsForSnoc(videos, dir, groupId, i);
      SnocAssoc(s.lessons, LessonsFor(SCAN_TITLES, videos[..i], dir, groupId), lesson);
      t := t.(lessons := t.lessons + [lesson]);
      lessonOrder := lessonOrder + 1;
      lessonsCreated := lessonsCreated + 1;
    }
    WholePrefix(videos);
  }

  /** createLessonGroup followed by the lessons of its videos. */
  method CreateGroup(s: Store, moduleId: Id, title: string, order: nat, videos: seq<Entry>, dir: seq<string>)
    returns (t: Store, groupsCreated: nat, lessonsCreated: nat)
    ensures t == WithGroup(SCAN_TITLES, s, moduleId, title, order, videos, dir)
    ensures groupsCreated == 1 && lessonsCreated == |videos|
  {
    var groupId := |s.groups|;
    var s1 := s.(groups := s.groups + [LessonGroup(CleanTitle(title), Some(moduleId), Some(order))]);
    t, lessonsCreated := CreateLessons(s1, groupId, videos, dir);
    groupsCreated := 1;
  }

  /** The loop over a module's lesson-group folders, groupOrder counting up from 0. */
  method ImportGroupFolders(s: Store, moduleId: Id, folders: seq<Entry>, dir: seq<string>)
    returns (t: Store, groupsCreated: nat, lessonsCreated: nat)
    ensures t == WithGroupFolders(SCAN_TITLES, s, moduleId, folders, dir)
    ensures groupsCreated == |t.groups| - |s.groups| && lessonsCreated == |t.lessons| - |s.lessons|
  {
    t := s;
    groupsCreated, lessonsCreated := 0, 0;
    var groupOrder := 0;
    for i := 0 to |folders|
      invariant groupOrder == i
      invariant t == WithGroupFolders(SCAN_TITLES, s, moduleId, folders[..i], dir)
      invariant groupsCreated == |t.groups| - |s.groups| && lessonsCreated == |t.lessons| - |s.lessons|
    {
      var folder := folders[i];
      assert folders[..i + 1][..i] == folders[..i];
      var g, l;
      t, g, l := CreateGroup(t, moduleId, folder.name, groupOrder, Sorted(Videos(Children(folder))), dir + [folder.name]);
      groupOrder := groupOrder + 1;
      groupsCreated, lessonsCreated := groupsCreated + g, lessonsCreated + l;
    }
    WholePrefix(folders);
  }

  /** createModule and what lies below the module folder. */
  method ImportModule(s: Store, courseId: Id, title: string, order: nat, children: seq<Entry>, dir: seq<string>)
    returns (t: Store, groupsCreated: nat, lessonsCreated: nat)
    ensures t == WithModule(SCAN_TITLES, s, courseId, title, order, children, dir)
    ensures groupsCreated == |t.groups| - |s.groups| && lessonsCreated == |t.lessons| - |s.lessons|
  {
    var moduleId := |s.modules|;
    var s1 := s.(modules := s.modules + [Module(CleanTitle(title), Some(courseId), None, Some(order))]);
    var hasSubfolders := Folders(children) != [];
    var hasVideoFiles := Videos(children) != [];
    if !hasSubfolders && hasVideoFiles {
      t, groupsCreated, lessonsCreated := CreateGroup(s1, moduleId, LESSONS_GROUP, 0, Sorted(Videos(children)), dir);
    } else {
      t, groupsCreated, lessonsCreated := ImportGroupFolders(s1, moduleId, Sorted(Folders(children)), dir);
    }
  }

  /** The loop over a course's module folders, moduleOrder counting up from 0. */
  method ImportModuleFolders(s: Store, courseId: Id, folders: seq<Entry>, dir: seq<string>)
    returns (t: Store, modulesCreated: nat, groupsCreated: nat, lessonsCreated: nat)
    ensures t == WithModuleFolders(SCAN_TITLES, s, courseId, folders, dir)
    ensures modulesCreated == |t.modules| - |s.modules|
    ensures groupsCreated == |t.groups| - |s.groups| && lessonsCreated == |t.lessons| - |s.lessons|
  {
    t := s;
    modulesCreated, groupsCreated, lessonsCreated := 0, 0, 0;
    var moduleOrder := 0;
    for i := 0 to |folders|
      invariant moduleOrder == i
      invariant t == WithModuleFolders(SCAN_TITLES, s, courseId, folders[..i], dir)
      invariant modulesCreated == |t.modules| - |s.modules|
      invariant groupsCreated == |t.groups| - |s.groups| && lessonsCreated == |t.lessons| - |s.lessons|
    {
      var folder := folders[i];
      assert folders[..i + 1][..i] == folders[..i];
      var g, l;
      t, g, l := ImportModule(t, courseId, folder.name, moduleOrder, Children(folder), dir + [folder.name]);
      moduleOrder := moduleOrder + 1;
      modulesCreated, groupsCreated, lessonsCreated := modulesCreated + 1, groupsCreated + g, lessonsCreated + l;
    }
    WholePrefix(folders);
  }

  /** The body of the loop over course folders. */
  method ImportCourse(s: Store, folder: Entry, now: Timestamp)
    returns (t: Store, coursesCreated: nat, modulesCreated: nat, groupsCreated: nat, lessonsCreated: nat)
    ensures t == WithCourse(SCAN_TITLES, s, folder, now)
    ensures coursesCreated == |t.courses| - |s.courses| && modulesCreated == |t.modules| - |s.modules|
    ensures groupsCreated == |t.groups| - |s.groups| && lessonsCreated == |t.lessons| - |s.lessons|
  {
    var courseTitle := folder.name;
    if StartsWith(courseTitle, ".") {
      return s, 0, 0, 0, 0;
    }
    var courseId := |s.courses|;
    var s1 := s.(courses := s.courses + [Course(CleanTitle(courseTitle), Some(DESCRIPTION), Some(CATEGORY), Some(now))]);
    coursesCreated := 1;
    var children := Children(folder);
    var hasSubfolders := Folders(children) != [];
    var hasVideoFiles := Videos(children) != [];
    if !hasSubfolders && hasVideoFiles {
      t, groupsCreated, lessonsCreated := ImportModule(s1, courseId, DEFAULT_MODULE, 0, children, [courseTitle]);
      modulesCreated := 1;
    } else {
      t, modulesCreated, groupsCreated, lessonsCreated := ImportModuleFolders(s1, courseId, Sorted(Folders(children)), [courseTitle]);
    }
  }

  datatype ImportResponse = ImportResponse(
    message: string,
    coursesCreated: nat,
    modulesCreated: nat,
    groupsCreated: nat,
    lessonsCreated: nat,
    errors: seq<string>)

  datatype ImportReply = ImportReply(status: int, body: ImportResponse)

  function CompleteMessage(courses: nat, modules: nat, groups: nat, lessons: nat): string
  {
    "Import complete: " + NatToString(courses) + " courses, " + NatToString(modules) + " modules, "
      + NatToString(groups) + " groups, " + NatToString(lessons) + " lessons"
  }

  /** The loop over the library root's course folders; folder i is created at clock(i). */
  method ImportCourses(s: Store, courseList: seq<Entry>, clock: nat -> Timestamp)
    returns (t: Store, coursesCreated: nat, modulesCreated: nat, groupsCreated: nat, lessonsCreated: nat)
    ensures t == WithCourses(SCAN_TITLES, s, courseList, clock)
    ensures coursesCreated == |t.courses| - |s.courses| && modulesCreated == |t.modules| - |s.modules|
    ensures groupsCreated == |t.groups| - |s.groups| && lessonsCreated == |t.lessons| - |s.lessons|
  {
    coursesCreated, modulesCreated, groupsCreated, lessonsCreated := 0, 0, 0, 0;
    t := s;
    for i := 0 to |courseList|
      invariant t == WithCourses(SCAN_TITLES, s, courseList[..i], clock)
      invariant coursesCreated == |t.courses| - |s.courses| && modulesCreated == |t.modules| - |s.modules|
      invariant groupsCreated == |t.groups| - |s.groups| && lessonsCreated == |t.lessons| - |s.lessons|
    {
      assert courseList[..i + 1][..i] == courseList[..i];
      var c, m, g, l;
      t, c, m, g, l := ImportCourse(t, courseList[i], clock(i));
      coursesCreated, modulesCreated, groupsCreated, lessonsCreated :=
        coursesCreated + c, modulesCreated + m, groupsCreated + g, lessonsCreated + l;
    }
    WholePrefix(courseList);
  }

  /**
   * What the file system answers for the library root: it does not exist or
   * is not a directory; Files.list fails with an IOException (its message);
   * or its entries, in Files.list order.
   */
  datatype RootListing = NoRoot | ListFailed(message: string) | Listed(entries: seq<Entry>)

  /**
   * scanLocalLibrary. `root` is the configured library root as written;
   * course folder i is created at clock(i).
   */
  method ScanLocalLibrary(s: Store, root: string, listing: RootListing, clock: nat -> Timestamp)
    returns (t: Store, reply: ImportReply)
    ensures listing.NoRoot? ==>
              t == s && reply == ImportReply(400, ImportResponse("Library root does not exist: " + PathText(ParsePath(root)), 0, 0, 0, 0, []))
    ensures listing.ListFailed? ==>
              t == s && reply == ImportReply(500, ImportResponse("Error scanning library: " + listing.message, 0, 0, 0, 0, []))
    ensures listing.Listed? ==> t == WithCourses(SCAN_TITLES, s, Folders(listing.entries), clock)
    ensures listing.Listed? ==>
              reply.status == 200 && reply.body.errors == []
              && reply.body.coursesCreated == |t.courses| - |s.courses| && reply.body.modulesCreated == |t.modules| - |s.modules|
              && reply.body.groupsCreated == |t.groups| - |s.groups| && reply.body.lessonsCreated == |t.lessons| - |s.lessons|
              && reply.body.message == CompleteMessage(reply.body.coursesCreated, reply.body.modulesCreated,
                                                       reply.body.groupsCreated, reply.body.lessonsCreated)
  {
    match listing
    case NoRoot =>
      return s, ImportReply(400, ImportResponse("Library root does not exist: " + PathText(ParsePath(root)), 0, 0, 0, 0, []));
    case ListFailed(message) =>
      return s, ImportReply(500, ImportResponse("Error scanning library: " + message, 0, 0, 0, 0, []));
    case Listed(entries) =>
      var c, m, g, l;
      t, c, m, g, l := ImportCourses(s, Folders(entries), clock);
      reply := ImportReply(200, ImportResponse(CompleteMessage(c, m, g, l), c, m, g, l, []));
  }


  // ---------------------------------------------------------------------------
  // What the scan guarantees
  // ---------------------------------------------------------------------------

  /** The scan skips a course folder whose name starts with '.', and creates a course for any other. */
  lemma HiddenCourseSkipped(tt: Titling, s: Store, folder: Entry, now: Timestamp)
    ensures StartsWith(folder.name, ".") ==> WithCourse(tt, s, folder, now) == s
    ensures !StartsWith(folder.name, ".") ==>
              WithCourse(tt, s, folder, now).courses[..|s.courses| + 1]
              == s.courses + [Course(tt.folder(folder.name), Some(DESCRIPTION), Some(CATEGORY), Some(now))]
  {
    if !StartsWith(folder.name, ".") {
      var s1 := s.(courses := s.courses + [Course(tt.folder(folder.name), Some(DESCRIPTION), Some(CATEGORY), Some(now))]);
      assert WithCourse(tt, s, folder, now).courses == s1.courses;
    }
  }

  /** The groups of a module's sub-folders follow the folders' order and titles, with order indices 0, 1, 2, ... */
  lemma {:induction false} GroupFoldersInOrder(tt: Titling, s: Store, moduleId: Id, folders: seq<Entry>, dir: seq<string>)
    ensures GroupsInOrder(WithGroupFolders(tt, s, moduleId, folders, dir).groups, |s.groups|, moduleId, FolderTitles(tt, folders))
  {
    if folders != [] {
      var k := |folders| - 1;
      GroupFoldersInOrder(tt, s, moduleId, folders[..k], dir);
      var pre := WithGroupFolders(tt, s, moduleId, folders[..k], dir).groups;
      var g := WithGroupFolders(tt, s, moduleId, folders, dir).groups;
      assert g == pre + [LessonGroup(tt.folder(folders[k].name), Some(moduleId), Some(k))];
      var titles := FolderTitles(tt, folders);
      assert titles == FolderTitles(tt, folders[..k]) + [tt.folder(folders[k].name)];
      forall i | 0 <= i < |titles| ensures g[|s.groups| + i] == LessonGroup(titles[i], Some(moduleId), Some(i)) {
        if i < k {
          assert g[|s.groups| + i] == pre[|s.groups| + i];
        }
      }
    }
  }

  /** The modules of a course's sub-folders follow the folders' order and titles, with order indices 0, 1, 2, ... */
  lemma {:induction false} ModuleFoldersInOrder(tt: Titling, s: Store, courseId: Id, folders: seq<Entry>, dir: seq<string>)
    ensures ModulesInOrder(WithModuleFolders(tt, s, courseId, folders, dir).modules, |s.modules|, courseId, FolderTitles(tt, folders))
  {
    if folders != [] {
      var k := |folders| - 1;
      ModuleFoldersInOrder(tt, s, courseId, folders[..k], dir);
      var pre := WithModuleFolders(tt, s, courseId, folders[..k], dir).modules;
      var m := WithModuleFolders(tt, s, courseId, folders, dir).modules;
      assert m == pre + [Module(tt.folder(folders[k].name), Some(courseId), None, Some(k))];
      var titles := FolderTitles(tt, folders);
      assert titles == FolderTitles(tt, folders[..k]) + [tt.folder(folders[k].name)];
      forall i | 0 <= i < |titles| ensures m[|s.modules| + i] == Module(titles[i], Some(courseId), None, Some(i)) {
        if i < k {
          assert m[|s.modules| + i] == pre[|s.modules| + i];
        }
      }
    }
  }

  /**
   * A course folder holding only videos gets one module titled "Default Module"
   * (order 0) with one group titled "Lessons" (order 0) holding its videos in
   * name order.
   */
  lemma FlatCourseWrapped(tt: Titling, s: Store, folder: Entry, now: Timestamp)
    requires !StartsWith(folder.name, ".") && FlatFolder(Children(folder))
    ensures var t := WithCourse(tt, s, folder, now);
            && t.modules == s.modules + [Module(tt.folder(DEFAULT_MODULE), Some(|s.courses|), None, Some(0))]
            && t.groups == s.groups + [LessonGroup(tt.folder(LESSONS_GROUP), Some(|s.modules|), Some(0))]
            && t.lessons == s.lessons + LessonsFor(tt, Sorted(Videos(Children(folder))), [folder.name], |s.groups|)
  {
  }

  /** The controller's titling keeps the two wrapper names as they are. */
  lemma DefaultModuleTitleKept()
    ensures SCAN_TITLES.folder(DEFAULT_MODULE) == DEFAULT_MODULE
  {
    CleanTitleKeeps(DEFAULT_MODULE);
  }

  lemma LessonsGroupTitleKept()
    ensures SCAN_TITLES.folder(LESSONS_GROUP) == LESSONS_GROUP
  {
    CleanTitleKeeps(LESSONS_GROUP);
  }

  /** A module folder holding only videos gets one group titled "Lessons" (order 0) holding them in name order. */
  lemma FlatModuleWrapped(tt: Titling, s: Store, courseId: Id, title: string, order: nat, children: seq<Entry>, dir: seq<string>)
    requires FlatFolder(children)
    ensures var t := WithModule(tt, s, courseId, title, order, children, dir);
            && t.groups == s.groups + [LessonGroup(tt.folder(LESSONS_GROUP), Some(|s.modules|), Some(0))]
            && t.lessons == s.lessons + LessonsFor(tt, Sorted(Videos(children)), dir, |s.groups|)
  {
  }

  /** A module folder with sub-folders (or with no videos) gets one group per sub-folder, in name order; loose videos are ignored. */
  lemma NestedModuleGroups(tt: Titling, s: Store, courseId: Id, title: string, order: nat, children: seq<Entry>, dir: seq<string>)
    requires !FlatFolder(children)
    ensures GroupsInOrder(WithModule(tt, s, courseId, title, order, children, dir).groups, |s.groups|, |s.modules|,
                          FolderTitles(tt, Sorted(Folders(children))))
  {
    var s1 := s.(modules := s.modules + [Module(tt.folder(title), Some(courseId), None, Some(order))]);
    GroupFoldersInOrder(tt, s1, |s.modules|, Sorted(Folders(children)), dir);
  }

  /** A course folder with sub-folders (or with no videos) gets one module per sub-folder, in name order; loose videos are ignored. */
  lemma NestedCourseModules(tt: Titling, s: Store, folder: Entry, now: Timestamp)
    requires !StartsWith(folder.name, ".") && !FlatFolder(Children(folder))
    ensures ModulesInOrder(WithCourse(tt, s, folder, now).modules, |s.modules|, |s.courses|,
                           FolderTitles(tt, Sorted(Folders(Children(folder)))))
  {
    var s1 := s.(courses := s.courses + [Course(tt.folder(folder.name), Some(DESCRIPTION), Some(CATEGORY), Some(now))]);
    ModuleFoldersInOrder(tt, s1, |s.courses|, Sorted(Folders(Children(folder))), [folder.name]);
  }

  /** Names a listing can hold and that Path.toString() keeps as they are. */
  predicate ListedNames(names: seq<string>)
  {
    forall i :: 0 <= i < |names| ==> ListedName(names[i]) && '\\' !in names[i]
  }

  /** An entry whose name, and the name of everything below it, is such a name. */
  predicate WellNamed(e: Entry)
  {
    && ListedName(e.name) && '\\' !in e.name
    && (e.DirEntry? ==> forall i :: 0 <= i < |e.children| ==> WellNamed(e.children[i]))
  }

  predicate AllWellNamed(es: seq<Entry>)
  {
    forall e :: e in es ==> WellNamed(e)
  }

  lemma SelectedWellNamed(es: seq<Entry>)
    requires AllWellNamed(es)
    ensures AllWellNamed(Sorted(Videos(es))) && AllWellNamed(Sorted(Folders(es)))
  {
    forall e | e in Sorted(Videos(es)) ensures WellNamed(e) {
      assert e in multiset(Sorted(Videos(es)));
      assert e in multiset(Videos(es));
    }
    forall e | e in Sorted(Folders(es)) ensures WellNamed(e) {
      assert e in multiset(Sorted(Folders(es)));
      assert e in multiset(Folders(es));
    }
  }

  lemma ChildrenWellNamed(e: Entry)
    requires WellNamed(e)
    ensures AllWellNamed(Children(e))
  {
  }

  /**
   * A lesson the video endpoints can serve from the library: stored locally
   * under a relative path of at least a folder and a file, none of them "."
   * or "..".
   */
  predicate Servable(l: Lesson)
  {
    && l.storageType == Some(LOCAL) && l.resourcePath.Some?
    && var p := ParsePath(l.resourcePath.value);
    && !p.absolute && |p.names| >= 2
    && forall i :: 0 <= i < |p.names| ==> PlainName(p.names[i])
  }

  /** References that are set point at stored entities. */
  predicate Linked(st: Store)
  {
    && (forall i :: 0 <= i < |st.modules| && st.modules[i].course.Some? ==> st.modules[i].course.value < |st.courses|)
    && (forall i :: 0 <= i < |st.groups| && st.groups[i].parentModule.Some? ==> st.groups[i].parentModule.value < |st.modules|)
    && (forall i :: 0 <= i < |st.lessons| && st.lessons[i].lessonGroup.Some? ==> st.lessons[i].lessonGroup.value < |st.groups|)
  }

  /** t extends s and stays linked; everything added is attached to its owner, and every added lesson is servable. */
  predicate SoundGrowth(s: Store, t: Store)
  {
    && Extends(s, t) && Linked(t)
    && (forall i :: |s.modules| <= i < |t.modules| ==> t.modules[i].course.Some?)
    && (forall i :: |s.groups| <= i < |t.groups| ==> t.groups[i].parentModule.Some?)
    && (forall i :: |s.lessons| <= i < |t.lessons| ==> t.lessons[i].lessonGroup.Some? && Servable(t.lessons[i]))
  }

  lemma GrowthTrans(s: Store, t: Store, u: Store)
    requires SoundGrowth(s, t) && SoundGrowth(t, u)
    ensures SoundGrowth(s, u)
  {
    forall i | |s.modules| <= i < |t.modules| ensures u.modules[i] == t.modules[i] { }
    forall i | |s.groups| <= i < |t.groups| ensures u.groups[i] == t.groups[i] { }
    forall i | |s.lessons| <= i < |t.lessons| ensures u.lessons[i] == t.lessons[i] { }
  }

  /** The lesson for a video below listed folders is servable. */
  lemma LocalLessonServable(tt: Titling, video: Entry, dir: seq<string>, groupId: Id, order: nat)
    requires dir != [] && ListedNames(dir + [video.name])
    ensures Servable(LocalLesson(tt, video, dir, groupId, order))
  {
    RelativePathParses(dir + [video.name]);
  }

  /**
   * A servable lesson's file lies under any library root, at the root's own
   * path followed by the lesson's names, and its path is never taken for a
   * Google Drive file id.
   */
  lemma ServableResolves(l: Lesson, root: seq<string>)
    requires Servable(l)
    ensures var p := l.resourcePath.value;
            VideoStreaming.LibraryTarget(root, p) == (Normalize(root) + ParsePath(p).names, true)
    ensures !GoogleDrive.IsGoogleDriveResource(l.resourcePath)
  {
    var p := l.resourcePath.value;
    VideoStreaming.PlainRelativeInside(root, p);
    if '/' !in p {
      AtMostOneName(p);
    }
  }

  lemma AtMostOneName(p: string)
    requires '/' !in p
    ensures |ParsePath(p).names| <= 1
  {
    PiecesNoDelim(p, '/');
    assert Names([p]) == Names([]) + (if p == "" then [] else [p]);
  }

  lemma LessonsServable(tt: Titling, videos: seq<Entry>, dir: seq<string>, groupId: Id)
    requires dir != [] && ListedNames(dir) && AllWellNamed(videos)
    ensures var ls := LessonsFor(tt, videos, dir, groupId);
            forall j :: 0 <= j < |ls| ==> ls[j].lessonGroup == Some(groupId) && Servable(ls[j])
  {
    var ls := LessonsFor(tt, videos, dir, groupId);
    forall j | 0 <= j < |ls| ensures ls[j].lessonGroup == Some(groupId) && Servable(ls[j]) {
      LessonsForAt(tt, videos, dir, groupId, j);
      assert videos[j] in videos;
      LocalLessonServable(tt, videos[j], dir, groupId, j);
    }
  }

  lemma GroupGrowth(tt: Titling, s: Store, moduleId: Id, title: string, order: nat, videos: seq<Entry>, dir: seq<string>)
    requires Linked(s) && moduleId < |s.modules| && dir != [] && ListedNames(dir) && AllWellNamed(videos)
    ensures SoundGrowth(s, WithGroup(tt, s, moduleId, title, order, videos, dir))
  {
    var t := WithGroup(tt, s, moduleId, title, order, videos, dir);
    var ls := LessonsFor(tt, videos, dir, |s.groups|);
    LessonsServable(tt, videos, dir, |s.groups|);
    assert t.lessons == s.lessons + ls;
    forall i | |s.lessons| <= i < |t.lessons| ensures t.lessons[i].lessonGroup == Some(|s.groups|) && Servable(t.lessons[i]) {
      assert t.lessons[i] == ls[i - |s.lessons|];
    }
  }

  lemma {:induction false} GroupFoldersGrowth(tt: Titling, s: Store, moduleId: Id, folders: seq<Entry>, dir: seq<string>)
    requires Linked(s) && moduleId < |s.modules| && dir != [] && ListedNames(dir) && AllWellNamed(folders)
    ensures SoundGrowth(s, WithGroupFolders(tt, s, moduleId, folders, dir))
  {
    if folders != [] {
      var k := |folders| - 1;
      var f := folders[k];
      GroupFoldersGrowth(tt, s, moduleId, folders[..k], dir);
      var t := WithGroupFolders(tt, s, moduleId, folders[..k], dir);
      assert f in folders;
      ChildrenWellNamed(f);
      SelectedWellNamed(Children(f));
      GroupGrowth(tt, t, moduleId, f.name, k, Sorted(Videos(Children(f))), dir + [f.name]);
      GrowthTrans(s, t, WithGroupFolders(tt, s, moduleId, folders, dir));
    }
  }

  /** Saving a module of a stored course keeps the store linked. */
  lemma ModuleAdded(s: Store, m: Module)
    requires Linked(s) && m.course.Some? && m.course.value < |s.courses|
    ensures SoundGrowth(s, s.(modules := s.modules + [m]))
  {
  }

  /** Saving a course keeps the store linked. */
  lemma CourseAdded(s: Store, c: Course)
    requires Linked(s)
    ensures SoundGrowth(s, s.(courses := s.courses + [c]))
  {
  }

  lemma ModuleGrowth(tt: Titling, s: Store, courseId: Id, title: string, order: nat, children: seq<Entry>, dir: seq<string>)
    requires Linked(s) && courseId < |s.courses| && dir != [] && ListedNames(dir) && AllWellNamed(children)
    ensures SoundGrowth(s, WithModule(tt, s, courseId, title, order, children, dir))
  {
    var s1 := s.(modules := s.modules + [Module(tt.folder(title), Some(courseId), None, Some(order))]);
    ModuleAdded(s, Module(tt.folder(title), Some(courseId), None, Some(order)));
    SelectedWellNamed(children);
    if FlatFolder(children) {
      GroupGrowth(tt, s1, |s.modules|, LESSONS_GROUP, 0, Sorted(Videos(children)), dir);
    } else {
      GroupFoldersGrowth(tt, s1, |s.modules|, Sorted(Folders(children)), dir);
    }
    GrowthTrans(s, s1, WithModule(tt, s, courseId, title, order, children, dir));
  }

  lemma {:induction false} ModuleFoldersGrowth(tt: Titling, s: Store, courseId: Id, folders: seq<Entry>, dir: seq<string>)
    requires Linked(s) && courseId < |s.courses| && dir != [] && ListedNames(dir) && AllWellNamed(folders)
    ensures SoundGrowth(s, WithModuleFolders(tt, s, courseId, folders, dir))
  {
    if folders != [] {
      var k := |folders| - 1;
      var f := folders[k];
      ModuleFoldersGrowth(tt, s, courseId, folders[..k], dir);
      var t := WithModuleFolders(tt, s, courseId, folders[..k], dir);
      assert f in folders;
      ChildrenWellNamed(f);
      ModuleGrowth(tt, t, courseId, f.name, k, Children(f), dir + [f.name]);
      GrowthTrans(s, t, WithModuleFolders(tt, s, courseId, folders, dir));
    }
  }

  lemma CourseGrowth(tt: Titling, s: Store, folder: Entry, now: Timestamp)
    requires Linked(s) && WellNamed(folder)
    ensures SoundGrowth(s, WithCourse(tt, s, folder, now))
  {
    if !StartsWith(folder.name, ".") {
      var c := Course(tt.folder(folder.name), Some(DESCRIPTION), Some(CATEGORY), Some(now));
      var s1 := s.(courses := s.courses + [c]);
      CourseAdded(s, c);
      ChildrenWellNamed(folder);
      CourseBodyGrowth(tt, s1, |s.courses|, folder);
      GrowthTrans(s, s1, WithCourse(tt, s, folder, now));
    }
  }

  /** What a visible course folder adds below its course. */
  lemma CourseBodyGrowth(tt: Titling, s1: Store, courseId: Id, folder: Entry)
    requires Linked(s1) && courseId < |s1.courses| && WellNamed(folder) && AllWellNamed(Children(folder))
    ensures var children := Children(folder);
            SoundGrowth(s1, if FlatFolder(children) then WithModule(tt, s1, courseId, DEFAULT_MODULE, 0, children, [folder.name])
                            else WithModuleFolders(tt, s1, courseId, Sorted(Folders(children)), [folder.name]))
  {
    var children := Children(folder);
    if FlatFolder(children) {
      ModuleGrowth(tt, s1, courseId, DEFAULT_MODULE, 0, children, [folder.name]);
    } else {
      SelectedWellNamed(children);
      ModuleFoldersGrowth(tt, s1, courseId, Sorted(Folders(children)), [folder.name]);
    }
  }

  /**
   * A scan of a library whose names are all listable keeps the store linked:
   * every module it adds belongs to a course, every group to a module, every
   * lesson to a group, and every lesson it adds is a local file under the
   * library root.
   */
  lemma {:induction false} ScanGrowth(tt: Titling, s: Store, folders: seq<Entry>, clock: nat -> Timestamp)
    requires Linked(s) && AllWellNamed(folders)
    ensures SoundGrowth(s, WithCourses(tt, s, folders, clock))
  {
    if folders != [] {
      var k := |folders| - 1;
      ScanGrowth(tt, s, folders[..k], clock);
      var t := WithCourses(tt, s, folders[..k], clock);
      assert folders[k] in folders;
      CourseGrowth(tt, t, folders[k], clock(k));
      GrowthTrans(s, t, WithCourses(tt, s, folders, clock));
    }
  }
}
