/**
 * The start-up pass that repairs lessons imported without their video: a
 * lesson whose `duration` column holds a Drive file id (more than ten
 * characters) is a source, and every other lesson without a usable
 * `resourcePath` takes the file id of the first source with the same
 * normalised title.
 */
module LessonDataFixer {
  import opened Wrappers
  import opened JavaText
  import opened Entities

  // ---------------------------------------------------------------------------
  // normalizeTitle
  // ---------------------------------------------------------------------------

  predicate IsLowerAlnum(c: char) { 'a' <= c <= 'z' || '0' <= c <= '9' }

  /** String.replaceAll("[^a-z0-9]", ""): keeps the lower-case letters and digits, in order. */
  function KeepLowerAlnum(s: string): (r: string)
    ensures |r| <= |s|
    ensures forall i :: 0 <= i < |r| ==> IsLowerAlnum(r[i])
    ensures forall c :: c in r ==> c in s
  {
    if s == [] then []
    else (if IsLowerAlnum(s[0]) then [s[0]] else []) + KeepLowerAlnum(s[1..])
  }

  /** Filtering a string that holds only lower-case letters and digits changes nothing. */
  lemma {:induction false} KeepLowerAlnumNoop(s: string)
    requires forall i :: 0 <= i < |s| ==> IsLowerAlnum(s[i])
    ensures KeepLowerAlnum(s) == s
  {
    if s != [] {
      assert IsLowerAlnum(s[0]);
      KeepLowerAlnumNoop(s[1..]);
      assert [s[0]] + s[1..] == s;
    }
  }

  /** Filtering keeps exactly the lower-case letters and digits: the counts of those agree. */
  lemma {:induction false} KeepLowerAlnumCounts(s: string, c: char)
    ensures IsLowerAlnum(c) ==> multiset(KeepLowerAlnum(s))[c] == multiset(s)[c]
    ensures !IsLowerAlnum(c) ==> multiset(KeepLowerAlnum(s))[c] == 0
  {
    if s != [] {
      KeepLowerAlnumCounts(s[1..], c);
      assert s == [s[0]] + s[1..];
      assert multiset(s) == multiset([s[0]]) + multiset(s[1..]);
    }
  }

  const MP4_EXTENSION: string := ".mp4"

  /** normalizeTitle: "" for null; otherwise lower-cased, ".mp4" removed, then only [a-z0-9] kept and trimmed. */
  function NormalizeTitle(title: Option<string>): string
  {
    match title
    case None => ""
    case Some(t) => Trim(KeepLowerAlnum(RemoveAll(ToLower(t), MP4_EXTENSION)))
  }

  lemma TrimLowerAlnum(s: string)
    requires forall i :: 0 <= i < |s| ==> IsLowerAlnum(s[i])
    ensures Trim(s) == s
  {
    TrimNoop(s);
  }

  /** A normalised title is made of lower-case letters and digits only; a null title normalises to "". */
  lemma NormalizedAlphabet(title: Option<string>)
    ensures title.None? ==> NormalizeTitle(title) == ""
    ensures forall i :: 0 <= i < |NormalizeTitle(title)| ==> IsLowerAlnum(NormalizeTitle(title)[i])
  {
    if title.Some? {
      var k := KeepLowerAlnum(RemoveAll(ToLower(title.value), MP4_EXTENSION));
      TrimLowerAlnum(k);
    }
  }

  /** Normalising twice is normalising once. */
  lemma NormalizeIdempotent(title: Option<string>)
    ensures NormalizeTitle(Some(NormalizeTitle(title))) == NormalizeTitle(title)
  {
    var n := NormalizeTitle(title);
    NormalizedAlphabet(title);
    forall i | 0 <= i < |n| ensures ToLower(n)[i] == n[i] { }
    assert ToLower(n) == n;
    NotContainsHead(n, MP4_EXTENSION);
    RemoveAllAbsent(n, MP4_EXTENSION);
    KeepLowerAlnumNoop(n);
    TrimLowerAlnum(n);
  }

  /** Titles that differ only in letter case normalise alike. */
  lemma NormalizeIgnoresCase(t: string)
    ensures NormalizeTitle(Some(ToLower(t))) == NormalizeTitle(Some(t))
  {
    ToLowerIdempotent(t);
  }

  /** A title without the extension, dots, case or punctuation to remove normalises to itself. */
  lemma PlainTitleKept(t: string)
    requires forall i :: 0 <= i < |t| ==> IsLowerAlnum(t[i])
    ensures NormalizeTitle(Some(t)) == t
  {
    forall i | 0 <= i < |t| ensures ToLower(t)[i] == t[i] { }
    assert ToLower(t) == t;
    NotContainsHead(t, MP4_EXTENSION);
    RemoveAllAbsent(t, MP4_EXTENSION);
    KeepLowerAlnumNoop(t);
    TrimLowerAlnum(t);
  }

  // ---------------------------------------------------------------------------
  // The sources: lessons WITH video data
  // ---------------------------------------------------------------------------

  const ID_LENGTH_FLOOR: nat := 10

  /** A lesson whose duration holds a Drive file id (more than ten characters). */
  predicate IsSource(l: Lesson)
  {
    l.duration.Some? && |l.duration.value| > ID_LENGTH_FLOOR
  }

  /** normalizeTitle on a lesson's title, which the entity never leaves null. */
  function NormalizeText(t: string): string { NormalizeTitle(Some(t)) }

  /*
   * The map and the pass below take the title normaliser as a parameter: what
   * they guarantee does not depend on how titles are normalised, and the pass
   * itself is run with TITLE_NORM.
   */
  const TITLE_NORM: string -> string := NormalizeText

  /**
   * Collectors.toMap over the sources, keyed by normalised title, the merge function
   * (a, b) -> a keeping the earlier lesson on a duplicate key.
   */
  function SourceMap(ls: seq<Lesson>, norm: string -> string): (m: map<string, Lesson>)
    ensures forall k :: k in m ==> IsSource(m[k]) && norm(m[k].title) == k && m[k] in ls
  {
    if ls == [] then map[]
    else
      var rest := SourceMap(ls[1..], norm);
      if IsSource(ls[0]) then rest[norm(ls[0].title) := ls[0]] else rest
  }

  /** A key is in the map exactly when some source lesson has it. */
  lemma {:induction false} SourceMapKeys(ls: seq<Lesson>, norm: string -> string, k: string)
    ensures k in SourceMap(ls, norm) <==> exists i :: 0 <= i < |ls| && IsSource(ls[i]) && norm(ls[i].title) == k
  {
    if ls != [] {
      SourceMapKeys(ls[1..], norm, k);
      if k in SourceMap(ls[1..], norm) {
        var i :| 0 <= i < |ls[1..]| && IsSource(ls[1..][i]) && norm(ls[1..][i].title) == k;
        assert ls[i + 1] == ls[1..][i];
      }
      if exists i :: 0 <= i < |ls| && IsSource(ls[i]) && norm(ls[i].title) == k {
        var i :| 0 <= i < |ls| && IsSource(ls[i]) && norm(ls[i].title) == k;
        if i > 0 {
          assert ls[1..][i - 1] == ls[i];
        }
      }
    }
  }

  /** On a duplicate key the first source in the list wins. */
  lemma {:induction false} SourceMapFirst(ls: seq<Lesson>, norm: string -> string, i: nat)
    requires i < |ls| && IsSource(ls[i])
    requires forall j :: 0 <= j < i ==> !(IsSource(ls[j]) && norm(ls[j].title) == norm(ls[i].title))
    ensures norm(ls[i].title) in SourceMap(ls, norm) && SourceMap(ls, norm)[norm(ls[i].title)] == ls[i]
  {
    if i > 0 {
      assert ls[1..][i - 1] == ls[i];
      forall j | 0 <= j < i - 1 ensures !(IsSource(ls[1..][j]) && norm(ls[1..][j].title) == norm(ls[i].title)) {
        assert ls[1..][j] == ls[j + 1];
      }
      SourceMapFirst(ls[1..], norm, i - 1);
      assert !(IsSource(ls[0]) && norm(ls[0].title) == norm(ls[i].title));
    }
  }

  /** The least index of a source with a given key. */
  lemma {:induction false} FirstWithKey(ls: seq<Lesson>, norm: string -> string, k: string, j: nat) returns (f: nat)
    requires j < |ls| && IsSource(ls[j]) && norm(ls[j].title) == k
    ensures f <= j && IsSource(ls[f]) && norm(ls[f].title) == k
    ensures forall x :: 0 <= x < f ==> !(IsSource(ls[x]) && norm(ls[x].title) == k)
    decreases j
  {
    if exists x :: 0 <= x < j && IsSource(ls[x]) && norm(ls[x].title) == k {
      var x :| 0 <= x < j && IsSource(ls[x]) && norm(ls[x].title) == k;
      f := FirstWithKey(ls, norm, k, x);
    } else {
      f := j;
    }
  }

  // ---------------------------------------------------------------------------
  // The fix pass
  // ---------------------------------------------------------------------------

  /** A lesson already pointing at a Drive file: a resourcePath of more than ten characters without "/". */
  predicate HasDriveId(l: Lesson)
  {
    l.resourcePath.Some? && |l.resourcePath.value| > ID_LENGTH_FLOOR && !Contains(l.resourcePath.value, "/")
  }

  /** The loop's branch that copies video data: neither skip applies and a source has the key. */
  predicate Repaired(l: Lesson, sources: map<string, Lesson>, norm: string -> string)
  {
    !HasDriveId(l) && !IsSource(l) && norm(l.title) in sources
  }

  /** One iteration of the loop, on the lesson it visits. */
  function FixLesson(l: Lesson, sources: map<string, Lesson>, norm: string -> string): (r: Lesson)
    ensures r.title == l.title && r.description == l.description && r.orderIndex == l.orderIndex
    ensures r.storageType == l.storageType && r.lessonGroup == l.lessonGroup
    ensures r != l ==> Repaired(l, sources, norm)
  {
    if Repaired(l, sources, norm) then
      l.(resourcePath := sources[norm(l.title)].duration, duration := None)
    else l
  }

  /** Every lesson after the pass. */
  function FixAll(ls: seq<Lesson>, sources: map<string, Lesson>, norm: string -> string): (r: seq<Lesson>)
    ensures |r| == |ls|
    ensures forall i :: 0 <= i < |ls| ==> r[i] == FixLesson(ls[i], sources, norm)
  {
    seq(|ls|, i requires 0 <= i < |ls| => FixLesson(ls[i], sources, norm))
  }

  /** The number of times the loop takes the repairing branch (`updated`). */
  function RepairCount(ls: seq<Lesson>, sources: map<string, Lesson>, norm: string -> string): (n: nat)
    ensures n <= |ls|
  {
    if ls == [] then 0
    else RepairCount(ls[..|ls| - 1], sources, norm) + (if Repaired(ls[|ls| - 1], sources, norm) then 1 else 0)
  }

  /** Counting one more lesson of the list. */
  lemma RepairCountNext(ls: seq<Lesson>, i: nat, sources: map<string, Lesson>, norm: string -> string)
    requires i < |ls|
    ensures RepairCount(ls[..i + 1], sources, norm)
            == RepairCount(ls[..i], sources, norm) + (if Repaired(ls[i], sources, norm) then 1 else 0)
  {
    assert ls[..i + 1][..i] == ls[..i];
    assert ls[..i + 1][i] == ls[i];
  }

  /** The loop invariant is kept once position i holds its fixed value. */
  lemma FixedPrefixGrows(lessons: seq<Lesson>, allLessons: seq<Lesson>, i: nat,
                         sources: map<string, Lesson>, norm: string -> string)
    requires |lessons| == |allLessons| && i < |lessons|
    requires forall j :: 0 <= j < i ==> lessons[j] == FixLesson(allLessons[j], sources, norm)
    requires lessons[i] == FixLesson(allLessons[i], sources, norm)
    ensures forall j :: 0 <= j < i + 1 ==> lessons[j] == FixLesson(allLessons[j], sources, norm)
  {
  }

  /**
   * The body of the loop for one lesson: the two skips, then the lookup by
   * normalised title; `repaired` says whether the lesson was changed and saved.
   */
  method FixOne(lesson: Lesson, withVideo: map<string, Lesson>) returns (fixedLesson: Lesson, repaired: bool)
    ensures fixedLesson == FixLesson(lesson, withVideo, TITLE_NORM)
    ensures repaired == Repaired(lesson, withVideo, TITLE_NORM)
  {
    fixedLesson, repaired := lesson, false;
    if lesson.resourcePath.Some? && |lesson.resourcePath.value| > ID_LENGTH_FLOOR
       && !Contains(lesson.resourcePath.value, "/") {
      return;
    }
    if lesson.duration.Some? && |lesson.duration.value| > ID_LENGTH_FLOOR {
      return;
    }
    var normalized := NormalizeTitle(Some(lesson.title));
    assert normalized == TITLE_NORM(lesson.title);
    if normalized in withVideo {
      var source := withVideo[normalized];
      fixedLesson, repaired := lesson.(resourcePath := source.duration, duration := None), true;
    }
  }

  /**
   * fixLessonData over the list findAll returned. The lessons the loop
   * changes (and saves) are replaced in `lessons`, which ends as the
   * repository's contents; `updated` counts them. The map of sources is
   * built once, before the loop.
   */
  method FixLessonData(allLessons: seq<Lesson>) returns (lessons: seq<Lesson>, updated: nat)
    ensures var sources := SourceMap(allLessons, TITLE_NORM);
            && lessons == FixAll(allLessons, sources, TITLE_NORM)
            && updated == RepairCount(allLessons, sources, TITLE_NORM)
  {
    var withVideo := SourceMap(allLessons, TITLE_NORM);
    lessons, updated := RepairLessons(allLessons, withVideo);
  }

  /** The loop of fixLessonData, over any map of sources built before it. */
  method RepairLessons(allLessons: seq<Lesson>, withVideo: map<string, Lesson>) returns (lessons: seq<Lesson>, updated: nat)
    ensures lessons == FixAll(allLessons, withVideo, TITLE_NORM)
    ensures updated == RepairCount(allLessons, withVideo, TITLE_NORM)
  {
    lessons := allLessons;
    updated := 0;
    for i := 0 to |allLessons|
      invariant |lessons| == |allLessons|
      invariant forall j :: i <= j < |lessons| ==> lessons[j] == allLessons[j]
      invariant forall j :: 0 <= j < i ==> lessons[j] == FixLesson(allLessons[j], withVideo, TITLE_NORM)
      invariant updated == RepairCount(allLessons[..i], withVideo, TITLE_NORM)
    {
      RepairCountNext(allLessons, i, withVideo, TITLE_NORM);
      var fixedLesson, repaired := FixOne(lessons[i], withVideo);
      if repaired {
        lessons := lessons[i := fixedLesson];
        updated := updated + 1;
      }
      FixedPrefixGrows(lessons, allLessons, i, withVideo, TITLE_NORM);
    }
    WholePrefix(allLessons);
  }

  // ---------------------------------------------------------------------------
  // What the pass guarantees
  // ---------------------------------------------------------------------------

  /**
   * A repaired lesson takes the file id of the first source with its key,
   * which is over ten characters long, and has its duration cleared; the
   * other fields are kept (FixLesson's contract).
   */
  lemma RepairedFromFirstSource(ls: seq<Lesson>, norm: string -> string, i: nat)
    requires i < |ls| && Repaired(ls[i], SourceMap(ls, norm), norm)
    ensures exists j :: 0 <= j < |ls| && IsSource(ls[j]) && norm(ls[j].title) == norm(ls[i].title)
                        && (forall x :: 0 <= x < j ==> !(IsSource(ls[x]) && norm(ls[x].title) == norm(ls[i].title)))
                        && FixAll(ls, SourceMap(ls, norm), norm)[i] == ls[i].(resourcePath := ls[j].duration, duration := None)
    ensures var r := FixAll(ls, SourceMap(ls, norm), norm)[i];
            r.duration.None? && r.resourcePath.Some? && |r.resourcePath.value| > ID_LENGTH_FLOOR
  {
    var k := norm(ls[i].title);
    SourceMapKeys(ls, norm, k);
    var j0 :| 0 <= j0 < |ls| && IsSource(ls[j0]) && norm(ls[j0].title) == k;
    var j := FirstWithKey(ls, norm, k, j0);
    SourceMapFirst(ls, norm, j);
  }

  /** Sources and lessons already holding a file id are left as they are. */
  lemma SkippedUnchanged(ls: seq<Lesson>, sources: map<string, Lesson>, norm: string -> string, i: nat)
    requires i < |ls| && (IsSource(ls[i]) || HasDriveId(ls[i]))
    ensures FixAll(ls, sources, norm)[i] == ls[i]
  {
  }

  /** Repairing never turns a lesson into a source, nor a source into anything else. */
  lemma FixKeepsSources(l: Lesson, sources: map<string, Lesson>, norm: string -> string)
    ensures IsSource(FixLesson(l, sources, norm)) <==> IsSource(l)
    ensures IsSource(l) ==> FixLesson(l, sources, norm) == l
    ensures norm(FixLesson(l, sources, norm).title) == norm(l.title)
  {
    var r := FixLesson(l, sources, norm);
    if r != l {
      assert r.title == l.title;
      assert r == l.(resourcePath := r.resourcePath, duration := None);
    }
  }

  /** After the pass the map of sources is the same as before it. */
  lemma {:induction false} FixAllKeepsSourceMap(ls: seq<Lesson>, sources: map<string, Lesson>, norm: string -> string)
    ensures SourceMap(FixAll(ls, sources, norm), norm) == SourceMap(ls, norm)
  {
    if ls != [] {
      var f := FixAll(ls, sources, norm);
      assert f[1..] == FixAll(ls[1..], sources, norm);
      FixAllKeepsSourceMap(ls[1..], sources, norm);
      FixKeepsSources(ls[0], sources, norm);
    }
  }

  /** One lesson repaired twice with the same map is repaired once. */
  lemma FixLessonIdempotent(l: Lesson, sources: map<string, Lesson>, norm: string -> string)
    ensures FixLesson(FixLesson(l, sources, norm), sources, norm) == FixLesson(l, sources, norm)
  {
    var r := FixLesson(l, sources, norm);
    FixKeepsSources(l, sources, norm);
    if r != l && Repaired(r, sources, norm) {
      assert r == l.(resourcePath := sources[norm(l.title)].duration, duration := None);
    }
  }

  /** Running the fixer again, on what the first run left, changes no lesson. */
  lemma FixerIdempotent(ls: seq<Lesson>, norm: string -> string)
    ensures var once := FixAll(ls, SourceMap(ls, norm), norm);
            FixAll(once, SourceMap(once, norm), norm) == once
  {
    var m := SourceMap(ls, norm);
    var once := FixAll(ls, m, norm);
    FixAllKeepsSourceMap(ls, m, norm);
    forall i | 0 <= i < |ls| ensures FixLesson(once[i], m, norm) == once[i] {
      FixLessonIdempotent(ls[i], m, norm);
    }
  }

  /** A lesson counted in `updated` keeps a Drive id when its source's id has no "/". */
  lemma RepairedHoldsDriveId(l: Lesson, sources: map<string, Lesson>, norm: string -> string)
    requires Repaired(l, sources, norm)
    requires IsSource(sources[norm(l.title)]) && !Contains(sources[norm(l.title)].duration.value, "/")
    ensures HasDriveId(FixLesson(l, sources, norm))
  {
  }

  /** When no source's id holds "/", a second run repairs nothing: `updated` is 0 and every lesson is kept. */
  lemma {:induction false} SecondRunQuiet(ls: seq<Lesson>, sources: map<string, Lesson>, norm: string -> string)
    requires forall k :: k in sources ==> IsSource(sources[k]) && norm(sources[k].title) == k && !Contains(sources[k].duration.value, "/")
    ensures RepairCount(FixAll(ls, sources, norm), sources, norm) == 0
  {
    if ls != [] {
      var f := FixAll(ls, sources, norm);
      var l := ls[|ls| - 1];
      assert f[..|f| - 1] == FixAll(ls[..|ls| - 1], sources, norm);
      SecondRunQuiet(ls[..|ls| - 1], sources, norm);
      FixKeepsSources(l, sources, norm);
      if Repaired(l, sources, norm) {
        RepairedHoldsDriveId(l, sources, norm);
      }
    }
  }

  /** `updated` is 0 only when the pass left every lesson as it was. */
  lemma {:induction false} NoRepairNoChange(ls: seq<Lesson>, sources: map<string, Lesson>, norm: string -> string)
    requires RepairCount(ls, sources, norm) == 0
    ensures FixAll(ls, sources, norm) == ls
  {
    if ls != [] {
      var init := ls[..|ls| - 1];
      NoRepairNoChange(init, sources, norm);
      assert FixAll(init, sources, norm) == init;
      assert FixAll(ls, sources, norm)[..|ls| - 1] == FixAll(init, sources, norm);
    }
  }
}
