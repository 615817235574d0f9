/**
 * CsvImportController: the quote-aware line splitter, the import of a flat
 * lesson list into one lesson group, and the import of a whole
 * course / module / lesson-group hierarchy from a Drive file listing.
 */
module CsvImport {
  import opened Wrappers
  import opened JavaText
  import opened Entities

  // ---------------------------------------------------------------------------
  // parseCsvLine
  // ---------------------------------------------------------------------------

  /** The splitter's three variables after a prefix of the line has been read. */
  datatype Scanner = Scanner(inQuotes: bool, done: seq<string>, current: string)

  function Scan(s: string): Scanner
  {
    if s == [] then Scanner(false, [], "")
    else
      var st := Scan(s[..|s| - 1]);
      var c := s[|s| - 1];
      if c == '"' then st.(inQuotes := !st.inQuotes)
      else if c == ',' && !st.inQuotes then Scanner(st.inQuotes, st.done + [st.current], "")
      else st.(current := st.current + [c])
  }

  /** The fields parseCsvLine returns for a line. */
  function Fields(line: string): seq<string>
  {
    Scan(line).done + [Scan(line).current]
  }

  method ParseCsvLine(line: string) returns (fields: seq<string>)
    ensures fields == Fields(line)
  {
    var result: seq<string> := [];
    var current: string := "";
    var inQuotes := false;
    for i := 0 to |line|
      invariant Scan(line[..i]) == Scanner(inQuotes, result, current)
    {
      assert line[..i + 1][..i] == line[..i];
      var c := line[i];
      if c == '"' {
        inQuotes := !inQuotes;
      } else if c == ',' && !inQuotes {
        result := result + [current];
        current := "";
      } else {
        current := current + [c];
      }
    }
    WholePrefix(line);
    fields := result + [current];
  }

  function CountChar(s: string, c: char): nat
  {
    if s == [] then 0 else CountChar(s[..|s| - 1], c) + (if s[|s| - 1] == c then 1 else 0)
  }

  /** The end of s lies inside a quoted span: an odd number of quotes precede it. */
  predicate OpenQuote(s: string) { CountChar(s, '"') % 2 == 1 }

  /** The commas of s that lie outside quotes (and so separate fields). */
  function SeparatingCommas(s: string): nat
  {
    if s == [] then 0
    else SeparatingCommas(s[..|s| - 1]) + (if s[|s| - 1] == ',' && !OpenQuote(s[..|s| - 1]) then 1 else 0)
  }

  /** The commas of s that lie inside quotes. */
  function QuotedCommas(s: string): nat
  {
    if s == [] then 0
    else QuotedCommas(s[..|s| - 1]) + (if s[|s| - 1] == ',' && OpenQuote(s[..|s| - 1]) then 1 else 0)
  }

  /** s with its quote characters deleted. */
  function Unquoted(s: string): string
  {
    if s == [] then [] else Unquoted(s[..|s| - 1]) + (if s[|s| - 1] == '"' then [] else [s[|s| - 1]])
  }

  function CommasIn(fields: seq<string>): nat
  {
    if fields == [] then 0 else CommasIn(fields[..|fields| - 1]) + CountChar(fields[|fields| - 1], ',')
  }

  lemma JoinExtendLast(done: seq<string>, cur: string, c: char)
    ensures Join(done + [cur + [c]], ",") == Join(done + [cur], ",") + [c]
  {
    if done != [] {
      JoinSnoc(done, cur + [c], ",");
      JoinSnoc(done, cur, ",");
    }
  }

  /** The splitter is inside quotes after an odd number of quotes; every comma outside quotes closes a field. */
  lemma {:induction false} FieldCount(s: string)
    ensures Scan(s).inQuotes == OpenQuote(s)
    ensures |Fields(s)| == SeparatingCommas(s) + 1
  {
    if s != [] {
      FieldCount(s[..|s| - 1]);
    }
  }

  /** The fields joined with commas give back the line without its quotes. */
  lemma {:induction false} FieldsJoin(s: string)
    ensures Join(Fields(s), ",") == Unquoted(s)
  {
    if s != [] {
      var p := s[..|s| - 1];
      var c := s[|s| - 1];
      FieldsJoin(p);
      var st := Scan(p);
      var fp := Fields(p);
      assert s == p + [c];
      assert fp == st.done + [st.current];
      if c == '"' {
        assert Fields(s) == fp;
        assert Unquoted(s) == Unquoted(p) + [];
      } else if c == ',' && !st.inQuotes {
        JoinSnoc(fp, "", ",");
        assert Fields(s) == fp + [""];
        assert Join(fp, ",") + "," + "" == Unquoted(p) + [c];
      } else {
        JoinExtendLast(st.done, st.current, c);
        assert Fields(s) == st.done + [st.current + [c]];
        assert Unquoted(s) == Unquoted(p) + [c];
      }
    }
  }

  /** No field holds a quote character. */
  lemma {:induction false} FieldsQuoteFree(s: string)
    ensures forall i :: 0 <= i < |Fields(s)| ==> '"' !in Fields(s)[i]
  {
    if s != [] {
      var p := s[..|s| - 1];
      FieldsQuoteFree(p);
      var st := Scan(p);
      assert forall i :: 0 <= i < |st.done| ==> '"' !in st.done[i] by {
        forall i | 0 <= i < |st.done| ensures '"' !in st.done[i] {
          assert st.done[i] == Fields(p)[i];
        }
      }
      assert '"' !in st.current by { assert st.current == Fields(p)[|Fields(p)| - 1]; }
    }
  }

  /** The commas inside the fields are exactly the commas that were inside quotes. */
  lemma {:induction false} FieldCommas(s: string)
    ensures CommasIn(Fields(s)) == QuotedCommas(s)
  {
    if s != [] {
      var p := s[..|s| - 1];
      var c := s[|s| - 1];
      FieldCommas(p);
      FieldCount(p);
      var st := Scan(p);
      var fp := Fields(p);
      assert fp[..|fp| - 1] == st.done;
      if c == ',' && !st.inQuotes {
        assert Fields(s) == fp + [""];
        assert (fp + [""])[..|fp|] == fp;
      } else if c != '"' {
        var fs := Fields(s);
        assert fs[..|fs| - 1] == st.done;
        assert (st.current + [c])[..|st.current|] == st.current;
      }
    }
  }

  /** On a line without quotes the splitter agrees with splitting at every comma. */
  lemma {:induction false} UnquotedLineSplitsAtCommas(s: string)
    requires '"' !in s
    ensures !Scan(s).inQuotes
    ensures Fields(s) == Pieces(s, ',')
  {
    if s != [] {
      var p := s[..|s| - 1];
      var c := s[|s| - 1];
      assert s == p + [c];
      UnquotedLineSplitsAtCommas(p);
      if c == ',' {
        PiecesSnocDelim(p, ',');
      } else {
        PiecesSnocChar(p, c, ',');
      }
      var fp := Fields(p);
      assert fp[..|fp| - 1] == Scan(p).done;
    }
  }

  /** Reading characters that neither toggle quoting nor split extends the current field. */
  lemma {:induction false} ScanAppend(x: string, y: string)
    requires '"' !in y
    requires Scan(x).inQuotes || ',' !in y
    ensures Scan(x + y) == Scan(x).(current := Scan(x).current + y)
  {
    if y != [] {
      var y' := y[..|y| - 1];
      assert (x + y)[..|x + y| - 1] == x + y';
      ScanAppend(x, y');
      assert Scan(x).current + y' + [y[|y| - 1]] == Scan(x).current + y;
    } else {
      assert x + y == x;
    }
  }

  /** Reading one more character: a quote toggles quoting, an unquoted comma ends the field. */
  lemma ScanSnoc(x: string, c: char)
    ensures var st := Scan(x);
            Scan(x + [c]) == if c == '"' then st.(inQuotes := !st.inQuotes)
                             else if c == ',' && !st.inQuotes then Scanner(st.inQuotes, st.done + [st.current], "")
                             else st.(current := st.current + [c])
  {
    assert (x + [c])[..|x|] == x;
  }

  lemma QuotedLineShape(title: string, rest: string)
    ensures "\"" + title + "\"," + rest == ['"'] + title + ['"'] + [','] + rest
  {
  }

  /** A comma inside a quoted title stays in the title. */
  lemma QuotedFieldKeepsCommas(title: string, rest: string)
    requires '"' !in title && '"' !in rest && ',' !in rest
    ensures Fields("\"" + title + "\"," + rest) == [title, rest]
  {
    var open := ['"'];
    ScanSnoc([], '"');
    assert [] + ['"'] == open;
    ScanAppend(open, title);
    assert "" + title == title;
    var a := open + title + ['"'];
    ScanSnoc(open + title, '"');
    var b := a + [','];
    ScanSnoc(a, ',');
    ScanAppend(b, rest);
    assert "" + rest == rest;
    QuotedLineShape(title, rest);
  }

  /** A field that holds a comma got it from inside quotes. */
  lemma CommaInFieldWasQuoted(line: string, i: nat)
    requires i < |Fields(line)| && ',' in Fields(line)[i]
    ensures QuotedCommas(line) > 0
  {
    FieldCommas(line);
    CountCharPositive(Fields(line)[i], ',');
    CommasInAtLeast(Fields(line), i);
  }

  lemma {:induction false} CountCharPositive(s: string, c: char)
    requires c in s
    ensures CountChar(s, c) > 0
  {
    if s[|s| - 1] != c {
      var k :| 0 <= k < |s| && s[k] == c;
      assert s[..|s| - 1][k] == c;
      CountCharPositive(s[..|s| - 1], c);
    }
  }

  lemma {:induction false} CommasInAtLeast(fields: seq<string>, i: nat)
    requires i < |fields|
    ensures CommasIn(fields) >= CountChar(fields[i], ',')
  {
    if i < |fields| - 1 {
      assert fields[..|fields| - 1][i] == fields[i];
      CommasInAtLeast(fields[..|fields| - 1], i);
    }
  }

  // ---------------------------------------------------------------------------
  // Shared line tests
  // ---------------------------------------------------------------------------

  predicate IsBlank(line: string) { Trim(line) == [] }

  /** The header test of the lesson import. */
  predicate IsLessonHeader(line: string)
  {
    Contains(ToLower(line), "title") || Contains(ToLower(line), "name")
  }

  /** The header test of the course import. */
  predicate IsCourseHeader(line: string) { Contains(ToLower(line), "file name") }

  // ---------------------------------------------------------------------------
  // importFromCsv: title,fileId or title,duration,fileId into one lesson group
  // ---------------------------------------------------------------------------

  datatype CsvImportResponse = CsvImportResponse(
    totalLines: nat,
    importedCount: nat,
    errorCount: nat,
    errors: seq<string>,
    lessonGroupId: Option<Id>,
    message: string)

  /** What one line of the file turns into. */
  datatype LineOutcome = Skipped | Rejected(error: string) | Created(lesson: Lesson)

  function FormatError(lineNumber: nat): string
  {
    "Line " + NatToString(lineNumber) + ": Invalid format (need at least title and fileId)"
  }

  /** Line number lineNumber (counted from 1) of the file. */
  function ClassifyLine(lineNumber: nat, line: string, groupId: Id, extract: string -> Option<string>): LineOutcome
  {
    if lineNumber == 1 && IsLessonHeader(line) then Skipped
    else if IsBlank(line) then Skipped
    else
      var parts := Fields(line);
      if |parts| < 2 then Rejected(FormatError(lineNumber))
      else
        var fileId := if |parts| >= 3 then Trim(parts[2]) else Trim(parts[1]);
        var given := if |parts| >= 3 then Trim(parts[1]) else "0:00";
        var extracted := extract(fileId);
        Created(Lesson(Trim(parts[0]), None, Some(extracted.GetOr(given)), None, Some(fileId),
                       Some(if extracted.Some? then LOCAL else GOOGLE_DRIVE), Some(groupId)))
  }

  function Outcomes(lines: seq<string>, groupId: Id, extract: string -> Option<string>): (r: seq<LineOutcome>)
    ensures |r| == |lines|
  {
    if lines == [] then []
    else Outcomes(lines[..|lines| - 1], groupId, extract)
         + [ClassifyLine(|lines|, lines[|lines| - 1], groupId, extract)]
  }

  function CreatedOf(os: seq<LineOutcome>): seq<Lesson>
  {
    if os == [] then []
    else CreatedOf(os[..|os| - 1]) + (if os[|os| - 1].Created? then [os[|os| - 1].lesson] else [])
  }

  function ErrorsOf(os: seq<LineOutcome>): seq<string>
  {
    if os == [] then []
    else ErrorsOf(os[..|os| - 1]) + (if os[|os| - 1].Rejected? then [os[|os| - 1].error] else [])
  }

  function SkippedOf(os: seq<LineOutcome>): nat
  {
    if os == [] then 0 else SkippedOf(os[..|os| - 1]) + (if os[|os| - 1].Skipped? then 1 else 0)
  }

  function ImportMessage(imported: nat, errors: nat): string
  {
    if errors == 0 then "Successfully imported " + NatToString(imported) + " videos"
    else "Imported " + NatToString(imported) + " videos with " + NatToString(errors) + " errors"
  }

  /** The 500 response when the lesson group does not exist. */
  function GroupMissing(lessonGroupId: Id): CsvImportResponse
  {
    var msg := "Lesson group not found: " + NatToString(lessonGroupId);
    CsvImportResponse(0, 0, 1, [msg], None, "Error: " + msg)
  }

  /** One more line adds its own outcome: a lesson, an error, or neither. */
  lemma OutcomesStep(lines: seq<string>, n: nat, groupId: Id, extract: string -> Option<string>)
    requires n < |lines|
    ensures var os := Outcomes(lines[..n], groupId, extract);
            var o := ClassifyLine(n + 1, lines[n], groupId, extract);
            && CreatedOf(Outcomes(lines[..n + 1], groupId, extract)) == CreatedOf(os) + (if o.Created? then [o.lesson] else [])
            && ErrorsOf(Outcomes(lines[..n + 1], groupId, extract)) == ErrorsOf(os) + (if o.Rejected? then [o.error] else [])
  {
    assert lines[..n + 1][..n] == lines[..n];
    var os := Outcomes(lines[..n], groupId, extract);
    var o := ClassifyLine(n + 1, lines[n], groupId, extract);
    assert Outcomes(lines[..n + 1], groupId, extract) == os + [o];
    assert (os + [o])[..|os|] == os;
  }

  /**
   * The loop body for a line that is neither the header nor blank: at least
   * two fields make a lesson, fewer an error naming the line.
   */
  method ReadLessonLine(lineNumber: nat, line: string, lessonGroupId: Id, extract: string -> Option<string>)
    returns (outcome: LineOutcome)
    requires !(lineNumber == 1 && IsLessonHeader(line)) && !IsBlank(line)
    ensures outcome == ClassifyLine(lineNumber, line, lessonGroupId, extract)
    ensures !outcome.Skipped?
  {
    var parts := ParseCsvLine(line);
    if |parts| < 2 {
      return Rejected(FormatError(lineNumber));
    }
    var title := Trim(parts[0]);
    var duration := "0:00";
    var fileId;
    if |parts| >= 3 {
      duration := Trim(parts[1]);
      fileId := Trim(parts[2]);
    } else {
      fileId := Trim(parts[1]);
    }
    var storage := GOOGLE_DRIVE;
    var extracted := extract(fileId);
    if extracted.Some? {
      duration := extracted.value;
      storage := LOCAL;
    }
    return Created(Lesson(title, None, Some(duration), None, Some(fileId), Some(storage), Some(lessonGroupId)));
  }

  method ImportFromCsv(lessonGroupId: Id, lessonGroups: set<Id>, lines: seq<string>,
                       extract: string -> Option<string>)
    returns (status: nat, response: CsvImportResponse, created: seq<Lesson>)
    ensures lessonGroupId !in lessonGroups ==>
              status == 500 && response == GroupMissing(lessonGroupId) && created == []
    ensures lessonGroupId in lessonGroups ==>
              var os := Outcomes(lines, lessonGroupId, extract);
              && status == 200
              && created == CreatedOf(os)
              && response.errors == ErrorsOf(os)
              && response.totalLines == |lines|
              && response.importedCount == |created|
              && response.errorCount == |response.errors|
              && response.lessonGroupId == Some(lessonGroupId)
              && response.message == ImportMessage(|created|, |response.errors|)
  {
    if lessonGroupId !in lessonGroups {
      return 500, GroupMissing(lessonGroupId), [];
    }
    created := [];
    var errors: seq<string> := [];
    var lineNumber := 0;
    var isFirstLine := true;
    while lineNumber < |lines|
      invariant 0 <= lineNumber <= |lines|
      invariant isFirstLine <==> lineNumber == 0
      invariant created == CreatedOf(Outcomes(lines[..lineNumber], lessonGroupId, extract))
      invariant errors == ErrorsOf(Outcomes(lines[..lineNumber], lessonGroupId, extract))
    {
      var line := lines[lineNumber];
      OutcomesStep(lines, lineNumber, lessonGroupId, extract);
      lineNumber := lineNumber + 1;
      if isFirstLine && IsLessonHeader(line) {
        isFirstLine := false;
        continue;
      }
      isFirstLine := false;
      if IsBlank(line) {
        continue;
      }
      var outcome := ReadLessonLine(lineNumber, line, lessonGroupId, extract);
      if outcome.Rejected? {
        errors := errors + [outcome.error];
      } else {
        created := created + [outcome.lesson];
      }
    }
    WholePrefix(lines);
    status := 200;
    response := CsvImportResponse(lineNumber, |created|, |errors|, errors, Some(lessonGroupId),
                                  ImportMessage(|created|, |errors|));
  }

  /** Every line is accounted for exactly once: imported, reported or skipped. */
  lemma {:induction false} OutcomesAccounted(os: seq<LineOutcome>)
    ensures |CreatedOf(os)| + |ErrorsOf(os)| + SkippedOf(os) == |os|
  {
    if os != [] {
      OutcomesAccounted(os[..|os| - 1]);
    }
  }

  /** Only the first line can be taken for a header: a later non-blank line is imported or reported. */
  lemma HeaderOnlyOnFirstLine(lineNumber: nat, line: string, groupId: Id, extract: string -> Option<string>)
    requires lineNumber != 1 && !IsBlank(line)
    ensures !ClassifyLine(lineNumber, line, groupId, extract).Skipped?
  {
  }

  /** A rejected line is reported under its own number, and it has fewer than two fields. */
  lemma RejectedLine(lineNumber: nat, line: string, groupId: Id, extract: string -> Option<string>)
    requires ClassifyLine(lineNumber, line, groupId, extract).Rejected?
    ensures ClassifyLine(lineNumber, line, groupId, extract).error == FormatError(lineNumber)
    ensures |Fields(line)| < 2
  {
  }

  /** Each reported error names a line, within the file, that has fewer than two fields. */
  lemma {:induction false} ErrorsNameShortLines(lines: seq<string>, groupId: Id, extract: string -> Option<string>)
    ensures forall e :: e in ErrorsOf(Outcomes(lines, groupId, extract)) ==>
              exists n :: 1 <= n <= |lines| && e == FormatError(n) && |Fields(lines[n - 1])| < 2
  {
    if lines != [] {
      var k := |lines| - 1;
      var init := lines[..k];
      ErrorsNameShortLines(init, groupId, extract);
      var before := Outcomes(init, groupId, extract);
      var o := ClassifyLine(|lines|, lines[k], groupId, extract);
      var os := before + [o];
      assert Outcomes(lines, groupId, extract) == os;
      assert os[..|os| - 1] == before;
      assert ErrorsOf(os) == ErrorsOf(before) + (if o.Rejected? then [o.error] else []);
      forall e | e in ErrorsOf(os)
        ensures exists n :: 1 <= n <= |lines| && e == FormatError(n) && |Fields(lines[n - 1])| < 2
      {
        if e in ErrorsOf(before) {
          var n :| 1 <= n <= |init| && e == FormatError(n) && |Fields(init[n - 1])| < 2;
          assert init[n - 1] == lines[n - 1];
        } else {
          RejectedLine(|lines|, lines[k], groupId, extract);
          assert 1 <= |lines| <= |lines| && e == FormatError(|lines|) && |Fields(lines[|lines| - 1])| < 2;
        }
      }
    }
  }

  /**
   * Every lesson the import creates belongs to the requested group, and it is
   * stored locally exactly when a local file gave it its duration.
   */
  lemma {:induction false} CreatedLessonsShape(lines: seq<string>, groupId: Id, extract: string -> Option<string>)
    ensures forall l :: l in CreatedOf(Outcomes(lines, groupId, extract)) ==>
              && l.lessonGroup == Some(groupId)
              && l.resourcePath.Some?
              && (l.storageType == Some(LOCAL) <==> extract(l.resourcePath.value).Some?)
              && (extract(l.resourcePath.value).Some? ==> l.duration == extract(l.resourcePath.value))
  {
    if lines != [] {
      CreatedLessonsShape(lines[..|lines| - 1], groupId, extract);
    }
  }

  // ---------------------------------------------------------------------------
  // importCourseFromCsv: File Name,File ID,MIME Type,Folder Path
  // ---------------------------------------------------------------------------

  /** One video of the listing, placed by its folder path Course/Module/Group. */
  datatype CourseRow = CourseRow(fileName: string, fileId: string, courseTitle: string, moduleTitle: string, groupTitle: string)

  /** The row a data line describes, or None for a line the import skips without a message. */
  function CourseRowOf(line: string): Option<CourseRow>
  {
    var parts := Fields(line);
    if |parts| < 4 then None
    else if !StartsWith(Trim(parts[2]), "video") then None
    else
      var path := Split(Trim(parts[3]), '/');
      if |path| < 1 then None
      else Some(CourseRow(Trim(parts[0]), Trim(parts[1]), Trim(path[0]),
                          if |path| > 1 then Trim(path[1]) else "Default Module",
                          if |path| > 2 then Trim(path[2]) else "Default Group"))
  }

  predicate AllBlank(lines: seq<string>) { forall i :: 0 <= i < |lines| ==> IsBlank(lines[i]) }

  /** The rows one line contributes: none for a blank line, for the header, or for a skipped line. */
  function LineRows(line: string, first: bool): seq<CourseRow>
  {
    if IsBlank(line) || (first && IsCourseHeader(line)) then []
    else match CourseRowOf(line) case Some(r) => [r] case None => []
  }

  /**
   * The rows the import places, in file order. Blank lines are skipped before
   * the header test, so the header is the first non-blank line.
   */
  function CourseRows(lines: seq<string>): seq<CourseRow>
  {
    if lines == [] then []
    else CourseRows(lines[..|lines| - 1]) + LineRows(lines[|lines| - 1], AllBlank(lines[..|lines| - 1]))
  }

  /** The characters the regex '.' does not match. */
  predicate IsLineTerminator(c: char)
  {
    c == '\n' || c == '\r' || c == '\U{0085}' || c == '\U{2028}' || c == '\U{2029}'
  }

  /** s matches ^\d+-\s.* */
  predicate HasNumberPrefix(s: string)
  {
    var d := LeadingDigits(s);
    && d >= 1 && d + 2 <= |s| && s[d] == '-' && IsRegexSpace(s[d + 1])
    && forall i :: d + 2 <= i < |s| ==> !IsLineTerminator(s[i])
  }

  /** The lesson title made from a file name: ".mp4" and a leading "7- " dropped. */
  function CsvLessonTitle(fileName: string): string
  {
    var t := if EndsWith(fileName, ".mp4") then fileName[..|fileName| - 4] else fileName;
    if HasNumberPrefix(t) then t[LeadingDigits(t) + 2..] else t
  }

  /** "5- Asynchronous Programming.mp4" becomes "Asynchronous Programming", for any number and title. */
  lemma CsvLessonTitleNumbered(number: string, title: string)
    requires |number| >= 1 && AllDigits(number)
    requires forall i :: 0 <= i < |title| ==> !IsLineTerminator(title[i])
    ensures CsvLessonTitle(number + "- " + title + ".mp4") == title
  {
    var t := number + "- " + title;
    var name := t + ".mp4";
    assert name[..|name| - 4] == t;
    assert t[..|number|] == number;
    assert t[|number|..][0] == '-';
    LeadingDigitsOfPrefix(number, t);
    assert t[|number| + 2..] == title;
  }

  lemma {:induction false} LeadingDigitsOfPrefix(number: string, s: string)
    requires AllDigits(number) && |number| < |s| && s[..|number|] == number && !IsDigit(s[|number|])
    ensures LeadingDigits(s) == |number|
  {
    if number != [] {
      assert s[1..][..|number| - 1] == number[1..];
      LeadingDigitsOfPrefix(number[1..], s[1..]);
    }
  }

  /**
   * How created modules and groups are remembered within one import: the
   * source concatenates titles with "_" (Underscored); Structured keeps the
   * titles apart.
   */
  datatype KeyScheme = Underscored | Structured

  type Key = seq<string>

  function ModuleKey(scheme: KeyScheme, courseTitle: string, moduleTitle: string): Key
  {
    if scheme == Underscored then [courseTitle + "_" + moduleTitle] else [courseTitle, moduleTitle]
  }

  function GroupKey(scheme: KeyScheme, courseTitle: string, moduleTitle: string, groupTitle: string): Key
  {
    if scheme == Underscored then [courseTitle + "_" + moduleTitle + "_" + groupTitle] else [courseTitle, moduleTitle, groupTitle]
  }

  function RowGroupKey(scheme: KeyScheme, row: CourseRow): Key
  {
    GroupKey(scheme, row.courseTitle, row.moduleTitle, row.groupTitle)
  }

  datatype ModuleRec = ModuleRec(title: string, courseIndex: nat)

  datatype GroupRec = GroupRec(title: string, moduleIndex: nat)

  /**
   * What the import has created so far, entities by position, and its three
   * caches. groupLessons[g] is the lesson list of group g, as positions in lessons.
   */
  datatype Hierarchy = Hierarchy(
    courses: seq<Course>,
    modules: seq<ModuleRec>,
    groups: seq<GroupRec>,
    groupLessons: seq<seq<nat>>,
    lessons: seq<Lesson>,
    courseMap: map<string, nat>,
    moduleMap: map<Key, nat>,
    groupMap: map<Key, nat>)

  const NoHierarchy := Hierarchy([], [], [], [], [], map[], map[], map[])

  function CourseTitleAt(courses: seq<Course>, ci: nat): string
  {
    if ci < |courses| then courses[ci].title else ""
  }

  /** The key a created module is cached under, computed from its titles. */
  function ModuleKeyOf(scheme: KeyScheme, courses: seq<Course>, modules: seq<ModuleRec>, i: nat): Key
  {
    if i < |modules| then ModuleKey(scheme, CourseTitleAt(courses, modules[i].courseIndex), modules[i].title) else []
  }

  /** The titles of a group's course, of its module and its own. */
  function GroupTitles(courses: seq<Course>, modules: seq<ModuleRec>, groups: seq<GroupRec>, g: nat): seq<string>
  {
    if g < |groups| && groups[g].moduleIndex < |modules| then
      var m := modules[groups[g].moduleIndex];
      [CourseTitleAt(courses, m.courseIndex), m.title, groups[g].title]
    else []
  }

  /** The key a created group is cached under, computed from its titles. */
  function GroupKeyOf(scheme: KeyScheme, courses: seq<Course>, modules: seq<ModuleRec>, groups: seq<GroupRec>, g: nat): Key
  {
    var t := GroupTitles(courses, modules, groups, g);
    if |t| == 3 then GroupKey(scheme, t[0], t[1], t[2]) else []
  }

  /** The course cache and the created courses correspond one to one, by title. */
  ghost predicate CoursesIndexed(courses: seq<Course>, courseMap: map<string, nat>)
  {
    && (forall t :: t in courseMap ==> courseMap[t] < |courses| && courses[courseMap[t]].title == t)
    && (forall i :: 0 <= i < |courses| ==> courses[i].title in courseMap && courseMap[courses[i].title] == i)
  }

  ghost predicate ModulesBelong(courses: seq<Course>, modules: seq<ModuleRec>)
  {
    forall i :: 0 <= i < |modules| ==> modules[i].courseIndex < |courses|
  }

  /** The module cache and the created modules correspond one to one, by key. */
  ghost predicate ModulesIndexed(scheme: KeyScheme, courses: seq<Course>, modules: seq<ModuleRec>, moduleMap: map<Key, nat>)
  {
    && ModulesBelong(courses, modules)
    && (forall k :: k in moduleMap ==> moduleMap[k] < |modules| && ModuleKeyOf(scheme, courses, modules, moduleMap[k]) == k)
    && (forall i :: 0 <= i < |modules| ==>
          ModuleKeyOf(scheme, courses, modules, i) in moduleMap && moduleMap[ModuleKeyOf(scheme, courses, modules, i)] == i)
  }

  ghost predicate GroupsBelong(modules: seq<ModuleRec>, groups: seq<GroupRec>)
  {
    forall g :: 0 <= g < |groups| ==> groups[g].moduleIndex < |modules|
  }

  /** The group cache and the created groups correspond one to one, by key. */
  ghost predicate GroupsIndexed(scheme: KeyScheme, courses: seq<Course>, modules: seq<ModuleRec>, groups: seq<GroupRec>,
                                groupMap: map<Key, nat>)
  {
    && GroupsBelong(modules, groups)
    && (forall k :: k in groupMap ==> groupMap[k] < |groups| && GroupKeyOf(scheme, courses, modules, groups, groupMap[k]) == k)
    && (forall g :: 0 <= g < |groups| ==>
          GroupKeyOf(scheme, courses, modules, groups, g) in groupMap && groupMap[GroupKeyOf(scheme, courses, modules, groups, g)] == g)
  }

  /** Lesson number x came from rows[x] and sits in a group whose key is that row's key. */
  ghost predicate LessonsPlaced(h: Hierarchy, scheme: KeyScheme, rows: seq<CourseRow>)
  {
    && |h.lessons| == |rows|
    && |h.groupLessons| == |h.groups|
    && forall g, j :: 0 <= g < |h.groupLessons| && 0 <= j < |h.groupLessons[g]| ==>
         h.groupLessons[g][j] < |rows| &&
         GroupKeyOf(scheme, h.courses, h.modules, h.groups, g) == RowGroupKey(scheme, rows[h.groupLessons[g][j]])
  }

  ghost predicate Valid(h: Hierarchy, scheme: KeyScheme, rows: seq<CourseRow>)
  {
    && CoursesIndexed(h.courses, h.courseMap)
    && ModulesIndexed(scheme, h.courses, h.modules, h.moduleMap)
    && GroupsIndexed(scheme, h.courses, h.modules, h.groups, h.groupMap)
    && LessonsPlaced(h, scheme, rows)
  }

  function NewCourse(title: string, now: Timestamp): Course
  {
    Course(title, Some("Imported from CSV"), Some("General"), Some(now))
  }

  /** The lesson made for a row: cleaned title, the file id, a local duration when there is one. */
  function CsvLesson(row: CourseRow, extract: string -> Option<string>): Lesson
  {
    var extracted := extract(row.fileId);
    Lesson(CsvLessonTitle(row.fileName), None, Some(extracted.GetOr("0:00")), None, Some(row.fileId),
           if extracted.Some? then Some(LOCAL) else None, None)
  }

  /** Get or create the course. */
  function WithCourse(h: Hierarchy, title: string, now: Timestamp): Hierarchy
  {
    if title in h.courseMap then h
    else h.(courses := h.courses + [NewCourse(title, now)], courseMap := h.courseMap[title := |h.courses|])
  }

  /** Get or create the module, under the course cached for its course title. */
  function WithModule(h: Hierarchy, scheme: KeyScheme, courseTitle: string, moduleTitle: string): Hierarchy
    requires courseTitle in h.courseMap
  {
    var mk := ModuleKey(scheme, courseTitle, moduleTitle);
    if mk in h.moduleMap then h
    else h.(modules := h.modules + [ModuleRec(moduleTitle, h.courseMap[courseTitle])],
            moduleMap := h.moduleMap[mk := |h.modules|])
  }

  /** Get or create the group, under the module cached for its module key. */
  function WithGroup(h: Hierarchy, scheme: KeyScheme, row: CourseRow): Hierarchy
    requires ModuleKey(scheme, row.courseTitle, row.moduleTitle) in h.moduleMap
  {
    var gk := RowGroupKey(scheme, row);
    if gk in h.groupMap then h
    else h.(groups := h.groups + [GroupRec(row.groupTitle, h.moduleMap[ModuleKey(scheme, row.courseTitle, row.moduleTitle)])],
            groupLessons := h.groupLessons + [[]],
            groupMap := h.groupMap[gk := |h.groups|])
  }

  /** Save the lesson and add it to the cached group's lesson list. */
  function WithLesson(h: Hierarchy, gk: Key, lesson: Lesson): Hierarchy
    requires gk in h.groupMap && h.groupMap[gk] < |h.groupLessons|
  {
    var gi := h.groupMap[gk];
    h.(lessons := h.lessons + [lesson],
       groupLessons := h.groupLessons[gi := h.groupLessons[gi] + [|h.lessons|]])
  }

  // Appending a course changes no module's or group's key.

  lemma AppendCourseKeys(scheme: KeyScheme, courses: seq<Course>, c: Course, modules: seq<ModuleRec>, groups: seq<GroupRec>)
    requires ModulesBelong(courses, modules) && GroupsBelong(modules, groups)
    ensures forall i: nat :: ModuleKeyOf(scheme, courses + [c], modules, i) == ModuleKeyOf(scheme, courses, modules, i)
    ensures forall g: nat :: GroupKeyOf(scheme, courses + [c], modules, groups, g) == GroupKeyOf(scheme, courses, modules, groups, g)
  {
    forall i: nat ensures ModuleKeyOf(scheme, courses + [c], modules, i) == ModuleKeyOf(scheme, courses, modules, i) {
      if i < |modules| {
        assert CourseTitleAt(courses + [c], modules[i].courseIndex) == CourseTitleAt(courses, modules[i].courseIndex);
      }
    }
    forall g: nat ensures GroupKeyOf(scheme, courses + [c], modules, groups, g) == GroupKeyOf(scheme, courses, modules, groups, g) {
      if g < |groups| {
        var m := modules[groups[g].moduleIndex];
        assert CourseTitleAt(courses + [c], m.courseIndex) == CourseTitleAt(courses, m.courseIndex);
      }
    }
  }

  lemma WithCourseValid(h: Hierarchy, scheme: KeyScheme, rows: seq<CourseRow>, title: string, now: Timestamp)
    requires Valid(h, scheme, rows)
    ensures var h' := WithCourse(h, title, now);
            && Valid(h', scheme, rows) && title in h'.courseMap
            && h'.courseMap.Keys == h.courseMap.Keys + {title}
            && h'.lessons == h.lessons && h'.groupLessons == h.groupLessons
  {
    if title !in h.courseMap {
      AppendCourseKeys(scheme, h.courses, NewCourse(title, now), h.modules, h.groups);
      var h' := WithCourse(h, title, now);
      assert CoursesIndexed(h'.courses, h'.courseMap);
      assert ModulesIndexed(scheme, h'.courses, h'.modules, h'.moduleMap);
      assert GroupsIndexed(scheme, h'.courses, h'.modules, h'.groups, h'.groupMap);
    }
  }

  // Appending a module gives it its key and changes no other module's or group's key.

  lemma AppendModuleKeys(scheme: KeyScheme, courses: seq<Course>, modules: seq<ModuleRec>, m: ModuleRec, groups: seq<GroupRec>)
    requires GroupsBelong(modules, groups)
    ensures forall i: nat :: ModuleKeyOf(scheme, courses, modules + [m], i) ==
              if i == |modules| then ModuleKey(scheme, CourseTitleAt(courses, m.courseIndex), m.title)
              else ModuleKeyOf(scheme, courses, modules, i)
    ensures forall g: nat :: GroupKeyOf(scheme, courses, modules + [m], groups, g) == GroupKeyOf(scheme, courses, modules, groups, g)
  {
    forall g: nat ensures GroupKeyOf(scheme, courses, modules + [m], groups, g) == GroupKeyOf(scheme, courses, modules, groups, g) {
      if g < |groups| {
        assert (modules + [m])[groups[g].moduleIndex] == modules[groups[g].moduleIndex];
      }
    }
  }

  lemma AppendModuleIndexed(scheme: KeyScheme, courses: seq<Course>, modules: seq<ModuleRec>, moduleMap: map<Key, nat>, m: ModuleRec, mk: Key)
    requires ModulesIndexed(scheme, courses, modules, moduleMap)
    requires m.courseIndex < |courses| && mk !in moduleMap
    requires mk == ModuleKey(scheme, CourseTitleAt(courses, m.courseIndex), m.title)
    requires forall i: nat :: ModuleKeyOf(scheme, courses, modules + [m], i) ==
               if i == |modules| then mk else ModuleKeyOf(scheme, courses, modules, i)
    ensures ModulesIndexed(scheme, courses, modules + [m], moduleMap[mk := |modules|])
  {
    var modules' := modules + [m];
    var moduleMap' := moduleMap[mk := |modules|];
    forall k | k in moduleMap'
      ensures moduleMap'[k] < |modules'| && ModuleKeyOf(scheme, courses, modules', moduleMap'[k]) == k
    {
      if k != mk {
        assert moduleMap'[k] == moduleMap[k] < |modules|;
      }
    }
    forall i | 0 <= i < |modules'|
      ensures ModuleKeyOf(scheme, courses, modules', i) in moduleMap'
      ensures moduleMap'[ModuleKeyOf(scheme, courses, modules', i)] == i
    {
      if i < |modules| {
        assert ModuleKeyOf(scheme, courses, modules, i) in moduleMap;
      }
    }
  }

  lemma WithModuleValid(h: Hierarchy, scheme: KeyScheme, rows: seq<CourseRow>, courseTitle: string, moduleTitle: string)
    requires Valid(h, scheme, rows) && courseTitle in h.courseMap
    ensures var h' := WithModule(h, scheme, courseTitle, moduleTitle);
            && Valid(h', scheme, rows)
            && ModuleKey(scheme, courseTitle, moduleTitle) in h'.moduleMap
            && h'.courseMap == h.courseMap
            && h'.lessons == h.lessons && h'.groupLessons == h.groupLessons
  {
    var mk := ModuleKey(scheme, courseTitle, moduleTitle);
    if mk !in h.moduleMap {
      var m := ModuleRec(moduleTitle, h.courseMap[courseTitle]);
      AppendModuleKeys(scheme, h.courses, h.modules, m, h.groups);
      AppendModuleIndexed(scheme, h.courses, h.modules, h.moduleMap, m, mk);
      var h' := WithModule(h, scheme, courseTitle, moduleTitle);
      assert GroupsIndexed(scheme, h'.courses, h'.modules, h'.groups, h'.groupMap);
    }
  }

  /** The module found under a row's key yields, under either scheme, the row's group key. */
  lemma GroupKeyThroughModule(scheme: KeyScheme, courses: seq<Course>, modules: seq<ModuleRec>, moduleMap: map<Key, nat>, row: CourseRow)
    requires ModulesIndexed(scheme, courses, modules, moduleMap)
    requires ModuleKey(scheme, row.courseTitle, row.moduleTitle) in moduleMap
    ensures var mi := moduleMap[ModuleKey(scheme, row.courseTitle, row.moduleTitle)];
            && mi < |modules|
            && GroupKey(scheme, CourseTitleAt(courses, modules[mi].courseIndex), modules[mi].title, row.groupTitle)
               == RowGroupKey(scheme, row)
  {
    var mi := moduleMap[ModuleKey(scheme, row.courseTitle, row.moduleTitle)];
    var c := CourseTitleAt(courses, modules[mi].courseIndex);
    var m := modules[mi].title;
    assert ModuleKey(scheme, c, m) == ModuleKey(scheme, row.courseTitle, row.moduleTitle);
    if scheme == Underscored {
      assert c + "_" + m == row.courseTitle + "_" + row.moduleTitle;
    }
  }

  lemma AppendGroupIndexed(scheme: KeyScheme, courses: seq<Course>, modules: seq<ModuleRec>, groups: seq<GroupRec>,
                           groupMap: map<Key, nat>, gr: GroupRec, gk: Key)
    requires GroupsIndexed(scheme, courses, modules, groups, groupMap)
    requires gr.moduleIndex < |modules| && gk !in groupMap
    requires GroupKeyOf(scheme, courses, modules, groups + [gr], |groups|) == gk
    ensures forall g: nat :: g != |groups| ==>
              GroupKeyOf(scheme, courses, modules, groups + [gr], g) == GroupKeyOf(scheme, courses, modules, groups, g)
    ensures GroupsIndexed(scheme, courses, modules, groups + [gr], groupMap[gk := |groups|])
  {
    var groups' := groups + [gr];
    var groupMap' := groupMap[gk := |groups|];
    forall g: nat | g != |groups|
      ensures GroupKeyOf(scheme, courses, modules, groups', g) == GroupKeyOf(scheme, courses, modules, groups, g)
    {
    }
    forall k | k in groupMap'
      ensures groupMap'[k] < |groups'| && GroupKeyOf(scheme, courses, modules, groups', groupMap'[k]) == k
    {
      if k != gk {
        assert groupMap'[k] == groupMap[k] < |groups|;
      }
    }
    forall g | 0 <= g < |groups'|
      ensures GroupKeyOf(scheme, courses, modules, groups', g) in groupMap'
      ensures groupMap'[GroupKeyOf(scheme, courses, modules, groups', g)] == g
    {
      if g < |groups| {
        assert GroupKeyOf(scheme, courses, modules, groups, g) in groupMap;
      }
    }
  }

  lemma WithGroupValid(h: Hierarchy, scheme: KeyScheme, rows: seq<CourseRow>, row: CourseRow)
    requires Valid(h, scheme, rows) && ModuleKey(scheme, row.courseTitle, row.moduleTitle) in h.moduleMap
    ensures var h' := WithGroup(h, scheme, row);
            && Valid(h', scheme, rows)
            && RowGroupKey(scheme, row) in h'.groupMap
            && h'.courseMap == h.courseMap
            && h'.lessons == h.lessons
            && (h'.groupLessons == h.groupLessons || h'.groupLessons == h.groupLessons + [[]])
  {
    var gk := RowGroupKey(scheme, row);
    if gk !in h.groupMap {
      var mi := h.moduleMap[ModuleKey(scheme, row.courseTitle, row.moduleTitle)];
      GroupKeyThroughModule(scheme, h.courses, h.modules, h.moduleMap, row);
      var gr := GroupRec(row.groupTitle, mi);
      assert GroupKeyOf(scheme, h.courses, h.modules, h.groups + [gr], |h.groups|) == gk;
      AppendGroupIndexed(scheme, h.courses, h.modules, h.groups, h.groupMap, gr, gk);
      var h' := WithGroup(h, scheme, row);
      forall g, j | 0 <= g < |h'.groupLessons| && 0 <= j < |h'.groupLessons[g]|
        ensures h'.groupLessons[g][j] < |rows|
        ensures GroupKeyOf(scheme, h'.courses, h'.modules, h'.groups, g) == RowGroupKey(scheme, rows[h'.groupLessons[g][j]])
      {
        assert g < |h.groups|;
        assert h'.groupLessons[g] == h.groupLessons[g];
      }
    }
  }

  lemma WithLessonValid(h: Hierarchy, scheme: KeyScheme, rows: seq<CourseRow>, row: CourseRow, lesson: Lesson)
    requires Valid(h, scheme, rows) && RowGroupKey(scheme, row) in h.groupMap
    ensures Valid(WithLesson(h, RowGroupKey(scheme, row), lesson), scheme, rows + [row])
  {
    var gk := RowGroupKey(scheme, row);
    var gi := h.groupMap[gk];
    var h' := WithLesson(h, gk, lesson);
    var rows' := rows + [row];
    forall g, j | 0 <= g < |h'.groupLessons| && 0 <= j < |h'.groupLessons[g]|
      ensures h'.groupLessons[g][j] < |rows'|
      ensures GroupKeyOf(scheme, h'.courses, h'.modules, h'.groups, g) == RowGroupKey(scheme, rows'[h'.groupLessons[g][j]])
    {
      if g == gi && j == |h.groupLessons[g]| {
        assert h'.groupLessons[g][j] == |rows|;
      } else {
        assert h'.groupLessons[g][j] == h.groupLessons[g][j];
      }
    }
  }

  /** What the import needs to look a group up: one lesson list per group, the cache pointing at groups. */
  ghost predicate Shaped(h: Hierarchy)
  {
    |h.groupLessons| == |h.groups| && forall k :: k in h.groupMap ==> h.groupMap[k] < |h.groups|
  }

  /** Get or create the row's course, module and group, each saved as soon as it is created. */
  function PlaceGroup(h: Hierarchy, scheme: KeyScheme, row: CourseRow, now: Timestamp): (r: Hierarchy)
    requires Shaped(h)
    ensures Shaped(r)
    ensures RowGroupKey(scheme, row) in r.groupMap
    ensures r.courseMap.Keys == h.courseMap.Keys + {row.courseTitle}
    ensures r.lessons == h.lessons
    ensures r.groupLessons == h.groupLessons || r.groupLessons == h.groupLessons + [[]]
  {
    var h1 := WithCourse(h, row.courseTitle, now);
    var h2 := WithModule(h1, scheme, row.courseTitle, row.moduleTitle);
    WithGroup(h2, scheme, row)
  }

  /** Getting or creating them keeps the invariant. */
  lemma PlaceGroupValid(h: Hierarchy, scheme: KeyScheme, rows: seq<CourseRow>, row: CourseRow, now: Timestamp)
    requires Valid(h, scheme, rows)
    ensures Valid(PlaceGroup(h, scheme, row, now), scheme, rows)
  {
    var h1 := WithCourse(h, row.courseTitle, now);
    WithCourseValid(h, scheme, rows, row.courseTitle, now);
    var h2 := WithModule(h1, scheme, row.courseTitle, row.moduleTitle);
    WithModuleValid(h1, scheme, rows, row.courseTitle, row.moduleTitle);
    WithGroupValid(h2, scheme, rows, row);
  }

  /** One video row whose lesson is saved: its course, module and group, then its lesson. */
  function PlaceRow(h: Hierarchy, scheme: KeyScheme, ghost rows: seq<CourseRow>, row: CourseRow,
                    lesson: Lesson, now: Timestamp): (r: Hierarchy)
    requires Valid(h, scheme, rows)
    ensures Valid(r, scheme, rows + [row])
    ensures r.courseMap.Keys == h.courseMap.Keys + {row.courseTitle}
  {
    var g := PlaceGroup(h, scheme, row, now);
    PlaceGroupValid(h, scheme, rows, row, now);
    WithLessonValid(g, scheme, rows, row, lesson);
    WithLesson(g, RowGroupKey(scheme, row), lesson)
  }

  /** The hierarchy built from the rows, in order. */
  function PlaceAll(scheme: KeyScheme, rows: seq<CourseRow>, extract: string -> Option<string>, now: Timestamp): (h: Hierarchy)
    ensures Valid(h, scheme, rows)
  {
    if rows == [] then NoHierarchy
    else
      var init := rows[..|rows| - 1];
      assert init + [rows[|rows| - 1]] == rows;
      PlaceRow(PlaceAll(scheme, init, extract, now), scheme, init, rows[|rows| - 1],
               CsvLesson(rows[|rows| - 1], extract), now)
  }

  /** The course titles the rows name. */
  function CourseTitles(rows: seq<CourseRow>): set<string>
  {
    if rows == [] then {} else CourseTitles(rows[..|rows| - 1]) + {rows[|rows| - 1].courseTitle}
  }

  lemma CourseTitlesMembers(rows: seq<CourseRow>)
    ensures forall t :: t in CourseTitles(rows) <==> exists i :: 0 <= i < |rows| && rows[i].courseTitle == t
  {
    if rows != [] {
      CourseTitlesMembers(rows[..|rows| - 1]);
      assert forall i :: 0 <= i < |rows| - 1 ==> rows[..|rows| - 1][i] == rows[i];
    }
  }

  /** A course is created for every distinct course title among the rows, and for no other title. */
  lemma {:induction false} PlaceAllCourses(scheme: KeyScheme, rows: seq<CourseRow>, extract: string -> Option<string>, now: Timestamp)
    ensures PlaceAll(scheme, rows, extract, now).courseMap.Keys == CourseTitles(rows)
  {
    if rows != [] {
      PlaceAllCourses(scheme, rows[..|rows| - 1], extract, now);
    }
  }

  /** No two created courses share a title, no two modules a key, no two groups a key. */
  lemma NoDuplicates(h: Hierarchy, scheme: KeyScheme, rows: seq<CourseRow>)
    requires Valid(h, scheme, rows)
    ensures forall i, j :: 0 <= i < j < |h.courses| ==> h.courses[i].title != h.courses[j].title
    ensures forall i, j :: 0 <= i < j < |h.modules| ==>
              ModuleKeyOf(scheme, h.courses, h.modules, i) != ModuleKeyOf(scheme, h.courses, h.modules, j)
    ensures forall i, j :: 0 <= i < j < |h.groups| ==>
              GroupKeyOf(scheme, h.courses, h.modules, h.groups, i) != GroupKeyOf(scheme, h.courses, h.modules, h.groups, j)
  {
    forall i, j | 0 <= i < j < |h.courses| ensures h.courses[i].title != h.courses[j].title {
      assert h.courseMap[h.courses[i].title] == i;
    }
    forall i, j | 0 <= i < j < |h.modules|
      ensures ModuleKeyOf(scheme, h.courses, h.modules, i) != ModuleKeyOf(scheme, h.courses, h.modules, j)
    {
      assert h.moduleMap[ModuleKeyOf(scheme, h.courses, h.modules, i)] == i;
    }
    forall i, j | 0 <= i < j < |h.groups|
      ensures GroupKeyOf(scheme, h.courses, h.modules, h.groups, i) != GroupKeyOf(scheme, h.courses, h.modules, h.groups, j)
    {
      assert h.groupMap[GroupKeyOf(scheme, h.courses, h.modules, h.groups, i)] == i;
    }
  }

  /**
   * With structured keys every lesson of a hierarchy built from rows (PlaceAll,
   * or the saved rows of ImportLines) lands in the group, module and course
   * its folder path names.
   */
  lemma StructuredRowsPlacedByTitles(h: Hierarchy, rows: seq<CourseRow>)
    requires Valid(h, Structured, rows)
    ensures forall g, j :: 0 <= g < |h.groupLessons| && 0 <= j < |h.groupLessons[g]| ==>
              h.groupLessons[g][j] < |rows| &&
              GroupTitles(h.courses, h.modules, h.groups, g) ==
                [rows[h.groupLessons[g][j]].courseTitle, rows[h.groupLessons[g][j]].moduleTitle,
                 rows[h.groupLessons[g][j]].groupTitle]
  {
    forall g, j | 0 <= g < |h.groupLessons| && 0 <= j < |h.groupLessons[g]|
      ensures h.groupLessons[g][j] < |rows|
      ensures GroupTitles(h.courses, h.modules, h.groups, g) ==
                [rows[h.groupLessons[g][j]].courseTitle, rows[h.groupLessons[g][j]].moduleTitle,
                 rows[h.groupLessons[g][j]].groupTitle]
    {
      assert |GroupTitles(h.courses, h.modules, h.groups, g)| == 3;
      assert GroupKeyOf(Structured, h.courses, h.modules, h.groups, g) == GroupTitles(h.courses, h.modules, h.groups, g);
    }
  }

  const FirstRow := CourseRow("1- One.mp4", "id1", "A_B", "C", "G")
  const SecondRow := CourseRow("2- Two.mp4", "id2", "A", "B_C", "G")

  /** Joining with "_" cannot tell "A_B" + "C" from "A" + "B_C". */
  lemma UnderscoreJoinAmbiguous()
    ensures "A" + "_" + "B_C" == "A_B" + "_" + "C"
  {
    var x := "A" + "_" + "B_C";
    var y := "A_B" + "_" + "C";
    assert |x| == |y| == 5;
    assert x[0] == y[0] && x[1] == y[1] && x[2] == y[2] && x[3] == y[3] && x[4] == y[4];
  }

  /** The course, module and group the first row creates in an empty hierarchy. */
  lemma FirstRowGroup(now: Timestamp)
    ensures var mk := ModuleKey(Underscored, "A_B", "C");
            var gk := RowGroupKey(Underscored, FirstRow);
            var a1 := WithCourse(NoHierarchy, "A_B", now);
            var a2 := WithModule(a1, Underscored, "A_B", "C");
            WithGroup(a2, Underscored, FirstRow) ==
              Hierarchy([NewCourse("A_B", now)], [ModuleRec("C", 0)], [GroupRec("G", 0)], [[]], [],
                        map["A_B" := 0], map[mk := 0], map[gk := 0])
  {
    var mk := ModuleKey(Underscored, "A_B", "C");
    var a1 := WithCourse(NoHierarchy, "A_B", now);
    assert a1 == Hierarchy([NewCourse("A_B", now)], [], [], [], [], map["A_B" := 0], map[], map[]);
    var a2 := WithModule(a1, Underscored, "A_B", "C");
    assert a2 == a1.(modules := [ModuleRec("C", 0)], moduleMap := map[mk := 0]);
  }

  /** The first row's lesson is the first lesson of that group. */
  lemma FirstRowLesson(lesson: Lesson, now: Timestamp)
    ensures var gk := RowGroupKey(Underscored, FirstRow);
            var a3 := WithGroup(WithModule(WithCourse(NoHierarchy, "A_B", now), Underscored, "A_B", "C"), Underscored, FirstRow);
            var a4 := WithLesson(a3, gk, lesson);
            a4 == a3.(lessons := [lesson], groupLessons := [[0]])
  {
    FirstRowGroup(now);
    assert [] + [0] == [0];
  }

  lemma CollisionFirstRow(extract: string -> Option<string>, now: Timestamp)
    ensures var mk := ModuleKey(Underscored, "A_B", "C");
            var gk := RowGroupKey(Underscored, FirstRow);
            var h := PlaceAll(Underscored, [FirstRow], extract, now);
            && h.courses == [NewCourse("A_B", now)] && h.modules == [ModuleRec("C", 0)]
            && h.groups == [GroupRec("G", 0)] && h.groupLessons == [[0]]
            && h.lessons == [CsvLesson(FirstRow, extract)]
            && h.courseMap == map["A_B" := 0] && h.moduleMap == map[mk := 0] && h.groupMap == map[gk := 0]
  {
    assert [FirstRow][..0] == [];
    var lesson := CsvLesson(FirstRow, extract);
    assert PlaceAll(Underscored, [FirstRow], extract, now) == PlaceRow(NoHierarchy, Underscored, [], FirstRow, lesson, now);
    FirstRowGroup(now);
    FirstRowLesson(lesson, now);
  }

  /**
   * Placing the second row into the hierarchy the first row built: a new
   * course "A", but the module and group keys are already cached.
   */
  lemma SecondRowReusesGroup(h1: Hierarchy, lesson: Lesson, now: Timestamp)
    requires var mk := ModuleKey(Underscored, "A_B", "C");
             var gk := RowGroupKey(Underscored, FirstRow);
             && h1.courseMap == map["A_B" := 0] && h1.moduleMap == map[mk := 0] && h1.groupMap == map[gk := 0]
             && |h1.courses| == 1 && h1.groupLessons == [[0]] && |h1.lessons| == 1
    ensures var b1 := WithCourse(h1, "A", now);
            "A" in b1.courseMap &&
            var b2 := WithModule(b1, Underscored, "A", "B_C");
            ModuleKey(Underscored, SecondRow.courseTitle, SecondRow.moduleTitle) in b2.moduleMap &&
            var b3 := WithGroup(b2, Underscored, SecondRow);
            var gk := RowGroupKey(Underscored, SecondRow);
            gk in b3.groupMap && b3.groupMap[gk] < |b3.groupLessons| &&
            var b4 := WithLesson(b3, gk, lesson);
            && b4.courses == h1.courses + [NewCourse("A", now)]
            && b4.modules == h1.modules && b4.groups == h1.groups
            && b4.groupLessons == [[0, 1]]
  {
    UnderscoreJoinAmbiguous();
    var b1 := WithCourse(h1, "A", now);
    assert b1 == h1.(courses := h1.courses + [NewCourse("A", now)], courseMap := h1.courseMap["A" := 1]);
    assert ModuleKey(Underscored, "A", "B_C") == ModuleKey(Underscored, "A_B", "C");
    var b2 := WithModule(b1, Underscored, "A", "B_C");
    assert b2 == b1;
    assert RowGroupKey(Underscored, SecondRow) == RowGroupKey(Underscored, FirstRow);
    var b3 := WithGroup(b2, Underscored, SecondRow);
    assert b3 == b2;
    assert [0] + [1] == [0, 1];
  }

  /**
   * With the source's "_"-joined keys, a video of course "A", module "B_C" is
   * filed in module "C" of course "A_B", created for an earlier row.
   */
  lemma UnderscoredKeysCollide(extract: string -> Option<string>, now: Timestamp)
    ensures var h := PlaceAll(Underscored, [FirstRow, SecondRow], extract, now);
            && |h.courses| == 2 && |h.modules| == 1 && |h.groups| == 1
            && h.groupLessons == [[0, 1]]
            && GroupTitles(h.courses, h.modules, h.groups, 0) == ["A_B", "C", "G"]
  {
    CollisionFirstRow(extract, now);
    SecondRowLast(extract, now);
    SecondRowReusesGroup(PlaceAll(Underscored, [FirstRow], extract, now), CsvLesson(SecondRow, extract), now);
  }

  /** The two rows are placed by placing the second into what the first built. */
  lemma SecondRowLast(extract: string -> Option<string>, now: Timestamp)
    ensures PlaceAll(Underscored, [FirstRow, SecondRow], extract, now)
            == PlaceRow(PlaceAll(Underscored, [FirstRow], extract, now), Underscored, [FirstRow], SecondRow,
                        CsvLesson(SecondRow, extract), now)
  {
    PlaceAllSnoc(Underscored, [FirstRow], SecondRow, extract, now);
    assert [FirstRow] + [SecondRow] == [FirstRow, SecondRow];
  }

  /** One more row is placed into the hierarchy of the rows before it. */
  lemma PlaceAllSnoc(scheme: KeyScheme, rows: seq<CourseRow>, row: CourseRow, extract: string -> Option<string>, now: Timestamp)
    ensures PlaceAll(scheme, rows + [row], extract, now)
            == PlaceRow(PlaceAll(scheme, rows, extract, now), scheme, rows, row, CsvLesson(row, extract), now)
  {
    var rs := rows + [row];
    assert rs[..|rs| - 1] == rows && rs[|rs| - 1] == row;
  }

  // The import with the outcome of each lesson save. importCourseFromCsv
  // builds the lesson without a group, while the Lesson entity declares
  // lesson_group_id NOT NULL; Linked is the import with the group set.

  /** How the lesson of a row refers to its group: not at all (as written), or by the group's id. */
  datatype GroupLink = Unlinked | Linked(groupId: nat -> Id)

  /** The lesson made for a row that goes into group number gi. */
  function RowLesson(row: CourseRow, extract: string -> Option<string>, link: GroupLink, gi: nat): Lesson
  {
    match link
    case Unlinked => CsvLesson(row, extract)
    case Linked(groupId) => CsvLesson(row, extract).(lessonGroup := Some(groupId(gi)))
  }

  /** The import so far: the hierarchy, the rows whose lesson was saved, the messages of the others. */
  datatype CourseImport = CourseImport(h: Hierarchy, saved: seq<CourseRow>, errors: seq<string>)

  function LineError(lineNumber: nat, message: string): string
  {
    "Line " + NatToString(lineNumber) + ": " + message
  }

  /**
   * One video row on line lineNumber. save(lesson) is the message of the
   * exception lessonRepository.save throws, or None when the lesson is saved.
   * A failed row is reported, not counted, and leaves its course, module and
   * group created.
   */
  function ImportRow(st: CourseImport, scheme: KeyScheme, link: GroupLink, row: CourseRow, lineNumber: nat,
                     extract: string -> Option<string>, save: Lesson -> Option<string>, now: Timestamp): (r: CourseImport)
    requires Shaped(st.h)
    ensures Shaped(r.h)
    ensures r.h.courseMap.Keys == st.h.courseMap.Keys + {row.courseTitle}
    ensures |r.saved| + |r.errors| == |st.saved| + |st.errors| + 1
  {
    var g := PlaceGroup(st.h, scheme, row, now);
    var gk := RowGroupKey(scheme, row);
    var lesson := RowLesson(row, extract, link, g.groupMap[gk]);
    match save(lesson)
    case Some(message) => CourseImport(g, st.saved, st.errors + [LineError(lineNumber, message)])
    case None => CourseImport(WithLesson(g, gk, lesson), st.saved + [row], st.errors)
  }

  /** A row saved or reported keeps the invariant for the saved rows. */
  lemma ImportRowValid(st: CourseImport, scheme: KeyScheme, link: GroupLink, row: CourseRow, lineNumber: nat,
                       extract: string -> Option<string>, save: Lesson -> Option<string>, now: Timestamp)
    requires Valid(st.h, scheme, st.saved)
    ensures var r := ImportRow(st, scheme, link, row, lineNumber, extract, save, now);
            Valid(r.h, scheme, r.saved)
  {
    var g := PlaceGroup(st.h, scheme, row, now);
    PlaceGroupValid(st.h, scheme, st.saved, row, now);
    var gk := RowGroupKey(scheme, row);
    var lesson := RowLesson(row, extract, link, g.groupMap[gk]);
    var r := ImportRow(st, scheme, link, row, lineNumber, extract, save, now);
    if save(lesson).None? {
      WithLessonValid(g, scheme, st.saved, row, lesson);
      assert r == CourseImport(WithLesson(g, gk, lesson), st.saved + [row], st.errors);
    } else {
      assert r.h == g && r.saved == st.saved;
    }
  }

  lemma CourseTitlesSnoc(rows: seq<CourseRow>, row: CourseRow)
    ensures CourseTitles(rows + [row]) == CourseTitles(rows) + {row.courseTitle}
  {
    var rs := rows + [row];
    assert rs[..|rs| - 1] == rows && rs[|rs| - 1] == row;
  }

  /**
   * The import of the lines, in file order. Every video row is either saved
   * or reported, and the courses of all of them are created.
   */
  function ImportLines(scheme: KeyScheme, link: GroupLink, lines: seq<string>, extract: string -> Option<string>,
                       save: Lesson -> Option<string>, now: Timestamp): (r: CourseImport)
    ensures Shaped(r.h)
    decreases |lines|, 1
  {
    if lines == [] then CourseImport(NoHierarchy, [], []) else ImportThroughLast(scheme, link, lines, extract, save, now)
  }

  /** The import of a non-empty file: the lines before the last, then the last line's row, if it has one. */
  function ImportThroughLast(scheme: KeyScheme, link: GroupLink, lines: seq<string>, extract: string -> Option<string>,
                             save: Lesson -> Option<string>, now: Timestamp): (r: CourseImport)
    requires lines != []
    ensures Shaped(r.h)
    decreases |lines|, 0
  {
    var init := lines[..|lines| - 1];
    var prev := ImportLines(scheme, link, init, extract, save, now);
    var rs := LineRows(lines[|lines| - 1], AllBlank(init));
    if rs == [] then prev else ImportRow(prev, scheme, link, rs[0], |lines|, extract, save, now)
  }

  /** Every video row is either saved or reported, and a course exists for the title of every row, saved or not. */
  lemma {:induction false} ImportLinesAccounted(scheme: KeyScheme, link: GroupLink, lines: seq<string>,
                                                extract: string -> Option<string>, save: Lesson -> Option<string>,
                                                now: Timestamp)
    ensures var r := ImportLines(scheme, link, lines, extract, save, now);
            && |r.saved| + |r.errors| == |CourseRows(lines)|
            && r.h.courseMap.Keys == CourseTitles(CourseRows(lines))
  {
    if lines != [] {
      var init := lines[..|lines| - 1];
      ImportLinesAccounted(scheme, link, init, extract, save, now);
      var rs := LineRows(lines[|lines| - 1], AllBlank(init));
      assert CourseRows(lines) == CourseRows(init) + rs;
      if rs == [] {
        assert CourseRows(lines) == CourseRows(init);
      } else {
        assert rs == [rs[0]];
        CourseTitlesSnoc(CourseRows(init), rs[0]);
      }
    }
  }

  /** One more line extends the import by that line's row, saved or reported, if it has one. */
  lemma ImportLinesStep(scheme: KeyScheme, link: GroupLink, lines: seq<string>, n: nat,
                        extract: string -> Option<string>, save: Lesson -> Option<string>, now: Timestamp)
    requires n < |lines|
    ensures var prev := ImportLines(scheme, link, lines[..n], extract, save, now);
            var rs := LineRows(lines[n], AllBlank(lines[..n]));
            ImportLines(scheme, link, lines[..n + 1], extract, save, now)
              == if rs == [] then prev else ImportRow(prev, scheme, link, rs[0], n + 1, extract, save, now)
    ensures AllBlank(lines[..n + 1]) <==> AllBlank(lines[..n]) && IsBlank(lines[n])
  {
    CourseRowsStep(lines, n);
    var m := lines[..n + 1];
    assert |m| == n + 1 && m[..n] == lines[..n] && m[n] == lines[n];
    var prev := ImportLines(scheme, link, lines[..n], extract, save, now);
    var rs := LineRows(lines[n], AllBlank(lines[..n]));
    if rs == [] {
      assert ImportLines(scheme, link, m, extract, save, now) == prev;
    } else {
      assert ImportLines(scheme, link, m, extract, save, now) == ImportRow(prev, scheme, link, rs[0], |m|, extract, save, now);
    }
  }

  /** The import keeps the cache/entity invariant for the rows it saved. */
  lemma {:induction false} ImportLinesValid(scheme: KeyScheme, link: GroupLink, lines: seq<string>,
                                            extract: string -> Option<string>, save: Lesson -> Option<string>,
                                            now: Timestamp)
    ensures var r := ImportLines(scheme, link, lines, extract, save, now);
            Valid(r.h, scheme, r.saved)
  {
    if lines != [] {
      var init := lines[..|lines| - 1];
      ImportLinesValid(scheme, link, init, extract, save, now);
      var rs := LineRows(lines[|lines| - 1], AllBlank(init));
      if rs != [] {
        ImportRowValid(ImportLines(scheme, link, init, extract, save, now), scheme, link, rs[0], |lines|, extract, save, now);
      }
    }
  }

  /** When every save succeeds the source's import is PlaceAll of the rows, with no error. */
  lemma {:induction false} EverySaveSucceeds(scheme: KeyScheme, lines: seq<string>, extract: string -> Option<string>,
                                             save: Lesson -> Option<string>, now: Timestamp)
    requires forall l :: save(l).None?
    ensures ImportLines(scheme, Unlinked, lines, extract, save, now)
            == CourseImport(PlaceAll(scheme, CourseRows(lines), extract, now), CourseRows(lines), [])
  {
    if lines != [] {
      var init := lines[..|lines| - 1];
      EverySaveSucceeds(scheme, init, extract, save, now);
      var prev := ImportLines(scheme, Unlinked, init, extract, save, now);
      var rows := CourseRows(init);
      var rs := LineRows(lines[|lines| - 1], AllBlank(init));
      assert CourseRows(lines) == rows + rs;
      if rs == [] {
        assert CourseRows(lines) == rows;
      } else {
        assert rs == [rs[0]];
        PlaceAllSnoc(scheme, rows, rs[0], extract, now);
        assert ImportLines(scheme, Unlinked, lines, extract, save, now) == ImportRow(prev, scheme, Unlinked, rs[0], |lines|, extract, save, now);
        assert ImportRow(prev, scheme, Unlinked, rs[0], |lines|, extract, save, now)
               == CourseImport(PlaceRow(prev.h, scheme, rows, rs[0], CsvLesson(rs[0], extract), now), rows + rs, []);
      }
    }
  }

  /** A database that enforces lesson_group_id NOT NULL: a lesson save fails exactly when the lesson has no group. */
  ghost predicate RejectsUngrouped(save: Lesson -> Option<string>)
  {
    forall l :: save(l).Some? <==> l.lessonGroup.None?
  }

  /** A database enforcing the NOT NULL column rejects the lesson as written, which has no group. */
  lemma UnlinkedRowRejected(st: CourseImport, scheme: KeyScheme, row: CourseRow, lineNumber: nat,
                            extract: string -> Option<string>, save: Lesson -> Option<string>, now: Timestamp)
    requires Shaped(st.h)
    requires RejectsUngrouped(save)
    ensures var r := ImportRow(st, scheme, Unlinked, row, lineNumber, extract, save, now);
            r.saved == st.saved && r.h.lessons == st.h.lessons
  {
    assert save(CsvLesson(row, extract)).Some?;
  }

  /**
   * With a database that enforces lesson_group_id NOT NULL, the source's
   * import saves no lesson: every video row is reported as an error.
   */
  lemma {:induction false} UngroupedLessonsRejected(scheme: KeyScheme, lines: seq<string>, extract: string -> Option<string>,
                                                    save: Lesson -> Option<string>, now: Timestamp)
    requires RejectsUngrouped(save)
    ensures var r := ImportLines(scheme, Unlinked, lines, extract, save, now);
            && r.saved == [] && r.h.lessons == [] && |r.errors| == |CourseRows(lines)|
            && r.h.courseMap.Keys == CourseTitles(CourseRows(lines))
  {
    ImportLinesAccounted(scheme, Unlinked, lines, extract, save, now);
    if lines != [] {
      var init, last := lines[..|lines| - 1], lines[|lines| - 1];
      UngroupedLessonsRejected(scheme, init, extract, save, now);
      var prev := ImportLines(scheme, Unlinked, init, extract, save, now);
      var rs := LineRows(last, AllBlank(init));
      if rs != [] {
        UnlinkedRowRejected(prev, scheme, rs[0], |lines|, extract, save, now);
      }
    }
  }

  /** Every lesson the groups list refers back to the group that lists it. */
  ghost predicate LessonsLinked(h: Hierarchy, groupId: nat -> Id)
  {
    forall g, j :: 0 <= g < |h.groupLessons| && 0 <= j < |h.groupLessons[g]| ==>
      h.groupLessons[g][j] < |h.lessons| && h.lessons[h.groupLessons[g][j]].lessonGroup == Some(groupId(g))
  }

  /** A new group starts with no lessons, so the lessons stay linked. */
  lemma GroupAddedLinked(h: Hierarchy, g: Hierarchy, groupId: nat -> Id)
    requires LessonsLinked(h, groupId) && g.lessons == h.lessons
    requires g.groupLessons == h.groupLessons || g.groupLessons == h.groupLessons + [[]]
    ensures LessonsLinked(g, groupId)
  {
    if g.groupLessons != h.groupLessons {
      forall i, j | 0 <= i < |h.groupLessons| && 0 <= j < |h.groupLessons[i]|
        ensures g.groupLessons[i][j] < |g.lessons| && g.lessons[g.groupLessons[i][j]].lessonGroup == Some(groupId(i))
      {
        assert g.groupLessons[i] == h.groupLessons[i];
      }
    }
  }

  /** A lesson that refers to the group it is added to keeps the lessons linked. */
  lemma WithLessonLinked(g: Hierarchy, gk: Key, lesson: Lesson, groupId: nat -> Id)
    requires LessonsLinked(g, groupId) && gk in g.groupMap && g.groupMap[gk] < |g.groupLessons|
    requires lesson.lessonGroup == Some(groupId(g.groupMap[gk]))
    ensures LessonsLinked(WithLesson(g, gk, lesson), groupId)
  {
    var gi := g.groupMap[gk];
    var h' := WithLesson(g, gk, lesson);
    forall i, j | 0 <= i < |h'.groupLessons| && 0 <= j < |h'.groupLessons[i]|
      ensures h'.groupLessons[i][j] < |h'.lessons| && h'.lessons[h'.groupLessons[i][j]].lessonGroup == Some(groupId(i))
    {
      if i == gi && j == |g.groupLessons[i]| {
        assert h'.groupLessons[i][j] == |g.lessons|;
      } else {
        assert h'.groupLessons[i][j] == g.groupLessons[i][j];
      }
    }
  }

  lemma ImportRowLinked(st: CourseImport, scheme: KeyScheme, groupId: nat -> Id, row: CourseRow, lineNumber: nat,
                        extract: string -> Option<string>, save: Lesson -> Option<string>, now: Timestamp)
    requires Shaped(st.h) && LessonsLinked(st.h, groupId)
    ensures LessonsLinked(ImportRow(st, scheme, Linked(groupId), row, lineNumber, extract, save, now).h, groupId)
  {
    var g := PlaceGroup(st.h, scheme, row, now);
    GroupAddedLinked(st.h, g, groupId);
    var gk := RowGroupKey(scheme, row);
    var lesson := RowLesson(row, extract, Linked(groupId), g.groupMap[gk]);
    var r := ImportRow(st, scheme, Linked(groupId), row, lineNumber, extract, save, now);
    if save(lesson).None? {
      WithLessonLinked(g, gk, lesson, groupId);
      assert r.h == WithLesson(g, gk, lesson);
    } else {
      assert r.h == g;
    }
  }

  /** With the group set, every saved lesson refers to the group it is listed in, whatever the saves do. */
  lemma {:induction false} LinkedImportLinksLessons(scheme: KeyScheme, groupId: nat -> Id, lines: seq<string>,
                                                    extract: string -> Option<string>, save: Lesson -> Option<string>,
                                                    now: Timestamp)
    ensures LessonsLinked(ImportLines(scheme, Linked(groupId), lines, extract, save, now).h, groupId)
  {
    if lines != [] {
      var init := lines[..|lines| - 1];
      LinkedImportLinksLessons(scheme, groupId, init, extract, save, now);
      var rs := LineRows(lines[|lines| - 1], AllBlank(init));
      if rs != [] {
        ImportRowLinked(ImportLines(scheme, Linked(groupId), init, extract, save, now), scheme, groupId, rs[0],
                        |lines|, extract, save, now);
      }
    }
  }

  /** A database enforcing the NOT NULL column accepts a lesson whose group is set. */
  lemma LinkedRowSaved(st: CourseImport, scheme: KeyScheme, groupId: nat -> Id, row: CourseRow, lineNumber: nat,
                       extract: string -> Option<string>, save: Lesson -> Option<string>, now: Timestamp)
    requires Shaped(st.h)
    requires RejectsUngrouped(save)
    ensures var r := ImportRow(st, scheme, Linked(groupId), row, lineNumber, extract, save, now);
            r.saved == st.saved + [row] && r.errors == st.errors
  {
    var g := PlaceGroup(st.h, scheme, row, now);
    var lesson := RowLesson(row, extract, Linked(groupId), g.groupMap[RowGroupKey(scheme, row)]);
    assert save(lesson).None?;
  }

  /** With the group set, a database enforcing the NOT NULL column saves every row and reports none. */
  lemma {:induction false} GroupedRowsSaved(scheme: KeyScheme, groupId: nat -> Id, lines: seq<string>,
                                            extract: string -> Option<string>, save: Lesson -> Option<string>,
                                            now: Timestamp)
    requires RejectsUngrouped(save)
    ensures var r := ImportLines(scheme, Linked(groupId), lines, extract, save, now);
            r.saved == CourseRows(lines) && r.errors == []
  {
    if lines != [] {
      var init := lines[..|lines| - 1];
      GroupedRowsSaved(scheme, groupId, init, extract, save, now);
      var prev := ImportLines(scheme, Linked(groupId), init, extract, save, now);
      var rs := LineRows(lines[|lines| - 1], AllBlank(init));
      assert CourseRows(lines) == CourseRows(init) + rs;
      if rs == [] {
        assert CourseRows(lines) == CourseRows(init);
      } else {
        LinkedRowSaved(prev, scheme, groupId, rs[0], |lines|, extract, save, now);
        assert rs == [rs[0]];
      }
    }
  }

  /**
   * With the group set, the same database accepts every lesson: all the rows
   * are saved, none is reported, and each lesson refers to its group.
   */
  lemma GroupedLessonsSaved(scheme: KeyScheme, groupId: nat -> Id, lines: seq<string>,
                            extract: string -> Option<string>, save: Lesson -> Option<string>, now: Timestamp)
    requires RejectsUngrouped(save)
    ensures var r := ImportLines(scheme, Linked(groupId), lines, extract, save, now);
            && r.saved == CourseRows(lines) && r.errors == [] && |r.h.lessons| == |CourseRows(lines)|
            && LessonsLinked(r.h, groupId)
  {
    GroupedRowsSaved(scheme, groupId, lines, extract, save, now);
    LinkedImportLinksLessons(scheme, groupId, lines, extract, save, now);
    ImportLinesValid(scheme, Linked(groupId), lines, extract, save, now);
  }

  /** The loop body for a line past the header test: the four columns and the folder path. */
  method ReadCourseRow(line: string) returns (row: Option<CourseRow>)
    ensures row == CourseRowOf(line)
  {
    var parts := ParseCsvLine(line);
    if |parts| < 4 {
      return None;
    }
    var fileName := Trim(parts[0]);
    var fileId := Trim(parts[1]);
    var mimeType := Trim(parts[2]);
    var folderPath := Trim(parts[3]);
    if !StartsWith(mimeType, "video") {
      return None;
    }
    var pathParts := Split(folderPath, '/');
    if |pathParts| < 1 {
      return None;
    }
    var courseTitle := Trim(pathParts[0]);
    var moduleTitle := if |pathParts| > 1 then Trim(pathParts[1]) else "Default Module";
    var groupTitle := if |pathParts| > 2 then Trim(pathParts[2]) else "Default Group";
    return Some(CourseRow(fileName, fileId, courseTitle, moduleTitle, groupTitle));
  }

  /** One more line extends the rows by what that line contributes. */
  lemma CourseRowsStep(lines: seq<string>, n: nat)
    requires n < |lines|
    ensures CourseRows(lines[..n + 1]) == CourseRows(lines[..n]) + LineRows(lines[n], AllBlank(lines[..n]))
    ensures AllBlank(lines[..n + 1]) <==> AllBlank(lines[..n]) && IsBlank(lines[n])
  {
    assert lines[..n + 1][..n] == lines[..n];
    assert lines[..n + 1] == lines[..n] + [lines[n]];
  }

  /**
   * The loop body on one line: skip it when blank, skip it when it is the
   * first non-blank line and a header, otherwise read its row.
   */
  method ReadCourseLine(line: string, isFirstLine: bool) returns (row: Option<CourseRow>, firstAfter: bool)
    ensures (if row.Some? then [row.value] else []) == LineRows(line, isFirstLine)
    ensures firstAfter == (isFirstLine && IsBlank(line))
  {
    firstAfter := isFirstLine;
    if IsBlank(line) {
      return None, firstAfter;
    }
    if isFirstLine {
      firstAfter := false;
      if IsCourseHeader(line) {
        return None, firstAfter;
      }
    }
    row := ReadCourseRow(line);
  }

  /**
   * The loop body for a video row: get or create its course, module and
   * group, then save its lesson, or record the exception's message.
   */
  method SaveRow(st: CourseImport, scheme: KeyScheme, link: GroupLink, row: CourseRow, lineNumber: nat,
                 extract: string -> Option<string>, save: Lesson -> Option<string>, now: Timestamp)
    returns (r: CourseImport, saved: bool)
    requires Shaped(st.h)
    ensures r == ImportRow(st, scheme, link, row, lineNumber, extract, save, now)
    ensures saved <==> |r.saved| == |st.saved| + 1
  {
    var g := PlaceGroup(st.h, scheme, row, now);
    var gk := RowGroupKey(scheme, row);
    var lesson := RowLesson(row, extract, link, g.groupMap[gk]);
    var failure := save(lesson);
    if failure.Some? {
      r := CourseImport(g, st.saved, st.errors + [LineError(lineNumber, failure.value)]);
      saved := false;
    } else {
      r := CourseImport(WithLesson(g, gk, lesson), st.saved + [row], st.errors);
      saved := true;
    }
  }

  /**
   * One turn of the import loop, on lines[index]: a blank line, the header or
   * a skipped line changes nothing; a video row is imported.
   */
  method ImportLine(lines: seq<string>, index: nat, st: CourseImport, isFirstLine: bool, importedCount: nat,
                    scheme: KeyScheme, link: GroupLink, extract: string -> Option<string>,
                    save: Lesson -> Option<string>, now: Timestamp)
    returns (st': CourseImport, isFirstAfter: bool, countAfter: nat)
    requires index < |lines|
    requires st == ImportLines(scheme, link, lines[..index], extract, save, now)
    requires (isFirstLine <==> AllBlank(lines[..index])) && importedCount == |st.saved|
    ensures st' == ImportLines(scheme, link, lines[..index + 1], extract, save, now)
    ensures isFirstAfter <==> AllBlank(lines[..index + 1])
    ensures countAfter == |st'.saved|
  {
    ImportLinesStep(scheme, link, lines, index, extract, save, now);
    var row;
    row, isFirstAfter := ReadCourseLine(lines[index], isFirstLine);
    if row.Some? {
      var saved;
      st', saved := SaveRow(st, scheme, link, row.value, index + 1, extract, save, now);
      countAfter := if saved then importedCount + 1 else importedCount;
    } else {
      st', countAfter := st, importedCount;
    }
  }

  /** The import state after the first n lines. */
  ghost predicate ImportedUpTo(st: CourseImport, scheme: KeyScheme, link: GroupLink, lines: seq<string>, n: nat,
                               extract: string -> Option<string>, save: Lesson -> Option<string>, now: Timestamp)
  {
    n <= |lines| && st == ImportLines(scheme, link, lines[..n], extract, save, now)
  }

  /** The loop of importCourseFromCsv: every line read in turn, each row imported or reported. */
  method PlaceLines(lines: seq<string>, scheme: KeyScheme, link: GroupLink, extract: string -> Option<string>,
                    save: Lesson -> Option<string>, now: Timestamp)
    returns (st: CourseImport, importedCount: nat)
    ensures st == ImportLines(scheme, link, lines, extract, save, now)
    ensures importedCount == |st.saved|
  {
    st := CourseImport(NoHierarchy, [], []);
    importedCount := 0;
    var isFirstLine := true;
    var index := 0;
    assert lines[..0] == [];
    while index < |lines|
      invariant 0 <= index <= |lines|
      invariant isFirstLine <==> AllBlank(lines[..index])
      invariant ImportedUpTo(st, scheme, link, lines, index, extract, save, now)
      invariant importedCount == |st.saved|
    {
      st, isFirstLine, importedCount := ImportLine(lines, index, st, isFirstLine, importedCount,
                                                   scheme, link, extract, save, now);
      index := index + 1;
    }
    WholePrefix(lines);
  }

  /**
   * importCourseFromCsv: the rows imported, then the summary. The messages of
   * failed saves are returned, while errorCount is never set and stays 0.
   */
  method ImportCourseFromCsv(lines: seq<string>, scheme: KeyScheme, link: GroupLink, extract: string -> Option<string>,
                             save: Lesson -> Option<string>, now: Timestamp)
    returns (response: CsvImportResponse, h: Hierarchy)
    ensures var r := ImportLines(scheme, link, lines, extract, save, now);
            && h == r.h && Valid(h, scheme, r.saved)
            && response.importedCount == |r.saved| == |h.lessons|
            && response.errors == r.errors
            && response.importedCount + |response.errors| == |CourseRows(lines)|
            && response.message == "Imported coverage: " + NatToString(|r.saved|)
                                    + " videos. Created courses: " + NatToString(|CourseTitles(CourseRows(lines))|)
    ensures response.errorCount == 0 && response.totalLines == 0 && response.lessonGroupId == None
  {
    var st, importedCount := PlaceLines(lines, scheme, link, extract, save, now);
    ImportLinesValid(scheme, link, lines, extract, save, now);
    ImportLinesAccounted(scheme, link, lines, extract, save, now);
    h := st.h;
    response := CsvImportResponse(0, importedCount, 0, st.errors, None,
      "Imported coverage: " + NatToString(importedCount) + " videos. Created courses: " + NatToString(|h.courseMap|));
  }

}
