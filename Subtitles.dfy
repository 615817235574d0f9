/**
 * SubtitleController: finding the .srt file next to a local lesson's video
 * and rewriting it as WebVTT (the "WEBVTT" signature line of section 4.1 of
 * the W3C WebVTT specification, cue timings with '.' before the milliseconds).
 */
module Subtitles {
  import opened Wrappers
  import opened JavaText
  import opened UnixPath
  import opened Entities

  // ---------------------------------------------------------------------------
  // convertSrtToVtt
  // ---------------------------------------------------------------------------

  /** "dd:dd:dd" then `sep` then "ddd", starting at k. */
  predicate TimestampAt(s: string, k: nat, sep: char)
    requires k + 12 <= |s|
  {
    && IsDigit(s[k]) && IsDigit(s[k + 1]) && s[k + 2] == ':'
    && IsDigit(s[k + 3]) && IsDigit(s[k + 4]) && s[k + 5] == ':'
    && IsDigit(s[k + 6]) && IsDigit(s[k + 7]) && s[k + 8] == sep
    && IsDigit(s[k + 9]) && IsDigit(s[k + 10]) && IsDigit(s[k + 11])
  }

  /** The whole line is two timestamps around "-->", one \s character on either side. */
  predicate TimingLine(s: string, sep: char)
  {
    && |s| == 29
    && TimestampAt(s, 0, sep) && IsRegexSpace(s[12])
    && s[13] == '-' && s[14] == '-' && s[15] == '>'
    && IsRegexSpace(s[16]) && TimestampAt(s, 17, sep)
  }

  /** The line the regex \d{2}:\d{2}:\d{2},\d{3}\s-->\s\d{2}:\d{2}:\d{2},\d{3} matches in full. */
  predicate SrtTimingLine(s: string) { TimingLine(s, ',') }

  /** A WebVTT cue timing line of the same shape. */
  predicate VttTimingLine(s: string) { TimingLine(s, '.') }

  /** A timing line has every ',' turned into '.'; any other line is copied. */
  function ConvertLine(line: string): string
  {
    if SrtTimingLine(line) then ReplaceChar(line, ',', '.') else line
  }

  /** The converted lines, each followed by "\n". */
  function Body(lines: seq<string>): string
  {
    if lines == [] then "" else ConvertLine(lines[0]) + "\n" + Body(lines[1..])
  }

  function Converted(lines: seq<string>): (r: seq<string>)
    ensures |r| == |lines|
    ensures forall i :: 0 <= i < |lines| ==> r[i] == ConvertLine(lines[i])
  {
    if lines == [] then [] else [ConvertLine(lines[0])] + Converted(lines[1..])
  }

  const VTT_HEADER: string := "WEBVTT\n\n"

  lemma {:induction false} BodySnoc(lines: seq<string>, line: string)
    ensures Body(lines + [line]) == Body(lines) + ConvertLine(line) + "\n"
  {
    if lines == [] {
      assert [line][1..] == [];
    } else {
      assert (lines + [line])[1..] == lines[1..] + [line];
      BodySnoc(lines[1..], line);
    }
  }

  /** The output for one more line of the input: the converted line and "\n" appended. */
  lemma OutputPrefixNext(lines: seq<string>, i: nat)
    requires i < |lines|
    ensures VTT_HEADER + Body(lines[..i + 1]) == VTT_HEADER + Body(lines[..i]) + ConvertLine(lines[i]) + "\n"
  {
    assert lines[..i + 1] == lines[..i] + [lines[i]];
    BodySnoc(lines[..i], lines[i]);
    Append4(VTT_HEADER, Body(lines[..i]), ConvertLine(lines[i]), "\n");
  }

  lemma Append4(a: string, b: string, c: string, d: string)
    ensures a + (b + c + d) == a + b + c + d
  {
  }

  /** convertSrtToVtt over the lines BufferedReader.readLine returns. */
  method ConvertSrtToVtt(lines: seq<string>) returns (vtt: string)
    ensures vtt == VTT_HEADER + Body(lines)
  {
    vtt := VTT_HEADER;
    var i := 0;
    while i < |lines|
      invariant 0 <= i <= |lines|
      invariant vtt == VTT_HEADER + Body(lines[..i])
    {
      var line := lines[i];
      OutputPrefixNext(lines, i);
      ghost var next := vtt + ConvertLine(line) + "\n";
      if SrtTimingLine(line) {
        assert ConvertLine(line) == ReplaceChar(line, ',', '.');
        vtt := vtt + ReplaceChar(line, ',', '.') + "\n";
      } else {
        assert ConvertLine(line) == line;
        vtt := vtt + line + "\n";
      }
      assert vtt == next;
      i := i + 1;
    }
    WholePrefix(lines);
  }

  /** readLine never returns a line terminator inside a line. */
  predicate NoBreaks(lines: seq<string>)
  {
    forall i :: 0 <= i < |lines| ==> '\n' !in lines[i] && '\r' !in lines[i]
  }

  lemma ConvertKeepsBreaks(line: string)
    ensures '\n' in ConvertLine(line) <==> '\n' in line
  {
    if SrtTimingLine(line) {
      var r := ReplaceChar(line, ',', '.');
      if '\n' in line {
        var k :| 0 <= k < |line| && line[k] == '\n';
        assert r[k] == '\n';
      }
    }
  }

  lemma {:induction false} BodyLines(lines: seq<string>)
    requires NoBreaks(lines)
    ensures Pieces(Body(lines), '\n') == Converted(lines) + [""]
  {
    if lines != [] {
      ConvertKeepsBreaks(lines[0]);
      assert NoBreaks(lines[1..]) by {
        forall i | 0 <= i < |lines[1..]| ensures '\n' !in lines[1..][i] && '\r' !in lines[1..][i] {
          assert lines[1..][i] == lines[i + 1];
        }
      }
      BodyLines(lines[1..]);
      assert ConvertLine(lines[0]) + "\n" + Body(lines[1..]) == ConvertLine(lines[0]) + ['\n'] + Body(lines[1..]);
      PiecesFirstDelim(ConvertLine(lines[0]), Body(lines[1..]), '\n');
    }
  }

  /**
   * The output is the signature line, an empty line, then one line per input
   * line, each ended by "\n": split at "\n" it gives those lines and a final "".
   */
  lemma VttLines(lines: seq<string>)
    requires NoBreaks(lines)
    ensures var ps := Pieces(VTT_HEADER + Body(lines), '\n');
            && ps == ["WEBVTT", ""] + Converted(lines) + [""]
            && |ps| == |lines| + 3
  {
    BodyLines(lines);
    HeaderPieces(Body(lines));
  }

  lemma HeaderPieces(b: string)
    ensures Pieces(VTT_HEADER + b, '\n') == ["WEBVTT", ""] + Pieces(b, '\n')
  {
    var w := "WEBVTT";
    var rest := [] + ['\n'] + b;
    assert VTT_HEADER + b == w + ['\n'] + rest;
    assert '\n' !in w;
    PiecesFirstDelim(w, rest, '\n');
    PiecesFirstDelim([], b, '\n');
  }

  /** The output always begins with the WebVTT signature and an empty line. */
  lemma VttHeaderFirst(lines: seq<string>)
    ensures StartsWith(VTT_HEADER + Body(lines), "WEBVTT\n\n")
  {
    assert (VTT_HEADER + Body(lines))[..|VTT_HEADER|] == VTT_HEADER;
  }

  /** A converted timing line is a WebVTT timing line, with no ',' left and nothing else changed. */
  lemma TimingLineConverted(line: string)
    requires SrtTimingLine(line)
    ensures VttTimingLine(ConvertLine(line))
    ensures ',' !in ConvertLine(line)
    ensures forall i :: 0 <= i < |line| && i != 8 && i != 25 ==> ConvertLine(line)[i] == line[i]
  {
    var r := ConvertLine(line);
    ReplaceCharRemoves(line, ',', '.');
    forall i | 0 <= i < |line| && i != 8 && i != 25 ensures r[i] == line[i] {
      assert line[i] != ',';
    }
  }

  /** Other lines, among them cue numbers and text, are copied as they are. */
  lemma OtherLineCopied(line: string)
    requires !SrtTimingLine(line)
    ensures ConvertLine(line) == line
  {
  }

  /** Converting converted output again changes nothing: no timing line survives with a ','. */
  lemma ConvertIdempotent(line: string)
    ensures ConvertLine(ConvertLine(line)) == ConvertLine(line)
  {
    if SrtTimingLine(line) {
      TimingLineConverted(line);
      var r := ConvertLine(line);
      assert r[8] == '.';
      assert !SrtTimingLine(r);
    }
  }

  // ---------------------------------------------------------------------------
  // getSubtitle
  // ---------------------------------------------------------------------------

  datatype SubtitleReply = NotFound | ServerError | Vtt(body: string)
  {
    function Status(): nat
    {
      match this
      case NotFound => 404
      case ServerError => 500
      case Vtt(_) => 200
    }
  }

  /** The subtitle files tried, in order: base.en.srt, then base.srt, in the video's directory. */
  function Candidates(parent: FsPath, base: string): seq<FsPath>
  {
    [ResolvePath(parent, FsPath(false, [base + ".en.srt"])), ResolvePath(parent, FsPath(false, [base + ".srt"]))]
  }

  /** The first candidate that exists. */
  function PickSubtitle(cands: seq<FsPath>, present: FsPath -> bool): (r: Option<FsPath>)
    ensures r.Some? ==> r.value in cands && present(r.value)
    ensures r.Some? ==> exists i :: 0 <= i < |cands| && cands[i] == r.value && forall j :: 0 <= j < i ==> !present(cands[j])
    ensures r.None? <==> forall i :: 0 <= i < |cands| ==> !present(cands[i])
  {
    if cands == [] then None
    else if present(cands[0]) then
      Some(cands[0])
    else
      var r := PickSubtitle(cands[1..], present);
      assert forall i :: 1 <= i < |cands| ==> cands[i] == cands[1..][i - 1];
      if r.Some? then
        var i :| 0 <= i < |cands[1..]| && cands[1..][i] == r.value && forall j :: 0 <= j < i ==> !present(cands[1..][j]);
        assert cands[i + 1] == r.value && forall j :: 0 <= j < i + 1 ==> !present(cands[j]);
        r
      else r
  }

  /**
   * GET /api/videos/subtitles/{lessonId}. `root` is the configured library
   * root, `present` Files.exists, `readLines` the reader (None when it
   * throws). Exceptions inside the try block answer 500.
   */
  function GetSubtitle(lessons: map<Id, Lesson>, lessonId: Id, root: string,
                       present: FsPath -> bool, readLines: FsPath -> Option<seq<string>>): SubtitleReply
  {
    if lessonId !in lessons then NotFound
    else
      var lesson := lessons[lessonId];
      if lesson.storageType != Some(LOCAL) || lesson.resourcePath.None? then NotFound
      else
        var videoPath := ResolvePath(ParsePath(root), ParsePath(lesson.resourcePath.value));
        match FileName(videoPath)
        case None => ServerError
        case Some(videoFileName) =>
          match Parent(videoPath)
          case None => ServerError
          case Some(parentDir) =>
            match PickSubtitle(Candidates(parentDir, DropExtension(videoFileName)), present)
            case None => NotFound
            case Some(subtitlePath) =>
              match readLines(subtitlePath)
              case None => ServerError
              case Some(lines) => Vtt(VTT_HEADER + Body(lines))
  }

  /** A missing lesson, a lesson not stored locally, or one without a path is 404, whatever the files. */
  lemma GuardsBeforeFiles(lessons: map<Id, Lesson>, lessonId: Id, root: string,
                          present: FsPath -> bool, readLines: FsPath -> Option<seq<string>>)
    requires lessonId !in lessons || lessons[lessonId].storageType != Some(LOCAL) || lessons[lessonId].resourcePath.None?
    ensures GetSubtitle(lessons, lessonId, root, present, readLines) == NotFound
  {
  }

  /**
   * For a lesson whose video has a directory, the reply is the VTT of
   * base.en.srt when it exists, else of base.srt when it exists, else 404.
   */
  lemma LookupOrder(lessons: map<Id, Lesson>, lessonId: Id, root: string,
                    present: FsPath -> bool, readLines: FsPath -> Option<seq<string>>)
    requires lessonId in lessons && lessons[lessonId].storageType == Some(LOCAL) && lessons[lessonId].resourcePath.Some?
    requires var v := ResolvePath(ParsePath(root), ParsePath(lessons[lessonId].resourcePath.value));
             FileName(v).Some? && Parent(v).Some?
    ensures var v := ResolvePath(ParsePath(root), ParsePath(lessons[lessonId].resourcePath.value));
            var c := Candidates(Parent(v).value, DropExtension(FileName(v).value));
            var r := GetSubtitle(lessons, lessonId, root, present, readLines);
            && (present(c[0]) ==> r == (if readLines(c[0]).Some? then Vtt(VTT_HEADER + Body(readLines(c[0]).value)) else ServerError))
            && (!present(c[0]) && present(c[1]) ==> r == (if readLines(c[1]).Some? then Vtt(VTT_HEADER + Body(readLines(c[1]).value)) else ServerError))
            && (!present(c[0]) && !present(c[1]) ==> r == NotFound)
  {
    var v := ResolvePath(ParsePath(root), ParsePath(lessons[lessonId].resourcePath.value));
    var c := Candidates(Parent(v).value, DropExtension(FileName(v).value));
    assert c[1..] == [c[1]];
    assert [c[1]][1..] == [];
  }
}
