/**
 * GoogleDriveService: the duration text of a Drive video, the test that tells a
 * Drive file id from a local path, the two Drive URLs, and the listing of the
 * default folder.
 */
module GoogleDrive {
  import opened Wrappers
  import opened JavaText
  import opened Clocks
  import opened UnixPath

  // ---------------------------------------------------------------------------
  // formatDuration(long millis)
  // ---------------------------------------------------------------------------

  /** "%d:%02d:%02d" of the clock when it has whole hours, "%d:%02d" of minutes and seconds otherwise. */
  function FormatDuration(millis: int): string
  {
    var c := ClockOf(JavaDiv(millis, 1000));
    if c.hours > 0 then IntToString(c.hours) + ":" + Format02d(c.minutes) + ":" + Format02d(c.secs)
    else IntToString(c.minutes) + ":" + Format02d(c.secs)
  }

  /** The printed duration of a non-negative length reads back to its whole seconds. */
  lemma DurationReadsBack(millis: int)
    requires millis >= 0
    ensures ReadClock(FormatDuration(millis)) == Some(millis / 1000)
  {
    var secs := millis / 1000;
    assert JavaDiv(millis, 1000) == secs;
    var c := ClockOf(secs);
    var h, m, sec: nat := c.hours, c.minutes, c.secs;
    assert 3600 * h + 60 * m + sec == secs;
    var text := FormatDuration(millis);
    if h > 0 {
      assert text == NatToString(h) + ":" + Pad2(m) + ":" + Pad2(sec);
      ReadHoursText(h, m, sec);
    } else {
      assert text == NatToString(m) + ":" + Pad2(sec);
      ReadMinutesText(m, sec);
    }
    assert ReadClock(text) == Some(secs);
  }

  /**
   * The shape of the text for a non-negative length: three fields when there is at
   * least one hour and two otherwise; the last two fields of "H:MM:SS" and the
   * seconds of "M:SS" have exactly two digits; the leading field is not padded.
   */
  lemma DurationShape(millis: int)
    requires millis >= 0
    ensures var f := Split(FormatDuration(millis), ':');
            && |f| == (if millis / 1000 >= 3600 then 3 else 2)
            && |f[|f| - 1]| == 2
            && (|f| == 3 ==> |f[1]| == 2)
            && (|f[0]| == 1 || f[0][0] != '0')
  {
    var c := ClockOf(millis / 1000);
    if c.hours > 0 {
      NatToStringLead(c.hours);
      ReadClockThree(NatToString(c.hours), Pad2(c.minutes), Pad2(c.secs));
    } else {
      if c.minutes > 0 {
        NatToStringLead(c.minutes);
      }
      ReadClockTwo(NatToString(c.minutes), Pad2(c.secs));
    }
  }

  /** The text has two colons exactly when the length reaches an hour, and one otherwise (negative lengths too). */
  lemma DurationColons(millis: int)
    ensures multiset(FormatDuration(millis))[':'] == (if JavaDiv(millis, 1000) >= 3600 then 2 else 1)
  {
    var c := ClockOf(JavaDiv(millis, 1000));
    PrintedNumberChars(c.hours, ':');
    PrintedNumberChars(c.minutes, ':');
    PrintedNumberChars(c.secs, ':');
    if c.hours > 0 {
      TwoColons(IntToString(c.hours), Format02d(c.minutes), Format02d(c.secs));
    } else {
      OneColon(IntToString(c.minutes), Format02d(c.secs));
    }
  }

  // ---------------------------------------------------------------------------
  // isGoogleDriveResource and the URL builders
  // ---------------------------------------------------------------------------

  /** A resource path is a Drive file id when it is present and holds neither separator. */
  predicate IsGoogleDriveResource(resourcePath: Option<string>)
  {
    resourcePath.Some? && '/' !in resourcePath.value && '\\' !in resourcePath.value
  }

  /** A non-empty Drive resource is, read as a path, a single relative name: itself. */
  lemma DriveResourceIsOneName(p: string)
    requires IsGoogleDriveResource(Some(p)) && p != ""
    ensures ParsePath(p) == FsPath(false, [p])
  {
    PiecesNoDelim(p, '/');
    assert Names([p]) == Names([]) + [p];
  }

  /** A path with a '/' (every path the local importers store has one once it has a folder) is never a Drive resource. */
  lemma SlashedPathIsLocal(p: string, k: nat)
    requires k < |p| && p[k] == '/'
    ensures !IsGoogleDriveResource(Some(p))
  {
  }

  const DOWNLOAD_PREFIX := "https://drive.google.com/uc?export=download&id="
  const PREVIEW_PREFIX := "https://drive.google.com/file/d/"
  const PREVIEW_SUFFIX := "/preview"

  function DirectDownloadUrl(fileId: string): (r: string)
    ensures StartsWith(r, DOWNLOAD_PREFIX) && |r| == |DOWNLOAD_PREFIX| + |fileId|
  {
    DOWNLOAD_PREFIX + fileId
  }

  function StreamingUrl(fileId: string): (r: string)
    ensures StartsWith(r, PREVIEW_PREFIX) && EndsWith(r, PREVIEW_SUFFIX)
    ensures |r| == |PREVIEW_PREFIX| + |fileId| + |PREVIEW_SUFFIX|
  {
    PREVIEW_PREFIX + fileId + PREVIEW_SUFFIX
  }

  /** The file id a download URL names, if it is one. */
  function DownloadUrlId(url: string): Option<string>
  {
    if StartsWith(url, DOWNLOAD_PREFIX) then Some(url[|DOWNLOAD_PREFIX|..]) else None
  }

  /** The file id a preview URL names, if it is one. */
  function StreamingUrlId(url: string): Option<string>
  {
    if |url| >= |PREVIEW_PREFIX| + |PREVIEW_SUFFIX| && StartsWith(url, PREVIEW_PREFIX) && EndsWith(url, PREVIEW_SUFFIX)
    then Some(url[|PREVIEW_PREFIX|..|url| - |PREVIEW_SUFFIX|])
    else None
  }

  /** Both URLs name exactly the file they were built from, and different ids give different URLs. */
  lemma UrlsNameTheirFile(fileId: string, other: string)
    ensures DownloadUrlId(DirectDownloadUrl(fileId)) == Some(fileId)
    ensures StreamingUrlId(StreamingUrl(fileId)) == Some(fileId)
    ensures other != fileId ==> DirectDownloadUrl(other) != DirectDownloadUrl(fileId)
    ensures other != fileId ==> StreamingUrl(other) != StreamingUrl(fileId)
  {
    var u := StreamingUrl(fileId);
    assert u[|PREVIEW_PREFIX|..|u| - |PREVIEW_SUFFIX|] == fileId;
    if other != fileId {
      assert DownloadUrlId(DirectDownloadUrl(other)) == Some(other);
      var v := StreamingUrl(other);
      assert v[|PREVIEW_PREFIX|..|v| - |PREVIEW_SUFFIX|] == other;
    }
  }

  // ---------------------------------------------------------------------------
  // Listing
  // ---------------------------------------------------------------------------

  /** The fields of a Drive file that the listing asks for. */
  datatype DriveFile = DriveFile(
    id: string,
    name: Option<string>,
    mimeType: Option<string>,
    size: Option<int>,
    createdTime: Option<string>,
    durationMillis: Option<int>)

  datatype VideoFileInfo = VideoFileInfo(
    fileId: string,
    fileName: Option<string>,
    mimeType: Option<string>,
    size: Option<int>,
    createdTime: Option<string>,
    duration: Option<string>)

  /** One listed file as a VideoFileInfo: copied fields, and a duration only when Drive reports one. */
  function VideoInfoOf(f: DriveFile): (v: VideoFileInfo)
    ensures v.fileId == f.id && v.fileName == f.name && v.size == f.size
    ensures v.duration.Some? <==> f.durationMillis.Some?
    ensures f.durationMillis.Some? && f.durationMillis.value >= 0 ==>
              ReadClock(v.duration.value) == Some(f.durationMillis.value / 1000)
  {
    match f.durationMillis
    case None => VideoFileInfo(f.id, f.name, f.mimeType, f.size, f.createdTime, None)
    case Some(ms) =>
      var v := VideoFileInfo(f.id, f.name, f.mimeType, f.size, f.createdTime, Some(FormatDuration(ms)));
      if ms >= 0 then DurationReadsBack(ms); v else v
  }

  function VideoInfos(files: seq<DriveFile>): (vs: seq<VideoFileInfo>)
    ensures |vs| == |files| && forall i :: 0 <= i < |files| ==> vs[i] == VideoInfoOf(files[i])
  {
    if files == [] then [] else VideoInfos(files[..|files| - 1]) + [VideoInfoOf(files[|files| - 1])]
  }

  /**
   * listVideosInFolder on the files Drive lists for the folder (all pages together);
   * `listFiles` stands for the Drive API and fails with the exception's message.
   */
  function ListVideosInFolder(folderId: string, listFiles: string -> Result<seq<DriveFile>, string>): Result<seq<VideoFileInfo>, string>
  {
    match listFiles(folderId)
    case Err(message) => Err(message)
    case Ok(files) => Ok(VideoInfos(files))
  }

  const NO_DEFAULT_FOLDER := "Default folder ID not configured. Set google.drive.folder.id in application.properties"

  function ListVideosInDefaultFolder(defaultFolderId: Option<string>, listFiles: string -> Result<seq<DriveFile>, string>): (r: Result<seq<VideoFileInfo>, string>)
    ensures defaultFolderId.None? || defaultFolderId.value == "" ==> r == Err(NO_DEFAULT_FOLDER)
    ensures defaultFolderId.Some? && defaultFolderId.value != "" ==> r == ListVideosInFolder(defaultFolderId.value, listFiles)
  {
    if defaultFolderId.None? || defaultFolderId.value == "" then Err(NO_DEFAULT_FOLDER)
    else ListVideosInFolder(defaultFolderId.value, listFiles)
  }

  /** Without a configured folder Drive is never asked: the answer is the same whatever Drive would list. */
  lemma UnconfiguredNeverLists(defaultFolderId: Option<string>, listA: string -> Result<seq<DriveFile>, string>,
                               listB: string -> Result<seq<DriveFile>, string>)
    requires defaultFolderId.None? || defaultFolderId.value == ""
    ensures ListVideosInDefaultFolder(defaultFolderId, listA) == ListVideosInDefaultFolder(defaultFolderId, listB)
    ensures ListVideosInDefaultFolder(defaultFolderId, listA).Err?
  {
  }
}
