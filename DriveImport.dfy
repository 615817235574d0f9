/**
 * GoogleDriveController: turning a Drive file name into a lesson title, and the
 * bulk import of a Drive folder's videos into one lesson group.
 */
module DriveImport {
  import opened Wrappers
  import opened JavaText
  import opened Entities
  import opened Clocks
  import opened GoogleDrive

  /** cleanFileName: the name without its last extension, with every '_' and '-' turned into a space. */
  function CleanFileName(fileName: string): (r: string)
    ensures '_' !in r && '-' !in r
    ensures |r| <= |fileName|
    ensures LastIndexOf(fileName, '.') <= 0 ==> |r| == |fileName|
    ensures forall i :: 0 <= i < |r| ==>
              r[i] == (if fileName[i] == '_' || fileName[i] == '-' then ' ' else fileName[i])
  {
    var stem := DropExtension(fileName);
    var r := ReplaceChar(ReplaceChar(stem, '_', ' '), '-', ' ');
    ReplaceCharRemoves(stem, '_', ' ');
    ReplaceCharRemoves(ReplaceChar(stem, '_', ' '), '-', ' ');
    r
  }

  /** A name whose last '.' comes after its first character loses exactly that suffix, dot included. */
  lemma CleanDropsExtension(fileName: string)
    requires LastIndexOf(fileName, '.') > 0
    ensures |CleanFileName(fileName)| == LastIndexOf(fileName, '.')
    ensures '.' !in fileName[|CleanFileName(fileName)| + 1..]
  {
  }

  /** Cleaning a cleaned name that has no dot changes nothing. */
  lemma CleanIdempotentWithoutDot(fileName: string)
    requires '.' !in CleanFileName(fileName)
    ensures CleanFileName(CleanFileName(fileName)) == CleanFileName(fileName)
  {
    var r := CleanFileName(fileName);
    assert LastIndexOf(r, '.') == -1;
  }

  /** The lesson bulkImportVideos saves for one listed video. */
  function DriveLesson(video: VideoFileInfo, fileName: string, groupId: Id): Lesson
  {
    Lesson(CleanFileName(fileName), None, Some(video.duration.GetOr("0:00")), None,
           Some(video.fileId), Some(GOOGLE_DRIVE), Some(groupId))
  }

  datatype BulkImportResponse = BulkImportResponse(
    totalVideos: int,
    importedCount: int,
    lessonGroupId: Option<Id>,
    message: string)

  datatype BulkReply = BulkReply(status: int, body: BulkImportResponse)

  const GROUP_NOT_FOUND := "Lesson group not found"

  /** The caught-exception reply: no counts, and the message "Error: " + the exception's message. */
  function ErrorReply(message: string): (r: BulkReply)
    ensures r.status == 500 && r.body.totalVideos == 0 && r.body.importedCount == 0
    ensures StartsWith(r.body.message, "Error: ") && r.body.message[7..] == message
  {
    BulkReply(500, BulkImportResponse(0, 0, None, "Error: " + message))
  }

  /** The videos the import reads: the given folder when one is named, else the configured default. */
  function VideosFor(folderId: Option<string>, defaultFolderId: Option<string>,
                     listFiles: string -> Result<seq<DriveFile>, string>): Result<seq<VideoFileInfo>, string>
  {
    if folderId.Some? && folderId.value != "" then ListVideosInFolder(folderId.value, listFiles)
    else ListVideosInDefaultFolder(defaultFolderId, listFiles)
  }

  /** The index of the first video without a file name (cleanFileName throws there), or the count. */
  function FirstUnnamed(videos: seq<VideoFileInfo>): (k: nat)
    ensures k <= |videos|
    ensures forall i :: 0 <= i < k ==> videos[i].fileName.Some?
    ensures k < |videos| ==> videos[k].fileName.None?
  {
    if videos == [] || videos[0].fileName.None? then 0 else 1 + FirstUnnamed(videos[1..])
  }

  /** The lessons for a run of named videos, one per video, in order. */
  function DriveLessons(videos: seq<VideoFileInfo>, groupId: Id): (ls: seq<Lesson>)
    requires forall i :: 0 <= i < |videos| ==> videos[i].fileName.Some?
  {
    seq(|videos|, i requires 0 <= i < |videos| => DriveLesson(videos[i], videos[i].fileName.value, groupId))
  }

  function SuccessReply(count: nat, groupId: Id): BulkReply
  {
    BulkReply(200, BulkImportResponse(count, count, Some(groupId), "Successfully imported " + NatToString(count) + " videos"))
  }

  /**
   * What bulkImportVideos saves and answers: `groups` holds the ids of the existing
   * lesson groups and `listed` is the folder listing. Lessons saved before an
   * exception stay saved (there is no transaction); a video without a file name
   * makes cleanFileName throw a NullPointerException whose message is `nullNameMessage`.
   */
  function BulkImport(groups: set<Id>, groupId: Id, listed: Result<seq<VideoFileInfo>, string>,
                      nullNameMessage: string): (seq<Lesson>, BulkReply)
  {
    if groupId !in groups then ([], ErrorReply(GROUP_NOT_FOUND))
    else if listed.Err? then ([], ErrorReply(listed.error))
    else
      var videos := listed.value;
      var k := FirstUnnamed(videos);
      var ls := DriveLessons(videos[..k], groupId);
      if k < |videos| then (ls, ErrorReply(nullNameMessage)) else (ls, SuccessReply(|videos|, groupId))
  }

  /** One more named video gives one more lesson. */
  lemma DriveLessonsNext(videos: seq<VideoFileInfo>, i: nat, groupId: Id)
    requires i < FirstUnnamed(videos)
    ensures DriveLessons(videos[..i + 1], groupId)
            == DriveLessons(videos[..i], groupId) + [DriveLesson(videos[i], videos[i].fileName.value, groupId)]
  {
    var longer := DriveLessons(videos[..i + 1], groupId);
    var shorter := DriveLessons(videos[..i], groupId) + [DriveLesson(videos[i], videos[i].fileName.value, groupId)];
    assert |longer| == |shorter|;
    forall j | 0 <= j < |longer| ensures longer[j] == shorter[j] {
      assert videos[..i + 1][j] == videos[j];
    }
  }

  /** The loop of bulkImportVideos: one save per video until a video without a name throws. */
  method SaveLessons(videos: seq<VideoFileInfo>, groupId: Id) returns (created: seq<Lesson>, threw: bool)
    ensures created == DriveLessons(videos[..FirstUnnamed(videos)], groupId)
    ensures threw <==> FirstUnnamed(videos) < |videos|
  {
    ghost var k := FirstUnnamed(videos);
    created := [];
    for i := 0 to |videos|
      invariant i <= k
      invariant created == DriveLessons(videos[..i], groupId)
    {
      var video := videos[i];
      if video.fileName.None? {
        assert i == k;
        return created, true;
      }
      assert i < k by {
        assert k < |videos| ==> videos[k].fileName.None?;
      }
      var lesson := DriveLesson(video, video.fileName.value, groupId);
      DriveLessonsNext(videos, i, groupId);
      created := created + [lesson];
    }
    WholePrefix(videos);
    threw := false;
  }

  /** bulkImportVideos: the group check, the listing, then one save per video in list order. */
  method BulkImportVideos(groups: set<Id>, lessonGroupId: Id, folderId: Option<string>,
                          defaultFolderId: Option<string>, listFiles: string -> Result<seq<DriveFile>, string>,
                          nullNameMessage: string)
    returns (saved: seq<Lesson>, reply: BulkReply)
    ensures (saved, reply) == BulkImport(groups, lessonGroupId, VideosFor(folderId, defaultFolderId, listFiles), nullNameMessage)
  {
    var listed := VideosFor(folderId, defaultFolderId, listFiles);
    if lessonGroupId !in groups {
      return [], ErrorReply(GROUP_NOT_FOUND);
    }
    if listed.Err? {
      return [], ErrorReply(listed.error);
    }
    var videos := listed.value;
    var threw;
    saved, threw := SaveLessons(videos, lessonGroupId);
    if threw {
      reply := ErrorReply(nullNameMessage);
    } else {
      reply := SuccessReply(|videos|, lessonGroupId);
    }
  }

  /** A successful import saves one lesson per listed video and reports that count twice. */
  lemma SuccessCounts(groups: set<Id>, groupId: Id, listed: Result<seq<VideoFileInfo>, string>, nullNameMessage: string)
    requires BulkImport(groups, groupId, listed, nullNameMessage).1.status == 200
    ensures var (saved, reply) := BulkImport(groups, groupId, listed, nullNameMessage);
            && listed.Ok? && groupId in groups
            && |saved| == |listed.value| == reply.body.totalVideos == reply.body.importedCount
            && reply.body.lessonGroupId == Some(groupId)
            && forall i :: 0 <= i < |saved| ==>
                 saved[i].storageType == Some(GOOGLE_DRIVE) && saved[i].lessonGroup == Some(groupId)
                 && saved[i].resourcePath == Some(listed.value[i].fileId)
  {
    var k := FirstUnnamed(listed.value);
    assert listed.value[..k] == listed.value;
  }

  /** Every failure answers 500 with both counts 0 and a message starting "Error: ". */
  lemma FailureReply(groups: set<Id>, groupId: Id, listed: Result<seq<VideoFileInfo>, string>, nullNameMessage: string)
    requires BulkImport(groups, groupId, listed, nullNameMessage).1.status != 200
    ensures var reply := BulkImport(groups, groupId, listed, nullNameMessage).1;
            reply.status == 500 && reply.body.totalVideos == 0 && reply.body.importedCount == 0
            && StartsWith(reply.body.message, "Error: ")
  {
  }

  /**
   * Each imported lesson is a Drive lesson of the group whose resource is the video's
   * id and whose title has no '_' or '-'; a video without a duration gets "0:00",
   * one with Drive's reading gets a text that reads back to its whole seconds.
   */
  lemma ImportedLessonFacts(video: VideoFileInfo, fileName: string, groupId: Id, file: DriveFile)
    requires video == VideoInfoOf(file)
    ensures var l := DriveLesson(video, fileName, groupId);
            && l.storageType == Some(GOOGLE_DRIVE) && l.lessonGroup == Some(groupId)
            && l.resourcePath == Some(file.id)
            && '_' !in l.title && '-' !in l.title
            && (file.durationMillis.None? ==> l.duration == Some("0:00"))
            && (file.durationMillis.Some? && file.durationMillis.value >= 0 ==>
                  l.duration.Some? && ReadClock(l.duration.value) == Some(file.durationMillis.value / 1000))
  {
  }
}
