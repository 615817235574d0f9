/** DriveStreamController: the redirect to a Drive file and its embeddable preview URL. */
module DriveStream {
  import opened Wrappers
  import opened JavaText
  import GoogleDrive

  datatype RedirectReply =
    | BadRequest
    | Found(location: string, allowOrigin: string)
  {
    function Status(): int
    {
      match this
      case BadRequest => 400
      case Found(_, _) => 302
    }
  }

  /** The file-id check of streamVideo: present, at least ten characters, no '/'. */
  predicate ValidFileId(fileId: Option<string>)
  {
    fileId.Some? && |fileId.value| >= 10 && '/' !in fileId.value
  }

  /** streamVideo: 400 for an id that fails the check, otherwise a 302 to the Drive download URL, open to any origin. */
  function StreamVideo(fileId: Option<string>): (r: RedirectReply)
    ensures r.Status() == 400 <==> !ValidFileId(fileId)
    ensures r.Found? ==> r.allowOrigin == "*"
    ensures r.Found? ==> GoogleDrive.DownloadUrlId(r.location) == fileId
  {
    if fileId.None? || |fileId.value| < 10 || '/' in fileId.value then BadRequest
    else
      var location := "https://drive.google.com/uc?export=download&id=" + fileId.value;
      GoogleDrive.UrlsNameTheirFile(fileId.value, fileId.value);
      assert location == GoogleDrive.DirectDownloadUrl(fileId.value);
      Found(location, "*")
  }

  /** The redirect goes to the same URL the Drive service builds, and to different places for different ids. */
  lemma RedirectIsServiceUrl(fileId: string, other: string)
    requires ValidFileId(Some(fileId)) && ValidFileId(Some(other)) && fileId != other
    ensures StreamVideo(Some(fileId)).location == GoogleDrive.DirectDownloadUrl(fileId)
    ensures StreamVideo(Some(fileId)).location != StreamVideo(Some(other)).location
  {
    GoogleDrive.UrlsNameTheirFile(fileId, other);
    assert StreamVideo(Some(other)).location == GoogleDrive.DirectDownloadUrl(other);
  }

  /** A valid id that holds no '\\' either is one the service treats as a Drive resource. */
  lemma ValidIdIsDriveResource(fileId: string)
    requires ValidFileId(Some(fileId)) && '\\' !in fileId
    ensures GoogleDrive.IsGoogleDriveResource(Some(fileId))
  {
  }

  /** getEmbedUrl: no check at all; the preview URL of whatever id was given. */
  function EmbedUrl(fileId: string): (r: string)
    ensures GoogleDrive.StreamingUrlId(r) == Some(fileId)
    ensures r == GoogleDrive.StreamingUrl(fileId)
  {
    GoogleDrive.UrlsNameTheirFile(fileId, fileId);
    "https://drive.google.com/file/d/" + fileId + "/preview"
  }
}
