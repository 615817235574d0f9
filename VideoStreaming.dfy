/**
 * VideoStreamingController: the byte-range arithmetic of the two streaming
 * endpoints (the `bytes=first-last` form of section 2.1 of RFC 7233 and the
 * Content-Range header of section 4.2), the library-root containment check,
 * and the InputStream that hands out at most Content-Length bytes of the file.
 */
module VideoStreaming {
  import opened Wrappers
  import opened JavaText
  import opened UnixPath

  /** A long that holds a file size (Files.size never reports more than Long.MAX_VALUE). */
  type Size = n: nat | n <= LONG_MAX

  /** The exceptions the handlers let escape (Spring answers them with 500). */
  datatype Failure =
    | NumberFormat      // Long.parseLong on a field that is not a number
    | IndexOutOfBounds  // ranges[0] of an empty split
    | NullFileName      // getFileName() of the root path
    | FileNotFound(filename: string)  // loadVideoAsResource: "File not found: " + filename
    | IllegalArgument   // URLDecoder.decode on a malformed "%" escape

  datatype Reply =
    | Whole(contentType: string, disposition: string, acceptRanges: bool, contentLength: int)
    | Partial(contentType: string, contentRange: string, contentLength: int, disposition: string,
              start: int, end: int, wholeBody: bool)
    | Refused(code: nat)
  {
    function Status(): nat
    {
      match this
      case Whole(_, _, _, _) => 200
      case Partial(_, _, _, _, _, _, _) => 206
      case Refused(c) => c
    }
  }

  /** The size of the default chunk of a library range with an open end: 1024 * 1024 bytes. */
  const CHUNK: nat := 1048576

  function Disposition(filename: string): string
  {
    "inline; filename=\"" + filename + "\""
  }

  /** The Content-Range value "bytes start-end/size". */
  function ContentRange(start: int, end: int, size: Size): string
  {
    "bytes " + IntToString(start) + "-" + IntToString(end) + "/" + NatToString(size)
  }

  /** The two fields of a range header: "bytes=" deleted everywhere, then split at '-'. */
  function RangeFields(header: string): (r: seq<string>)
    ensures forall i :: 0 <= i < |r| ==> '-' !in r[i]
  {
    Split(RemoveAll(header, "bytes="), '-')
  }

  /**
   * The first and last byte a Range header asks for. An absent or empty last
   * field defaults to the end of the file, or for the library endpoint to one
   * chunk past the start (a long sum, so it can wrap); a last byte past the
   * end of the file is brought back to it. The first byte is never checked.
   */
  function RangeBounds(header: string, size: Size, library: bool): (r: Result<(int, int), Failure>)
    ensures r.Ok? ==> r.value.1 <= size - 1 && InLongRange(r.value.0) && InLongRange(r.value.1)
  {
    var ranges := RangeFields(header);
    if |ranges| == 0 then Err(IndexOutOfBounds)
    else match ParseLong(ranges[0])
      case None => Err(NumberFormat)
      case Some(start) =>
        var last: Option<int> :=
          if |ranges| > 1 && ranges[1] != "" then ParseLong(ranges[1])
          else if library then Some(Min(Wrap64(start + CHUNK - 1), size - 1))
          else Some(size - 1);
        match last
        case None => Err(NumberFormat)
        case Some(end) => Ok((start, if end > size - 1 then size - 1 else end))
  }

  /** The 206 reply for a parsed range; Content-Length is a long difference. */
  function PartialReply(contentType: string, filename: string, start: int, end: int, size: Size, wholeBody: bool): Reply
  {
    Partial(contentType, ContentRange(start, end, size), Wrap64(end - start + 1), Disposition(filename),
            start, end, wholeBody)
  }

  /**
   * GET /api/videos/stream/{filename}: the whole file, or a 206 whose headers
   * describe the range while the body is still the whole resource. `found`
   * is whether the stored file (the upload directory resolved with filename
   * and normalized) exists and is readable; `size` and `probed` are what
   * Files.size and Files.probeContentType report for it.
   */
  function StreamVideo(filename: string, found: bool, size: Size, probed: Option<string>, rangeHeader: Option<string>): (r: Result<Reply, Failure>)
    ensures r == Err(FileNotFound(filename)) <==> !found
    ensures r.Ok? && r.value.Partial? ==> r.value.wholeBody
  {
    var contentType := probed.GetOr("application/octet-stream");
    if !found then Err(FileNotFound(filename))
    else match rangeHeader
    case None => Ok(Whole(contentType, Disposition(filename), false, size))
    case Some(header) =>
      match RangeBounds(header, size, false)
      case Err(e) => Err(e)
      case Ok((start, end)) => Ok(PartialReply(contentType, filename, start, end, size, true))
  }

  // ---------------------------------------------------------------------------
  // The library endpoint
  // ---------------------------------------------------------------------------

  /** The part of the request URI after the first "/library/" (indexOf + 9). */
  function LibraryRelativePath(uri: string): Option<string>
  {
    var begin := IndexOf(uri, "/library/") + 9;
    if begin <= |uri| then Some(uri[begin..]) else None
  }

  /** The file a library request names, and whether it lies under the library root. */
  function LibraryTarget(root: seq<string>, relative: string): (seq<string>, bool)
  {
    var libraryRoot := Normalize(root);
    var target := Normalize(Resolve(libraryRoot, ParsePath(relative)));
    (target, libraryRoot <= target)
  }

  /**
   * GET /api/videos/library/... : 403 outside the root, 404 for a missing or
   * unreadable file, then the whole file or a 206 backed by a bounded stream
   * (a default chunk of 1 MiB when the range has no end). `decode` is the URL
   * decoding (None where it throws), `present`, `readable`, `sizeOf` and
   * `probe` the file system.
   */
  function StreamLibraryVideo(uri: string, decode: string -> Option<string>, root: seq<string>,
                              present: seq<string> -> bool, readable: seq<string> -> bool,
                              sizeOf: seq<string> -> Size, probe: seq<string> -> Option<string>,
                              rangeHeader: Option<string>): (r: Result<Reply, Failure>)
    ensures r.Ok? && r.value.Partial? ==> !r.value.wholeBody
    ensures r == Err(IllegalArgument) <==> LibraryRelativePath(uri).Some? && decode(LibraryRelativePath(uri).value).None?
  {
    match LibraryRelativePath(uri)
    case None => Err(IndexOutOfBounds)
    case Some(raw) =>
      if decode(raw).None? then Err(IllegalArgument)
      else
      var (target, inside) := LibraryTarget(root, decode(raw).value);
      if !inside then Ok(Refused(403))
      else if !present(target) || !readable(target) then Ok(Refused(404))
      else if target == [] then Err(NullFileName)
      else
        var size := sizeOf(target);
        var contentType := probe(target).GetOr("video/mp4");
        var filename := target[|target| - 1];
        match rangeHeader
        case None => Ok(Whole(contentType, Disposition(filename), true, size))
        case Some(header) =>
          match RangeBounds(header, size, true)
          case Err(e) => Err(e)
          case Ok((start, end)) => Ok(PartialReply(contentType, filename, start, end, size, false))
  }

  // ---------------------------------------------------------------------------
  // Properties of the range arithmetic
  // ---------------------------------------------------------------------------

  /** Without a Range header both endpoints answer 200 with the file size as Content-Length. */
  lemma NoRangeIsWhole(filename: string, size: Size, probed: Option<string>,
                       uri: string, decode: string -> Option<string>, root: seq<string>,
                       present: seq<string> -> bool, readable: seq<string> -> bool,
                       sizeOf: seq<string> -> Size, probe: seq<string> -> Option<string>)
    ensures var r := StreamVideo(filename, true, size, probed, None);
            r.Ok? && r.value.Status() == 200 && r.value.contentLength == size
    ensures var r := StreamLibraryVideo(uri, decode, root, present, readable, sizeOf, probe, None);
            r.Ok? && r.value.Whole? ==>
              r.value.Status() == 200 && r.value.acceptRanges &&
              r.value.contentLength == sizeOf(LibraryTarget(root, decode(LibraryRelativePath(uri).value).value).0)
  {
  }

  /** The digits of a number hold no letter and no '-'. */
  lemma NumberChars(n: nat)
    ensures 'b' !in NatToString(n) && '-' !in NatToString(n) && NatToString(n) != ""
  {
    var s := NatToString(n);
    forall i | 0 <= i < |s| ensures s[i] != 'b' && s[i] != '-' {
      assert IsDigit(s[i]);
    }
  }

  /** Deleting "bytes=" from the header leaves what follows it. */
  lemma StripPrefix(x: string)
    requires 'b' !in x
    ensures RemoveAll("bytes=" + x, "bytes=") == x
  {
    var s := "bytes=" + x;
    assert s[..6] == "bytes=" && s[6..] == x;
    NotContainsHead(x, "bytes=");
    RemoveAllAbsent(x, "bytes=");
  }

  /** "bytes=first-last" splits into the two numbers. */
  lemma ClosedFields(first: nat, last: nat)
    ensures RangeFields("bytes=" + NatToString(first) + "-" + NatToString(last)) ==
            [NatToString(first), NatToString(last)]
  {
    var a := NatToString(first);
    var b := NatToString(last);
    NumberChars(first);
    NumberChars(last);
    var x := a + ['-'] + b;
    assert "bytes=" + a + "-" + b == "bytes=" + x;
    assert 'b' !in x;
    StripPrefix(x);
    SplitTwo(a, b, '-');
  }

  /** "bytes=first-" is one field: the open end leaves nothing after the split. */
  lemma OpenFields(first: nat)
    ensures RangeFields("bytes=" + NatToString(first) + "-") == [NatToString(first)]
  {
    var a := NatToString(first);
    NumberChars(first);
    var x := a + ['-'];
    assert "bytes=" + a + "-" == "bytes=" + x;
    assert 'b' !in x;
    StripPrefix(x);
    SplitTrailing(a, '-');
  }

  /** "bytes=S-E" gives start S and end min(E, size - 1), on both endpoints. */
  lemma ClosedRange(first: nat, last: nat, size: Size, library: bool)
    requires first <= LONG_MAX && last <= LONG_MAX
    ensures RangeBounds("bytes=" + NatToString(first) + "-" + NatToString(last), size, library) ==
            Ok((first, Min(last, size - 1)))
  {
    ClosedFields(first, last);
    ParseLongNatToString(first);
    ParseLongNatToString(last);
    NumberChars(last);
  }

  /** A header with a single numeric field gets the default end. */
  lemma OneFieldBounds(header: string, first: nat, size: Size, library: bool)
    requires first <= LONG_MAX && RangeFields(header) == [NatToString(first)]
    ensures RangeBounds(header, size, library) ==
            Ok((first, if library then Min(Wrap64(first + CHUNK - 1), size - 1) else size - 1))
  {
    var ranges := RangeFields(header);
    ParseLongNatToString(first);
    assert ParseLong(ranges[0]) == Some(first) && |ranges| == 1;
    var end := if library then Min(Wrap64(first + CHUNK - 1), size - 1) else size - 1;
    assert end <= size - 1;
  }

  /** "bytes=S-" ends at the last byte of the file on the plain endpoint, whatever S is. */
  lemma OpenRangeToEnd(first: nat, size: Size)
    requires first <= LONG_MAX
    ensures RangeBounds("bytes=" + NatToString(first) + "-", size, false) == Ok((first, size - 1))
  {
    OpenFields(first);
    OneFieldBounds("bytes=" + NatToString(first) + "-", first, size, false);
  }

  /** On the library endpoint "bytes=S-" asks for one chunk from S, cut at the end of the file. */
  lemma OpenRangeChunk(first: nat, size: Size)
    requires first + CHUNK - 1 <= LONG_MAX
    ensures RangeBounds("bytes=" + NatToString(first) + "-", size, true) ==
            Ok((first, Min(first + CHUNK - 1, size - 1)))
  {
    OpenFields(first);
    OneFieldBounds("bytes=" + NatToString(first) + "-", first, size, true);
  }

  /**
   * Near Long.MAX_VALUE the default chunk end wraps around to a negative
   * number, and the Content-Length computed from it wraps back to a full chunk.
   */
  lemma OpenRangeChunkWraps(first: nat, size: Size)
    requires LONG_MAX - CHUNK + 1 < first <= LONG_MAX
    ensures var r := RangeBounds("bytes=" + NatToString(first) + "-", size, true);
            && r == Ok((first, first + CHUNK - 1 - 0x1_0000_0000_0000_0000))
            && r.value.1 < 0
            && Wrap64(r.value.1 - r.value.0 + 1) == CHUNK
  {
    OpenFields(first);
    OneFieldBounds("bytes=" + NatToString(first) + "-", first, size, true);
    assert Wrap64(first + CHUNK - 1) == first + CHUNK - 1 - 0x1_0000_0000_0000_0000;
  }

  /** The suffix form "bytes=-N" is not understood: the empty first field fails Long.parseLong. */
  lemma SuffixRangeFails(n: nat, size: Size, library: bool)
    ensures RangeBounds("bytes=-" + NatToString(n), size, library) == Err(NumberFormat)
  {
    var b := NatToString(n);
    NumberChars(n);
    var x := "" + ['-'] + b;
    assert "bytes=-" + b == "bytes=" + x;
    assert 'b' !in x;
    StripPrefix(x);
    SplitTwo("", b, '-');
    assert RangeFields("bytes=-" + NatToString(n)) == ["", b];
  }

  /** The first byte is never negative: the '-' that would sign it is the field separator. */
  lemma StartNonNegative(header: string, size: Size, library: bool)
    requires RangeBounds(header, size, library).Ok?
    ensures RangeBounds(header, size, library).value.0 >= 0
  {
    var ranges := RangeFields(header);
    ParseLongNoMinus(ranges[0]);
  }

  /**
   * On the plain endpoint Content-Length is exactly end - start + 1: both are
   * non-negative longs (or end is -1 for an empty file), so nothing wraps.
   */
  lemma ContentLengthExact(filename: string, found: bool, size: Size, probed: Option<string>, header: string)
    requires StreamVideo(filename, found, size, probed, Some(header)).Ok?
    ensures var r := StreamVideo(filename, found, size, probed, Some(header)).value;
            && r.Status() == 206
            && r.contentLength == r.end - r.start + 1
            && r.contentRange == ContentRange(r.start, r.end, size)
            && 0 <= r.start && r.end <= size - 1
  {
    StartNonNegative(header, size, false);
    var ranges := RangeFields(header);
    if |ranges| > 1 && ranges[1] != "" {
      ParseLongNoMinus(ranges[1]);
    }
  }

  // ---------------------------------------------------------------------------
  // Properties of the containment check
  // ---------------------------------------------------------------------------

  /** A relative path made of plain names is always served, from under the root. */
  lemma PlainRelativeInside(root: seq<string>, relative: string)
    requires relative == [] || relative[0] != '/'
    requires forall i :: 0 <= i < |ParsePath(relative).names| ==> PlainName(ParsePath(relative).names[i])
    ensures LibraryTarget(root, relative) == (Normalize(root) + ParsePath(relative).names, true)
  {
    var names := ParsePath(relative).names;
    NormalizeAppendPlain(Normalize(root), names);
    NormalizeIdempotent(root);
  }

  /** ".." from a non-empty root leaves it: the request is refused. */
  lemma ParentRefused(root: seq<string>)
    requires Normalize(root) != []
    ensures !LibraryTarget(root, "..").1
  {
    ParseParent();
    ParentShorter(Normalize(root));
  }

  lemma ParseParent()
    ensures ParsePath("..") == FsPath(false, [".."])
  {
    PiecesNoDelim("..", '/');
    assert Names([".."]) == Names([]) + [".."];
  }

  /** ".." appended to a normal path of at least one name normalizes to something shorter. */
  lemma ParentShorter(names: seq<string>)
    requires names != [] && forall i :: 0 <= i < |names| ==> PlainName(names[i])
    ensures |Normalize(names + [".."])| < |names|
  {
    NormalizePlain(names);
    NormalizeParent(names);
  }

  /** A served library file is a normal path inside the root: the 403 test is exactly the prefix test. */
  lemma ServedInsideRoot(uri: string, decode: string -> Option<string>, root: seq<string>,
                         present: seq<string> -> bool, readable: seq<string> -> bool,
                         sizeOf: seq<string> -> Size, probe: seq<string> -> Option<string>,
                         rangeHeader: Option<string>)
    requires LibraryRelativePath(uri).Some?
    ensures decode(LibraryRelativePath(uri).value).None? ==>
              StreamLibraryVideo(uri, decode, root, present, readable, sizeOf, probe, rangeHeader) == Err(IllegalArgument)
    ensures decode(LibraryRelativePath(uri).value).Some? ==>
            var (target, inside) := LibraryTarget(root, decode(LibraryRelativePath(uri).value).value);
            var r := StreamLibraryVideo(uri, decode, root, present, readable, sizeOf, probe, rangeHeader);
            && (r == Ok(Refused(403)) <==> !(Normalize(root) <= target))
            && (r == Ok(Refused(404)) <==> Normalize(root) <= target && !(present(target) && readable(target)))
            && (forall i :: 0 <= i < |target| ==> PlainName(target[i]))
  {
  }

  // ---------------------------------------------------------------------------
  // The bounded stream
  // ---------------------------------------------------------------------------

  newtype byte = x: int | 0 <= x < 256

  function Max0(x: int): nat { if x < 0 then 0 else x }

  /**
   * The stream's invariant: the bytes handed out and the budget left never
   * exceed Content-Length, and what was handed out is the file from the
   * range start up to the file pointer.
   */
  ghost predicate StreamState(data: seq<byte>, start: nat, length: int, pos: nat, remaining: int, delivered: seq<byte>)
  {
    && |delivered| + Max0(remaining) <= Max0(length)
    && remaining <= length
    && pos == start + |delivered|
    && (delivered != [] ==> pos <= |data|)
    && (pos <= |data| ==> delivered == data[start..pos])
  }

  /** Handing out n more bytes of the file keeps the invariant. */
  lemma AdvanceKeepsState(data: seq<byte>, start: nat, length: int, pos: nat, remaining: int, delivered: seq<byte>, n: nat)
    requires StreamState(data, start, length, pos, remaining, delivered)
    requires 0 < n <= remaining && pos + n <= |data|
    ensures StreamState(data, start, length, pos + n, remaining - n, delivered + data[pos..pos + n])
  {
    assert data[start..pos] + data[pos..pos + n] == data[start..pos + n];
  }

  /**
   * The anonymous InputStream over a RandomAccessFile positioned at the range
   * start: `remaining` starts at Content-Length and counts down. `data` is the
   * file, `pos` the file pointer, `delivered` the bytes handed out so far.
   */
  class BoundedStream {
    const data: seq<byte>
    ghost const start: nat
    ghost const length: int
    var pos: nat
    var remaining: int
    ghost var delivered: seq<byte>

    ghost predicate Valid()
      reads this
    {
      StreamState(data, start, length, pos, remaining, delivered)
    }

    /** The stream over `data` after seek(start), with remaining = contentLength. */
    constructor (data: seq<byte>, start: nat, contentLength: int)
      ensures Valid()
      ensures this.data == data && this.start == start && length == contentLength
      ensures pos == start && remaining == contentLength && delivered == []
    {
      this.data := data;
      this.start := start;
      this.length := contentLength;
      pos := start;
      remaining := contentLength;
      delivered := [];
    }

    /** read(): -1 once the budget is spent; otherwise one byte of the budget goes, even at end of file. */
    method Read() returns (r: int)
      requires Valid()
      modifies this
      ensures Valid()
      ensures old(remaining) <= 0 ==> r == -1 && remaining == old(remaining) && pos == old(pos) && delivered == old(delivered)
      ensures old(remaining) > 0 ==> remaining == old(remaining) - 1
      ensures old(remaining) > 0 && old(pos) < |data| ==>
                r == data[old(pos)] as int && pos == old(pos) + 1 && delivered == old(delivered) + [data[old(pos)]]
      ensures old(remaining) > 0 && old(pos) >= |data| ==> r == -1 && pos == old(pos) && delivered == old(delivered)
    {
      if remaining <= 0 {
        return -1;
      }
      remaining := remaining - 1;
      if pos < |data| {
        r := data[pos] as int;
        delivered := delivered + [data[pos]];
        pos := pos + 1;
      } else {
        r := -1;
      }
    }

    /**
     * read(b, off, len): asks the file for min(len, remaining) bytes. The
     * file returns -1 at its end, 0 for a request of 0, and otherwise between
     * one byte and the request; `grant` is the environment's choice of how
     * many (a short read gives fewer than asked).
     */
    method ReadInto(b: array<byte>, off: nat, len: nat, grant: nat) returns (r: int)
      requires Valid()
      requires off + len <= b.Length
      modifies this, b
      ensures Valid()
      ensures old(remaining) <= 0 ==> r == -1 && unchanged(this) && unchanged(b)
      ensures old(remaining) > 0 ==>
                && -1 <= r <= Min(len, old(remaining))
                && remaining == old(remaining) - Max0(r)
                && remaining >= 0
                && (r == -1 <==> len > 0 && old(pos) >= |data|)
                && (r <= 0 ==> pos == old(pos) && delivered == old(delivered) && b[..] == old(b[..]))
                && (r > 0 ==> pos == old(pos) + r && b[off..off + r] == data[old(pos)..old(pos) + r]
                              && delivered == old(delivered) + b[off..off + r])
      ensures forall i :: 0 <= i < b.Length && !(off <= i < off + Max0(r)) ==> b[i] == old(b[i])
    {
      if remaining <= 0 {
        return -1;
      }
      var toRead := Min(len, remaining);
      if toRead == 0 {
        return 0;
      }
      if pos >= |data| {
        return -1;
      }
      var p := pos;
      var n := Min(Min(toRead, |data| - p), 1 + grant);
      CopyBytes(data, p, n, b, off);
      AdvanceKeepsState(data, start, length, p, remaining, delivered, n);
      delivered := delivered + data[p..p + n];
      pos := p + n;
      remaining := remaining - n;
      r := n;
    }
  }

  /** The file's bytes from position p copied, n of them, into b from off on. */
  method CopyBytes(data: seq<byte>, p: nat, n: nat, b: array<byte>, off: nat)
    requires p + n <= |data| && off + n <= b.Length
    modifies b
    ensures b[off..off + n] == data[p..p + n]
    ensures forall k :: 0 <= k < b.Length && !(off <= k < off + n) ==> b[k] == old(b[k])
  {
    var i := 0;
    while i < n
      invariant 0 <= i <= n
      invariant b[off..off + i] == data[p..p + i]
      invariant forall k :: 0 <= k < b.Length && !(off <= k < off + i) ==> b[k] == old(b[k])
    {
      b[off + i] := data[p + i];
      i := i + 1;
    }
  }

  /** However the reads go, the stream never hands out more than Content-Length bytes. */
  lemma NeverPastLength(s: BoundedStream)
    requires s.Valid()
    ensures |s.delivered| <= Max0(s.length)
  {
  }
}
