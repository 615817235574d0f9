# stream — verified model of the course-streaming backend

This project models the logic core of the *stream* application, a self-hosted
video-course platform (Spring Boot backend, Next.js frontend). Courses hold
modules, modules hold lesson groups, and groups hold lessons whose videos are
local files or Google Drive files. The model covers:

- **Imports**: the quote-aware CSV line splitter and both CSV importers (line
  classification, header and blank-line skipping, the course/module/group
  caches keyed by folder path); the local-library scan over an abstract
  directory tree (flat and nested layouts, order indices, counters, title
  cleaning); the Drive bulk import and file-name cleaning; the lesson
  data-fixer pass at start-up.
- **Video delivery**: `Range: bytes=S-E` parsing and clamping as written,
  Content-Length and Content-Range, the library-root containment check on
  normalised paths, the bounded `InputStream` that counts `remaining`, and the
  Drive redirect and embed URL.
- **Formatting**: Drive millisecond durations (`H:MM:SS` / `M:SS`) and ffprobe
  second durations (`HH:MM:SS` / `MM:SS`), with read-back lemmas.
- **Subtitles**: SRT to WebVTT rewriting (the `WEBVTT` signature of section 4.1
  of the W3C WebVTT specification, timing lines rewritten comma to dot) and the
  `.en.srt` / `.srt` lookup order.
- **Stores**: progress upsert, enrollments, admin role changes and partial
  entity updates, register/login, and the JWT request filter. Each is a class
  holding its tables as `seq` fields, with methods proved against
  specification functions on those tables.
- **Queries**: search (a case-insensitive, literal substring filter with a
  summed total), the course hierarchy sorted by `orderIndex` with nulls last
  (a stable insertion sort), and the study-activity map.
- **Frontend**: the contribution graph grid, its count-to-level ladder and its
  colours.

Tables are sequences of `Row(id, value)` with unique ids; Java strings are
`seq<char>` (a sequence of Unicode code points, not of UTF-16 units), and `trim`, `toLowerCase`, `split`, `indexOf`, `Long.parseLong`,
`%d` / `%02d` and long arithmetic are modelled explicitly in `JavaText`.
Clocks, generated ids, the password encoder, JWT validation and generation,
file existence and sizes, directory listings, the Drive listing, the
duration extractor and the outcome of a lesson save are parameters of the
operations that use them.

Where the documentation and the code differ, the model follows the code:
- `getStudyActivity` is documented as covering the last 365 days, but it filters by nothing except `completedAt != null`.
- The video endpoint answers a range request with the whole resource as the body of its 206.

## Model

| member | source | states |
|---|---|---|
| JavaText.LowerChar | src/main/java/com/rexxy/stream/service/SearchService.java:44 | an upper-case ASCII letter becomes lower case; every other character is kept |
| JavaText.ToLower | src/main/java/com/rexxy/stream/service/SearchService.java:44 | toLowerCase keeps the length and lower-cases each character |
| JavaText.ToLowerIdempotent | src/main/java/com/rexxy/stream/service/SearchService.java:44-45 | lower-casing twice is lower-casing once |
| JavaText.ToLowerConcat | src/main/java/com/rexxy/stream/service/SearchService.java:44-45 | lower-casing distributes over concatenation |
| JavaText.ContainsLower | src/main/java/com/rexxy/stream/controller/CsvImportController.java:76 | an occurrence survives lower-casing both strings |
| JavaText.ContainsChar | src/main/java/com/rexxy/stream/service/GoogleDriveService.java:149 | contains of a one-character string is membership of that character |
| JavaText.IndexOf | src/main/java/com/rexxy/stream/controller/VideoStreamingController.java:99 | indexOf: -1 iff the pattern does not occur, otherwise a position where it occurs with no occurrence before it |
| JavaText.LastIndexOf | src/main/java/com/rexxy/stream/controller/GoogleDriveController.java:119 | lastIndexOf: -1 or a position holding the character, with none after it |
| JavaText.DropExtension | src/main/java/com/rexxy/stream/controller/SubtitleController.java:53-55 | the part before the last '.' when that dot is not the first character, otherwise the whole name |
| JavaText.TrimStart | src/main/java/com/rexxy/stream/service/SearchService.java:40 | the suffix left after dropping leading characters at most U+0020 |
| JavaText.TrimEnd | src/main/java/com/rexxy/stream/service/SearchService.java:40 | the prefix left after dropping trailing characters at most U+0020 |
| JavaText.Trim | src/main/java/com/rexxy/stream/service/SearchService.java:40-44 | trim: the infix of s whose ends are not white space, everything outside it white space |
| JavaText.TrimEmpty | src/main/java/com/rexxy/stream/service/SearchService.java:40 | trim().isEmpty() iff every character is white space |
| JavaText.TrimNoop | src/main/java/com/rexxy/stream/controller/CsvImportController.java:96 | a string without white space at its ends is its own trim |
| JavaText.TrimIdempotent | src/main/java/com/rexxy/stream/controller/CsvImportController.java:96 | trimming twice is trimming once |
| JavaText.TrimLower | src/main/java/com/rexxy/stream/service/SearchService.java:44 | trim and toLowerCase commute |
| JavaText.ReplaceChar | src/main/java/com/rexxy/stream/controller/GoogleDriveController.java:125 | replace(a, b) rewrites exactly the occurrences of a |
| JavaText.ReplaceCharRemoves | src/main/java/com/rexxy/stream/controller/GoogleDriveController.java:125 | after replace(a, b) with a != b no a is left |
| JavaText.RemoveAll | src/main/java/com/rexxy/stream/controller/VideoStreamingController.java:64 | replace(pat, "") never lengthens the string |
| JavaText.RemoveAllAbsent | src/main/java/com/rexxy/stream/controller/VideoStreamingController.java:64 | a header without "bytes=" is unchanged by removing it |
| JavaText.RemoveAllChars | src/main/java/com/rexxy/stream/controller/VideoStreamingController.java:64 | removal only drops characters |
| JavaText.Pieces | src/main/java/com/rexxy/stream/controller/CsvImportController.java:207 | at least one piece, none holding the delimiter |
| JavaText.JoinPieces | src/main/java/com/rexxy/stream/controller/CsvImportController.java:207 | joining the pieces with the delimiter gives the string back |
| JavaText.PiecesJoin | src/main/java/com/rexxy/stream/controller/CsvImportController.java:207 | the pieces of a join of delimiter-free strings are those strings |
| JavaText.DropTrailingEmpty | src/main/java/com/rexxy/stream/controller/CsvImportController.java:207 | a prefix ending in a non-empty piece, everything dropped empty |
| JavaText.Split | src/main/java/com/rexxy/stream/controller/CsvImportController.java:207 | split(d) with limit 0: a string without d is returned whole, otherwise its pieces without trailing empty ones |
| JavaText.SplitJoin | src/main/java/com/rexxy/stream/controller/CsvImportController.java:207 | a string whose last character is not the delimiter is recovered by joining its split |
| JavaText.SplitTwo | src/main/java/com/rexxy/stream/controller/VideoStreamingController.java:64 | "a-b" with non-empty b splits into [a, b] |
| JavaText.SplitThree | src/main/java/com/rexxy/stream/controller/CsvImportController.java:207 | "a/b/c" with non-empty c splits into [a, b, c] |
| JavaText.SplitTrailing | src/main/java/com/rexxy/stream/controller/VideoStreamingController.java:64 | "a-" splits into [a] alone |
| JavaText.NatToString | src/main/java/com/rexxy/stream/service/GoogleDriveService.java:162-164 | %d of a non-negative number: at least one digit, one digit exactly below ten |
| JavaText.NatToStringLead | src/main/java/com/rexxy/stream/service/GoogleDriveService.java:162-164 | a printed positive number has no leading zero |
| JavaText.NatToStringValue | src/main/java/com/rexxy/stream/service/GoogleDriveService.java:162-164 | reading back a printed number gives the number |
| JavaText.Pad2 | src/main/java/com/rexxy/stream/service/GoogleDriveService.java:162-164 | %02d: at least two digits, exactly two below 100 |
| JavaText.Pad2Value | src/main/java/com/rexxy/stream/service/GoogleDriveService.java:162-164 | reading back a zero-padded number gives the number |
| JavaText.Wrap64 | src/main/java/com/rexxy/stream/controller/VideoStreamingController.java:74 | long arithmetic: a value in the long range, equal to x modulo 2^64, x itself when x fits |
| JavaText.ParseLong | src/main/java/com/rexxy/stream/controller/VideoStreamingController.java:65-67 | parseLong: a value only in the long range (otherwise NumberFormatException) |
| JavaText.ParseLongNoMinus | src/main/java/com/rexxy/stream/controller/VideoStreamingController.java:65 | without a minus sign the parsed value is non-negative |
| JavaText.ParseLongNatToString | src/main/java/com/rexxy/stream/controller/VideoStreamingController.java:65-67 | printing a long and parsing it back is the identity |
| JavaText.JavaDivRem | src/main/java/com/rexxy/stream/service/GoogleDriveService.java:156-159 | long / and % fit together, the remainder takes the dividend's sign |
| JavaText.PrintedNumberChars | src/main/java/com/rexxy/stream/service/GoogleDriveService.java:162-164 | printed numbers hold only digits and a minus sign |
| JavaText.NotContainsHead | src/main/java/com/rexxy/stream/controller/VideoStreamingController.java:64 | a string lacking the first character of a pattern does not contain it |
| Repositories.FindById | src/main/java/com/rexxy/stream/service/StreamingService.java:55-56 | findById: a row with that id, empty exactly when no row has it |
| Repositories.FindByIdRow | src/main/java/com/rexxy/stream/service/StreamingService.java:55-56 | with unique ids the looked-up row is the one found |
| Repositories.Save | src/main/java/com/rexxy/stream/service/EnrollmentService.java:48 | save: the id then holds the value, every other id is unchanged, and the table grows by one only for a new id |
| Repositories.SaveUnique | src/main/java/com/rexxy/stream/service/EnrollmentService.java:48 | saving keeps the ids distinct |
| Repositories.Select | src/main/java/com/rexxy/stream/service/SearchService.java:48-51 | a stream filter: exactly the rows passing the test, never more rows than the table |
| Repositories.SelectAppend | src/main/java/com/rexxy/stream/service/SearchService.java:48-63 | filtering distributes over concatenation, so order is kept |
| Repositories.SelectAll | src/main/java/com/rexxy/stream/service/SearchService.java:48-51 | a filter every row passes keeps the table |
| Repositories.SelectSelect | src/main/java/com/rexxy/stream/service/StreamingService.java:69-73 | filtering by a weaker then a stronger test is filtering by the stronger |
| Repositories.MapSeq | src/main/java/com/rexxy/stream/service/SearchService.java:51 | Stream.map: same length, f applied at every position |
| Sorting.Ties | src/main/java/com/rexxy/stream/service/StreamingService.java:76-78 | the elements level with e, a sub-sequence of s |
| Sorting.Insert | src/main/java/com/rexxy/stream/service/StreamingService.java:76-78 | insertion adds exactly the element |
| Sorting.SortBy | src/main/java/com/rexxy/stream/service/StreamingService.java:76-78 | Stream.sorted: a permutation of the input |
| Sorting.InsertSorted | src/main/java/com/rexxy/stream/service/StreamingService.java:76-78 | inserting into a sorted sequence keeps it sorted |
| Sorting.SortBySorted | src/main/java/com/rexxy/stream/service/StreamingService.java:76-107 | the result is ordered by the comparator |
| Sorting.InsertTies | src/main/java/com/rexxy/stream/service/StreamingService.java:76-78 | insertion puts the element after those level with it |
| Sorting.SortByStable | src/main/java/com/rexxy/stream/service/StreamingService.java:76-107 | Stream.sorted is stable on an ordered stream: equal elements keep their order |
| Sorting.SortBySortedInput | src/main/java/com/rexxy/stream/service/StreamingService.java:76-78 | a sorted input is returned unchanged |
| UnixPath.Names | src/main/java/com/rexxy/stream/controller/VideoStreamingController.java:104-105 | the name elements of a path: no empty names |
| UnixPath.NamesNonEmpty | src/main/java/com/rexxy/stream/controller/VideoStreamingController.java:104-105 | non-empty pieces are all names |
| UnixPath.Normalize | src/main/java/com/rexxy/stream/controller/VideoStreamingController.java:104-105 | normalize(): the result holds no ".", ".." or empty name |
| UnixPath.ResolvePath | src/main/java/com/rexxy/stream/controller/VideoStreamingController.java:105 | resolve: an absolute argument replaces the base, a relative one is appended |
| UnixPath.FileName | src/main/java/com/rexxy/stream/controller/VideoStreamingController.java:129 | getFileName(): the last name, null exactly for a path without names |
| UnixPath.Parent | src/main/java/com/rexxy/stream/controller/SubtitleController.java:57 | getParent(): all names but the last, null for the root and a one-name relative path |
| UnixPath.NormalizeIdempotent | src/main/java/com/rexxy/stream/controller/VideoStreamingController.java:104-105 | normalizing twice is normalizing once |
| UnixPath.NormalizePlain | src/main/java/com/rexxy/stream/controller/VideoStreamingController.java:104-105 | a path of plain names is already normal |
| UnixPath.NormalizeAppendPlain | src/main/java/com/rexxy/stream/controller/VideoStreamingController.java:105 | appending plain names to a normal path appends them to its normal form |
| CsvImport.ParseCsvLine | src/main/java/com/rexxy/stream/controller/CsvImportController.java:316-336 | the character loop returns exactly the fields of the quote-toggling splitter specification Fields |
| CsvImport.FieldCount | src/main/java/com/rexxy/stream/controller/CsvImportController.java:319-333 | the splitter is inside quotes iff an odd number of quotes were read, and returns one field more than there are commas outside quotes (so never zero fields) |
| CsvImport.FieldsJoin | src/main/java/com/rexxy/stream/controller/CsvImportController.java:321-333 | joining the fields with "," gives back the line with every '"' deleted |
| CsvImport.FieldsQuoteFree | src/main/java/com/rexxy/stream/controller/CsvImportController.java:324-325 | no field contains a '"' |
| CsvImport.FieldCommas | src/main/java/com/rexxy/stream/controller/CsvImportController.java:326-331 | the commas kept inside fields are exactly the commas that lay inside quotes |
| CsvImport.CommaInFieldWasQuoted | src/main/java/com/rexxy/stream/controller/CsvImportController.java:326-331 | a field holding a comma implies the line had a comma inside quotes |
| CsvImport.UnquotedLineSplitsAtCommas | src/main/java/com/rexxy/stream/controller/CsvImportController.java:321-333 | on a line without quotes the splitter is splitting at every comma, empty fields kept |
| CsvImport.QuotedFieldKeepsCommas | src/main/java/com/rexxy/stream/controller/CsvImportController.java:324-331 | a quoted title containing commas comes back as one field, unquoted |
| CsvImport.Outcomes | src/main/java/com/rexxy/stream/controller/CsvImportController.java:72-131 | one outcome per line read (header, blank, lesson or error) |
| CsvImport.OutcomesStep | src/main/java/com/rexxy/stream/controller/CsvImportController.java:72-131 | the outcomes of one more line extend the earlier ones by that line's outcome only |
| CsvImport.ReadLessonLine | src/main/java/com/rexxy/stream/controller/CsvImportController.java:87-130 | a line that is neither header nor blank becomes a lesson (two fields: duration "0:00", fileId field 1; three or more: duration field 1, fileId field 2; local storage and extracted duration when a local file is found) or the error "Line N: ..." for fewer than two fields |
| CsvImport.ImportFromCsv | src/main/java/com/rexxy/stream/controller/CsvImportController.java:54-154 | unknown group: 500 and nothing created; otherwise 200, the created lessons and errors are those of the outcomes in file order, totalLines counts every line read, importedCount and errorCount are the list sizes, and the message follows the error count |
| CsvImport.OutcomesAccounted | src/main/java/com/rexxy/stream/controller/CsvImportController.java:72-131 | every line is exactly one of imported, reported or skipped |
| CsvImport.HeaderOnlyOnFirstLine | src/main/java/com/rexxy/stream/controller/CsvImportController.java:76-80 | only line 1 can be taken for the header ("title" or "name", case-insensitively); a later non-blank line is imported or reported |
| CsvImport.ErrorsNameShortLines | src/main/java/com/rexxy/stream/controller/CsvImportController.java:91-94 | every error names a line number within the file whose line has fewer than two fields |
| CsvImport.CreatedLessonsShape | src/main/java/com/rexxy/stream/controller/CsvImportController.java:109-123 | every created lesson is in the requested group, has a resource path, is LOCAL iff a local file was found, and then has the extracted duration |
| CsvImport.CsvLessonTitleNumbered | src/main/java/com/rexxy/stream/controller/CsvImportController.java:266-274 | "N- title.mp4" becomes "title" for every digit string N |
| CsvImport.ReadCourseRow | src/main/java/com/rexxy/stream/controller/CsvImportController.java:190-214 | the loop body reads the row specification CourseRowOf: fewer than four fields or a non-video mime type give no row; path segments 0/1/2 give course, module and group with the defaults "Default Module" / "Default Group" |
| CsvImport.CourseRowsStep | src/main/java/com/rexxy/stream/controller/CsvImportController.java:176-188 | one more line extends the rows by that line's own rows; the header test applies to the first non-blank line only |
| CsvImport.ReadCourseLine | src/main/java/com/rexxy/stream/controller/CsvImportController.java:176-188 | blank lines, and a first non-blank line containing "file name", contribute no row |
| CsvImport.WithCourseValid | src/main/java/com/rexxy/stream/controller/CsvImportController.java:216-231 | get-or-create of the course keeps the cache/entity correspondence |
| CsvImport.WithModuleValid | src/main/java/com/rexxy/stream/controller/CsvImportController.java:233-247 | get-or-create of the module under its key keeps the correspondence |
| CsvImport.WithGroupValid | src/main/java/com/rexxy/stream/controller/CsvImportController.java:249-263 | get-or-create of the group under its key keeps the correspondence |
| CsvImport.WithLessonValid | src/main/java/com/rexxy/stream/controller/CsvImportController.java:276-291 | adding the lesson to its cached group keeps the correspondence and places the lesson by its row |
| CsvImport.PlaceGroup | src/main/java/com/rexxy/stream/controller/CsvImportController.java:216-263 | get-or-create of the row's course, module and group keeps every list as long as its cache says, caches the row's group key, adds exactly the row's course title, leaves the lessons alone and adds at most one empty group |
| CsvImport.PlaceGroupValid | src/main/java/com/rexxy/stream/controller/CsvImportController.java:216-263 | the get-or-create of the row's course, module and group keeps the invariant |
| CsvImport.PlaceRow | src/main/java/com/rexxy/stream/controller/CsvImportController.java:216-293 | one video row whose lesson is saved keeps the invariant, and the course cache gains exactly the row's course title |
| CsvImport.PlaceAll | src/main/java/com/rexxy/stream/controller/CsvImportController.java:176-298 | the hierarchy built from the rows when every save succeeds satisfies the cache/entity invariant |
| CsvImport.PlaceAllCourses | src/main/java/com/rexxy/stream/controller/CsvImportController.java:217-231 | one course is created per distinct course title named by the rows, and no other |
| CsvImport.NoDuplicates | src/main/java/com/rexxy/stream/controller/CsvImportController.java:217-263 | no two created courses share a title, no two modules a key, no two groups a key |
| CsvImport.StructuredRowsPlacedByTitles | src/main/java/com/rexxy/stream/controller/CsvImportController.java:233-263 | with keys that keep titles apart, every lesson of a hierarchy that satisfies the invariant for its rows sits in the group whose course, module and group titles are its row's |
| CsvImport.UnderscoreJoinAmbiguous | src/main/java/com/rexxy/stream/controller/CsvImportController.java:234 | "A" + "_" + "B_C" equals "A_B" + "_" + "C" |
| CsvImport.UnderscoredKeysCollide | src/main/java/com/rexxy/stream/controller/CsvImportController.java:234-263 | with the "_"-joined keys, the rows (course "A_B", module "C") and (course "A", module "B_C") create two courses but share one module and one group |
| CsvImport.ImportRow | src/main/java/com/rexxy/stream/controller/CsvImportController.java:216-297 | one video row creates its course title, and is either saved or reported, never both |
| CsvImport.ImportRowValid | src/main/java/com/rexxy/stream/controller/CsvImportController.java:216-297 | one video row keeps the invariant for the saved rows |
| CsvImport.UnlinkedRowRejected | src/main/java/com/rexxy/stream/controller/CsvImportController.java:276-288 | a database that rejects exactly the group-less lessons rejects the row's lesson as written: no row saved, no lesson added |
| CsvImport.ImportLines | src/main/java/com/rexxy/stream/controller/CsvImportController.java:176-298 | the import of the file line by line, each row numbered by its line ("Line N: " + message); every list stays as long as its cache says |
| CsvImport.ImportLinesAccounted | src/main/java/com/rexxy/stream/controller/CsvImportController.java:176-298 | every video row of the file is either saved or reported, and a course exists for exactly the course titles of all rows, saved or not |
| CsvImport.ImportLinesValid | src/main/java/com/rexxy/stream/controller/CsvImportController.java:176-298 | the invariant holds for the rows the import saved |
| CsvImport.ImportLinesStep | src/main/java/com/rexxy/stream/controller/CsvImportController.java:176-297 | one more line extends the import by that line's row, numbered by its 1-based line |
| CsvImport.EverySaveSucceeds | src/main/java/com/rexxy/stream/controller/CsvImportController.java:288-293 | when no save throws, the import is PlaceAll of the rows and reports no error |
| CsvImport.UngroupedLessonsRejected | src/main/java/com/rexxy/stream/controller/CsvImportController.java:276-288 | with a database that rejects exactly the lessons without a group, the import as written saves no lesson and reports every video row, while still creating all the courses |
| CsvImport.LinkedImportLinksLessons | src/main/java/com/rexxy/stream/controller/CsvImportController.java:276-291 | with the group set on each lesson, every lesson a group lists refers to that group, whatever the saves do |
| CsvImport.ImportRowLinked | src/main/java/com/rexxy/stream/controller/CsvImportController.java:276-291 | with the group set, one more row keeps every listed lesson referring to its group |
| CsvImport.LinkedRowSaved | src/main/java/com/rexxy/stream/controller/CsvImportController.java:276-291 | with the group set, a database that rejects exactly the group-less lessons saves the row's lesson |
| CsvImport.GroupedRowsSaved | src/main/java/com/rexxy/stream/controller/CsvImportController.java:276-291 | with the group set, a database that rejects exactly the group-less lessons saves every row and reports none |
| CsvImport.GroupedLessonsSaved | src/main/java/com/rexxy/stream/controller/CsvImportController.java:276-291 | with the group set, the same database saves every row, reports none, and every lesson refers to its group |
| CsvImport.SaveRow | src/main/java/com/rexxy/stream/controller/CsvImportController.java:216-297 | the loop body for a video row is ImportRow, and its flag says whether the lesson was saved |
| CsvImport.ImportLine | src/main/java/com/rexxy/stream/controller/CsvImportController.java:177-297 | one turn of the loop: no change for a blank, header or skipped line, ImportRow for a video row, the count following the saved rows |
| CsvImport.PlaceLines | src/main/java/com/rexxy/stream/controller/CsvImportController.java:174-298 | the while loop over the lines is ImportLines of the whole file, and its count is the number of saved rows |
| CsvImport.ImportCourseFromCsv | src/main/java/com/rexxy/stream/controller/CsvImportController.java:161-305 | the response carries the saved-row count and the caught messages, their total is the number of video rows, the message reports the count and the number of distinct course titles, and errorCount stays 0 because the source never sets it |
| VideoStreaming.RangeFields | src/main/java/com/rexxy/stream/controller/VideoStreamingController.java:64 | the fields of a Range header ("bytes=" deleted, then split at '-') contain no '-' |
| VideoStreaming.RangeBounds | src/main/java/com/rexxy/stream/controller/VideoStreamingController.java:64-72 | a parsed range ends at most at size - 1, and both bounds are 64-bit values |
| VideoStreaming.StreamVideo | src/main/java/com/rexxy/stream/controller/VideoStreamingController.java:40-86 | the "File not found: " + filename failure (500) iff the stored file is missing or unreadable; otherwise without a Range header the whole file, and with one a 206 whose body is still the whole resource |
| VideoStreaming.StreamLibraryVideo | src/main/java/com/rexxy/stream/controller/VideoStreamingController.java:92-198 | the IllegalArgumentException failure (500) iff the path after the prefix has a malformed "%" escape; then 403 outside the root, 404 for a missing or unreadable file, otherwise the whole file or a 206 backed by the bounded stream |
| VideoStreaming.NoRangeIsWhole | src/main/java/com/rexxy/stream/controller/VideoStreamingController.java:55-61 | with no Range header both endpoints answer 200 with Content-Length equal to the file size (the library one also with Accept-Ranges) |
| VideoStreaming.ClosedFields | src/main/java/com/rexxy/stream/controller/VideoStreamingController.java:64 | "bytes=S-E" splits into the digits of S and of E |
| VideoStreaming.OpenFields | src/main/java/com/rexxy/stream/controller/VideoStreamingController.java:64 | "bytes=S-" splits into the digits of S only |
| VideoStreaming.ClosedRange | src/main/java/com/rexxy/stream/controller/VideoStreamingController.java:64-72 | "bytes=S-E" gives start S and end min(E, size - 1) on both endpoints |
| VideoStreaming.OneFieldBounds | src/main/java/com/rexxy/stream/controller/VideoStreamingController.java:66-68 | a header with one numeric field S gets end size - 1 on the plain endpoint and min(S + 1048575, size - 1), added with 64-bit wrap-around, on the library endpoint |
| VideoStreaming.OpenRangeToEnd | src/main/java/com/rexxy/stream/controller/VideoStreamingController.java:66-68 | "bytes=S-" ends at size - 1 on the plain endpoint |
| VideoStreaming.OpenRangeChunk | src/main/java/com/rexxy/stream/controller/VideoStreamingController.java:144-150 | "bytes=S-" on the library endpoint ends at min(S + 1048575, size - 1) |
| VideoStreaming.OpenRangeChunkWraps | src/main/java/com/rexxy/stream/controller/VideoStreamingController.java:146 | for S within one chunk of Long.MAX_VALUE the default end wraps to a negative number |
| VideoStreaming.SuffixRangeFails | src/main/java/com/rexxy/stream/controller/VideoStreamingController.java:65 | the suffix form "bytes=-N" fails with a NumberFormatException: its first field is empty |
| VideoStreaming.StartNonNegative | src/main/java/com/rexxy/stream/controller/VideoStreamingController.java:65 | a parsed start is never negative; it is never compared with the end or the size |
| VideoStreaming.ContentLengthExact | src/main/java/com/rexxy/stream/controller/VideoStreamingController.java:74-83 | on the plain endpoint a 206 has Content-Length end - start + 1 and Content-Range "bytes start-end/size" |
| VideoStreaming.PlainRelativeInside | src/main/java/com/rexxy/stream/controller/VideoStreamingController.java:104-110 | a relative path of plain names resolves under the root and is never refused |
| VideoStreaming.ParentRefused | src/main/java/com/rexxy/stream/controller/VideoStreamingController.java:104-110 | ".." from a non-empty root is refused with 403 |
| VideoStreaming.ServedInsideRoot | src/main/java/com/rexxy/stream/controller/VideoStreamingController.java:104-114 | a path that does not decode fails with IllegalArgument; one that decodes gives 403 iff the normalized target is not under the normalized root, 404 iff it is under the root but missing or unreadable, and the target has no "." or ".." left |
| VideoStreaming.BoundedStream.constructor | src/main/java/com/rexxy/stream/controller/VideoStreamingController.java:156-161 | the stream starts at the seek position with remaining = Content-Length and nothing delivered |
| VideoStreaming.BoundedStream.Read | src/main/java/com/rexxy/stream/controller/VideoStreamingController.java:164-169 | read(): -1 without change once remaining <= 0; otherwise remaining drops by one, and the next byte is delivered or -1 at end of file |
| VideoStreaming.BoundedStream.ReadInto | src/main/java/com/rexxy/stream/controller/VideoStreamingController.java:172-180 | read(b, off, len): -1 without change once remaining <= 0; otherwise at most min(len, remaining) bytes, written to b[off..] only, remaining drops by exactly what was read and stays >= 0 |
| VideoStreaming.NeverPastLength | src/main/java/com/rexxy/stream/controller/VideoStreamingController.java:160-180 | however the reads go, the bytes delivered never exceed Content-Length |
| Subtitles.Converted | src/main/java/com/rexxy/stream/controller/SubtitleController.java:99-109 | one converted line per input line, each the line's conversion |
| Subtitles.BodySnoc | src/main/java/com/rexxy/stream/controller/SubtitleController.java:87-110 | one more input line appends exactly its converted line and "\n" |
| Subtitles.ConvertSrtToVtt | src/main/java/com/rexxy/stream/controller/SubtitleController.java:81-113 | the loop's output is "WEBVTT\n\n" followed by each converted line and "\n", in order |
| Subtitles.ConvertKeepsBreaks | src/main/java/com/rexxy/stream/controller/SubtitleController.java:100-109 | converting a line adds no line break and removes none |
| Subtitles.BodyLines | src/main/java/com/rexxy/stream/controller/SubtitleController.java:86-110 | split at "\n", the body gives back the converted lines and a final "" |
| Subtitles.VttLines | src/main/java/com/rexxy/stream/controller/SubtitleController.java:83-110 | split at "\n", the output is "WEBVTT", "", then one line per input line (input-line-count + 2 lines before the final "") |
| Subtitles.HeaderPieces | src/main/java/com/rexxy/stream/controller/SubtitleController.java:83 | the signature contributes the lines "WEBVTT" and "" |
| Subtitles.VttHeaderFirst | src/main/java/com/rexxy/stream/controller/SubtitleController.java:83 | the output always starts with "WEBVTT\n\n" |
| Subtitles.TimingLineConverted | src/main/java/com/rexxy/stream/controller/SubtitleController.java:100-101 | a line matching the SRT timing pattern becomes a WebVTT timing line with no ',' left and every other character unchanged |
| Subtitles.OtherLineCopied | src/main/java/com/rexxy/stream/controller/SubtitleController.java:102-108 | any other line is copied unchanged |
| Subtitles.ConvertIdempotent | src/main/java/com/rexxy/stream/controller/SubtitleController.java:100-109 | converting a converted line changes nothing |
| Subtitles.PickSubtitle | src/main/java/com/rexxy/stream/controller/SubtitleController.java:58-66 | the file picked is a candidate that exists and no candidate before it exists; none is picked iff no candidate exists |
| Subtitles.GuardsBeforeFiles | src/main/java/com/rexxy/stream/controller/SubtitleController.java:34-42 | a missing lesson, a non-LOCAL lesson or a null resourcePath gives 404 whatever the files |
| Subtitles.LookupOrder | src/main/java/com/rexxy/stream/controller/SubtitleController.java:44-73 | base.en.srt is used when it exists, else base.srt, else 404, where base is the video's file name without its extension (stripped only when the last '.' is past index 0) |
| GoogleDrive.DurationReadsBack | src/main/java/com/rexxy/stream/service/GoogleDriveService.java:155-166 | for a non-negative length the text reads back as hours*3600 + minutes*60 + secs = millis/1000, with minutes and secs in 0..59 |
| GoogleDrive.DurationShape | src/main/java/com/rexxy/stream/service/GoogleDriveService.java:161-165 | at least one hour gives "H:MM:SS" with the hours unpadded, otherwise "M:SS" with the minutes unpadded and the seconds two digits |
| GoogleDrive.DurationColons | src/main/java/com/rexxy/stream/service/GoogleDriveService.java:155-165 | two colons iff the length reaches an hour, one otherwise, negative lengths included |
| GoogleDrive.DriveResourceIsOneName | src/main/java/com/rexxy/stream/service/GoogleDriveService.java:148-150 | a non-empty Drive resource id, read as a path, is the single relative name itself |
| GoogleDrive.SlashedPathIsLocal | src/main/java/com/rexxy/stream/service/GoogleDriveService.java:148-150 | a path holding a '/' is never a Drive resource |
| GoogleDrive.DirectDownloadUrl | src/main/java/com/rexxy/stream/service/GoogleDriveService.java:128-130 | the download prefix followed by the file id, nothing else |
| GoogleDrive.StreamingUrl | src/main/java/com/rexxy/stream/service/GoogleDriveService.java:138-140 | the preview prefix, the file id and "/preview", nothing else |
| GoogleDrive.UrlsNameTheirFile | src/main/java/com/rexxy/stream/service/GoogleDriveService.java:128-140 | each URL names exactly the id it was built from; different ids give different URLs |
| GoogleDrive.VideoInfoOf | src/main/java/com/rexxy/stream/service/GoogleDriveService.java:88-102 | id, name, size are copied; a duration is set iff Drive reports one, and it is the formatted one |
| GoogleDrive.VideoInfos | src/main/java/com/rexxy/stream/service/GoogleDriveService.java:88-103 | one info per listed file, in list order |
| GoogleDrive.ListVideosInDefaultFolder | src/main/java/com/rexxy/stream/service/GoogleDriveService.java:114-120 | a null or empty folder id fails with IllegalStateException; otherwise the folder's listing |
| GoogleDrive.UnconfiguredNeverLists | src/main/java/com/rexxy/stream/service/GoogleDriveService.java:115-118 | without a configured folder the result fails and does not depend on what Drive would list |
| MediaMetadata.DurationReadsBack | src/main/java/com/rexxy/stream/service/MediaMetadataService.java:49-60 | for a non-negative count the text reads back as hours*3600 + minutes*60 + secs = seconds, with minutes and secs in 0..59 |
| MediaMetadata.DurationShape | src/main/java/com/rexxy/stream/service/MediaMetadataService.java:55-59 | from one hour "HH:MM:SS", below it "MM:SS", every field zero-padded to at least two digits |
| MediaMetadata.UnderAnHourIsFive | src/main/java/com/rexxy/stream/service/MediaMetadataService.java:58 | below an hour the text has exactly five characters with ':' at index 2 |
| MediaMetadata.DurationColons | src/main/java/com/rexxy/stream/service/MediaMetadataService.java:55-59 | two colons iff the count reaches 3600, one otherwise |
| MediaMetadata.AgreesWithDrive | src/main/java/com/rexxy/stream/service/MediaMetadataService.java:49-60 | the ffprobe and the Drive texts of one length read back alike, and are equal strings from 10 minutes to an hour and from 10 hours on |
| DriveStream.StreamVideo | src/main/java/com/rexxy/stream/controller/DriveStreamController.java:18-33 | 400 iff the id is null, shorter than 10 characters or contains '/'; otherwise 302 to the download URL of that id with Access-Control-Allow-Origin "*" |
| DriveStream.RedirectIsServiceUrl | src/main/java/com/rexxy/stream/controller/DriveStreamController.java:27 | the redirect is the Drive service's download URL, different for different ids |
| DriveStream.ValidIdIsDriveResource | src/main/java/com/rexxy/stream/controller/DriveStreamController.java:21 | an accepted id without '\\' is a Drive resource for the service |
| DriveStream.EmbedUrl | src/main/java/com/rexxy/stream/controller/DriveStreamController.java:38-44 | no validation: the preview URL of the given id |
| DriveImport.CleanFileName | src/main/java/com/rexxy/stream/controller/GoogleDriveController.java:117-128 | the result has no '_' or '-', is never longer than the input, keeps the length when there is no '.' past index 0, and keeps every other character in place |
| DriveImport.CleanDropsExtension | src/main/java/com/rexxy/stream/controller/GoogleDriveController.java:119-122 | when the last '.' is past index 0 exactly that suffix, dot included, is removed |
| DriveImport.CleanIdempotentWithoutDot | src/main/java/com/rexxy/stream/controller/GoogleDriveController.java:117-128 | cleaning a cleaned name without a dot changes nothing |
| DriveImport.ErrorReply | src/main/java/com/rexxy/stream/controller/GoogleDriveController.java:105-111 | the exception reply is 500 with both counts 0 and the message "Error: " followed by the exception's message |
| DriveImport.FirstUnnamed | src/main/java/com/rexxy/stream/controller/GoogleDriveController.java:86-88 | the index of the first video without a file name (where cleanFileName throws), or the count |
| DriveImport.SaveLessons | src/main/java/com/rexxy/stream/controller/GoogleDriveController.java:85-96 | the loop saves one lesson per video, in list order, up to the first video without a name, and reports whether it stopped there |
| DriveImport.BulkImportVideos | src/main/java/com/rexxy/stream/controller/GoogleDriveController.java:67-112 | the method saves and answers exactly what the specification BulkImport gives for the listing of the named or default folder |
| DriveImport.SuccessCounts | src/main/java/com/rexxy/stream/controller/GoogleDriveController.java:98-104 | on success one lesson per listed video is saved, and totalVideos = importedCount = that count |
| DriveImport.FailureReply | src/main/java/com/rexxy/stream/controller/GoogleDriveController.java:105-111 | every failure answers 500 with totalVideos = importedCount = 0 and a message starting "Error: " |
| DriveImport.ImportedLessonFacts | src/main/java/com/rexxy/stream/controller/GoogleDriveController.java:87-92 | each lesson is a GOOGLE_DRIVE lesson of the group, its resource the video id, its title free of '_' and '-', its duration "0:00" when Drive has none and otherwise text reading back to the whole seconds |
| Clocks.ClockOf | src/main/java/com/rexxy/stream/service/GoogleDriveService.java:156-159 | hours, minutes and secs recombine to the seconds, lie in 0..59 for a non-negative count (and in -59..0 for a negative one), and hours > 0 iff the count reaches 3600 |
| Clocks.ClockOfNat | src/main/java/com/rexxy/stream/service/MediaMetadataService.java:51-53 | for a non-negative count the three fields recombine to it, minutes and secs below 60 |
| Clocks.ReadHoursText | src/main/java/com/rexxy/stream/service/GoogleDriveService.java:162 | "%d:%02d:%02d" text reads back to its seconds |
| Clocks.ReadMinutesText | src/main/java/com/rexxy/stream/service/GoogleDriveService.java:164 | "%d:%02d" text reads back to its seconds |
| Clocks.ReadPaddedMinutesText | src/main/java/com/rexxy/stream/service/MediaMetadataService.java:58 | "%02d:%02d" text reads back to its seconds |
| Clocks.ReadPaddedHoursText | src/main/java/com/rexxy/stream/service/MediaMetadataService.java:56 | "%02d:%02d:%02d" text reads back to its seconds |
| LocalImport.CleanTitle | src/main/java/com/rexxy/stream/controller/LocalImportController.java:197-199 | the result has no '_', no white space at either end, and is never longer than the name |
| LocalImport.CleanTitleIdempotent | src/main/java/com/rexxy/stream/controller/LocalImportController.java:197-199 | cleaning a cleaned title changes nothing |
| LocalImport.CleanTitleKeeps | src/main/java/com/rexxy/stream/controller/LocalImportController.java:197-199 | a title without '_' and without white space at its ends is kept as it is |
| LocalImport.LessonTitleOfDecoratedName | src/main/java/com/rexxy/stream/controller/LocalImportController.java:220-228 | "N" + ('-' or '.') + white space + title + "-<digits>K" + ".mp4" in any letter case gives exactly the title |
| LocalImport.StripMp4Of | src/main/java/com/rexxy/stream/controller/LocalImportController.java:222-224 | a ".mp4" ending in any letter case is cut off |
| LocalImport.StripNumberPrefixOf | src/main/java/com/rexxy/stream/controller/LocalImportController.java:226 | one leading number with '-' or '.' and the white space after it is removed |
| LocalImport.StripSizeSuffixOf | src/main/java/com/rexxy/stream/controller/LocalImportController.java:228 | one trailing "-<digits>K" is removed |
| LocalImport.RelativePath | src/main/java/com/rexxy/stream/controller/LocalImportController.java:231 | the resource path holds no '\\' |
| LocalImport.RelativePathParses | src/main/java/com/rexxy/stream/controller/LocalImportController.java:231 | the resource path of listed names reads back, as a relative path, to exactly those names |
| LocalImport.Videos | src/main/java/com/rexxy/stream/controller/LocalImportController.java:96-97 | the entries ending in ".mp4" in any letter case, a subsequence of the listing |
| LocalImport.Folders | src/main/java/com/rexxy/stream/controller/LocalImportController.java:72 | the directory entries, a subsequence of the listing |
| LocalImport.VideosEmpty | src/main/java/com/rexxy/stream/controller/LocalImportController.java:96-97 | no video is selected iff no entry ends in ".mp4" |
| LocalImport.FoldersEmpty | src/main/java/com/rexxy/stream/controller/LocalImportController.java:95 | no folder is selected iff every entry is a file |
| LocalImport.ByNamePreorder | src/main/java/com/rexxy/stream/controller/LocalImportController.java:110 | the order sorted() visits sibling paths in is a total preorder |
| LocalImport.SortedSiblings | src/main/java/com/rexxy/stream/controller/LocalImportController.java:108-111 | the visited siblings are in name order and a permutation of the selection |
| LocalImport.LessonsFor | src/main/java/com/rexxy/stream/controller/LocalImportController.java:107-114 | one lesson per video |
| LocalImport.LessonsForAt | src/main/java/com/rexxy/stream/controller/LocalImportController.java:107-114 | the j-th lesson is made from the j-th sorted video with orderIndex j |
| LocalImport.WithGroup | src/main/java/com/rexxy/stream/controller/LocalImportController.java:209-215 | createLessonGroup adds one group (cleaned title, the module, the order), then one lesson per video, and changes nothing already stored |
| LocalImport.WithGroupFolders | src/main/java/com/rexxy/stream/controller/LocalImportController.java:149-170 | one group per lesson-group folder; courses and modules unchanged |
| LocalImport.WithModule | src/main/java/com/rexxy/stream/controller/LocalImportController.java:201-207 | createModule adds one module (cleaned title, the course, the order, no duration) and then its groups |
| LocalImport.WithModuleFolders | src/main/java/com/rexxy/stream/controller/LocalImportController.java:117-172 | one module per module folder; courses unchanged |
| LocalImport.WithCourse | src/main/java/com/rexxy/stream/controller/LocalImportController.java:75-177 | a course folder only appends to the store |
| LocalImport.WithCourses | src/main/java/com/rexxy/stream/controller/LocalImportController.java:75-177 | the course folders only append to the store |
| LocalImport.CreateLessons | src/main/java/com/rexxy/stream/controller/LocalImportController.java:139-146 | the innermost loop appends exactly the lessons of the sorted videos and counts them |
| LocalImport.CreateGroup | src/main/java/com/rexxy/stream/controller/LocalImportController.java:134-146 | createLessonGroup plus its lessons; groupsCreated = 1 and lessonsCreated = the video count |
| LocalImport.ImportGroupFolders | src/main/java/com/rexxy/stream/controller/LocalImportController.java:149-170 | the loop over lesson-group folders builds the specification's store; the counters equal the groups and lessons added |
| LocalImport.ImportModule | src/main/java/com/rexxy/stream/controller/LocalImportController.java:123-171 | one module folder builds the specification's store; the counters equal what was added |
| LocalImport.ImportModuleFolders | src/main/java/com/rexxy/stream/controller/LocalImportController.java:115-172 | the loop over module folders builds the specification's store; the counters equal what was added |
| LocalImport.ImportCourse | src/main/java/com/rexxy/stream/controller/LocalImportController.java:76-176 | one course folder builds the specification's store; the four counters equal what was added |
| LocalImport.ImportCourses | src/main/java/com/rexxy/stream/controller/LocalImportController.java:75-177 | the loop over course folders builds the specification's store; the four counters equal what was added |
| LocalImport.ScanLocalLibrary | src/main/java/com/rexxy/stream/controller/LocalImportController.java:54-192 | a missing root gives 400 naming the normalized root path and changes nothing; a root that cannot be listed gives 500 "Error scanning library: " + the message and changes nothing; otherwise the store of the course folders, and a message reporting exactly the four counts of entities created |
| UnixPath.PathTextParses | src/main/java/com/rexxy/stream/controller/LocalImportController.java:57-60 | the text printed for a normalized path (Path.toString) parses back to that path |
| UnixPath.TrailingSlashIgnored | src/main/java/com/rexxy/stream/controller/LocalImportController.java:57-60 | a trailing "/" does not change the path Paths.get parses |
| LocalImport.HiddenCourseSkipped | src/main/java/com/rexxy/stream/controller/LocalImportController.java:79-91 | a course folder whose name starts with '.' adds nothing; any other adds exactly one course titled cleanTitle(name) |
| LocalImport.GroupFoldersInOrder | src/main/java/com/rexxy/stream/controller/LocalImportController.java:149-158 | the groups follow the sorted folders' titles with orderIndex 0, 1, 2, ... |
| LocalImport.ModuleFoldersInOrder | src/main/java/com/rexxy/stream/controller/LocalImportController.java:117-126 | the modules follow the sorted folders' titles with orderIndex 0, 1, 2, ... |
| LocalImport.FlatCourseWrapped | src/main/java/com/rexxy/stream/controller/LocalImportController.java:99-114 | a course folder of videos without sub-folders gets exactly one "Default Module" (order 0) with one "Lessons" group (order 0) holding the videos in name order |
| LocalImport.DefaultModuleTitleKept | src/main/java/com/rexxy/stream/controller/LocalImportController.java:101 | cleanTitle keeps "Default Module" |
| LocalImport.LessonsGroupTitleKept | src/main/java/com/rexxy/stream/controller/LocalImportController.java:104 | cleanTitle keeps "Lessons" |
| LocalImport.FlatModuleWrapped | src/main/java/com/rexxy/stream/controller/LocalImportController.java:134-146 | a module folder of videos without sub-folders gets exactly one "Lessons" group (order 0) holding them in name order |
| LocalImport.NestedModuleGroups | src/main/java/com/rexxy/stream/controller/LocalImportController.java:147-170 | otherwise the module gets one group per sub-folder, in name order; loose videos are ignored |
| LocalImport.NestedCourseModules | src/main/java/com/rexxy/stream/controller/LocalImportController.java:115-126 | otherwise the course gets one module per sub-folder, in name order; loose videos are ignored |
| LocalImport.LocalLessonServable | src/main/java/com/rexxy/stream/controller/LocalImportController.java:217-240 | a lesson made for a video below listed folders is LOCAL with a relative path of at least two plain names |
| LocalImport.ServableResolves | src/main/java/com/rexxy/stream/controller/LocalImportController.java:231 | such a lesson's file lies under any library root at the root followed by its names, and is never taken for a Drive id |
| LocalImport.LessonsServable | src/main/java/com/rexxy/stream/controller/LocalImportController.java:217-240 | every lesson made for a group's videos is servable |
| LocalImport.GroupGrowth | src/main/java/com/rexxy/stream/controller/LocalImportController.java:155-169 | a group and its lessons are attached to stored owners |
| LocalImport.GroupFoldersGrowth | src/main/java/com/rexxy/stream/controller/LocalImportController.java:149-170 | the groups of a module and their lessons are attached to stored owners |
| LocalImport.ModuleGrowth | src/main/java/com/rexxy/stream/controller/LocalImportController.java:123-171 | a module and what lies below it are attached to stored owners |
| LocalImport.ModuleFoldersGrowth | src/main/java/com/rexxy/stream/controller/LocalImportController.java:117-172 | the modules of a course are attached to stored owners |
| LocalImport.CourseGrowth | src/main/java/com/rexxy/stream/controller/LocalImportController.java:76-176 | a course folder keeps every reference pointing at a stored entity |
| LocalImport.ScanGrowth | src/main/java/com/rexxy/stream/controller/LocalImportController.java:75-177 | a scan keeps the store linked: each added module has a course, each group a module, each lesson a group, and each added lesson is a local file under the root |
| LessonDataFixer.KeepLowerAlnum | src/main/java/com/rexxy/stream/config/LessonDataFixer.java:75 | the result is no longer than the input and holds only [a-z0-9] characters taken from it |
| LessonDataFixer.KeepLowerAlnumNoop | src/main/java/com/rexxy/stream/config/LessonDataFixer.java:75 | a string of [a-z0-9] only is kept as it is |
| LessonDataFixer.KeepLowerAlnumCounts | src/main/java/com/rexxy/stream/config/LessonDataFixer.java:75 | every [a-z0-9] character keeps its number of occurrences, every other character vanishes |
| LessonDataFixer.NormalizedAlphabet | src/main/java/com/rexxy/stream/config/LessonDataFixer.java:69-77 | normalizeTitle(null) = "" and every result holds only [a-z0-9] |
| LessonDataFixer.NormalizeIdempotent | src/main/java/com/rexxy/stream/config/LessonDataFixer.java:69-77 | normalizing a normalized title changes nothing |
| LessonDataFixer.NormalizeIgnoresCase | src/main/java/com/rexxy/stream/config/LessonDataFixer.java:73 | titles that differ only in letter case normalize alike |
| LessonDataFixer.PlainTitleKept | src/main/java/com/rexxy/stream/config/LessonDataFixer.java:69-77 | a title of [a-z0-9] only normalizes to itself |
| LessonDataFixer.SourceMap | src/main/java/com/rexxy/stream/config/LessonDataFixer.java:24-30 | every entry is a source lesson (duration longer than 10) of the list, stored under its normalized title |
| LessonDataFixer.SourceMapKeys | src/main/java/com/rexxy/stream/config/LessonDataFixer.java:24-30 | a key is present iff some source lesson normalizes to it |
| LessonDataFixer.SourceMapFirst | src/main/java/com/rexxy/stream/config/LessonDataFixer.java:29 | on a duplicate key the earliest source wins |
| LessonDataFixer.FixLesson | src/main/java/com/rexxy/stream/config/LessonDataFixer.java:36-59 | one iteration changes only resourcePath and duration, and only on the repairing branch |
| LessonDataFixer.FixAll | src/main/java/com/rexxy/stream/config/LessonDataFixer.java:36-59 | the pass treats each lesson on its own, in place |
| LessonDataFixer.FixOne | src/main/java/com/rexxy/stream/config/LessonDataFixer.java:37-58 | the loop body gives the specified lesson and says whether the repairing branch was taken |
| LessonDataFixer.FixLessonData | src/main/java/com/rexxy/stream/config/LessonDataFixer.java:19-67 | the loop leaves exactly the specified lessons and updated counts the repaired ones |
| LessonDataFixer.RepairLessons | src/main/java/com/rexxy/stream/config/LessonDataFixer.java:35-59 | for any map of sources, the for-each loop replaces each lesson by its fixed form and counts the repaired ones |
| LessonDataFixer.RepairedFromFirstSource | src/main/java/com/rexxy/stream/config/LessonDataFixer.java:48-56 | a repaired lesson gets resourcePath := the first matching source's duration (over 10 characters) and duration := null |
| LessonDataFixer.SkippedUnchanged | src/main/java/com/rexxy/stream/config/LessonDataFixer.java:37-46 | a lesson with a resourcePath longer than 10 without '/', or a source itself, is never modified |
| LessonDataFixer.FixKeepsSources | src/main/java/com/rexxy/stream/config/LessonDataFixer.java:43-56 | repairing never turns a lesson into a source or changes a source, and keeps the normalized title |
| LessonDataFixer.FixAllKeepsSourceMap | src/main/java/com/rexxy/stream/config/LessonDataFixer.java:24-59 | the map of sources after the pass equals the one before it |
| LessonDataFixer.FixLessonIdempotent | src/main/java/com/rexxy/stream/config/LessonDataFixer.java:36-59 | repairing a repaired lesson with the same map changes nothing |
| LessonDataFixer.FixerIdempotent | src/main/java/com/rexxy/stream/config/LessonDataFixer.java:19-67 | running the fixer on its own output changes no lesson |
| LessonDataFixer.RepairedHoldsDriveId | src/main/java/com/rexxy/stream/config/LessonDataFixer.java:38-39 | a repaired lesson passes the "already has a Drive id" test when its source id has no '/' |
| LessonDataFixer.SecondRunQuiet | src/main/java/com/rexxy/stream/config/LessonDataFixer.java:35-58 | when no source id holds '/', a second run counts 0 repairs |
| LessonDataFixer.NoRepairNoChange | src/main/java/com/rexxy/stream/config/LessonDataFixer.java:35-58 | updated = 0 only when every lesson was left as it was |
| LessonDataFixer.RepairCount | src/main/java/com/rexxy/stream/config/LessonDataFixer.java:35-56 | the number of repairs the pass counts is at most the number of lessons |
| Search.VerbatimFound | src/main/java/com/rexxy/stream/service/SearchService.java:44-45 | a text holding the term verbatim is found whatever regex metacharacters the term holds (the pattern is quoted) |
| Search.FindsIgnoresTextCase | src/main/java/com/rexxy/stream/service/SearchService.java:45 | the letter case of the text does not matter |
| Search.CourseOf | src/main/java/com/rexxy/stream/service/SearchService.java:92 | module.getCourse(): when present, the course row the module references |
| Search.ModuleOf | src/main/java/com/rexxy/stream/service/SearchService.java:107 | group.getModule(): when present, the module row the group references |
| Search.GroupOf | src/main/java/com/rexxy/stream/service/SearchService.java:101 | lesson.getLessonGroup(): when present, the group row the lesson references |
| Search.ToModuleResult | src/main/java/com/rexxy/stream/service/SearchService.java:91-98 | the result keeps the module's id and title |
| Search.ToLessonResult | src/main/java/com/rexxy/stream/service/SearchService.java:100-122 | the result keeps the lesson's id and title |
| Search.SearchAll | src/main/java/com/rexxy/stream/service/SearchService.java:39-67 | a null or blank query gives three empty lists and total 0; totalResults = the sum of the three list sizes; no list is longer than its table |
| Search.SameCourseResult | src/main/java/com/rexxy/stream/service/SearchService.java:69-73 | two courses with the same result row match the same terms |
| Search.CourseListed | src/main/java/com/rexxy/stream/service/SearchService.java:48-51 | a course is listed iff its title, its non-null description or its non-null category holds the trimmed, lower-cased query |
| Search.ModuleListed | src/main/java/com/rexxy/stream/service/SearchService.java:54-57 | a module is listed iff its title holds the term |
| Search.LessonListed | src/main/java/com/rexxy/stream/service/SearchService.java:60-63 | a lesson is listed iff its title holds the term |
| Search.HitsKeepOrder | src/main/java/com/rexxy/stream/service/SearchService.java:48-63 | each result list is its table filtered, in table order |
| Search.QueryCaseIgnored | src/main/java/com/rexxy/stream/service/SearchService.java:44-45 | a query and its lower-cased form give the same results |
| Search.LessonFallbacks | src/main/java/com/rexxy/stream/service/SearchService.java:100-122 | no group: "Unknown Group"/"Unknown Module"/"Unknown Course"; a group without module: "Unknown Module"/"Unknown Course"; a module without course: "Unknown Course" |
| Search.ModuleFallback | src/main/java/com/rexxy/stream/service/SearchService.java:91-98 | a module's course columns are its course's id and title, or null and "Unknown Course" |
| Streaming.NullsLastTotal | src/main/java/com/rexxy/stream/service/StreamingService.java:77-78 | the nulls-last comparator is total and transitive |
| Streaming.ComparatorsTotal | src/main/java/com/rexxy/stream/service/StreamingService.java:77-78 | the module, group and lesson comparators are total preorders, so sorting by them is well defined |
| Streaming.GetCourseHierarchy | src/main/java/com/rexxy/stream/service/StreamingService.java:54-63 | CourseNotFound exactly when the course id has no row; on success the DTO carries that course's id, title, description, category and creation date |
| Streaming.NullDateFails | src/main/java/com/rexxy/stream/service/StreamingService.java:63 | a course with a null createDate cannot be rendered |
| Streaming.ModulesOrdered | src/main/java/com/rexxy/stream/service/StreamingService.java:66-78 | the modules shown are exactly the course's modules, each once, sorted by orderIndex with nulls last, equal indices in repository order |
| Streaming.ModuleGroupsExact | src/main/java/com/rexxy/stream/service/StreamingService.java:69-86 | fetching the groups of all the course's modules and grouping them by module id gives each module exactly the groups that reference it |
| Streaming.GroupsOrdered | src/main/java/com/rexxy/stream/service/StreamingService.java:85-91 | a module node lists its groups as a stable sort of them by orderIndex, nulls last |
| Streaming.LessonsOrdered | src/main/java/com/rexxy/stream/service/StreamingService.java:97-109 | a group node lists its lessons as a stable sort by orderIndex, nulls last; a null collection shows none |
| Streaming.AssociationLessons | src/main/java/com/rexxy/stream/service/StreamingService.java:97 | with the JPA association, a group shows exactly the lessons that reference it |
| Streaming.OrderedModulesKept | src/main/java/com/rexxy/stream/service/StreamingService.java:76-78 | modules already in order are shown in repository order |
| Enrollments.Find | src/main/java/com/rexxy/stream/service/EnrollmentService.java:37-38 | findByUser_IdAndCourse_Id: a position holding that (user, course) pair, none exactly when no row holds it |
| Enrollments.FindAt | src/main/java/com/rexxy/stream/model/Enrollment.java:12-14 | under the unique (user_id, course_id) constraint each row is the one found for its pair |
| Enrollments.SetStatus | src/main/java/com/rexxy/stream/service/EnrollmentService.java:86-98 | a status rewrite keeps the table's length |
| Enrollments.EnrollKeepsPairsUnique | src/main/java/com/rexxy/stream/service/EnrollmentService.java:35-49 | enroll keeps the pair constraint, leaves the pair enrolled, and a new row is ACTIVE with that time and one row is added |
| Enrollments.EnrollIdempotent | src/main/java/com/rexxy/stream/service/EnrollmentService.java:35-40 | enrolling a second time changes nothing |
| Enrollments.SetStatusKeeps | src/main/java/com/rexxy/stream/service/EnrollmentService.java:86-99 | rewriting one status keeps the pair constraint, every other row, and what every pair finds |
| Enrollments.EnrollmentService.IsEnrolled | src/main/java/com/rexxy/stream/service/EnrollmentService.java:75-77 | true iff some enrollment of any status holds the pair |
| Enrollments.EnrollmentService.GetActiveEnrollments | src/main/java/com/rexxy/stream/service/EnrollmentService.java:65-70 | the DTOs of exactly the user's ACTIVE enrollments, in table order |
| Enrollments.EnrollmentService.Enroll | src/main/java/com/rexxy/stream/service/EnrollmentService.java:30-50 | CourseNotFound iff the course is missing, table unchanged; otherwise the existing row's DTO unchanged, or a new ACTIVE row with the new id |
| Enrollments.EnrollmentService.CancelEnrollment | src/main/java/com/rexxy/stream/service/EnrollmentService.java:82-88 | EnrollmentNotFound iff the pair has no row; otherwise that row alone becomes CANCELLED |
| Enrollments.EnrollmentService.MarkAsCompleted | src/main/java/com/rexxy/stream/service/EnrollmentService.java:93-101 | EnrollmentNotFound iff the pair has no row; otherwise that row becomes COMPLETED with completedAt now, and the DTO of the updated row is returned |
| Users.RoleName | src/main/java/com/rexxy/stream/model/User.java:55-57 | Enum.name() of a role: "ADMIN" exactly for ADMIN |
| Users.ProviderName | src/main/java/com/rexxy/stream/model/User.java:51-53 | Enum.name() of a provider: "LOCAL" exactly for LOCAL and "GOOGLE" exactly for GOOGLE |
| Users.FindByEmail | src/main/java/com/rexxy/stream/model/User.java:22-23 | a position whose email matches, none exactly when no row has that email |
| Progress.Find | src/main/java/com/rexxy/stream/service/ProgressService.java:36 | findByUserIdAndLessonId: a position holding that (user, lesson) key, none exactly when no row holds it |
| Progress.RecordAt | src/main/java/com/rexxy/stream/model/UserProgress.java:12-14 | under the unique (user_id, lesson_id) constraint the row holding a key is the one found |
| Progress.Updated | src/main/java/com/rexxy/stream/service/ProgressService.java:45-58 | each non-null request field overwrites its column and a null one leaves it; completedAt is set to now only when completed is true and it was null; lastWatchedAt becomes now |
| Progress.UpsertUnique | src/main/java/com/rexxy/stream/service/ProgressService.java:36-60 | an update rewrites the existing row or adds one new row, so the key stays unique |
| Progress.UpsertRecords | src/main/java/com/rexxy/stream/service/ProgressService.java:36-60 | after an update the request's key holds the updated row and every other key holds what it held |
| Progress.CompletedAtSticky | src/main/java/com/rexxy/stream/service/ProgressService.java:53-55 | once a row has a completion time no later update overwrites or clears it |
| Progress.ActivityDay | src/main/java/com/rexxy/stream/service/ProgressService.java:117-125 | a day is a key of the study activity iff some counted row was completed that day, with that many rows |
| Progress.DayBagSize | src/main/java/com/rexxy/stream/service/ProgressService.java:118-121 | the days counted are one per completed row with a completion time |
| Progress.ActivitySum | src/main/java/com/rexxy/stream/service/ProgressService.java:117-125 | the activity map is the counting function of the completion days, and its counts add up to the number of counted rows |
| Progress.ActivityCounts | src/main/java/com/rexxy/stream/service/ProgressService.java:120-124 | a day's count is the number of the user's completed rows with that completion day; days without any are absent |
| Progress.CompleteOnlyKeepsSeconds | src/main/java/com/rexxy/stream/service/ProgressService.java:130-134 | marking complete leaves watched and total seconds unchanged and sets completed |
| Progress.UpsertValid | src/main/java/com/rexxy/stream/service/ProgressService.java:31-61 | an update of an existing lesson keeps the unique key and the lesson foreign key |
| Progress.ApplyRequest | src/main/java/com/rexxy/stream/service/ProgressService.java:44-58 | the step-by-step field updates equal the update specification Updated |
| Progress.ProgressService.GetProgressForLesson | src/main/java/com/rexxy/stream/service/ProgressService.java:67-85 | a saved row gives exactly that row's DTO with its lesson's title; with no row, LessonNotFound iff the lesson is missing, else an empty progress with 0 seconds, completed false and every other field null |
| Progress.ProgressService.GetStudyActivity | src/main/java/com/rexxy/stream/service/ProgressService.java:117-125 | every day maps to its positive number of completions; absent days have none |
| Progress.ProgressService.UpdateProgress | src/main/java/com/rexxy/stream/service/ProgressService.java:31-62 | LessonNotFound iff the lesson is missing, table unchanged; otherwise the table is the upsert and the DTO is of the updated row |
| Progress.ProgressService.MarkAsComplete | src/main/java/com/rexxy/stream/service/ProgressService.java:130-135 | updateProgress with completed = true only: the returned progress is completed with a completion time |
| Admin.IsAdminCases | src/main/java/com/rexxy/stream/controller/AdminController.java:205-209 | no caller or null roles is not an admin; otherwise admin iff the roles hold ADMIN |
| Admin.GrantAdmin | src/main/java/com/rexxy/stream/controller/AdminController.java:106-111 | the stored roles hold ADMIN and every role held before; a null set becomes {USER, ADMIN} |
| Admin.RevokeAdmin | src/main/java/com/rexxy/stream/controller/AdminController.java:135-138 | the stored roles lack ADMIN and keep every other role |
| Admin.GrantIdempotent | src/main/java/com/rexxy/stream/controller/AdminController.java:106-112 | making an admin twice is making them admin once |
| Admin.GrantAdminNoop | src/main/java/com/rexxy/stream/controller/AdminController.java:110 | granting to a set already holding ADMIN changes nothing |
| Admin.GrantRevoke | src/main/java/com/rexxy/stream/controller/AdminController.java:106-138 | grant then revoke restores the non-admin roles; revoke then grant equals grant |
| Admin.RolesDecideAdmin | src/main/java/com/rexxy/stream/controller/AdminController.java:92-143 | the user makeAdmin saves passes isAdmin; the one removeAdmin saves does not |
| Admin.PatchCourse | src/main/java/com/rexxy/stream/controller/AdminController.java:154-160 | each non-null request field overwrites its column, null leaves it, the creation date is untouched |
| Admin.PatchModule | src/main/java/com/rexxy/stream/controller/AdminController.java:174-178 | title and orderIndex overwritten when non-null; course and duration untouched |
| Admin.PatchLesson | src/main/java/com/rexxy/stream/controller/AdminController.java:192-200 | title, description, orderIndex overwritten when non-null, videoKey written to resourcePath; duration, storage type and group untouched |
| Admin.PatchesIdempotent | src/main/java/com/rexxy/stream/controller/AdminController.java:154-200 | an empty request changes nothing and a request applied twice is applied once |
| Admin.AdminController.GetStats | src/main/java/com/rexxy/stream/controller/AdminController.java:46-64 | Forbidden iff the caller is not an admin; otherwise the five table counts |
| Admin.AdminController.GetAllUsers | src/main/java/com/rexxy/stream/controller/AdminController.java:69-87 | Forbidden iff the caller is not an admin; otherwise one DTO per user, in order, each the ToUserView of that user |
| Admin.ToUserView | src/main/java/com/rexxy/stream/controller/AdminController.java:76-83 | the DTO carries the user's id, email, name, picture, roles and creation time, and the provider's name ("LOCAL", "GOOGLE") or null when there is none |
| Admin.AdminController.MakeAdmin | src/main/java/com/rexxy/stream/controller/AdminController.java:92-116 | Forbidden for a non-admin, NotFound for an unknown id, tables unchanged then; otherwise the target's roles become GrantAdmin of them and no other user changes |
| Admin.AdminController.RemoveAdmin | src/main/java/com/rexxy/stream/controller/AdminController.java:121-143 | as MakeAdmin with RevokeAdmin; a target with null roles is left unsaved |
| Admin.AdminController.UpdateCourse | src/main/java/com/rexxy/stream/controller/AdminController.java:148-163 | Forbidden, NotFound, or the course row replaced by its patch and returned; the other tables unchanged |
| Admin.AdminController.UpdateModule | src/main/java/com/rexxy/stream/controller/AdminController.java:168-181 | Forbidden, NotFound, or the module row replaced by its patch and returned |
| Admin.AdminController.UpdateLesson | src/main/java/com/rexxy/stream/controller/AdminController.java:186-203 | Forbidden, NotFound, or the lesson row replaced by its patch and returned |
| Auth.NewUser | src/main/java/com/rexxy/stream/service/AuthService.java:36-42 | a LOCAL account with the request's email and name, the encoded password, roles {USER}, created now, no last login |
| Auth.NewUserNotAdmin | src/main/java/com/rexxy/stream/service/AuthService.java:41 | a registered account is never an administrator |
| Auth.AuthService.Register | src/main/java/com/rexxy/stream/service/AuthService.java:29-55 | EmailAlreadyRegistered iff the email exists, table unchanged; otherwise the new row is appended, its email is found there, and the response carries its token, id, email and name |
| Auth.AuthService.Login | src/main/java/com/rexxy/stream/service/AuthService.java:57-84 | UserNotFound for an unknown email; a null provider fails, a GOOGLE one asks to use Google, a wrong password is InvalidCredentials; success iff LOCAL with a matching password, and then only lastLoginAt of that row changes |
| JwtFilter.BearerToken | src/main/java/com/rexxy/stream/security/JwtAuthFilter.java:39-44 | a token iff the header is present and starts with "Bearer ", and then it is the rest after those seven characters |
| JwtFilter.BearerRoundTrip | src/main/java/com/rexxy/stream/security/JwtAuthFilter.java:39-44 | every token is recovered from "Bearer " + token |
| JwtFilter.Authorities | src/main/java/com/rexxy/stream/security/JwtAuthFilter.java:55-59 | "ROLE_" + the name of each role; ROLE_USER alone when the roles are null |
| JwtFilter.AdminAuthority | src/main/java/com/rexxy/stream/security/JwtAuthFilter.java:55-59 | ROLE_ADMIN is granted exactly to the users the admin endpoints accept |
| JwtFilter.AuthenticationAfter | src/main/java/com/rexxy/stream/security/JwtAuthFilter.java:37-65 | an existing authentication, a missing or non-Bearer header, an invalid token or an unknown user leave the context unchanged; an empty context with a valid token of a known user becomes that user with their authorities |
| JwtFilter.JwtAuthFilter.DoFilterInternal | src/main/java/com/rexxy/stream/security/JwtAuthFilter.java:33-68 | the chain runs exactly once on every path and the context becomes AuthenticationAfter of the old one |
| ContributionGraph.Level | frontend/src/components/ContributionGraph.tsx:34-38 | the shade is between 0 and 4 |
| ContributionGraph.LevelBands | frontend/src/components/ContributionGraph.tsx:34-38 | shade 0 iff no completions, 1 for 1-2, 2 for 3-5, 3 for 6-8, 4 above 8 |
| ContributionGraph.LevelMonotone | frontend/src/components/ContributionGraph.tsx:34-38 | more completions never give a lighter shade |
| ContributionGraph.GetColor | frontend/src/components/ContributionGraph.tsx:48-56 | shades 1-4 get a colour other than the empty one; anything else gets the empty colour |
| ContributionGraph.ColorsDistinct | frontend/src/components/ContributionGraph.tsx:50-53 | the four shades have four different colours |
| ContributionGraph.EmptyDayColor | frontend/src/components/ContributionGraph.tsx:32-56 | a day is drawn in the empty colour iff it has no entry or a zero count |
| ContributionGraph.Grid | frontend/src/components/ContributionGraph.tsx:28-44 | 52 weeks of 7 days |
| ContributionGraph.GridCoversDays | frontend/src/components/ContributionGraph.tsx:28-44 | the grid covers 364 consecutive days from its start, each at exactly one (week, day) square |
| ContributionGraph.GridMissesToday | frontend/src/components/ContributionGraph.tsx:20-44 | as written the first square is 364 days ago and the last is yesterday: every square lies before today |
| ContributionGraph.IntendedGridEndsToday | frontend/src/components/ContributionGraph.tsx:20-44 | starting 363 days back the last square is today and every square lies in the year up to today |
| ContributionGraph.BuildWeeks | frontend/src/components/ContributionGraph.tsx:18-46 | the nested loops build exactly the grid starting 364 days before today |

## Left out

- Progress.ProgressService.GetProgressForLesson: looks the lesson up before the row, while ProgressService.java:84 (convertToDTO at :137-146) reads the title through a found row's lesson. The lesson foreign key (`Valid`) keeps that lesson stored, so the two agree on every valid table; a row whose lesson is missing gives LessonNotFound here.
- String lengths and indices count code points, while Java's `length()`, `charAt` and `substring` count UTF-16 units. The two differ on characters outside the Basic Multilingual Plane: `DriveStream.StreamVideo` rejects the id "😀😀😀😀😀" (5 code points) with 400 while DriveStreamController.java:21 sees length 10 and redirects, and the `length() > 10` tests of `LessonDataFixer` (ID_LENGTH_FLOOR) differ the same way. The model is exact for text inside the Basic Multilingual Plane.
- Google Drive API client and pagination (`getDriveService`, `listVideosInFolder`): network I/O. The listing is a parameter, and its failure is an exception message.
- ffprobe subprocess (`MediaMetadataService.getDuration`) and `Math.round` on its double: the duration is formatted from integer seconds.
- `lessonService.extractDuration`: it is not part of this model; the CSV importers take it as a function from file id to an optional duration.
- File-system access (`Files.exists`, `isReadable`, `size`, listing, `RandomAccessFile`, reading subtitle lines, multipart upload): existence, readability, sizes, directory trees and line sequences are inputs.
- LocalImport.ScanLocalLibrary: a per-course exception caught at LocalImportController.java:174-176 comes only from I/O, so the error list is always empty in the model.
- Password encoding, JWT validation, user-id extraction and token generation: uninterpreted function parameters.
- `LocalDateTime.now()`: timestamps are parameters; only whether a field is set or kept is modelled.
- UUID generation: the new row's id is a parameter (`newId`). The course import identifies entities by position; its corrected form takes the group ids as a function of the group's position.
- WebAuthenticationDetails attached to the authentication token: request details are not modelled.
- Authorities: they are a set, so the list order of `Collectors.toList()` is not modelled.
- Aliasing: the authenticated principal and the `User` an admin endpoint updates are separate values. A store update is not seen through an earlier reference.
- `toLowerCase` is ASCII-only lower-casing: Unicode case mapping and locale rules are not modelled.
- Java regex `$`: it also matches just before a final line terminator. The model reads `$` as the end of input, so the two differ only on a subject that ends in a line terminator.
- Paths: Unix semantics only (separator '/'). The Windows '\' separator is not interpreted; the model keeps only the `"\\" -> "/"` replacement on resource paths.
- Path comparison: `startsWith` on normalised paths compares name elements. The sort of sibling paths compares names character by character, not by the platform collation.
- Exception and console output: `println` diagnostics and the texts of exception messages are not modelled. Each exception is a distinct error case; only the messages the responses carry are kept.
- `getVideoInfo`, `getEnrollments`, `getEnrollmentCount`, `getAllProgressForUser`, `getProgressForCourse`, `getCompletedLessonCount`, `getCurrentUser`, `getUserById`: not modelled; they are repository reads mapped to DTOs with no logic of their own.
- Repository derived-query names: `existsByUser_IdAndCourse_Id` and `existsByUserIdAndCourseId` are read as the same pair lookup.
- Database ordering: `@OrderBy` ties and the order of the returned rows are the table order.
- Search over dangling references: a module, group or course reference to a missing row reads as null, giving the "Unknown ..." fallbacks.
- VideoStreaming.OpenRangeChunk: `rangeStart + 1048575` is computed with 64-bit wrap-around (`Wrap64`); OpenRangeChunkWraps shows the wrap for starts near `Long.MAX_VALUE`. The model keeps the overflow and does not correct it.
- Negative durations: handled by Java `/` and `%` in the model, but only non-negative ones have read-back lemmas.
- ContributionGraph dates: days are integers. `toISOString()` keys, the UTC shift against local `getDate()`, and the API fetch are not modelled.
- CsvImport.ImportFromCsv: the per-line catch at CsvImportController.java:128-130 reports only the lines with fewer than two fields; an exception from `extractDuration` or `lessonRepository.save` on a well-formed line is not modelled.
- CsvImport.ImportLines: only the lesson save at CsvImportController.java:288 can fail. Exceptions from the course, module and group saves, and from the group save at :291 after the lesson was saved, are not modelled.
- CsvImport.ImportLines: `group.getLessons().add(lesson)` writes the inverse side of the `mappedBy` association (LessonGroup.java:33), so the database does not attach a saved lesson to its group. The model's group lesson lists are the in-memory lists.
- CsvImport.ImportCourseFromCsv: a failure to read the file (the catch at CsvImportController.java:307-310, "Error processing CSV: ") is not modelled; the lines are an input.
- Admin.ToUserView: `createdAt` is kept as the timestamp, not as the text of `LocalDateTime.toString()`.
- Caching (`@Cacheable` on the hierarchy) and transactions: a failed Drive import keeps the lessons saved before the failure, as the code does; there is no rollback.
- React rendering, animation, routing, `AuthContext`, `api.ts` and the progress bar's floating-point percentage are not modelled.
- LocalImport: the structural lemmas take the folder and lesson title functions as a parameter (`Titling`); the methods use the scan's own titles (`SCAN_TITLES`).

## Findings

| source | as written | input that shows it | evidently intended | confidence | as-written member | corrected member |
|---|---|---|---|---|---|---|
| src/main/java/com/rexxy/stream/controller/CsvImportController.java:234-263 | module and group caches are keyed by titles joined with "_" | rows with course "A_B", module "C" and course "A", module "B_C" | one module per (course, module) pair | medium, not executed | CsvImport.UnderscoredKeysCollide | CsvImport.StructuredRowsPlacedByTitles |
| frontend/src/components/ContributionGraph.tsx:21-44 | the grid starts 364 days ago and has 52 × 7 = 364 squares, so the last square is yesterday | any day: lessons completed today are never drawn | the last square is today | medium, not executed | ContributionGraph.GridMissesToday | ContributionGraph.IntendedGridEndsToday |
| src/main/java/com/rexxy/stream/controller/CsvImportController.java:276-288 | the course import builds each lesson without setting its group, while Lesson.java:38 declares lesson_group_id NOT NULL | any video row, saved by a database that enforces that column | the lesson is saved with its group set to the group it is added to | medium, not executed | CsvImport.UngroupedLessonsRejected | CsvImport.GroupedLessonsSaved |
