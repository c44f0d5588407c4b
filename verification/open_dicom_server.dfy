/**
 * The `/open-dicom` endpoint of the small Express server. It receives a JSON
 * body with a `url`, decides whether that names one DICOM file, a remote
 * folder or a local folder, and answers with a redirect into the viewer's
 * `/viewer/open` route or with an error status.
 *
 * The host environment is a parameter: URL parsing (`new URL(…).pathname`),
 * `encodeURIComponent`, `path.join`, `path.basename`, the server's own
 * directory and the file system (`stat` followed by `readdir`).
 */
module OpenDicomServer {
  import opened Options
  import opened JsStrings
  import opened JsArrays

  /** What `stat` and `readdir` report for a path. */
  datatype DirState =
    | Unavailable                     // `stat` or `readdir` throws
    | NotADirectory                   // `stats.isDirectory()` is false
    | Directory(entries: seq<string>) // the entry names, in `readdir` order

  datatype Host = Host(
    pathname: string -> Option<string>,  // `new URL(u).pathname`, None when the constructor throws
    encode: string -> string,            // `encodeURIComponent`
    join: (string, string) -> string,    // `path.join`
    basename: string -> string,          // `path.basename`
    serverRoot: string,                  // `__dirname`
    fs: string -> DirState)

  datatype Response =
    | BadRequest(error: string)
    | Found(location: string)
    | NotFound(error: string, path: string)
  {
    function Status(): int
    {
      match this
      case BadRequest(_) => 400
      case Found(_) => 302
      case NotFound(_, _) => 404
    }
  }

  const MissingUrl := "Missing \"url\" in JSON body"
  const NoFilesFound := "No DICOM files found in directory"
  const RemoteFolder := "REMOTE_FOLDER"

  predicate IsUrl(path: string)
  {
    StartsWith(path, "http://") || StartsWith(path, "https://")
  }

  /** `isUrl` is a test of the scheme prefix alone. */
  lemma IsUrlExactly(path: string)
    ensures IsUrl(path) <==>
      (|path| >= 7 && path[..7] == "http://") || (|path| >= 8 && path[..8] == "https://")
  {
  }

  /** The path part of a URL; anything else, or a URL that does not parse, is kept. */
  function GetActualPath(inputPath: string, pathname: string -> Option<string>): (r: string)
    ensures !IsUrl(inputPath) ==> r == inputPath
    ensures IsUrl(inputPath) && pathname(inputPath).Some? ==> r == pathname(inputPath).value
    ensures IsUrl(inputPath) && pathname(inputPath).None? ==> r == inputPath
  {
    if IsUrl(inputPath) then
      match pathname(inputPath)
      case Some(p) => p
      case None => inputPath
    else inputPath
  }

  /**
   * A URL pathname always starts with `/`, so it is never itself a URL, and
   * extracting the path a second time changes nothing.
   */
  lemma GetActualPathIdempotent(inputPath: string, pathname: string -> Option<string>)
    requires forall u :: pathname(u).Some? ==> StartsWith(pathname(u).value, "/")
    ensures GetActualPath(GetActualPath(inputPath, pathname), pathname) == GetActualPath(inputPath, pathname)
  {
    var p := GetActualPath(inputPath, pathname);
    if IsUrl(inputPath) && pathname(inputPath).Some? {
      assert p[0] == '/';
      assert !StartsWith(p, "http://") && !StartsWith(p, "https://");
    }
  }

  /** The test `/\.(dcm|DCM|dicom)$/`. */
  predicate IsDicomName(name: string)
  {
    EndsWith(name, ".dcm") || EndsWith(name, ".DCM") || EndsWith(name, ".dicom")
  }

  /** `s.lastIndexOf(c)`: -1 when `c` does not occur. */
  function LastIndexOf(s: string, c: char): (k: int)
    ensures -1 <= k < |s|
    ensures k == -1 ==> c !in s
    ensures k >= 0 ==> s[k] == c && c !in s[k + 1..]
  {
    if s == [] then -1
    else if s[|s| - 1] == c then |s| - 1
    else
      var k := LastIndexOf(s[..|s| - 1], c);
      assert k >= 0 ==> s[k + 1..] == s[..|s| - 1][k + 1..] + [s[|s| - 1]];
      k
  }

  /**
   * `path.extname` of a directory entry (entries never contain `/`): from
   * the last `.` to the end, except that a name without a dot, a name whose
   * only dot is its first character, and `..` have no extension.
   */
  function ExtName(name: string): (ext: string)
    ensures ext == [] || (|ext| < |name| && ext == name[|name| - |ext|..] && ext[0] == '.' && '.' !in ext[1..])
  {
    var k := LastIndexOf(name, '.');
    if k <= 0 || name == ".." then "" else name[k..]
  }

  /** An entry has no extension exactly when it has no dot, starts with its only dot, or is `..`. */
  lemma ExtNameEmpty(name: string)
    ensures ExtName(name) == "" <==>
      '.' !in name || (name[0] == '.' && '.' !in name[1..]) || name == ".."
  {
    var k := LastIndexOf(name, '.');
    if k > 0 && name != ".." {
      assert name[k..][0] == '.';
      assert name[k] in name[1..] by { assert name[1..][k - 1] == name[k]; }
    } else if k == 0 {
      assert name[1..] == name[k + 1..];
    }
  }

  /** The listing filter: DICOM file names and names without an extension. */
  predicate KeepEntry(file: string)
  {
    IsDicomName(file) || ExtName(file) == ""
  }

  /** The kept entries, each joined onto the directory path as given. */
  function DicomPaths(dirPath: string, entries: seq<string>, join: (string, string) -> string): (paths: seq<string>)
  {
    Map((file: string) => join(dirPath, file), Filter(entries, KeepEntry))
  }

  /**
   * The listing keeps exactly the entries ending in `.dcm`, `.DCM` or
   * `.dicom` or having no extension, in `readdir` order, and each path is
   * the directory path joined with the entry.
   */
  lemma DicomPathsExactly(dirPath: string, entries: seq<string>, join: (string, string) -> string)
    ensures var kept := Filter(entries, KeepEntry);
      && |DicomPaths(dirPath, entries, join)| == |kept|
      && (forall i :: 0 <= i < |kept| ==> DicomPaths(dirPath, entries, join)[i] == join(dirPath, kept[i]))
      && (forall e :: e in kept <==> e in entries && (IsDicomName(e) || ExtName(e) == ""))
      && multiset(kept) <= multiset(entries)
  {
    FilterKeeps(entries, KeepEntry);
  }

  /** An absolute POSIX path or a relative one is resolved against the server directory; a Windows drive path is kept. */
  function FullPath(dirPath: string, host: Host): string
  {
    if StartsWith(dirPath, "/") then host.join(host.serverRoot, dirPath)
    else if !Contains(dirPath, ":\\") then host.join(host.serverRoot, dirPath)
    else dirPath
  }

  /** The DICOM paths of a local directory; empty when it cannot be read or is not a directory. */
  function LocalDicomFiles(dirPath: string, host: Host): seq<string>
  {
    match host.fs(FullPath(dirPath, host))
    case Directory(entries) => DicomPaths(dirPath, entries, host.join)
    case _ => []
  }

  method GetDicomFilesFromDirectory(dirPath: string, originalUrl: string, host: Host) returns (files: seq<string>)
    ensures originalUrl != "" && IsUrl(originalUrl) ==> files == [RemoteFolder]
    ensures !IsUrl(originalUrl) ==> files == LocalDicomFiles(dirPath, host)
    ensures !IsUrl(originalUrl) && !host.fs(FullPath(dirPath, host)).Directory? ==> files == []
  {
    if originalUrl != "" && IsUrl(originalUrl) {
      return [RemoteFolder];
    }
    var fullPath := dirPath;
    if StartsWith(dirPath, "/") {
      fullPath := host.join(host.serverRoot, dirPath);
    } else if !Contains(dirPath, ":\\") {
      fullPath := host.join(host.serverRoot, dirPath);
    }
    var stats := host.fs(fullPath);
    if !stats.Directory? {
      return [];
    }
    files := Map((file: string) => host.join(dirPath, file), Filter(stats.entries, KeepEntry));
  }

  /** The `studyList` parameter: every path encoded, joined with commas. */
  function StudyList(files: seq<string>, encode: string -> string): string
  {
    Join(Map(encode, files), ',')
  }

  /**
   * `encodeURIComponent` escapes the comma, so splitting the parameter at
   * its commas gives back the encoded paths, one per file, in order.
   */
  lemma StudyListSplits(files: seq<string>, encode: string -> string)
    requires files != []
    requires forall f :: ',' !in encode(f)
    ensures Split(StudyList(files, encode), ',') == Map(encode, files)
  {
    SplitJoin(Map(encode, files), ',');
  }

  /** The entry written into `studyList` for one listed file. */
  function FileUrl(file: string, inputUrl: string, basename: string -> string): string
  {
    if file != RemoteFolder && IsUrl(inputUrl) then
      inputUrl[..LastIndexOf(inputUrl, '/') + 1] + basename(file)
    else file
  }

  /**
   * The request handler. A missing or empty `url` is a 400; a path ending in
   * a DICOM extension goes to the viewer as one `dicomUrl`; any other URL
   * goes as a `dicomFolderUrl` whatever the file system holds; a local
   * folder with no DICOM entries is a 404 carrying the input; otherwise the
   * viewer gets the listed paths as a `studyList`, unchanged and in listing
   * order.
   */
  method OpenDicom(url: Option<string>, host: Host) returns (response: Response)
    ensures !Truthy(url) <==> response == BadRequest(MissingUrl)
    ensures Truthy(url) && IsDicomName(GetActualPath(url.value, host.pathname)) ==>
              response == Found("/viewer/open?dicomUrl=" + host.encode(url.value))
    ensures Truthy(url) && !IsDicomName(GetActualPath(url.value, host.pathname)) && IsUrl(url.value) ==>
              response == Found("/viewer/open?dicomFolderUrl=" + host.encode(url.value))
    ensures Truthy(url) && !IsDicomName(GetActualPath(url.value, host.pathname)) && !IsUrl(url.value) ==>
              var files := LocalDicomFiles(GetActualPath(url.value, host.pathname), host);
              && (files == [] ==> response == NotFound(NoFilesFound, url.value))
              && (files != [] ==> response == Found("/viewer/open?studyList=" + StudyList(files, host.encode)))
  {
    if url.None? || url.value == "" {
      return BadRequest(MissingUrl);
    }
    var inputUrl := url.value;
    var filePath := GetActualPath(inputUrl, host.pathname);
    var isDicomFile := IsDicomName(filePath);
    var isDicomFolder := !isDicomFile;
    if isDicomFolder {
      if IsUrl(inputUrl) {
        return Found("/viewer/open?dicomFolderUrl=" + host.encode(inputUrl));
      }
      var dicomFiles := GetDicomFilesFromDirectory(filePath, inputUrl, host);
      if |dicomFiles| == 0 {
        return NotFound(NoFilesFound, inputUrl);
      }
      var fileUrls := Map((file: string) => FileUrl(file, inputUrl, host.basename), dicomFiles);
      assert fileUrls == dicomFiles;
      var fileList := Join(Map(host.encode, fileUrls), ',');
      return Found("/viewer/open?studyList=" + fileList);
    } else {
      return Found("/viewer/open?dicomUrl=" + host.encode(inputUrl));
    }
  }
}
