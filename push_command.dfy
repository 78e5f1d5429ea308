/** The push command: zip the app's configuration directory into a temporary
    file, upload it with the version header built from the optional version,
    and in a `finally` delete the temporary file if one was made.

    Zipping and uploading are opaque steps: the outcome of zipping is a
    parameter (a fresh temporary file with the archive bytes, or an exception),
    and the upload is a function from the header map, the app id and the file
    to success or an exception. What the command does, in order, is returned as
    a trace of steps. */
module PushCommand {
  import opened Common
  import opened Files
  import QueryEngine

  datatype ZipOutcome = Zipped(path: Path, archive: seq<byte>) | ZipFailed(error: Exception)

  /** `ConfigureDatasourcesControllerApi(ApiClientFactory.create(headers)).submitAppConfig(appId, file)`. */
  type Uploader = (map<string, string>, string, Path) -> Result<(), Exception>

  datatype Step =
    | Zip(directory: Path)
      // the upload, with the archive the file held when it was sent
    | Upload(headers: map<string, string>, appId: string, file: Path, archive: seq<byte>)
    | Delete(file: Path)

  const OkMessage: string := "@|fg(green) OK|@"

  /** The extra headers of the API client: the version pin exactly when a version is given. */
  function Headers(version: Option<string>): (h: map<string, string>)
    ensures QueryEngine.VersionHeader in h <==> version.Some?
    ensures h.Keys <= {QueryEngine.VersionHeader}
    ensures version.Some? ==> h[QueryEngine.VersionHeader] == version.value
  {
    if version.Some? then map[QueryEngine.VersionHeader := version.value] else map[]
  }

  /** The push command and the query-engine client's own upload pin a version
      the same way: the same header map for the same optional version. */
  lemma HeadersAgreeWithClientUpload(s: QueryEngine.Session, appId: string, p: Path, version: Option<string>)
    ensures QueryEngine.RequestFor(s, appId, QueryEngine.Upload(p, version)).headers == Headers(version)
  {
  }

  /** `push(version)`. When zipping fails, nothing was created, nothing is
      uploaded or deleted, and the zipping exception propagates. Otherwise the
      archive just made is uploaded under `Headers(version)`, then deleted: if
      the delete succeeds, the filesystem is as before and the upload's outcome
      is the result; if it fails, its `IOException` replaces that outcome and
      the file stays. */
  method Push(version: Option<string>, appId: string, appIdDir: Path, zip: ZipOutcome,
              upload: Uploader, fs: FileSystem)
    returns (r: Result<(), Exception>, trace: seq<Step>)
    requires zip.Zipped? ==> zip.path !in fs.files
    modifies fs`files
    ensures zip.ZipFailed? ==>
              r == Failure(zip.error) && trace == [Zip(appIdDir)] && fs.files == old(fs.files)
    ensures zip.Zipped? ==>
              var p := zip.path;
              && trace == [Zip(appIdDir), Upload(Headers(version), appId, p, zip.archive), Delete(p)]
              && (p !in fs.faulty ==> r == upload(Headers(version), appId, p) && fs.files == old(fs.files))
              && (p !in fs.faulty ==> p !in fs.files)
              && (p in fs.faulty ==> r == Failure(IOException(p)) && fs.files == old(fs.files)[p := zip.archive])
  {
    var zipFilePath: Option<Path> := None;
    var pending: Result<(), Exception>;
    trace := [Zip(appIdDir)];
    // try
    match zip {
      case ZipFailed(e) =>
        pending := Failure(e);
      case Zipped(p, archive) =>
        fs.files := fs.files[p := archive];
        zipFilePath := Some(p);
        var headers := Headers(version);
        trace := trace + [Upload(headers, appId, p, fs.files[p])];
        pending := upload(headers, appId, p);
    }
    // finally
    if zipFilePath.Some? {
      trace := trace + [Delete(zipFilePath.value)];
      var deleted := fs.Delete(zipFilePath.value);
      if deleted.Failure? {
        r := deleted;
      } else {
        r := pending;
      }
    } else {
      r := pending;
    }
    assert zip.Zipped? ==> old(fs.files)[zip.path := zip.archive] - {zip.path} == old(fs.files);
  }

  /** `push()`: a push without a version, so no version header is sent. */
  method PushWithoutVersion(appId: string, appIdDir: Path, zip: ZipOutcome, upload: Uploader, fs: FileSystem)
    returns (r: Result<(), Exception>, trace: seq<Step>)
    requires zip.Zipped? ==> zip.path !in fs.files
    modifies fs`files
    ensures zip.ZipFailed? ==>
              r == Failure(zip.error) && trace == [Zip(appIdDir)] && fs.files == old(fs.files)
    ensures zip.Zipped? ==>
              var p := zip.path;
              && trace == [Zip(appIdDir), Upload(map[], appId, p, zip.archive), Delete(p)]
              && (p !in fs.faulty ==> r == upload(map[], appId, p) && fs.files == old(fs.files))
              && (p in fs.faulty ==> r == Failure(IOException(p)) && fs.files == old(fs.files)[p := zip.archive])
  {
    r, trace := Push(None, appId, appIdDir, zip, upload, fs);
  }

  /** How `run` reports what `push()` threw: the checked `IOException` and
      `ApiException` are wrapped in a `RuntimeException`, anything else passes. */
  function RunFailure(e: Exception): (thrown: Exception)
    ensures e.IOException? || e.ApiException? ==> thrown == WrappedRuntimeException(e)
    ensures !(e.IOException? || e.ApiException?) ==> thrown == e
  {
    if e.IOException? || e.ApiException? then WrappedRuntimeException(e) else e
  }

  /** `run()`: `push()`, then "OK" only if it returned normally. */
  method Run(appId: string, appIdDir: Path, zip: ZipOutcome, upload: Uploader, fs: FileSystem)
    returns (r: Result<(), Exception>, stdout: seq<string>)
    requires zip.Zipped? ==> zip.path !in fs.files
    modifies fs`files
    ensures zip.ZipFailed? ==> r == Failure(RunFailure(zip.error)) && stdout == [] && fs.files == old(fs.files)
    ensures zip.Zipped? && zip.path !in fs.faulty ==>
              fs.files == old(fs.files)
              && match upload(map[], appId, zip.path)
                 case Success(_) => r == Success(()) && stdout == [OkMessage]
                 case Failure(e) => r == Failure(RunFailure(e)) && stdout == []
    ensures zip.Zipped? && zip.path in fs.faulty ==>
              r == Failure(WrappedRuntimeException(IOException(zip.path))) && stdout == []
              && fs.files == old(fs.files)[zip.path := zip.archive]
  {
    var pushed, _ := PushWithoutVersion(appId, appIdDir, zip, upload, fs);
    match pushed {
      case Success(_) =>
        r, stdout := Success(()), [OkMessage];
      case Failure(e) =>
        r, stdout := Failure(RunFailure(e)), [];
    }
  }
}
