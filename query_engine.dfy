/** The query-engine client: how each of its eight operations shapes its HTTP
    request (method, path under the API root, bearer token, version header,
    content negotiation, body), how every failure of the HTTP call is turned
    into a `QueryEngineException` carrying the same message, and, for the two
    downloads, that the target file is written only after a successful fetch.

    The HTTP client itself is a parameter: for each operation, a function from
    the request to either the decoded response or the failure's message. */
module QueryEngine {
  import opened Common
  import opened LocalDates
  import opened Files

  /** The settings the client reads from the global configuration. */
  datatype Session = Session(apiUri: string, apiToken: string)

  datatype HttpMethod = GET | POST

  datatype MediaType = ApplicationJson | ApplicationOctetStream | MultipartFormData

  /** A column as the service describes it. */
  datatype ColumnDto = ColumnDto(id: string, dataType: string)

  /** The other transfer objects are kept opaque: only their JSON text matters here. */
  datatype Dto = Dto(json: string)
  type DatasourceDto = Dto
  type ChartRequestDto = Dto
  type ChartDataDto = Dto
  type DatabaseDto = Dto

  datatype Body =
    | NoBody
    | JsonBody(payload: Dto)
      // one multipart part: field name, file name, part type and the file sent
    | MultipartBody(partName: string, fileName: string, partType: MediaType, file: Path)

  /** An HTTP request: `path` holds the arguments of the successive
      `UriBuilder.path` calls below `baseUri`, and `bearer` the token of
      `bearerAuth`. */
  datatype Request = Request(
    httpMethod: HttpMethod,
    baseUri: string,
    path: seq<string>,
    bearer: string,
    headers: map<string, string>,
    contentType: Option<MediaType>,
    accept: Option<MediaType>,
    body: Body)

  /** A call to the HTTP client: the decoded response, or the message of what it threw. */
  type Transport<T> = Request -> Result<T, string>

  const VersionHeader: string := "AppConfigVersion"
  const ApiRoot: string := "api/v1"

  /* ---------------- What every request satisfies ---------------- */

  /** Addressed to the app under the configured API URI, with the configured token. */
  predicate Addressed(r: Request, s: Session, appId: string) {
    r.baseUri == s.apiUri && |r.path| >= 2 && r.path[0] == ApiRoot && r.path[1] == appId
    && r.bearer == s.apiToken
  }

  /** The only extra header is the version pin, present exactly when a version is given. */
  predicate PinnedTo(r: Request, version: Option<string>) {
    && r.headers.Keys <= {VersionHeader}
    && (VersionHeader in r.headers <==> version.Some?)
    && (version.Some? ==> r.headers[VersionHeader] == version.value)
  }

  /* ---------------- The eight operations and their requests ---------------- */

  datatype Operation =
    | Columns(table: string)
    | DailyDatasources(version: Option<string>)
    | Chart(chart: ChartRequestDto, version: Option<string>)
    | DbAuth(database: DatabaseDto)
    | CurrentConfig
    | ConfigByVersion(configVersion: string)
    | Upload(configPath: Path, version: Option<string>)
    | Backfill(date: LocalDate, version: Option<string>)

  /** A `LocalDate` argument is a real date. */
  predicate WellFormed(op: Operation) {
    op.Backfill? ==> Valid(op.date)
  }

  /** What distinguishes one operation's request from another's: the method,
      the path below `api/v1/{appId}`, the content type, the accepted type and
      the body. */
  datatype Shape = Shape(verb: HttpMethod, tail: seq<string>, contentType: Option<MediaType>,
                         accept: Option<MediaType>, body: Body)

  /** `File.getName`: the last component of the path, all the text after its last `/`. */
  function FileName(p: Path): (name: string)
    ensures '/' !in name
    ensures |name| <= |p| && name == p[|p| - |name|..]
    ensures |name| < |p| ==> p[|p| - |name| - 1] == '/'
  {
    if p == [] || p[|p| - 1] == '/' then [] else FileName(p[..|p| - 1]) + [p[|p| - 1]]
  }

  function ShapeOf(op: Operation): Shape
    requires WellFormed(op)
  {
    match op
    case Columns(table) =>
      Shape(GET, ["datasources", table, "columns"], None, None, NoBody)
    case DailyDatasources(_) =>
      Shape(GET, ["datasources/daily"], None, None, NoBody)
    case Chart(chart, _) =>
      Shape(POST, ["charts/submit"], Some(ApplicationJson), None, JsonBody(chart))
    case DbAuth(database) =>
      Shape(POST, ["datasources-configure", "db-auth"], Some(ApplicationJson), None, JsonBody(database))
    case CurrentConfig =>
      Shape(GET, ["datasources/current-config"], None, Some(ApplicationOctetStream), NoBody)
    case ConfigByVersion(v) =>
      Shape(GET, ["datasources/config", v], None, Some(ApplicationOctetStream), NoBody)
    case Upload(p, _) =>
      Shape(POST, ["datasources-configure/config"], Some(MultipartFormData), None,
            MultipartBody("appConfig", FileName(p), MultipartFormData, p))
    case Backfill(date, _) =>
      // `HttpRequest.POST(uri, null)`: no body, yet a JSON content type
      Shape(POST, ["datasources/backfill-userwide", IsoText(date)], Some(ApplicationJson), None, NoBody)
  }

  /** The version an operation pins with a header: four operations honour one. */
  function VersionPin(op: Operation): Option<string> {
    match op
    case DailyDatasources(v) => v
    case Chart(_, v) => v
    case Upload(_, v) => v
    case Backfill(_, v) => v
    case _ => None
  }

  /** `version.ifPresent(v -> request.header("AppConfigVersion", v))`. */
  function WithVersion(r: Request, version: Option<string>): Request {
    match version
    case Some(v) => r.(headers := r.headers[VersionHeader := v])
    case None => r
  }

  /** The request an operation sends: `UriBuilder.of(apiUri).path("api/v1").path(appId)`
      and the operation's own segments, `bearerAuth(apiToken)`, then the
      version header where the operation honours one. */
  function RequestFor(s: Session, appId: string, op: Operation): (r: Request)
    requires WellFormed(op)
    ensures Addressed(r, s, appId)
    ensures PinnedTo(r, VersionPin(op))
    ensures r.path[2..] == ShapeOf(op).tail
    ensures r.httpMethod == ShapeOf(op).verb && r.body == ShapeOf(op).body
    ensures r.contentType == ShapeOf(op).contentType && r.accept == ShapeOf(op).accept
  {
    var shape := ShapeOf(op);
    var path := [ApiRoot, appId] + shape.tail;
    assert path[2..] == shape.tail;
    WithVersion(Request(shape.verb, s.apiUri, path, s.apiToken, map[], shape.contentType, shape.accept, shape.body),
                VersionPin(op))
  }

  /** Exactly the four version-sensitive operations send the header, and only when given a version. */
  lemma VersionHeaderExactlyOnFour(s: Session, appId: string, op: Operation)
    requires WellFormed(op)
    ensures VersionHeader in RequestFor(s, appId, op).headers
        <==> (op.DailyDatasources? || op.Chart? || op.Upload? || op.Backfill?) && op.version.Some?
  {
  }

  /** The path text this model uses for a request: its segments, each after a `/`. */
  function PathText(segments: seq<string>): string {
    if segments == [] then "" else PathText(segments[..|segments| - 1]) + "/" + segments[|segments| - 1]
  }

  lemma {:induction false} PathTextConcat(a: seq<string>, b: seq<string>)
    ensures PathText(a + b) == PathText(a) + PathText(b)
  {
    if b != [] {
      var last := b[|b| - 1];
      assert (a + b)[..|a + b| - 1] == a + b[..|b| - 1];
      PathTextConcat(a, b[..|b| - 1]);
    } else {
      assert a + b == a;
    }
  }

  lemma PathTextOfTwo(x: string, y: string)
    ensures PathText([x, y]) == "/" + x + "/" + y
  {
    assert [x, y][..1] == [x];
    assert [x][..0] == [];
    assert PathText([x]) == "/" + x;
  }

  lemma PathTextOfThree(x: string, y: string, z: string)
    ensures PathText([x, y, z]) == "/" + x + "/" + y + "/" + z
  {
    assert [x, y, z][..2] == [x, y];
    PathTextOfTwo(x, y);
  }

  /** Every request's path text starts with `/api/v1/{appId}` and continues with its own segments. */
  lemma PathTextOfRequest(s: Session, appId: string, op: Operation)
    requires WellFormed(op)
    ensures PathText(RequestFor(s, appId, op).path) == "/api/v1/" + appId + PathText(ShapeOf(op).tail)
  {
    var path := RequestFor(s, appId, op).path;
    assert path == [ApiRoot, appId] + ShapeOf(op).tail;
    PathTextConcat([ApiRoot, appId], ShapeOf(op).tail);
    PathTextOfTwo(ApiRoot, appId);
  }

  /** `GET api/v1/{appId}/datasources/{table}/columns`. */
  lemma ColumnsPath(s: Session, appId: string, table: string)
    ensures PathText(RequestFor(s, appId, Columns(table)).path)
         == "/api/v1/" + appId + "/datasources/" + table + "/columns"
  {
    PathTextOfRequest(s, appId, Columns(table));
    PathTextOfThree("datasources", table, "columns");
  }

  /** A request whose own segments are two: `/api/v1/{appId}/{a}/{b}`. */
  lemma TwoSegmentPath(s: Session, appId: string, op: Operation, a: string, b: string)
    requires WellFormed(op) && ShapeOf(op).tail == [a, b]
    ensures PathText(RequestFor(s, appId, op).path) == "/api/v1/" + appId + "/" + a + "/" + b
  {
    PathTextOfRequest(s, appId, op);
    PathTextOfTwo(a, b);
  }

  /** `GET api/v1/{appId}/datasources/config/{version}`. */
  lemma ConfigByVersionPath(s: Session, appId: string, version: string)
    ensures PathText(RequestFor(s, appId, ConfigByVersion(version)).path)
         == "/api/v1/" + appId + "/" + "datasources/config" + "/" + version
  {
    TwoSegmentPath(s, appId, ConfigByVersion(version), "datasources/config", version);
  }

  /** `POST api/v1/{appId}/datasources/backfill-userwide/{date}`, the date as `LocalDate.toString`. */
  lemma BackfillPath(s: Session, appId: string, date: LocalDate, version: Option<string>)
    requires Valid(date)
    ensures PathText(RequestFor(s, appId, Backfill(date, version)).path)
         == "/api/v1/" + appId + "/" + "datasources/backfill-userwide" + "/" + IsoText(date)
  {
    TwoSegmentPath(s, appId, Backfill(date, version), "datasources/backfill-userwide", IsoText(date));
  }

  /** The backfill date can be read back from the request's last path segment. */
  lemma BackfillDateInPath(s: Session, appId: string, date: LocalDate, version: Option<string>)
    requires Valid(date) && 0 <= date.year <= 9999
    ensures var r := RequestFor(s, appId, Backfill(date, version));
            |r.path| == 4 && ParseIso(r.path[3]) == Some(date)
  {
    IsoRoundTrip(date);
  }

  /* ---------------- Calls and their failures ---------------- */

  /** `catch (Exception e) { throw new QueryEngineException(e.getMessage()); }`:
      the result passes through, every failure becomes the one exception kind
      with the same message. */
  predicate Normalised<T(==)>(outcome: Result<T, string>, r: Result<T, Exception>) {
    && (outcome.Success? ==> r == Success(outcome.value))
    && (outcome.Failure? ==> r == Failure(QueryEngineException(outcome.error)))
  }

  function Normalise<T(==)>(outcome: Result<T, string>): (r: Result<T, Exception>)
    ensures Normalised(outcome, r)
    ensures r.Failure? ==> r.error.QueryEngineException?
  {
    match outcome
    case Success(v) => Success(v)
    case Failure(m) => Failure(QueryEngineException(m))
  }

  function GetColumns(s: Session, appId: string, table: string, http: Transport<seq<ColumnDto>>)
    : (r: Result<seq<ColumnDto>, Exception>)
    ensures Normalised(http(RequestFor(s, appId, Columns(table))), r)
  {
    Normalise(http(RequestFor(s, appId, Columns(table))))
  }

  function GetDailyDatasources(s: Session, appId: string, version: Option<string>,
                               http: Transport<map<string, DatasourceDto>>)
    : (r: Result<map<string, DatasourceDto>, Exception>)
    ensures Normalised(http(RequestFor(s, appId, DailyDatasources(version))), r)
  {
    Normalise(http(RequestFor(s, appId, DailyDatasources(version))))
  }

  function SubmitChart(s: Session, appId: string, chart: ChartRequestDto, version: Option<string>,
                       http: Transport<ChartDataDto>)
    : (r: Result<ChartDataDto, Exception>)
    ensures Normalised(http(RequestFor(s, appId, Chart(chart, version))), r)
  {
    Normalise(http(RequestFor(s, appId, Chart(chart, version))))
  }

  /** The response text is read and discarded. */
  function SubmitDbAuth(s: Session, appId: string, database: DatabaseDto, http: Transport<string>)
    : (r: Result<(), Exception>)
    ensures var outcome := http(RequestFor(s, appId, DbAuth(database)));
            (r.Success? <==> outcome.Success?)
            && (outcome.Failure? ==> r.error == QueryEngineException(outcome.error))
  {
    match http(RequestFor(s, appId, DbAuth(database)))
    case Success(_) => Success(())
    case Failure(m) => Failure(QueryEngineException(m))
  }

  /** A call that also prints: what was printed to standard output, in order. */
  datatype Reported = Reported(result: Result<(), Exception>, stdout: seq<string>)

  const UploadedMessage: string := "Config uploaded successfully"

  /** `exchange` then, only once it returned, the success message. */
  function UploadConfig(s: Session, appId: string, configPath: Path, version: Option<string>,
                        http: Transport<()>)
    : (r: Reported)
    ensures Normalised(http(RequestFor(s, appId, Upload(configPath, version))), r.result)
    ensures r.stdout == if r.result.Success? then [UploadedMessage] else []
  {
    match http(RequestFor(s, appId, Upload(configPath, version)))
    case Success(u) => Reported(Success(u), [UploadedMessage])
    case Failure(m) => Reported(Failure(QueryEngineException(m)), [])
  }

  function BackfillUserWide(s: Session, appId: string, date: LocalDate, version: Option<string>,
                            http: Transport<()>)
    : (r: Result<(), Exception>)
    requires Valid(date)
    ensures Normalised(http(RequestFor(s, appId, Backfill(date, version))), r)
  {
    Normalise(http(RequestFor(s, appId, Backfill(date, version))))
  }

  /* ---------------- Downloads: fetch, then write ---------------- */

  /** Fetch the bytes; only if that succeeded, write them to `configPath`. A
      failed write is rethrown wrapped in a `RuntimeException`. */
  method FetchThenWrite(request: Request, configPath: Path, http: Transport<seq<byte>>, fs: FileSystem)
    returns (r: Result<(), Exception>)
    modifies fs`files
    ensures http(request).Failure? ==>
              r == Failure(QueryEngineException(http(request).error)) && fs.files == old(fs.files)
    ensures http(request).Success? && configPath in fs.faulty ==>
              r == Failure(WrappedRuntimeException(IOException(configPath))) && fs.files == old(fs.files)
    ensures http(request).Success? && configPath !in fs.faulty ==>
              r == Success(()) && fs.files == old(fs.files)[configPath := http(request).value]
  {
    var fetched := http(request);
    if fetched.Failure? {
      return Failure(QueryEngineException(fetched.error));
    }
    var response := fetched.value;
    var written := fs.Write(configPath, response);
    if written.Failure? {
      r := Failure(WrappedRuntimeException(written.error));
    } else {
      r := Success(());
    }
  }

  method DownloadCurrentConfig(s: Session, appId: string, configPath: Path,
                               http: Transport<seq<byte>>, fs: FileSystem)
    returns (r: Result<(), Exception>)
    modifies fs`files
    ensures var fetched := http(RequestFor(s, appId, CurrentConfig));
            && (fetched.Failure? ==> r == Failure(QueryEngineException(fetched.error)) && fs.files == old(fs.files))
            && (fetched.Success? && configPath in fs.faulty ==>
                  r == Failure(WrappedRuntimeException(IOException(configPath))) && fs.files == old(fs.files))
            && (fetched.Success? && configPath !in fs.faulty ==>
                  r == Success(()) && fs.files == old(fs.files)[configPath := fetched.value])
  {
    r := FetchThenWrite(RequestFor(s, appId, CurrentConfig), configPath, http, fs);
  }

  method DownloadConfigByVersion(s: Session, appId: string, version: string, configPath: Path,
                                 http: Transport<seq<byte>>, fs: FileSystem)
    returns (r: Result<(), Exception>)
    modifies fs`files
    ensures var fetched := http(RequestFor(s, appId, ConfigByVersion(version)));
            && (fetched.Failure? ==> r == Failure(QueryEngineException(fetched.error)) && fs.files == old(fs.files))
            && (fetched.Success? && configPath in fs.faulty ==>
                  r == Failure(WrappedRuntimeException(IOException(configPath))) && fs.files == old(fs.files))
            && (fetched.Success? && configPath !in fs.faulty ==>
                  r == Success(()) && fs.files == old(fs.files)[configPath := fetched.value])
  {
    r := FetchThenWrite(RequestFor(s, appId, ConfigByVersion(version)), configPath, http, fs);
  }
}
