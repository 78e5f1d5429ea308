# Semantic-layer CLI: a verified model of its core decisions

This project models, in Dafny, three parts of the command-line client of a
remote query engine. Each part's behaviour is fixed by the client's own code.

- **Datasource generator helper.** This covers the name it recommends for a
  table, which is the last `.`-separated piece as Java's `String.split`
  yields it. It also covers where a required input comes from: the
  command-line option, an error under `--no-wizard`, or an interactive prompt.
- **Query-engine client.** This covers how each of its eight operations builds
  its HTTP request: method, path under `api/v1/{appId}`, bearer token, the
  `AppConfigVersion` header, content negotiation and body. It also covers how
  every failure of the HTTP call becomes a `QueryEngineException` with the same
  message, and how the two downloads write the target file only after a
  successful fetch.
- **Push command.** This covers zip, then upload with the version header map,
  then a `finally` that deletes the temporary zip. Results are given for every
  exit path.

Files:

- `common.dfy`: `Option`, `Result`, bytes, paths, and the Java exception kinds involved.
- `files.dfy`: an abstract filesystem class. Its files are a map from path to
  bytes. A `faulty` set holds the paths on which a write or delete throws
  `IOException`.
- `local_dates.dfy`: `LocalDate.toString`, which is how the backfill date
  enters the URL. It comes with a parser and the round trip.
- `ds_generator.dfy`: `recommendedDatasourceName` and `readInput`.
- `query_engine.dfy`: the eight client operations.
- `push_command.dfy`: `push(version)`, `push()` and `run()`.

Collaborators the code calls but that are not part of this model are
parameters:

- The HTTP client is, per operation, a function from the request to the
  decoded response or the thrown message.
- The prompt is a function from the prompt text and default to the user's
  answer.
- Zipping is an outcome parameter: a fresh temporary file with its bytes, or
  an exception.
- The generated upload API is a function from header map, app id and file to
  success or an exception.
- The global configuration is passed in as an immutable `Session`: the API URI
  and the token.
- What is printed is returned as a list of console events or output lines.

Behaviour worth noting:

- In `push`, a `Files.delete` that throws in the `finally` replaces a pending
  upload exception (PushCommand.java:28-31), and `PushCommand.Push` states
  exactly that.
- `run()` wraps `IOException` and `ApiException` in a `RuntimeException`
  (PushCommand.java:44-46).
- A failed local write in a download also becomes a `RuntimeException`
  (QueryEngineClient.java:141-142), not a `QueryEngineException`.
- The downloads write the fetched bytes to a file and unpack nothing.

## Model

| member | source | states |
|---|---|---|
| DsGenerator.RecommendedDatasourceName | cli/src/main/java/com/asemicanalytics/cli/semanticlayer/internal/dsgenerator/DsGeneratorHelper.java:22-24 | A name without `.` comes back unchanged, the empty name included. Any returned name contains no `.`. It throws `NoSuchElementException` exactly when the name is non-empty and made only of dots. |
| DsGenerator.RecommendedNameIsLastSegment | cli/src/main/java/com/asemicanalytics/cli/semanticlayer/internal/dsgenerator/DsGeneratorHelper.java:23 | Split-then-`getLast` equals an independent description: for `""` the result is `""`; when only dots remain after trimming trailing dots, the call fails; otherwise the result is the text after the last dot of the trimmed name. |
| DsGenerator.RecommendedNameAfterLastDot | cli/src/main/java/com/asemicanalytics/cli/semanticlayer/internal/dsgenerator/DsGeneratorHelper.java:23 | For a non-empty name that does not end in `.`, the recommended name is the text after its last dot (all of it when there is none). |
| DsGenerator.AfterLastDotIsProper | cli/src/main/java/com/asemicanalytics/cli/semanticlayer/internal/dsgenerator/DsGeneratorHelper.java:23 | In a name with a dot, that text is a proper suffix of the name and is immediately preceded by a `.`, so a qualified name never yields itself. |
| DsGenerator.TrailingDotIgnored | cli/src/main/java/com/asemicanalytics/cli/semanticlayer/internal/dsgenerator/DsGeneratorHelper.java:23 | If a name has some character other than a dot, adding a trailing `.` does not change the recommended name, because `split` drops trailing empty pieces. |
| DsGenerator.JavaSplitFacts | cli/src/main/java/com/asemicanalytics/cli/semanticlayer/internal/dsgenerator/DsGeneratorHelper.java:23 | `split("\\.")` returns no pieces exactly for a non-empty all-dot name. No piece it returns contains a dot. |
| DsGenerator.JoinSplitAll | cli/src/main/java/com/asemicanalytics/cli/semanticlayer/internal/dsgenerator/DsGeneratorHelper.java:23 | The split that keeps empty pieces (`split("\\.", -1)`, which `split("\\.")` then trims) loses nothing: joining all its pieces with `.` gives back the input. Together with `SplitAllHasNoDots` this pins that split down. |
| DsGenerator.SplitAllHasNoDots | cli/src/main/java/com/asemicanalytics/cli/semanticlayer/internal/dsgenerator/DsGeneratorHelper.java:23 | No piece of the split that keeps empty pieces contains a `.`. |
| DsGenerator.QualifiedNameExample | cli/src/main/java/com/asemicanalytics/cli/semanticlayer/internal/dsgenerator/DsGeneratorHelper.java:23 | `db.schema.orders` is named `orders`. |
| DsGenerator.TrailingDotExample | cli/src/main/java/com/asemicanalytics/cli/semanticlayer/internal/dsgenerator/DsGeneratorHelper.java:23 | `a.b.` is named `b`. |
| DsGenerator.OnlyDotsExample | cli/src/main/java/com/asemicanalytics/cli/semanticlayer/internal/dsgenerator/DsGeneratorHelper.java:23 | `...` fails with `NoSuchElementException`. |
| DsGenerator.ReadInput | cli/src/main/java/com/asemicanalytics/cli/semanticlayer/internal/dsgenerator/DsGeneratorHelper.java:26-37 | A present option is returned verbatim, with nothing printed or prompted, whatever `noWizard` is. With no option and `noWizard` = true, it fails with exactly `Missing required option --<name> (or omit --no-wizard flag)`, again without printing or prompting. Otherwise the header (if any) is printed, then the prompt is shown, and the answer is the result. It fails exactly in the `--no-wizard` case. |
| LocalDates.IsoText | cli/src/main/java/com/asemicanalytics/cli/semanticlayer/internal/QueryEngineClient.java:203 | `LocalDate.toString` uses only digits, `-` and `+`, so the date is a single path segment. For years 0 to 9999 it is 10 characters long. |
| LocalDates.IsoRoundTrip | cli/src/main/java/com/asemicanalytics/cli/semanticlayer/internal/QueryEngineClient.java:203 | For years 0 to 9999, parsing the `YYYY-MM-DD` text that `toString` gives returns the same date. |
| LocalDates.IsoTextInjective | cli/src/main/java/com/asemicanalytics/cli/semanticlayer/internal/QueryEngineClient.java:203 | Two different dates with four-digit years never give the same path segment. |
| QueryEngine.RequestFor | cli/src/main/java/com/asemicanalytics/cli/semanticlayer/internal/QueryEngineClient.java:45-216 | Every request goes to the configured API URI. Its path starts with `api/v1` then `appId`, and it carries the configured bearer token. Its only extra header is `AppConfigVersion`, present exactly when the operation pins a version, with that version verbatim. Method, tail segments, content type, accepted type and body are the operation's own. |
| QueryEngine.VersionHeaderExactlyOnFour | cli/src/main/java/com/asemicanalytics/cli/semanticlayer/internal/QueryEngineClient.java:64-216 | `AppConfigVersion` is sent if and only if the operation is `getDailyDatasources`, `submitChart`, `uploadConfig` or `backfillUserWide`, and a version is given. |
| QueryEngine.PathTextOfRequest | cli/src/main/java/com/asemicanalytics/cli/semanticlayer/internal/QueryEngineClient.java:46-48 | Rendered as text, every request path is `/api/v1/{appId}` followed by the operation's own segments. |
| QueryEngine.ColumnsPath | cli/src/main/java/com/asemicanalytics/cli/semanticlayer/internal/QueryEngineClient.java:45-52 | `getColumns` asks for `/api/v1/{appId}/datasources/{table}/columns`. |
| QueryEngine.ConfigByVersionPath | cli/src/main/java/com/asemicanalytics/cli/semanticlayer/internal/QueryEngineClient.java:146-152 | `downloadConfigByVersion` asks for `/api/v1/{appId}/datasources/config/{version}`. |
| QueryEngine.BackfillPath | cli/src/main/java/com/asemicanalytics/cli/semanticlayer/internal/QueryEngineClient.java:198-204 | `backfillUserWide` posts to `/api/v1/{appId}/datasources/backfill-userwide/{date}`, with the date rendered by `LocalDate.toString`. |
| QueryEngine.BackfillDateInPath | cli/src/main/java/com/asemicanalytics/cli/semanticlayer/internal/QueryEngineClient.java:198-204 | For years 0 to 9999, the backfill request has four segments, and the last one parses back to the date given. |
| QueryEngine.Normalise | cli/src/main/java/com/asemicanalytics/cli/semanticlayer/internal/QueryEngineClient.java:57-61 | A successful response passes through unchanged. Any failure becomes a `QueryEngineException` with the same message, and no other exception kind comes out. |
| QueryEngine.GetColumns | cli/src/main/java/com/asemicanalytics/cli/semanticlayer/internal/QueryEngineClient.java:45-62 | It returns the columns the HTTP call decoded for the columns request. A failure becomes a `QueryEngineException` with the same message. |
| QueryEngine.GetDailyDatasources | cli/src/main/java/com/asemicanalytics/cli/semanticlayer/internal/QueryEngineClient.java:64-80 | It returns the datasource map decoded for the (version-pinned) daily request. Failures are normalised as above. |
| QueryEngine.SubmitChart | cli/src/main/java/com/asemicanalytics/cli/semanticlayer/internal/QueryEngineClient.java:82-100 | It returns the chart data decoded for the (version-pinned) JSON POST of the chart request. Failures are normalised. |
| QueryEngine.SubmitDbAuth | cli/src/main/java/com/asemicanalytics/cli/semanticlayer/internal/QueryEngineClient.java:102-119 | It succeeds exactly when the call succeeds, and the response text is discarded. A failure becomes a `QueryEngineException` with the same message. |
| QueryEngine.UploadConfig | cli/src/main/java/com/asemicanalytics/cli/semanticlayer/internal/QueryEngineClient.java:172-196 | The multipart upload's failure is normalised. `Config uploaded successfully` is printed exactly when the exchange succeeded, and only after it. |
| QueryEngine.BackfillUserWide | cli/src/main/java/com/asemicanalytics/cli/semanticlayer/internal/QueryEngineClient.java:198-216 | The backfill POST's outcome, with failures normalised. |
| QueryEngine.FetchThenWrite | cli/src/main/java/com/asemicanalytics/cli/semanticlayer/internal/QueryEngineClient.java:132-143 | If the fetch fails, the result is a `QueryEngineException` with its message and no file changes. If the fetch succeeds but the write fails, the result is a `RuntimeException` wrapping the `IOException`, and no file changes. Otherwise the target holds exactly the fetched bytes and nothing else changes. |
| QueryEngine.DownloadCurrentConfig | cli/src/main/java/com/asemicanalytics/cli/semanticlayer/internal/QueryEngineClient.java:121-144 | Write-after-fetch as above, for the current-config request. |
| QueryEngine.DownloadConfigByVersion | cli/src/main/java/com/asemicanalytics/cli/semanticlayer/internal/QueryEngineClient.java:146-170 | Write-after-fetch as above, for the config-by-version request. |
| QueryEngine.FileName | cli/src/main/java/com/asemicanalytics/cli/semanticlayer/internal/QueryEngineClient.java:179-182 | The multipart file name is the text after the last `/` of the config path: a `/`-free suffix, preceded by a `/` whenever it is not the whole path. |
| Files.FileSystem.Write | cli/src/main/java/com/asemicanalytics/cli/semanticlayer/internal/QueryEngineClient.java:139-143 | A write either replaces the whole file with the given bytes, or throws an `IOException` and changes nothing. |
| Files.FileSystem.Delete | src/main/java/com/asemicanalytics/cli/semanticlayer/PushCommand.java:30 | A delete either removes an existing file and nothing else, or throws an `IOException` (for a missing file or a refused delete) and changes nothing. |
| PushCommand.Headers | src/main/java/com/asemicanalytics/cli/semanticlayer/PushCommand.java:23-25 | The header map holds `AppConfigVersion` exactly when a version is given, with that value, and holds no other key. |
| PushCommand.HeadersAgreeWithClientUpload | src/main/java/com/asemicanalytics/cli/semanticlayer/PushCommand.java:23-26 | The push command's header map equals the headers the client's own `uploadConfig` request carries for the same version. |
| PushCommand.Push | src/main/java/com/asemicanalytics/cli/semanticlayer/PushCommand.java:18-33 | If zipping fails, its exception propagates, and nothing is uploaded, deleted or changed. Otherwise the steps are zip, then upload of exactly the produced path and archive under `Headers(version)`, then delete of that path. If the delete succeeds, the zip no longer exists, the filesystem is as before, and the result is the upload's outcome. If the delete fails, its `IOException` is the result, replacing the upload's outcome. |
| PushCommand.PushWithoutVersion | src/main/java/com/asemicanalytics/cli/semanticlayer/PushCommand.java:35-37 | `push()` behaves as `push` with no version, so the upload carries an empty header map. |
| PushCommand.RunFailure | src/main/java/com/asemicanalytics/cli/semanticlayer/PushCommand.java:44-46 | `IOException` and `ApiException` are rethrown wrapped in a `RuntimeException`. Any other exception passes unchanged. |
| PushCommand.Run | src/main/java/com/asemicanalytics/cli/semanticlayer/PushCommand.java:40-47 | `OK` is printed, and the call returns normally, only when `push()` returned normally. Otherwise its exception goes through `RunFailure`. When the delete succeeds the filesystem is as before; when the delete is refused, its wrapped `IOException` is thrown and the zip stays in place with its archive. |

## Left out

- `getTableSchema` (DsGeneratorHelper.java:39-49) is not modelled. It calls `getColumns` under a spinner, prints each column with its upper-cased type, and returns the columns unchanged. The spinner, the printing and the locale-dependent `toUpperCase` are terminal concerns.
- The HTTP client itself is a parameter. That covers the 300-second read timeout, JSON and multipart serialisation, response decoding and percent-encoding by `UriBuilder`. The path text of a request is its segments joined by `/`, without encoding.
- The model does not distinguish a `null` message (`getMessage()` of a message-less exception) from a real message. A transport failure always carries a string.
- `ZipUtils.zipDirectory` is not part of this model. Zipping is atomic: it yields a fresh temporary file that did not exist before, or throws having created nothing. A zipper that fails after creating its file is not modelled.
- The generated `ConfigureDatasourcesControllerApi` and `ApiClientFactory` are one upload function of the header map, app id and file.
- `GlobalConfig` is replaced by explicit parameters: the API URI and token in `QueryEngine.Session`, and the app id and app directory as arguments.
- The transfer objects (`ColumnDto` aside, whose two fields appear) are opaque JSON text.
- Terminal input and output are not modelled, except as returned traces: the header and prompt of `readInput`, the upload message, and `run`'s `OK`. The prompt's validator accepts every answer, so the oracle's answer is the result.
- The filesystem is not modelled: no directories, permissions or partial writes. An exception from closing the output stream after a successful write is not modelled separately from a failing write.
- The `QueryEngineClient` constructor only configures the HTTP client and is not modelled.
- LocalDates.IsoRoundTrip: the round trip is proved only for years 0 to 9999, the range of plain `YYYY-MM-DD`. For other years `toString` adds a sign and more digits, which the model renders but does not parse back.
- `IOException` messages are modelled as the bare path. The real message of a failing `new FileOutputStream(...)` is `path (reason)`, and a failing `write` or `delete` carries the operating system's message.
