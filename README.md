# HttpxClient of AnonXMusic, modelled in Dafny

`AnonXMusic/platforms/_httpx.py` is the HTTP client of the AnonXMusic
Telegram music bot. It has two operations worth modelling:

- `download_file` streams one GET to a file. It checks the status, picks the
  destination (the caller's `file_path`, or a name taken from the
  `Content-Disposition` header, from the URL, or from a random UUID, under
  `DOWNLOADS_DIR`), keeps an existing file unless `overwrite` is set, and
  writes the body chunk by chunk. Its `except` block turns an exception into
  a `DownloadResult` carrying an error text, except a status error: describing
  it raises again, and that exception escapes (see Findings).
- `make_request` makes at most `max_retries` GETs. It retries status errors,
  redirect loops and request errors, sleeping `backoff_factor * 2 ** attempt`
  between attempts, and gives up at once on an invalid JSON body or any
  other exception.

Both operations add the `X-API-Key` header when the URL starts with the
configured API URL.

The project has eight modules, one file each:

| file | module | what it holds |
|---|---|---|
| `wrappers.dfy` | `Wrappers` | `Option` |
| `paths.dfy` | `Paths` | the subset of POSIX `pathlib` the client uses: parsing, `.name`, `/`, `str()` |
| `content_disposition.dfy` | `ContentDisposition` | `re.search(r'filename="?([^"]+)"?', cd)` with its backtracking, and `urllib.parse.unquote` |
| `httpx_model.dfy` | `Httpx` | responses, the httpx exception classes and `isinstance`, the chunking of `aiter_bytes` |
| `messages.dfy` | `Messages` | every format string, `_handle_http_error`, and the `except` chain of one `make_request` attempt |
| `client.dfy` | `Client` | configuration, the class constants, `_get_headers` |
| `download.dfy` | `Download` | `download_file`: a total function `Download` with the status-error handler corrected, the method `DownloadFile` proved equal to it, and the code as written, `DownloadAsWritten` |
| `retry.dfy` | `Retry` | `make_request`: a total function `Request` and the method `MakeRequest` proved equal to it |

The environment is passed in as values, never performed:

- `download_file` gets the stream the server gives (or the exception it raises) and the file system as a map from paths to bytes. It also gets the exception that creating the file raises, if any, and the random name.
- `make_request` gets one outcome per attempt. The sleeps and the log lines it would produce are returned as sequences.

Three behaviours of the code differ from what a reader of the client would expect. The model follows the code, and the lemmas named here state what it does:

- One would expect the API key to go only to the API's origin. The code tests whether `API_URL` is a string prefix of the URL (`Client.PrefixMatchIsNotOriginMatch`).
- One would expect an existing file to be kept whatever the server answers. A download always opens the stream and checks the status before looking at the destination, so an existing file does not save a non-2xx download. As written, such a download does not even return: describing the status error reads the unread streamed body, and the exception this raises escapes `download_file` (see Findings). `Download` models the evidently intended failed result (`Download.StatusCheckedBeforeExistence`).
- One would expect "All retries failed" to be logged after the last failed attempt. It is logged only when `max_retries <= 0`, because the last attempt always returns from inside the loop (`Retry.Request`).

## Model

| member | source | states |
|---|---|---|
| Client.ApiHeaders | AnonXMusic/platforms/_httpx.py:62-66 | the headers are the caller's keys, plus `X-API-Key` exactly when `API_URL` is set and is a prefix of the URL; other values are copied unchanged |
| Client.GetHeaders | AnonXMusic/platforms/_httpx.py:62-66 | copying the caller's map and setting the key on the copy gives `ApiHeaders`; the key is set to `API_KEY` on an API URL, and otherwise the map is the caller's |
| Client.ApiKeyOnlyForApiUrls | AnonXMusic/platforms/_httpx.py:64-65 | the key is present iff the URL is an API URL or the caller sent it; a non-API URL gets the caller's headers unchanged |
| Client.PrefixMatchIsNotOriginMatch | AnonXMusic/platforms/_httpx.py:64 | any URL that extends `API_URL` textually, on another host included, receives the key |
| Client.NoApiUrlNoKey | AnonXMusic/platforms/_httpx.py:64 | with `API_URL` empty the headers are always the caller's |
| Paths.Split | AnonXMusic/platforms/_httpx.py:88 | splitting on `/` gives at least one segment, none containing `/` |
| Paths.SplitThenUnsplit | AnonXMusic/platforms/_httpx.py:88 | joining the split segments with `/` gives the string back |
| Paths.UnsplitThenSplit | AnonXMusic/platforms/_httpx.py:88 | splitting slash-free segments joined with `/` gives the segments back |
| Paths.Components | AnonXMusic/platforms/_httpx.py:88-91 | dropping empty and `.` segments keeps only valid components and never adds any |
| Paths.ParsePath | AnonXMusic/platforms/_httpx.py:88-91 | `Path(s)` is canonical, and absolute iff `s` starts with `/` |
| Paths.Name | AnonXMusic/platforms/_httpx.py:88 | `.name` of a canonical path is non-empty iff the path has a component, and is then a valid component |
| Paths.PathTextRoundTrip | AnonXMusic/platforms/_httpx.py:89-91 | parsing `str(p)` of a canonical path gives `p` back |
| Paths.JoinComponent | AnonXMusic/platforms/_httpx.py:89 | `base / name` for a valid component appends it, and its `.name` is `name` |
| Paths.AbsoluteJoinEscapesBase | AnonXMusic/platforms/_httpx.py:89 | `base / s` for an absolute `s` discards the base |
| Paths.Join | AnonXMusic/platforms/_httpx.py:89 | `base / s` is absolute iff the base or `s` is; for an `s` not starting with `/` it is the base followed by every component of `Path(s)`, `..` included; a canonical base gives a canonical path |
| Paths.PathText | AnonXMusic/platforms/_httpx.py:101 | `str(p)` of a canonical path is non-empty, starts with `/` iff the path is absolute, and starts with the first component after that |
| Paths.ComponentsAppend | AnonXMusic/platforms/_httpx.py:88-89 | dropping empty and `.` segments distributes over concatenation of segment lists |
| Paths.ComponentsSingleton | AnonXMusic/platforms/_httpx.py:88 | a single segment is kept iff it is a component |
| Paths.ParentThenComponent | AnonXMusic/platforms/_httpx.py:89 | `Path("../x")` keeps `..` as a component: it is the relative path `..`, `x` |
| ContentDisposition.QuoteFreeRun | AnonXMusic/platforms/_httpx.py:87 | the greedy `[^"]+` run is a quote-free prefix that stops only at a quote or the end |
| ContentDisposition.MatchAt | AnonXMusic/platforms/_httpx.py:87 | a match at one position captures a non-empty, quote-free group |
| ContentDisposition.SearchFrom | AnonXMusic/platforms/_httpx.py:87 | a search captures a non-empty, quote-free group |
| ContentDisposition.FilenameParameter | AnonXMusic/platforms/_httpx.py:87-88 | `match[1]`, when there is a match, is non-empty and has no quote |
| ContentDisposition.SearchFromIsLeftmost | AnonXMusic/platforms/_httpx.py:87 | the search finds nothing iff no position matches, and otherwise returns the group of the leftmost matching position |
| ContentDisposition.NoKeyNoFilename | AnonXMusic/platforms/_httpx.py:87-88 | a header without the literal `filename=` gives no match |
| ContentDisposition.QuoteFreeRunStopsAtQuote | AnonXMusic/platforms/_httpx.py:87 | the run over `x"rest` with quote-free `x` is exactly `x` |
| ContentDisposition.QuotedFilename | AnonXMusic/platforms/_httpx.py:87 | `filename="name"` captures `name` without the quotes |
| ContentDisposition.UnquotedFilename | AnonXMusic/platforms/_httpx.py:87 | `filename=name` captures the whole quote-free rest |
| ContentDisposition.EmptyQuotedFilename | AnonXMusic/platforms/_httpx.py:87 | `filename=""` does not match at its own position (the group needs a character) |
| ContentDisposition.HexDigit | AnonXMusic/platforms/_httpx.py:88 | each value below 16 has a hex digit that decodes back to it |
| ContentDisposition.Unquote | AnonXMusic/platforms/_httpx.py:88 | decoding never lengthens a string, keeps a non-empty string non-empty, and leaves a string without `%` unchanged |
| ContentDisposition.PercentEncode | AnonXMusic/platforms/_httpx.py:88 | encoding an ASCII string triples its length |
| ContentDisposition.UnquotePercentEncode | AnonXMusic/platforms/_httpx.py:88 | `unquote` undoes percent-encoding of every ASCII string |
| ContentDisposition.EncodedSlashDecodes | AnonXMusic/platforms/_httpx.py:88 | `%2F` decodes to a real `/`, so a decoded header name can hold separators |
| Httpx.AncestorsFollowBases | AnonXMusic/platforms/_httpx.py:129-189 | each class's ancestors are itself plus its base class's ancestors, up to `Exception` |
| Httpx.InstanceFacts | AnonXMusic/platforms/_httpx.py:129-189 | the `isinstance` tests the handlers make, as tests of the exception's kind (`RequestError` covers redirect loops and timeouts) |
| Httpx.FlattenCons | AnonXMusic/platforms/_httpx.py:98-99 | writing a first chunk and then the rest writes that chunk's bytes first |
| Httpx.FlattenSnoc | AnonXMusic/platforms/_httpx.py:98-99 | `Flatten`, the bytes the loop writes, grows by exactly one more chunk's bytes at the end |
| Httpx.FlattenLength | AnonXMusic/platforms/_httpx.py:98-99 | the length of `Flatten` of the chunks, the file's length, is the sum of the chunk lengths |
| Httpx.Rechunk | AnonXMusic/platforms/_httpx.py:96-99 | `aiter_bytes(CHUNK_SIZE)` yields non-empty chunks of at most the size, all but the last of exactly the size |
| Httpx.RechunkFlatten | AnonXMusic/platforms/_httpx.py:98-99 | the chunks put back together are the body |
| Messages.Decimal | AnonXMusic/platforms/_httpx.py:129-184 | a status code prints as a non-empty string of digits |
| Messages.DecimalRoundTrip | AnonXMusic/platforms/_httpx.py:129-184 | reading the printed status code gives the code back |
| Messages.Render | AnonXMusic/platforms/_httpx.py:76-189 | each logged or returned text starts with its format string's fixed text |
| Messages.DescribeDownloadError | AnonXMusic/platforms/_httpx.py:174-189 | the branch `_handle_http_error` takes is a class the exception belongs to and a subclass of every other tested class it belongs to |
| Messages.DescribeStreamedDownloadError | AnonXMusic/platforms/_httpx.py:177-184 | on the unread response `download_file` passes, a status error makes the handler raise a `RuntimeError` that is not a `ValueError`; every other exception is described as by `DescribeDownloadError` |
| Messages.ErrorField | AnonXMusic/platforms/_httpx.py:130-132 | a field is found iff the body parsed to a JSON object with the key `"error"`, and it is that key's value |
| Messages.StatusErrorUsesErrorField | AnonXMusic/platforms/_httpx.py:177-184 | a status error is described by its `"error"` field iff the body is a JSON object with that field; otherwise by the raw body |
| Messages.ExceptClauses | AnonXMusic/platforms/_httpx.py:129-166 | the clause that handles an attempt's exception is the first whose class it is an instance of: status and request errors (redirect loops and timeouts included) are retried, a redirect loop on its own clause, a ValueError gives up as invalid JSON, anything else as unexpected |
| Messages.RetriedKinds | AnonXMusic/platforms/_httpx.py:129-156 | `IsRetried`, the test of the three retrying clauses, holds iff the exception is an instance of `HTTPStatusError`, `TooManyRedirects` or `RequestError` |
| Messages.HandleAttemptError | AnonXMusic/platforms/_httpx.py:129-166 | an attempt's exception is retried iff it is a status error, a redirect loop, a timeout or another request error; the redirect clause is taken iff it is a redirect loop; no handler logs the final error |
| Messages.RetryAndDownloadShareErrorFieldRule | AnonXMusic/platforms/_httpx.py:129-184 | both operations describe a status error by its `"error"` field when present and by the raw body otherwise; `make_request` retries it |
| Messages.ValueErrorIsPermanent | AnonXMusic/platforms/_httpx.py:158-189 | an invalid JSON body makes `make_request` give up with its message, and a download reports it as unexpected |
| Download.RaiseForStatus | AnonXMusic/platforms/_httpx.py:84 | nothing is raised iff the status is 2xx; otherwise a status error carrying the response |
| Download.FileName | AnonXMusic/platforms/_httpx.py:86-88 | with a non-empty random name the chosen file name is never empty |
| Download.ResolvePath | AnonXMusic/platforms/_httpx.py:85-91 | a given `file_path` is the destination as given; otherwise the path is canonical, a name not starting with `/` gives `DOWNLOADS_DIR` followed by all of the name's components (a single component is a child), a name starting with `/` replaces it, and the path is absolute iff one of them is |
| Download.Failure | AnonXMusic/platforms/_httpx.py:103-106 | the `except` block fails with no path, the rendered text of the one error message it logs, and the requests and file system as they were |
| Download.DownloadTry | AnonXMusic/platforms/_httpx.py:80-102 | every return from the `try` block is a well-formed success |
| Download.Download | AnonXMusic/platforms/_httpx.py:69-106 | every result is well formed: a success has a path and no error, a failure an error and no path |
| Download.DownloadFile | AnonXMusic/platforms/_httpx.py:69-106 | the step-by-step download, writing one chunk per iteration, returns the result, requests, file system and log of `Download` |
| Download.TryDownload | AnonXMusic/platforms/_httpx.py:80-102 | the step-by-step `try` block ends as `DownloadTry` does |
| Download.WriteChunks | AnonXMusic/platforms/_httpx.py:96-99 | opening the file and writing the chunks in turn leaves exactly their bytes in order at the destination and no other file changed |
| Download.DownloadAsWritten | AnonXMusic/platforms/_httpx.py:80-106 | `download_file` as written either returns a well-formed result, or lets a `RuntimeError` escape after its one request with the header rule's headers |
| Download.EmptyUrlFailsWithoutRequest | AnonXMusic/platforms/_httpx.py:76-77 | an empty URL fails with "Empty URL provided", sends nothing, touches no file and logs nothing |
| Download.OneRequestPerDownload | AnonXMusic/platforms/_httpx.py:79-83 | any other URL sends exactly one request, with the header rule's headers |
| Download.StatusCheckedBeforeExistence | AnonXMusic/platforms/_httpx.py:84-94 | a non-2xx status fails with the status error's message and leaves the file system alone, whatever exists |
| Download.StatusErrorEscapesAsWritten | AnonXMusic/platforms/_httpx.py:84-104 | as written, a non-2xx download raises `ResponseNotRead` out of `download_file` after its one request, with the file system untouched |
| Download.AsWrittenAgreesOtherwise | AnonXMusic/platforms/_httpx.py:80-106 | the code as written escapes iff the `try` block raised a status error, and otherwise returns exactly what `Download` returns |
| Download.ExistingFileIsKept | AnonXMusic/platforms/_httpx.py:93-94 | an existing destination without `overwrite` succeeds with that path and leaves the file system alone |
| Download.WritePathStoresChunks | AnonXMusic/platforms/_httpx.py:96-106 | on the write path the destination holds exactly the chunks received before the stream ended, and the call succeeds iff the stream ended without an error |
| Download.WholeBodyWritten | AnonXMusic/platforms/_httpx.py:96-102 | a body streamed in `CHUNK_SIZE` chunks is written byte for byte and the call succeeds at that path |
| Download.OnlyDestinationChanges | AnonXMusic/platforms/_httpx.py:93-106 | a download removes nothing and changes at most its destination file; a stream that fails to open changes nothing |
| Download.SecondDownloadIsIdempotent | AnonXMusic/platforms/_httpx.py:93-94 | repeating a successful download without `overwrite` gives the same result and the same file system |
| Download.DefaultPathIsChildOfDownloads | AnonXMusic/platforms/_httpx.py:85-89 | without a header name, the file is a direct child of `DOWNLOADS_DIR`, named after the URL's last component or the UUID |
| Download.TraversalNameIsKept | AnonXMusic/platforms/_httpx.py:86-89 | a header name `../x` resolves to `DOWNLOADS_DIR` followed by `..` and `x`: nothing removes the parent step, so the file lands beside `DOWNLOADS_DIR` |
| Download.EncodedAbsoluteNameEscapesDownloads | AnonXMusic/platforms/_httpx.py:86-89 | `filename=%2F...` resolves to an absolute path that discards `DOWNLOADS_DIR` |
| Retry.Pow2 | AnonXMusic/platforms/_httpx.py:168 | `2 ** attempt` is at least one |
| Retry.DelayIsBackoffTimesPower | AnonXMusic/platforms/_httpx.py:168 | `Delay`, the sleep after a retried attempt `k`, is `backoff_factor * 2 ** k` |
| Retry.TryBlock | AnonXMusic/platforms/_httpx.py:121-127 | an attempt returns a body iff it got a 2xx response whose body parses, and that body; a non-2xx status raises a status error carrying the response, an unparsable body a ValueError, a transport failure its own exception |
| Retry.TryLog | AnonXMusic/platforms/_httpx.py:124-126 | the debug line is written, once, exactly when the status check passes, and always before a body is returned |
| Retry.AttemptStep | AnonXMusic/platforms/_httpx.py:121-168 | one pass of the loop body continues iff the attempt failed with a retried error and is not the last; otherwise it returns after one request with no sleep, with a result iff the body parsed, and that body |
| Retry.RunAttempt | AnonXMusic/platforms/_httpx.py:121-168 | the step-by-step loop body ends as `AttemptStep` does |
| Retry.MakeRequest | AnonXMusic/platforms/_httpx.py:108-171 | the imperative `make_request` returns the result, requests, sleeps and log of `Request` |
| Retry.RetryLoop | AnonXMusic/platforms/_httpx.py:120-171 | the `for attempt` loop with its early returns produces what `AttemptsFrom` does from attempt 0 |
| Retry.Request | AnonXMusic/platforms/_httpx.py:108-171 | an empty URL sends nothing and only warns; otherwise never more than `max_retries` requests and at least one when it is positive, one sleep fewer than requests, all with the header rule's headers, and the final error logged iff `max_retries <= 0` |
| Retry.AfterAfter | AnonXMusic/platforms/_httpx.py:120-168 | the loop's running totals compose: adding two earlier stretches in turn is adding their concatenation |
| Retry.Schedule | AnonXMusic/platforms/_httpx.py:168 | the schedule of `n` sleeps from attempt `k` has `n` entries, the `i`-th being the sleep after attempt `k + i` |
| Retry.AttemptsSent | AnonXMusic/platforms/_httpx.py:120-171 | in `AttemptsFrom`, the loop from attempt `k`, between one and `max_retries - k` requests are sent, all with the same headers |
| Retry.AttemptsSlept | AnonXMusic/platforms/_httpx.py:120-171 | in `AttemptsFrom`, the loop from attempt `k`, there is one sleep after each attempt but the last, doubling from `backoff * 2 ** k` |
| Retry.AttemptsStop | AnonXMusic/platforms/_httpx.py:120-171 | `AttemptsFrom` stops at the first attempt that is not retried, or at the last allowed; the result is that attempt's body iff it returned one |
| Retry.SuccessAfterRetries | AnonXMusic/platforms/_httpx.py:120-168 | `j` retried failures and then a body give that body after `j + 1` requests and the sleeps `b * 2 ** 0, ..., b * 2 ** (j - 1)` |
| Retry.AllAttemptsFail | AnonXMusic/platforms/_httpx.py:120-168 | when every attempt is retried, exactly `max_retries` requests are made, the full schedule is slept and the result is None |
| Retry.PermanentFailureNotRetried | AnonXMusic/platforms/_httpx.py:158-166 | a first attempt that fails with a non-retried error ends the call: one request, no sleep, None |
| Retry.MalformedJsonIsPermanent | AnonXMusic/platforms/_httpx.py:124-161 | a 2xx response with a non-JSON body raises a ValueError, which is not retried |
| Retry.StatusErrorIsTransient | AnonXMusic/platforms/_httpx.py:124-129 | every non-2xx response is retried |
| Retry.NoFinalErrorAfterAnAttempt | AnonXMusic/platforms/_httpx.py:120-171 | once `AttemptsFrom` makes an attempt, the "All retries failed" error is never logged |
| Retry.DefaultsOnServerErrors | AnonXMusic/platforms/_httpx.py:108-168 | with the defaults, two 500 responses give two requests, one sleep of one second, and None |

## Left out

- The `HttpxClient` constructor, its timeouts and redirect settings, and `close` (lines 35-59): they configure or release the transport, which is a parameter here. Whether redirects are followed only shows up as the exception an attempt raises.
- Concurrency and `async`: each call is modelled as a sequential computation.
- The clock: the duration in the debug line of `make_request` (lines 122-126) is left out of the message, and `asyncio.sleep` is recorded as a value instead of waited for.
- `uuid.uuid4()`: the random name is a parameter. `Download.DefaultPathIsChildOfDownloads` assumes it has the shape of `uuid4().hex`.
- The file system: `path.exists()`, `mkdir(parents=True)`, `aiofiles.open` and `write` act on a value. Any exception from creating the file or its parent directories is an input, and the directories `mkdir` would create are not added to the model's directory set.
- Logging: each log call is an event in a returned list, and the logger itself is not modelled. On line 146 the warning is issued on the imported `LOGGER` object rather than on `LOGGER(__name__)`. What that call does depends on the `AnonXMusic.logging` module, which is not part of this model. The model records it as its own event and goes on as if the call returned.
- JSON decoding and `response.text` are inputs of each response. The refusal of httpx to read a streamed body that was never read is modelled only where the code reaches it, in the `except` block of `download_file` (`Messages.DescribeStreamedDownloadError`).
- The `repr` of each exception is an input string. The repr of the `HTTPStatusError` raised by `raise_for_status` is never printed, so it is left empty.
- Extra keyword arguments: `download_file` ignores every keyword argument except `headers`, and `make_request` passes them on to the transport. Both are outside this model.
- `Paths.ParsePath`: the POSIX special case of a leading `//`, which pathlib keeps, is treated as a single root. Windows paths are not modelled.
- `ContentDisposition.Unquote`: each `%XX` decodes to one character. Escapes of bytes `0x80` and above, which Python decodes together as UTF-8, are not modelled.
- `Retry.MakeRequest` requires at least `max_retries` transport outcomes. There is one per possible attempt, and the unused ones are ignored.
- `backoff_factor` is an exact real number, not a binary float.
- Paths are compared as values, component by component: the file system is a map keyed by `Paths.Path`. Two spellings of one file (`a/../b` and `b`, a relative and an absolute path, a symbolic link) are different keys, so `Download.ExistingFileIsKept`, `Download.OnlyDestinationChanges` and `Download.SecondDownloadIsIdempotent` speak of keys, not of files on a disk.
- Download.StatusCheckedBeforeExistence: states the evidently intended outcome of a non-2xx download, a failed result with the status error's message. The code as written raises instead; `Download.StatusErrorEscapesAsWritten` states that.
- Download.Download: models `download_file` with that handler corrected. `Download.DownloadAsWritten` models the code as it stands.

## Findings

| source | as written | input that shows it | evidently intended | confidence | as-written member | corrected member |
|---|---|---|---|---|---|---|
| AnonXMusic/platforms/_httpx.py:177-184 | `_handle_http_error` reads `e.response.json()` and `e.response.text` of the streamed response, whose body was never read; httpx raises `ResponseNotRead`, a `RuntimeError` that `except ValueError` does not catch, so it escapes the `except Exception` block of `download_file` | a non-empty URL whose server answers 404 | `download_file` returns `DownloadResult(success=False, error="HTTP error 404 for ...")` | not executed | Download.StatusErrorEscapesAsWritten | Download.StatusCheckedBeforeExistence |
