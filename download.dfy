/**
 * `download_file`: one streamed GET, the status check, the choice of the
 * destination path, the existing-file short cut and the chunked write.  The
 * transport and the file system are values: the stream the server gives, the
 * error the file system raises when the file cannot be created, and a map
 * from paths to file contents.
 */
module Download {
  import opened Wrappers
  import opened Paths
  import opened Httpx
  import opened Messages
  import opened Client
  import CD = ContentDisposition

  /** The `file_path` argument: a string, or a path used as it is. */
  datatype PathArg = PathString(text: string) | PathValue(path: Path)

  /** `DownloadResult`. */
  datatype DownloadResult = DownloadResult(success: bool, filePath: Option<Path>, error: Option<string>) {
    /** A success names its file and no error; a failure names its error and no file. */
    predicate WellFormed() {
      (success && filePath.Some? && error.None?) || (!success && filePath.None? && error.Some?)
    }
  }

  /**
   * The response of the streamed GET: status and error body, the
   * Content-Disposition header, the chunks `aiter_bytes` yields, and the
   * exception that ends the stream early, if any (raised after those chunks,
   * by the transport or by a write).
   */
  datatype StreamResponse = StreamResponse(
    info: ResponseInfo,
    contentDisposition: Option<string>,
    chunks: seq<Bytes>,
    streamError: Option<Exception>)

  /** Opening the stream either gives a response or raises. */
  datatype Stream = Opened(response: StreamResponse) | OpenFailed(error: Exception)

  /** The files and directories present; `path.exists()` holds for both. */
  datatype FileSystem = FileSystem(files: map<Path, Bytes>, directories: set<Path>)

  predicate Exists(fs: FileSystem, p: Path) {
    p in fs.files || p in fs.directories
  }

  /** Everything one call produces: its result, the requests it sent, the new file system, its log. */
  datatype DownloadRun = DownloadRun(result: DownloadResult, sent: seq<Headers>, fs: FileSystem, log: seq<LogEvent>)

  const EmptyUrlResult: DownloadResult := DownloadResult(false, None, Some(Render(EmptyUrl)))

  /** The file name used when no `file_path` is given: header, else URL, else the random name. */
  function FileName(url: string, contentDisposition: Option<string>, randomName: string): (name: string)
    ensures randomName != "" ==> name != ""
  {
    match CD.FilenameParameter(contentDisposition.GetOr(""))
    case Some(group) => CD.Unquote(group)
    case None =>
      var urlName := Name(ParsePath(url));
      if urlName != "" then urlName else randomName
  }

  /**
   * The destination: `file_path` when given, used whatever the headers say,
   * else `DOWNLOADS_DIR / FileName(...)`.  A file name that is a single
   * component lands directly in the downloads directory; one that starts
   * with '/' replaces the directory altogether.
   */
  function ResolvePath(cfg: Config, url: string, filePath: Option<PathArg>,
                       contentDisposition: Option<string>, randomName: string): (path: Path)
    ensures filePath.Some? && filePath.value.PathString? ==> path == ParsePath(filePath.value.text)
    ensures filePath.Some? && filePath.value.PathValue? ==> path == filePath.value.path
    ensures filePath.None? ==> Canonical(path)
    ensures filePath.None? ==>
              var dir, name := ParsePath(cfg.downloadsDir), FileName(url, contentDisposition, randomName);
              (IsComponent(name) ==> path == Path(dir.absolute, dir.parts + [name])) &&
              (!(|name| > 0 && name[0] == '/') ==> path == Path(dir.absolute, dir.parts + ParsePath(name).parts)) &&
              (|name| > 0 && name[0] == '/' ==> path == ParsePath(name)) &&
              (path.absolute <==> dir.absolute || (|name| > 0 && name[0] == '/'))
  {
    match filePath
    case Some(PathString(text)) => ParsePath(text)
    case Some(PathValue(path)) => path
    case None =>
      var dir, name := ParsePath(cfg.downloadsDir), FileName(url, contentDisposition, randomName);
      if IsComponent(name) then JoinComponent(dir, name); Join(dir, name)
      else Join(dir, name)
  }

  /** `raise_for_status()`; the repr of a status error is never printed, so it is left empty. */
  function RaiseForStatus(info: ResponseInfo): (raised: Option<Exception>)
    ensures raised.None? <==> 200 <= info.status < 300
    ensures raised.Some? ==> IsInstance(raised.value, HTTPStatusErrorCls) && raised.value.response == info
  {
    if IsSuccess(info.status) then None else Some(HTTPStatusError(info, ""))
  }

  /** The `except` block: classify, log, fail. */
  function Failure(e: Exception, url: string, headers: Headers, fs: FileSystem): (run: DownloadRun)
    ensures run.result.WellFormed() && !run.result.success
    ensures run.sent == [headers] && run.fs == fs
    ensures run.log == [Error(DescribeDownloadError(e, url))]
    ensures run.result.error == Some(Render(run.log[0].message))
  {
    var m := DescribeDownloadError(e, url);
    DownloadRun(DownloadResult(false, None, Some(Render(m))), [headers], fs, [Error(m)])
  }

  /**
   * How the `try` block of `download_file` ends: with one of its own returns,
   * or with an exception, leaving the file system as it was at that point.
   */
  datatype TryEnd = Completed(result: DownloadResult, fs: FileSystem, log: seq<LogEvent>) | Threw(error: Exception, fs: FileSystem)

  /** The `try` block: open the stream, check the status, choose the path, keep or write the file. */
  function DownloadTry(cfg: Config, url: string, filePath: Option<PathArg>, overwrite: bool,
                       stream: Stream, createError: Option<Exception>,
                       fs: FileSystem, randomName: string): (end: TryEnd)
    ensures end.Completed? ==> end.result.success && end.result.WellFormed()
  {
    match stream
    case OpenFailed(e) => Threw(e, fs)
    case Opened(response) =>
      match RaiseForStatus(response.info)
      case Some(e) => Threw(e, fs)
      case None =>
        var path := ResolvePath(cfg, url, filePath, response.contentDisposition, randomName);
        if Exists(fs, path) && !overwrite then
          Completed(DownloadResult(true, Some(path), None), fs, [])
        else
          match createError
          case Some(e) => Threw(e, fs)
          case None =>
            var written := fs.(files := fs.files[path := Flatten(response.chunks)]);
            match response.streamError
            case Some(e) => Threw(e, written)
            case None => Completed(DownloadResult(true, Some(path), None), written, [Debug(Downloaded(path))])
  }

  /**
   * The whole of `download_file` on the given environment, with a status
   * error described from its response body (see `DownloadAsWritten` for the
   * code as it stands).
   */
  function Download(cfg: Config, url: string, filePath: Option<PathArg>, overwrite: bool,
                    base: Headers, stream: Stream, createError: Option<Exception>,
                    fs: FileSystem, randomName: string): (run: DownloadRun)
    ensures run.result.WellFormed()
  {
    if url == "" then DownloadRun(EmptyUrlResult, [], fs, [])
    else
      var headers := ApiHeaders(cfg, url, base);
      match DownloadTry(cfg, url, filePath, overwrite, stream, createError, fs, randomName)
      case Completed(result, fs', log) => DownloadRun(result, [headers], fs', log)
      case Threw(e, fs') => Failure(e, url, headers, fs')
  }

  /** A call of `download_file` either returns, or lets an exception escape after sending and writing. */
  datatype DownloadOutcome =
    | Returns(run: DownloadRun)
    | Escapes(error: Exception, sent: seq<Headers>, fs: FileSystem)

  /**
   * `download_file` as written: the `except` block describes the exception
   * with the streamed response still unread, so a status error makes the
   * handler itself raise.
   */
  function DownloadAsWritten(cfg: Config, url: string, filePath: Option<PathArg>, overwrite: bool,
                             base: Headers, stream: Stream, createError: Option<Exception>,
                             fs: FileSystem, randomName: string): (o: DownloadOutcome)
    ensures o.Returns? ==> o.run.result.WellFormed()
    ensures o.Escapes? ==> o.sent == [ApiHeaders(cfg, url, base)] && IsInstance(o.error, RuntimeErrorCls)
  {
    if url == "" then Returns(DownloadRun(EmptyUrlResult, [], fs, []))
    else
      var headers := ApiHeaders(cfg, url, base);
      match DownloadTry(cfg, url, filePath, overwrite, stream, createError, fs, randomName)
      case Completed(result, fs', log) => Returns(DownloadRun(result, [headers], fs', log))
      case Threw(e, fs') =>
        match DescribeStreamedDownloadError(e, url)
        case Described(_) => Returns(Failure(e, url, headers, fs'))
        case Raises(x) => Escapes(x, [headers], fs')
  }

  /**
   * `download_file`, step by step: the empty-URL guard, the headers, the
   * `try` block, and the `except` block that turns its exception into a
   * failed result.
   */
  method DownloadFile(cfg: Config, url: string, filePath: Option<PathArg>, overwrite: bool,
                      base: Headers, stream: Stream, createError: Option<Exception>,
                      fs: FileSystem, randomName: string)
    returns (result: DownloadResult, sent: seq<Headers>, fs': FileSystem, log: seq<LogEvent>)
    ensures DownloadRun(result, sent, fs', log) ==
            Download(cfg, url, filePath, overwrite, base, stream, createError, fs, randomName)
    ensures result.WellFormed()
  {
    if url == "" {
      return EmptyUrlResult, [], fs, [];
    }
    var headers := GetHeaders(cfg, url, base);
    sent := [headers];
    var end := TryDownload(cfg, url, filePath, overwrite, stream, createError, fs, randomName);
    if end.Threw? {
      var m := DescribeDownloadError(end.error, url);
      return DownloadResult(false, None, Some(Render(m))), sent, end.fs, [Error(m)];
    }
    result, fs', log := end.result, end.fs, end.log;
  }

  /** The `try` block, step by step: open, check the status, choose the path, keep or write the file. */
  method TryDownload(cfg: Config, url: string, filePath: Option<PathArg>, overwrite: bool,
                     stream: Stream, createError: Option<Exception>,
                     fs: FileSystem, randomName: string)
    returns (end: TryEnd)
    ensures end == DownloadTry(cfg, url, filePath, overwrite, stream, createError, fs, randomName)
  {
    if stream.OpenFailed? {
      return Threw(stream.error, fs);
    }
    var response := stream.response;
    if !IsSuccess(response.info.status) {
      return Threw(HTTPStatusError(response.info, ""), fs);
    }
    var path := ResolvePath(cfg, url, filePath, response.contentDisposition, randomName);
    if Exists(fs, path) && !overwrite {
      return Completed(DownloadResult(true, Some(path), None), fs, []);
    }
    if createError.Some? {
      return Threw(createError.value, fs);
    }
    var written := WriteChunks(fs, path, response.chunks);
    if response.streamError.Some? {
      return Threw(response.streamError.value, written);
    }
    end := Completed(DownloadResult(true, Some(path), None), written, [Debug(Downloaded(path))]);
  }

  /**
   * `aiofiles.open(path, "wb")` and the `async for` loop: the file is emptied
   * and then grows by one chunk per iteration, ending with all the chunks'
   * bytes in order; no other file changes.
   */
  method WriteChunks(fs: FileSystem, path: Path, chunks: seq<Bytes>) returns (fs': FileSystem)
    ensures fs' == fs.(files := fs.files[path := Flatten(chunks)])
  {
    var content: Bytes := [];
    fs' := fs.(files := fs.files[path := content]);
    var i := 0;
    while i < |chunks|
      invariant 0 <= i <= |chunks|
      invariant content == Flatten(chunks[..i])
      invariant fs' == fs.(files := fs.files[path := content])
    {
      assert chunks[..i + 1] == chunks[..i] + [chunks[i]];
      FlattenSnoc(chunks[..i], chunks[i]);
      content := content + chunks[i];
      fs' := fs.(files := fs.files[path := content]);
      i := i + 1;
    }
    assert chunks[..i] == chunks;
  }

  // ---------------------------------------------------------------------
  // What a download does

  /** An empty URL fails at once: no request, no file touched, no log. */
  lemma EmptyUrlFailsWithoutRequest(cfg: Config, filePath: Option<PathArg>, overwrite: bool, base: Headers,
                                    stream: Stream, createError: Option<Exception>, fs: FileSystem, randomName: string)
    ensures var run := Download(cfg, "", filePath, overwrite, base, stream, createError, fs, randomName);
      run.result == DownloadResult(false, None, Some("Empty URL provided")) &&
      run.sent == [] && run.fs == fs && run.log == []
  {
    var text := "Empty URL provided";
    assert Render(EmptyUrl) == text + Fields(EmptyUrl) == text + [];
    assert text + [] == text;
  }

  /** Any other URL issues exactly one request, with the headers of the header rule. */
  lemma OneRequestPerDownload(cfg: Config, url: string, filePath: Option<PathArg>, overwrite: bool, base: Headers,
                              stream: Stream, createError: Option<Exception>, fs: FileSystem, randomName: string)
    requires url != ""
    ensures Download(cfg, url, filePath, overwrite, base, stream, createError, fs, randomName).sent ==
            [ApiHeaders(cfg, url, base)]
  {
  }

  /**
   * The status is checked before the destination is looked at: a non-2xx
   * response fails even when the file exists and `overwrite` is false.
   */
  lemma StatusCheckedBeforeExistence(cfg: Config, url: string, filePath: Option<PathArg>, overwrite: bool,
                                     base: Headers, response: StreamResponse, createError: Option<Exception>,
                                     fs: FileSystem, randomName: string)
    requires url != "" && !IsSuccess(response.info.status)
    ensures var run := Download(cfg, url, filePath, overwrite, base, Opened(response), createError, fs, randomName);
      !run.result.success && run.fs == fs &&
      run.result.error == Some(Render(DescribeDownloadError(HTTPStatusError(response.info, ""), url)))
  {
  }

  /**
   * As written, a non-2xx download never returns: describing the status error
   * reads the unread streamed body, and the `ResponseNotRead` this raises
   * escapes `download_file` after the one request, with the file system
   * untouched.
   */
  lemma StatusErrorEscapesAsWritten(cfg: Config, url: string, filePath: Option<PathArg>, overwrite: bool,
                                    base: Headers, response: StreamResponse, createError: Option<Exception>,
                                    fs: FileSystem, randomName: string)
    requires url != "" && !IsSuccess(response.info.status)
    ensures var o := DownloadAsWritten(cfg, url, filePath, overwrite, base, Opened(response), createError, fs, randomName);
      o == Escapes(ResponseNotRead(NotReadRepr), [ApiHeaders(cfg, url, base)], fs)
  {
    InstanceFacts(HTTPStatusError(response.info, ""));
  }

  /**
   * Everywhere else the code as written and `Download` agree: the call
   * escapes exactly when the `try` block raised a status error, and otherwise
   * returns what `Download` returns.
   */
  lemma AsWrittenAgreesOtherwise(cfg: Config, url: string, filePath: Option<PathArg>, overwrite: bool,
                                 base: Headers, stream: Stream, createError: Option<Exception>,
                                 fs: FileSystem, randomName: string)
    ensures var o := DownloadAsWritten(cfg, url, filePath, overwrite, base, stream, createError, fs, randomName);
            var end := DownloadTry(cfg, url, filePath, overwrite, stream, createError, fs, randomName);
      (o.Escapes? <==> url != "" && end.Threw? && IsInstance(end.error, HTTPStatusErrorCls)) &&
      (o.Returns? ==> o.run == Download(cfg, url, filePath, overwrite, base, stream, createError, fs, randomName))
  {
  }

  /** An existing destination with `overwrite` false is reported as downloaded and left as it is. */
  lemma ExistingFileIsKept(cfg: Config, url: string, filePath: Option<PathArg>,
                           base: Headers, response: StreamResponse, createError: Option<Exception>,
                           fs: FileSystem, randomName: string)
    requires url != "" && IsSuccess(response.info.status)
    requires Exists(fs, ResolvePath(cfg, url, filePath, response.contentDisposition, randomName))
    ensures var run := Download(cfg, url, filePath, false, base, Opened(response), createError, fs, randomName);
      run.result == DownloadResult(true, Some(ResolvePath(cfg, url, filePath, response.contentDisposition, randomName)), None) &&
      run.fs == fs
  {
  }

  /**
   * On the write path the destination holds exactly the streamed chunks in
   * order, however the stream ends; it succeeds only when the stream ends
   * without an error, and a failure leaves the partial file in place.
   */
  lemma WritePathStoresChunks(cfg: Config, url: string, filePath: Option<PathArg>, overwrite: bool,
                              base: Headers, response: StreamResponse,
                              fs: FileSystem, randomName: string)
    requires url != "" && IsSuccess(response.info.status)
    requires var path := ResolvePath(cfg, url, filePath, response.contentDisposition, randomName);
      !Exists(fs, path) || overwrite
    ensures var path := ResolvePath(cfg, url, filePath, response.contentDisposition, randomName);
            var run := Download(cfg, url, filePath, overwrite, base, Opened(response), None, fs, randomName);
      run.fs == fs.(files := fs.files[path := Flatten(response.chunks)]) &&
      (run.result.success <==> response.streamError.None?) &&
      (run.result.success ==> run.result.filePath == Some(path))
  {
  }

  /**
   * A body that arrives in full, cut as the stream is asked to cut it, is
   * written byte for byte, in chunks of at most `ChunkSize` bytes.
   */
  lemma WholeBodyWritten(cfg: Config, url: string, filePath: Option<PathArg>, overwrite: bool,
                         base: Headers, info: ResponseInfo, contentDisposition: Option<string>, body: Bytes,
                         fs: FileSystem, randomName: string)
    requires url != "" && IsSuccess(info.status)
    requires var path := ResolvePath(cfg, url, filePath, contentDisposition, randomName);
      !Exists(fs, path) || overwrite
    ensures var path := ResolvePath(cfg, url, filePath, contentDisposition, randomName);
            var response := StreamResponse(info, contentDisposition, Rechunk(body, ChunkSize), None);
            var run := Download(cfg, url, filePath, overwrite, base, Opened(response), None, fs, randomName);
      run.result == DownloadResult(true, Some(path), None) &&
      path in run.fs.files && run.fs.files[path] == body &&
      forall i :: 0 <= i < |response.chunks| ==> |response.chunks[i]| <= ChunkSize
  {
    RechunkFlatten(body, ChunkSize);
  }

  /** A download changes at most its destination, and never removes anything. */
  lemma OnlyDestinationChanges(cfg: Config, url: string, filePath: Option<PathArg>, overwrite: bool,
                               base: Headers, stream: Stream, createError: Option<Exception>,
                               fs: FileSystem, randomName: string)
    ensures var run := Download(cfg, url, filePath, overwrite, base, stream, createError, fs, randomName);
      run.fs.directories == fs.directories &&
      fs.files.Keys <= run.fs.files.Keys &&
      (stream.Opened? ==>
        var path := ResolvePath(cfg, url, filePath, stream.response.contentDisposition, randomName);
        forall p :: p in fs.files && p != path ==> run.fs.files[p] == fs.files[p]) &&
      (stream.Opened? ==>
        var path := ResolvePath(cfg, url, filePath, stream.response.contentDisposition, randomName);
        run.fs.files.Keys <= fs.files.Keys + {path}) &&
      (stream.OpenFailed? ==> run.fs == fs)
  {
    var run := Download(cfg, url, filePath, overwrite, base, stream, createError, fs, randomName);
    var end := DownloadTry(cfg, url, filePath, overwrite, stream, createError, fs, randomName);
    assert run.fs == if url == "" then fs else end.fs;
    if url != "" && stream.Opened? && IsSuccess(stream.response.info.status) {
      var response := stream.response;
      var path := ResolvePath(cfg, url, filePath, response.contentDisposition, randomName);
      if !(Exists(fs, path) && !overwrite) && createError.None? {
        var files := fs.files[path := Flatten(response.chunks)];
        assert end.fs == fs.(files := files);
        assert files.Keys == fs.files.Keys + {path};
      } else {
        assert end.fs == fs;
      }
    } else {
      assert run.fs == fs;
    }
  }

  /** After a successful download the same download without `overwrite` changes nothing and succeeds again. */
  lemma SecondDownloadIsIdempotent(cfg: Config, url: string, filePath: Option<PathArg>, overwrite: bool,
                                   base: Headers, response: StreamResponse, createError: Option<Exception>,
                                   createError': Option<Exception>, fs: FileSystem, randomName: string)
    requires Download(cfg, url, filePath, overwrite, base, Opened(response), createError, fs, randomName).result.success
    ensures var first := Download(cfg, url, filePath, overwrite, base, Opened(response), createError, fs, randomName);
            var second := Download(cfg, url, filePath, false, base, Opened(response), createError', first.fs, randomName);
      second.result == first.result && second.fs == first.fs
  {
    var first := Download(cfg, url, filePath, overwrite, base, Opened(response), createError, fs, randomName);
    var path := ResolvePath(cfg, url, filePath, response.contentDisposition, randomName);
    assert url != "" && IsSuccess(response.info.status);
    assert first.result == DownloadResult(true, Some(path), None);
    assert Exists(first.fs, path);
  }

  // ---------------------------------------------------------------------
  // Where the file goes

  /** A 32-digit lowercase hexadecimal string: what `uuid.uuid4().hex` returns. */
  predicate IsUuidHex(s: string) {
    |s| == 32 && forall i :: 0 <= i < |s| ==> '0' <= s[i] <= '9' || 'a' <= s[i] <= 'f'
  }

  /**
   * Without a usable header, the file is a direct child of the downloads
   * directory named after the URL's last component, or after the random
   * name when the URL has none.
   */
  lemma DefaultPathIsChildOfDownloads(cfg: Config, url: string, contentDisposition: Option<string>, randomName: string)
    requires CD.FilenameParameter(contentDisposition.GetOr("")) == None
    requires IsUuidHex(randomName)
    ensures var dir := ParsePath(cfg.downloadsDir);
            var name := if Name(ParsePath(url)) != "" then Name(ParsePath(url)) else randomName;
      ResolvePath(cfg, url, None, contentDisposition, randomName) == Path(dir.absolute, dir.parts + [name]) &&
      IsComponent(name)
  {
    assert randomName[0] != '/' && randomName[0] != '.';
    var name := if Name(ParsePath(url)) != "" then Name(ParsePath(url)) else randomName;
    JoinComponent(ParsePath(cfg.downloadsDir), name);
  }

  /**
   * Nor is a `..` in the header's name: `filename="../x"` names the file `x`
   * in the parent of the downloads directory, with the `..` kept in the path.
   */
  lemma TraversalNameIsKept(cfg: Config, url: string, x: string, randomName: string)
    requires IsComponent(x) && '%' !in x && '"' !in x
    ensures var dir := ParsePath(cfg.downloadsDir);
      ResolvePath(cfg, url, None, Some(CD.FilenameKey + "\"../" + x + "\""), randomName) ==
      Path(dir.absolute, dir.parts + ["..", x])
  {
    var name := "../" + x;
    assert '"' !in name && '%' !in name;
    CD.QuotedFilename(name);
    assert CD.FilenameKey + "\"" + name + "\"" == CD.FilenameKey + "\"../" + x + "\"";
    ParentThenComponent(x);
  }

  /**
   * The header's name is not sanitised: `filename=%2F...` decodes to an
   * absolute path, which replaces the downloads directory altogether.
   */
  lemma EncodedAbsoluteNameEscapesDownloads(cfg: Config, url: string, rest: string, randomName: string)
    requires '%' !in rest && '"' !in rest
    ensures ResolvePath(cfg, url, None, Some(CD.FilenameKey + "%2F" + rest), randomName) == ParsePath("/" + rest)
    ensures ResolvePath(cfg, url, None, Some(CD.FilenameKey + "%2F" + rest), randomName).absolute
  {
    CD.UnquotedFilename("%2F" + rest);
    CD.EncodedSlashDecodes(rest);
    assert CD.FilenameKey + "%2F" + rest == CD.FilenameKey + ("%2F" + rest);
  }
}
