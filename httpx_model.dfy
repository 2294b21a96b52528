/**
 * The surface of the HTTP library that the client relies on, as values:
 * responses, parsed JSON bodies, the exceptions it raises with their class
 * hierarchy, and how a streamed body is cut into chunks.
 */
module Httpx {

  newtype byte = b: int | 0 <= b < 256

  type Bytes = seq<byte>

  /**
   * A JSON value as the client inspects it: an object, whose fields are kept
   * as the text `str()` gives their values, or any other value.
   */
  datatype Json = JObject(fields: map<string, string>) | JOther(text: string)

  /** The outcome of `response.json()`: a value, or a ValueError with its repr. */
  datatype JsonBody = Parsed(value: Json) | Malformed(repr: string)

  /** What the client reads from a response: status code, `response.text` and `response.json()`. */
  datatype ResponseInfo = ResponseInfo(status: nat, text: string, json: JsonBody)

  /** `raise_for_status()` passes exactly for a 2xx status. */
  predicate IsSuccess(status: nat) {
    200 <= status < 300
  }

  /**
   * The exceptions an attempt can end with.  `RequestError` stands for every
   * `httpx.RequestError` that is neither `TooManyRedirects` nor `ReadTimeout`;
   * `ValueError` includes `json.JSONDecodeError`.  `ResponseNotRead` is what
   * reading the content of a streamed response raises before the body is read.
   * Each carries the text `repr(e)` gives.
   */
  datatype Exception =
    | HTTPStatusError(response: ResponseInfo, repr: string)
    | TooManyRedirects(repr: string)
    | ReadTimeout(repr: string)
    | RequestError(repr: string)
    | ValueError(repr: string)
    | ResponseNotRead(repr: string)
    | OtherException(repr: string)

  /** The classes an `except` clause or `isinstance` test can name. */
  datatype ExceptionClass =
    | ExceptionCls | ValueErrorCls | HTTPErrorCls | HTTPStatusErrorCls | RequestErrorCls
    | TooManyRedirectsCls | TransportErrorCls | TimeoutExceptionCls | ReadTimeoutCls
    | RuntimeErrorCls | StreamErrorCls | ResponseNotReadCls

  /** The direct base class of each class; `Exception` is the root. */
  function Base(c: ExceptionClass): ExceptionClass {
    match c
    case ExceptionCls => ExceptionCls
    case ValueErrorCls => ExceptionCls
    case HTTPErrorCls => ExceptionCls
    case HTTPStatusErrorCls => HTTPErrorCls
    case RequestErrorCls => HTTPErrorCls
    case TooManyRedirectsCls => RequestErrorCls
    case TransportErrorCls => RequestErrorCls
    case TimeoutExceptionCls => TransportErrorCls
    case ReadTimeoutCls => TimeoutExceptionCls
    case RuntimeErrorCls => ExceptionCls
    case StreamErrorCls => RuntimeErrorCls
    case ResponseNotReadCls => StreamErrorCls
  }

  /** The classes `c` inherits from, itself included (its method resolution order as a set). */
  function Ancestors(c: ExceptionClass): set<ExceptionClass> {
    match c
    case ExceptionCls => {ExceptionCls}
    case ValueErrorCls => {ValueErrorCls, ExceptionCls}
    case HTTPErrorCls => {HTTPErrorCls, ExceptionCls}
    case HTTPStatusErrorCls => {HTTPStatusErrorCls, HTTPErrorCls, ExceptionCls}
    case RequestErrorCls => {RequestErrorCls, HTTPErrorCls, ExceptionCls}
    case TooManyRedirectsCls => {TooManyRedirectsCls, RequestErrorCls, HTTPErrorCls, ExceptionCls}
    case TransportErrorCls => {TransportErrorCls, RequestErrorCls, HTTPErrorCls, ExceptionCls}
    case TimeoutExceptionCls => {TimeoutExceptionCls, TransportErrorCls, RequestErrorCls, HTTPErrorCls, ExceptionCls}
    case ReadTimeoutCls =>
      {ReadTimeoutCls, TimeoutExceptionCls, TransportErrorCls, RequestErrorCls, HTTPErrorCls, ExceptionCls}
    case RuntimeErrorCls => {RuntimeErrorCls, ExceptionCls}
    case StreamErrorCls => {StreamErrorCls, RuntimeErrorCls, ExceptionCls}
    case ResponseNotReadCls => {ResponseNotReadCls, StreamErrorCls, RuntimeErrorCls, ExceptionCls}
  }

  /** The ancestor sets follow the base-class links. */
  lemma AncestorsFollowBases(c: ExceptionClass)
    ensures c in Ancestors(c) && ExceptionCls in Ancestors(c)
    ensures c != ExceptionCls ==> Ancestors(c) == {c} + Ancestors(Base(c))
  {
  }

  /** `issubclass(c, ancestor)`. */
  predicate IsSubclass(c: ExceptionClass, ancestor: ExceptionClass) {
    ancestor in Ancestors(c)
  }

  /** The class each exception is raised as. */
  function ClassOf(e: Exception): ExceptionClass {
    match e
    case HTTPStatusError(_, _) => HTTPStatusErrorCls
    case TooManyRedirects(_) => TooManyRedirectsCls
    case ReadTimeout(_) => ReadTimeoutCls
    case RequestError(_) => RequestErrorCls
    case ValueError(_) => ValueErrorCls
    case ResponseNotRead(_) => ResponseNotReadCls
    case OtherException(_) => ExceptionCls
  }

  /** `isinstance(e, c)`. */
  predicate IsInstance(e: Exception, c: ExceptionClass) {
    IsSubclass(ClassOf(e), c)
  }

  /** The instance tests the handlers rely on, with the hierarchy unfolded. */
  lemma InstanceFacts(e: Exception)
    ensures IsInstance(e, ExceptionCls)
    ensures IsInstance(e, HTTPStatusErrorCls) <==> e.HTTPStatusError?
    ensures IsInstance(e, TooManyRedirectsCls) <==> e.TooManyRedirects?
    ensures IsInstance(e, ReadTimeoutCls) <==> e.ReadTimeout?
    ensures IsInstance(e, RequestErrorCls) <==> e.TooManyRedirects? || e.ReadTimeout? || e.RequestError?
    ensures IsInstance(e, ValueErrorCls) <==> e.ValueError?
    ensures IsInstance(e, ResponseNotReadCls) <==> e.ResponseNotRead?
  {
  }

  // ---------------------------------------------------------------------
  // Streamed bodies

  /** The bytes of a sequence of chunks, in order. */
  function Flatten(chunks: seq<Bytes>): (data: Bytes)
    decreases |chunks|
  {
    if chunks == [] then [] else Flatten(chunks[..|chunks| - 1]) + chunks[|chunks| - 1]
  }

  /** Flattening distributes over a first chunk. */
  lemma {:induction false} FlattenCons(c: Bytes, chunks: seq<Bytes>)
    ensures Flatten([c] + chunks) == c + Flatten(chunks)
    decreases |chunks|
  {
    if chunks != [] {
      var n := |chunks|;
      FlattenCons(c, chunks[..n - 1]);
      assert ([c] + chunks)[..n] == [c] + chunks[..n - 1];
    }
  }

  /** One more chunk appends its bytes. */
  lemma FlattenSnoc(chunks: seq<Bytes>, c: Bytes)
    ensures Flatten(chunks + [c]) == Flatten(chunks) + c
  {
    assert (chunks + [c])[..|chunks|] == chunks;
  }

  /** The total length of a sequence of chunks. */
  lemma {:induction false} FlattenLength(chunks: seq<Bytes>)
    ensures |Flatten(chunks)| == SumOfLengths(chunks)
    decreases |chunks|
  {
    if chunks != [] {
      FlattenLength(chunks[..|chunks| - 1]);
    }
  }

  function SumOfLengths(chunks: seq<Bytes>): nat
    decreases |chunks|
  {
    if chunks == [] then 0 else SumOfLengths(chunks[..|chunks| - 1]) + |chunks[|chunks| - 1]|
  }

  /**
   * `aiter_bytes(size)` over a body that arrives in full: pieces of exactly
   * `size` bytes, then the remainder when it is not empty.
   */
  function Rechunk(body: Bytes, size: nat): (chunks: seq<Bytes>)
    requires size > 0
    ensures forall i :: 0 <= i < |chunks| ==> 0 < |chunks[i]| <= size
    ensures forall i :: 0 <= i < |chunks| - 1 ==> |chunks[i]| == size
    decreases |body|
  {
    if body == [] then []
    else if |body| <= size then [body]
    else [body[..size]] + Rechunk(body[size..], size)
  }

  /** The chunks put back together are the body. */
  lemma {:induction false} RechunkFlatten(body: Bytes, size: nat)
    requires size > 0
    ensures Flatten(Rechunk(body, size)) == body
    decreases |body|
  {
    if body == [] {
    } else if |body| <= size {
      assert [body][..0] == [];
    } else {
      RechunkFlatten(body[size..], size);
      FlattenCons(body[..size], Rechunk(body[size..], size));
      assert body[..size] + body[size..] == body;
    }
  }
}
