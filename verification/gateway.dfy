/**
 The HTTP gateway function `lambda_handler` (lambda/lambda_function.py).

 The object-storage read and the endpoint invocation are the two calls into
 the cloud SDK. Each is a function parameter that yields the outcome the
 SDK would report; the handler returns the calls it made, in order, together
 with its response, or the exception that escapes it.
 */
module Gateway {
  import opened Outcomes

  /** What `event['queryStringParameters']` holds: the key may be absent,
      it may be `None` (no query string), or a mapping of parameters. */
  datatype QueryField = Absent | Null | Params(params: map<string, string>)

  datatype Event = Event(queryStringParameters: QueryField)

  /** `get_object(...)['Body'].read()` either yields the object's bytes or
      raises; `message` is `str(e)`. */
  datatype StorageOutcome = Read(content: Bytes) | ReadFailed(message: string)

  /** `invoke_endpoint(...)['Body'].read().decode('utf-8')` either yields the
      reply text or raises. */
  datatype EndpointOutcome = Replied(text: string) | InvokeFailed(message: string)

  datatype Invocation = Invocation(endpointName: string, contentType: string, body: Bytes)

  /** A call into the cloud SDK, as issued by the handler. */
  datatype Call = GetObject(bucket: string, key: string) | InvokeEndpoint(invocation: Invocation)

  /** The JSON object in the response body: `{"result": ...}` or `{"error": ...}`. */
  datatype Body = ResultBody(text: string) | ErrorBody(message: string)

  datatype Response = Response(statusCode: int, headers: map<string, string>, body: Body)

  /** The calls made, in order, and what the handler returned or raised. */
  datatype Handled = Handled(calls: seq<Call>, outcome: Result<Response>)

  const BucketParam: string := "lambda-image-storage"
  const KeyParam: string := "image_key"
  const EndpointName: string := "<INSERT-ENDPOINT-NAME>"
  const ImageContentType: string := "image/jpeg"

  const ContentTypeHeader: string := "Content-Type"
  const AllowOriginHeader: string := "Access-Control-Allow-Origin"
  const AllowMethodsHeader: string := "Access-Control-Allow-Methods"
  const AllowHeadersHeader: string := "Access-Control-Allow-Headers"

  /** The headers of the storage-failure response. */
  const ErrorHeaders: map<string, string> :=
    map[ContentTypeHeader := "application/json", AllowOriginHeader := "*"]

  /** The headers of every response after the storage read succeeded. */
  const FullHeaders: map<string, string> :=
    ErrorHeaders[AllowMethodsHeader := "GET, POST, OPTIONS"]
                [AllowHeadersHeader := "Content-Type,X-Amz-Date,Authorization,X-Api-Key,X-Amz-Security-Token"]

  /** `event['queryStringParameters'][name]`, with the exception Python
      raises when the lookup fails. */
  function QueryParam(event: Event, name: string): (r: Result<string>)
    ensures r.Ok? <==> event.queryStringParameters.Params? && name in event.queryStringParameters.params
    ensures r.Ok? ==> r.value == event.queryStringParameters.params[name]
  {
    match event.queryStringParameters
    case Absent => Raise(KeyError("queryStringParameters"))
    case Null => Raise(TypeError("'NoneType' object is not subscriptable"))
    case Params(ps) => if name in ps then Ok(ps[name]) else Raise(KeyError(name))
  }

  /** `lambda_handler(event, context)`. */
  function LambdaHandler(
    event: Event,
    storage: (string, string) -> StorageOutcome,
    endpoint: Invocation -> EndpointOutcome): (h: Handled)
    ensures h.outcome.Raise? <==> QueryParam(event, BucketParam).Raise? || QueryParam(event, KeyParam).Raise?
    ensures h.outcome.Raise? ==> h.calls == []
    ensures h.outcome.Ok? ==>
      |h.calls| >= 1 && h.calls[0] == GetObject(QueryParam(event, BucketParam).value, QueryParam(event, KeyParam).value)
  {
    match QueryParam(event, BucketParam)
    case Raise(e) => Handled([], Raise(e))
    case Ok(bucket) =>
      match QueryParam(event, KeyParam)
      case Raise(e) => Handled([], Raise(e))
      case Ok(key) =>
        var read := GetObject(bucket, key);
        match storage(bucket, key)
        case ReadFailed(msg) =>
          Handled([read], Ok(Response(500, ErrorHeaders, ErrorBody(msg))))
        case Read(content) =>
          var invocation := Invocation(EndpointName, ImageContentType, content);
          var reply := endpoint(invocation);
          var body := match reply
            case Replied(text) => ResultBody(text)
            case InvokeFailed(msg) => ErrorBody(msg);
          var status := if reply.Replied? then 200 else 500;
          Handled([read, InvokeEndpoint(invocation)], Ok(Response(status, FullHeaders, body)))
  }

  /** The parameters the handler reads, when both are present. */
  predicate HasParams(event: Event, bucket: string, key: string) {
    && event.queryStringParameters.Params?
    && BucketParam in event.queryStringParameters.params
    && KeyParam in event.queryStringParameters.params
    && event.queryStringParameters.params[BucketParam] == bucket
    && event.queryStringParameters.params[KeyParam] == key
  }

  /** A failed storage read ends the request with a 500 and the error text,
      carrying only the content-type and allow-origin headers; the endpoint
      is never called. */
  lemma StorageFailure(event: Event, storage: (string, string) -> StorageOutcome,
                       endpoint: Invocation -> EndpointOutcome, bucket: string, key: string, msg: string)
    requires HasParams(event, bucket, key)
    requires storage(bucket, key) == ReadFailed(msg)
    ensures LambdaHandler(event, storage, endpoint).calls == [GetObject(bucket, key)]
    ensures LambdaHandler(event, storage, endpoint).outcome == Ok(Response(500, ErrorHeaders, ErrorBody(msg)))
    ensures ErrorHeaders.Keys == {"Content-Type", "Access-Control-Allow-Origin"}
  {
  }

  /** After a successful read the endpoint is called once, with the bytes
      read, declared as `image/jpeg`, under the fixed endpoint name. */
  lemma EndpointGetsStoredBytes(event: Event, storage: (string, string) -> StorageOutcome,
                                endpoint: Invocation -> EndpointOutcome, bucket: string, key: string, content: Bytes)
    requires HasParams(event, bucket, key)
    requires storage(bucket, key) == Read(content)
    ensures LambdaHandler(event, storage, endpoint).calls ==
      [GetObject(bucket, key), InvokeEndpoint(Invocation("<INSERT-ENDPOINT-NAME>", "image/jpeg", content))]
  {
  }

  /** A failed invocation gives a 500 with the error text and all four
      headers. */
  lemma EndpointFailure(event: Event, storage: (string, string) -> StorageOutcome,
                        endpoint: Invocation -> EndpointOutcome, bucket: string, key: string,
                        content: Bytes, msg: string)
    requires HasParams(event, bucket, key)
    requires storage(bucket, key) == Read(content)
    requires endpoint(Invocation(EndpointName, ImageContentType, content)) == InvokeFailed(msg)
    ensures LambdaHandler(event, storage, endpoint).outcome == Ok(Response(500, FullHeaders, ErrorBody(msg)))
    ensures |FullHeaders| == 4
  {
  }

  /** Both calls succeeding gives a 200 whose body carries the reply text. */
  lemma BothSucceed(event: Event, storage: (string, string) -> StorageOutcome,
                    endpoint: Invocation -> EndpointOutcome, bucket: string, key: string,
                    content: Bytes, text: string)
    requires HasParams(event, bucket, key)
    requires storage(bucket, key) == Read(content)
    requires endpoint(Invocation(EndpointName, ImageContentType, content)) == Replied(text)
    ensures LambdaHandler(event, storage, endpoint).outcome == Ok(Response(200, FullHeaders, ResultBody(text)))
  {
  }

  /** Every response carries the JSON content type and the wildcard
      allow-origin header, and its status is 200 exactly when its body is a
      result. */
  lemma EveryResponseShape(event: Event, storage: (string, string) -> StorageOutcome,
                           endpoint: Invocation -> EndpointOutcome)
    ensures var h := LambdaHandler(event, storage, endpoint);
      h.outcome.Ok? ==>
        && ContentTypeHeader in h.outcome.value.headers
        && h.outcome.value.headers[ContentTypeHeader] == "application/json"
        && AllowOriginHeader in h.outcome.value.headers
        && h.outcome.value.headers[AllowOriginHeader] == "*"
        && (h.outcome.value.statusCode == 200 <==> h.outcome.value.body.ResultBody?)
        && (h.outcome.value.statusCode == 500 <==> h.outcome.value.body.ErrorBody?)
  {
  }

  /** The endpoint is called only with bytes the storage read produced for
      the requested object. */
  lemma EndpointOnlyAfterRead(event: Event, storage: (string, string) -> StorageOutcome,
                              endpoint: Invocation -> EndpointOutcome, inv: Invocation)
    ensures InvokeEndpoint(inv) in LambdaHandler(event, storage, endpoint).calls ==>
      exists bucket, key :: HasParams(event, bucket, key) && storage(bucket, key) == Read(inv.body)
  {
  }

  /** A missing or empty query string, or a missing parameter, raises before
      any storage access. */
  lemma MissingParamsRaise(event: Event, storage: (string, string) -> StorageOutcome,
                           endpoint: Invocation -> EndpointOutcome)
    requires || !event.queryStringParameters.Params?
             || BucketParam !in event.queryStringParameters.params
             || KeyParam !in event.queryStringParameters.params
    ensures LambdaHandler(event, storage, endpoint).outcome.Raise?
    ensures LambdaHandler(event, storage, endpoint).calls == []
  {
  }
}
