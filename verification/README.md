# Document-understanding inference glue, modelled in Dafny

The repository serves a pretrained document-image model through two small
pieces of glue:

- a model-hosting adapter (`custom-inference/inference.py`) with the hooks
  `input_fn`, `predict_fn` and `output_fn`: it accepts only `image/*`
  requests, turns portrait images to landscape, configures the image
  processor and the generation call, and cleans the decoded token sequence
  before it is converted to JSON, and only for an `application/json`
  response;
- an HTTP gateway function (`lambda/lambda_function.py`, `lambda_handler`)
  that reads an image from object storage, forwards it to the inference
  endpoint, and shapes the HTTP response (status, headers, body).

The model keeps the deterministic logic and replaces every library call by
a value or a function parameter:

- `outcomes.dfy` (`Outcomes`): `Option`, the Python exceptions that occur
  (`ValueError`, `KeyError`, `TypeError`), and `Result`, whose `Raise` case
  is an exception escaping the Python function.
- `py_str.dfy` (`PyStr`): CPython's `str.startswith`, `str.replace(t, "")`
  (non-overlapping, left to right, no re-scan) and `str.strip()` with the
  whitespace set of `str.isspace`.
- `tag_regex.dfy` (`TagRegex`): `re.sub(r"<.*?>", "", s, count=1)`. The match
  is the leftmost `<` whose next `>` comes before any newline, ending at that
  `>`; it is not anchored to the start of the text.
- `inference.py` hooks in `inference.dfy` (`Inference`): the two
  content-type guards with their exact error message, the orientation rule
  and the reversed processor size, the generation settings, and the
  cleanup pipeline.
- `gateway.dfy` (`Gateway`): the handler as a total function of the event, a
  storage-read outcome function and an endpoint outcome function. It
  returns the sequence of SDK calls it issued and the response (or the
  exception raised by a missing query parameter). Bodies are the datatype
  `ResultBody(text) | ErrorBody(message)` rather than JSON text.

Two details of the code are easy to misread, and the model follows the code
in both. The cleanup does not strip a `<...>` span from the start of the
text only: `re.sub` searches the whole text, so the first span anywhere is
removed (`TagRegex.SubFirstTagNotAnchored`). And not every response carries
the allow-methods and allow-headers entries: the storage-failure response at
lambda/lambda_function.py:15-22 has only the content-type and allow-origin
headers (`Gateway.StorageFailure`).

## Model

| member | source | states |
|---|---|---|
| `PyStr.RemoveAll` | custom-inference/inference.py:120 | `s.replace(t, "")` never makes the text longer |
| `PyStr.RemoveAllUnchangedIff` | custom-inference/inference.py:120 | deleting a non-empty token leaves the text unchanged exactly when the token does not occur in it |
| `PyStr.RemoveFrom` | custom-inference/inference.py:120 | the scan resumed at index `k` emits no more characters than remain from index `k` on |
| `PyStr.RemoveFromUnchangedIff` | custom-inference/inference.py:120 | the resumed scan copies `s[k..]` unchanged exactly when no occurrence starts at or after `k` |
| `PyStr.RemoveFromLeftmost` | custom-inference/inference.py:120 | from `k`, the text up to the next occurrence is copied verbatim and the scan resumes right after that occurrence |
| `PyStr.RemoveAllLeftmost` | custom-inference/inference.py:120 | the leftmost occurrence is deleted, the text before it is kept verbatim and the scan resumes right after it (non-overlapping, left to right) |
| `PyStr.RemoveAllNoRescan` | custom-inference/inference.py:120 | the deletion does not re-scan: removing `ab` from `aabb` leaves `ab`, which still contains the token |
| `PyStr.LeadEnd` | custom-inference/inference.py:121 | the left scan stops at the first character that is not whitespace, everything before it being whitespace |
| `PyStr.TrailStart` | custom-inference/inference.py:121 | the right scan, never passing the left end, stops just after the last character that is not whitespace, everything after it being whitespace |
| `PyStr.Strip` | custom-inference/inference.py:121 | the result is a window of the input with only whitespace on both sides and no whitespace at either edge |
| `PyStr.FramesUnique` | custom-inference/inference.py:121 | two such windows of the same text are equal |
| `PyStr.StripUnique` | custom-inference/inference.py:121 | any window of the input with only whitespace around it and none at its edges is what `strip()` returns |
| `PyStr.StripIdempotent` | custom-inference/inference.py:121 | stripping twice is stripping once |
| `PyStr.StripFixedPointIff` | custom-inference/inference.py:121 | `strip()` leaves a text unchanged exactly when it has no whitespace at either edge |
| `TagRegex.CloseFrom` | custom-inference/inference.py:121 | the lazy `.*?>` tail finds the nearest `>` after the `<` with no newline in between, or reports that no match starts at that `<` |
| `TagRegex.FindFrom` | custom-inference/inference.py:121 | scanning start positions left to right finds the leftmost, shortest `<.*?>` match, or proves there is none |
| `TagRegex.FindTag` | custom-inference/inference.py:121 | the search reports the first match, and reports none exactly when the pattern matches nowhere |
| `TagRegex.FirstMatchUnique` | custom-inference/inference.py:121 | the leftmost shortest match is unique |
| `TagRegex.SubFirstTag` | custom-inference/inference.py:121 | without a match the text is unchanged; otherwise exactly the first match `s[i..j+1]` is deleted and nothing else |
| `TagRegex.SubFirstTagChangesIff` | custom-inference/inference.py:121 | the substitution changes the text exactly when the pattern matches, and then deletes at least two characters |
| `TagRegex.SubFirstTagNotAnchored` | custom-inference/inference.py:121 | a span not at the start is removed, and only the first of two spans |
| `TagRegex.SubFirstTagSkipsNewline` | custom-inference/inference.py:121 | a newline between `<` and `>` rules out that match and the search moves on to a later span |
| `Inference.InputFn` | custom-inference/inference.py:45-51 | the request succeeds exactly when the content type starts with `image/`, passes the body on unchanged, and otherwise raises `ValueError("Unsupported content type: <type>")` |
| `Inference.InputFnAcceptsEveryImageType` | custom-inference/inference.py:45-49 | every `image/...` type, parameters included, is accepted with the body untouched |
| `Inference.InputFnRejections` | custom-inference/inference.py:50-51 | `Image/png`, `image` and `application/octet-stream` are refused; the error text embeds the content type |
| `Inference.Orient` | custom-inference/inference.py:70-71 | after orientation width is at least height, and the two sides are the input's two sides |
| `Inference.OrientUnique` | custom-inference/inference.py:70-71 | those two facts determine the oriented size completely |
| `Inference.OrientIdempotent` | custom-inference/inference.py:70-71 | orienting an oriented image changes nothing |
| `Inference.OrientKeepsLandscape` | custom-inference/inference.py:70-71 | a landscape or square image keeps its size; a portrait image has width and height exchanged |
| `Inference.Reversed` | custom-inference/inference.py:75 | `xs[::-1]` has the same length and holds the elements in reverse order |
| `Inference.ProcessorSize` | custom-inference/inference.py:74-75 | the processor size is `[960, 1280]`, the reverse of the declared `[1280, 960]` |
| `Inference.PredictFn` | custom-inference/inference.py:69-96 | the processed image is landscape with the input's sides; size `[960, 1280]` without long-axis alignment; prompt `<s_demo_v1>`; greedy single beam with early stopping; max length from the decoder; unknown token banned; scores returned |
| `Inference.Cleanup` | custom-inference/inference.py:120-121 | the cleaned sequence is never longer than the decoded one and has no whitespace at either edge |
| `Inference.CleanupStable` | custom-inference/inference.py:121 | stripping the cleaned sequence again leaves it unchanged |
| `Inference.CleanupPlain` | custom-inference/inference.py:120-121 | with neither token and no `<...>` span in the text, cleanup reduces to `strip()` |
| `Inference.CleanupExample` | custom-inference/inference.py:120-121 | on ` <s_x>a</s> ` with end token `</s>` and pad token `<pad>`, cleanup removes the end token, then the leading tag, then the blanks, leaving `a` |
| `Inference.OutputFn` | custom-inference/inference.py:114-127 | output proceeds exactly when the content type is `application/json`, and renders the cleaned sequence; any other type raises `ValueError("Unsupported content type: <type>")` |
| `Inference.OutputFnRejectsVariants` | custom-inference/inference.py:114-127 | `application/json; charset=utf-8`, `Application/JSON` and `text/plain` are refused |
| `Gateway.QueryParam` | lambda/lambda_function.py:6-7 | a query parameter is found exactly when the query mapping is present and holds the name, and is then the mapped value |
| `Gateway.LambdaHandler` | lambda/lambda_function.py:4-51 | the handler raises exactly when a query parameter is missing, and then makes no call; otherwise its first call reads the requested object |
| `Gateway.StorageFailure` | lambda/lambda_function.py:11-22 | a failed read gives status 500 and the error text, with only the content-type and allow-origin headers, and the endpoint is not called |
| `Gateway.EndpointGetsStoredBytes` | lambda/lambda_function.py:29-33 | after a successful read the endpoint is called once, under the fixed endpoint name, with content type `image/jpeg` and exactly the bytes read |
| `Gateway.EndpointFailure` | lambda/lambda_function.py:38-51 | a failed invocation gives status 500 and the error text with all four headers |
| `Gateway.BothSucceed` | lambda/lambda_function.py:35-51 | a successful read and invocation give status 200 and the reply text as the result |
| `Gateway.EveryResponseShape` | lambda/lambda_function.py:13-51 | every response carries `Content-Type: application/json` and `Access-Control-Allow-Origin: *`; status 200 goes with a result body and 500 with an error body |
| `Gateway.EndpointOnlyAfterRead` | lambda/lambda_function.py:11-33 | the endpoint is only ever called with bytes that the storage read returned for the requested object |
| `Gateway.MissingParamsRaise` | lambda/lambda_function.py:6-7 | a missing query string or parameter raises before any storage access |

## Left out

- `model_fn`: device selection and downloading the model and processor are library I/O with no visible logic to model.
- Image decoding (`Image.open`), the RGB conversion and the pixel transpose: only the effect of the rotation on (width, height) is modelled; `input_fn` hands the request bytes on unchanged, and a decoding failure of the image library is not modelled.
- Tokenisation of the task prompt, `model.generate`, `batch_decode` and `token2json`: library internals. `predict_fn` is modelled up to the arguments of the `generate` call, and `output_fn` takes the decoded sequence as input.
- `json.dumps`: `output_fn` takes the conversion to JSON text as the function parameter `render`; the gateway's bodies are a datatype instead of JSON text.
- The boto3 clients: storage and endpoint calls are abstract outcomes; creating the clients is assumed not to fail, and the SDK's exception texts are abstract strings.
- The UTF-8 decoding of the endpoint reply is folded into the endpoint outcome: a decoding failure is raised inside the same `try` and takes the `InvokeFailed` path.
- `print` logging and the unused `context` argument of the handler.
