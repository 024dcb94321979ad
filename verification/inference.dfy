/**
 The model-hosting adapter: the request guard of `input_fn`, the geometry and
 generation settings of `predict_fn`, and the response guard and text
 cleanup of `output_fn` (custom-inference/inference.py).

 Image decoding, the model, the tokenizer and JSON conversion are library
 code and enter only as values or function parameters.
 */
module Inference {
  import opened Outcomes
  import opened PyStr
  import opened TagRegex

  /** The request content types `input_fn` accepts start with this. */
  const ImagePrefix: string := "image/"

  /** The only response content type `output_fn` produces. */
  const JsonContentType: string := "application/json"

  /** The error both hooks raise for a content type they do not handle. */
  function UnsupportedContentType(contentType: string): PyError {
    ValueError("Unsupported content type: " + contentType)
  }

  // ---------------------------------------------------------------- input_fn

  /** The request body as handed to the image library. */
  datatype EncodedImage = EncodedImage(data: Bytes)

  /** `input_fn(request_body, request_content_type)`. */
  function InputFn(body: Bytes, contentType: string): (r: Result<EncodedImage>)
    ensures r.Ok? <==> StartsWith(contentType, ImagePrefix)
    ensures r.Ok? ==> r.value.data == body
    ensures r.Raise? ==> r.error == UnsupportedContentType(contentType)
  {
    if StartsWith(contentType, ImagePrefix) then Ok(EncodedImage(body))
    else Raise(UnsupportedContentType(contentType))
  }

  /** Every `image/...` type is accepted, parameters and all, and the body
      reaches the image library untouched. */
  lemma InputFnAcceptsEveryImageType(body: Bytes, subtype: string)
    ensures InputFn(body, ImagePrefix + subtype) == Ok(EncodedImage(body))
  {
    assert (ImagePrefix + subtype)[..|ImagePrefix|] == ImagePrefix;
  }

  /** The prefix test is case-sensitive and needs the slash. */
  lemma InputFnRejections(body: Bytes)
    ensures InputFn(body, "Image/png").Raise?
    ensures InputFn(body, "image").Raise?
    ensures InputFn(body, "application/octet-stream").Raise?
    ensures InputFn(body, "").error == ValueError("Unsupported content type: ")
  {
    assert "Image/png"[..6][0] == 'I';
    assert "application/octet-stream"[..6][0] == 'a';
  }

  // -------------------------------------------------------------- predict_fn

  /** Width and height of an image, in PIL's `size` order. */
  datatype Dims = Dims(width: nat, height: nat)

  /** The orientation step: a portrait image is turned by 90 degrees, which
      exchanges its width and height. */
  function Orient(d: Dims): (r: Dims)
    ensures r.width >= r.height
    ensures multiset{r.width, r.height} == multiset{d.width, d.height}
  {
    if d.width < d.height then Dims(d.height, d.width) else d
  }

  /** The two sides alone decide the outcome, so orienting twice changes
      nothing more. */
  lemma OrientUnique(d: Dims, e: Dims)
    requires e.width >= e.height
    requires multiset{e.width, e.height} == multiset{d.width, d.height}
    ensures Orient(d) == e
  {
    var r := Orient(d);
    assert e.width in multiset{r.width, r.height};
    assert e.height in multiset{r.width, r.height};
    assert r.width in multiset{e.width, e.height};
  }

  lemma OrientIdempotent(d: Dims)
    ensures Orient(Orient(d)) == Orient(d)
  {
    OrientUnique(Orient(d), Orient(d));
  }

  /** A landscape or square image keeps its size; a portrait one has it
      exchanged. */
  lemma OrientKeepsLandscape(d: Dims)
    ensures d.width >= d.height ==> Orient(d) == d
    ensures d.width < d.height ==> Orient(d) == Dims(d.height, d.width)
  {
    if d.width >= d.height {
      OrientUnique(d, d);
    } else {
      OrientUnique(d, Dims(d.height, d.width));
    }
  }

  /** Python's `xs[::-1]`. */
  function Reversed<T>(xs: seq<T>): (r: seq<T>)
    ensures |r| == |xs|
    ensures forall i :: 0 <= i < |xs| ==> r[i] == xs[|xs| - 1 - i]
  {
    if xs == [] then [] else Reversed(xs[1..]) + [xs[0]]
  }

  /** The nominal `image_size` of `predict_fn`. */
  const ImageSize: seq<nat> := [1280, 960]

  /** The size given to the image processor: `image_size[::-1]`. */
  function ProcessorSize(): (r: seq<nat>)
    ensures r == [960, 1280]
    ensures Reversed(r) == ImageSize
  {
    Reversed(ImageSize)
  }

  /** The task prompt that seeds the decoder. */
  const TaskPrompt: string := "<s_demo_v1>"

  /** The parts of the tokenizer the adapter reads. */
  datatype Tokenizer = Tokenizer(
    eosToken: string, padToken: string,
    eosTokenId: nat, padTokenId: nat, unkTokenId: nat)

  /** Everything `predict_fn` hands to the processor and to `generate`. */
  datatype GenerateCall = GenerateCall(
    image: Dims,
    processorSize: seq<nat>,
    alignLongAxis: bool,
    taskPrompt: string,
    maxLength: nat,
    earlyStopping: bool,
    padTokenId: nat,
    eosTokenId: nat,
    useCache: bool,
    numBeams: nat,
    badWordsIds: seq<seq<nat>>,
    returnDictInGenerate: bool,
    outputScores: bool)

  /** `predict_fn` up to the `generate` call, for an input of size `input`
      and a decoder with `maxPositionEmbeddings` positions. */
  function PredictFn(input: Dims, tok: Tokenizer, maxPositionEmbeddings: nat): (g: GenerateCall)
    ensures g.image.width >= g.image.height
    ensures multiset{g.image.width, g.image.height} == multiset{input.width, input.height}
    ensures g.processorSize == [960, 1280] && !g.alignLongAxis
    ensures g.taskPrompt == "<s_demo_v1>"
    ensures g.numBeams == 1 && g.earlyStopping && g.useCache
    ensures g.maxLength == maxPositionEmbeddings
    ensures g.padTokenId == tok.padTokenId && g.eosTokenId == tok.eosTokenId
    ensures g.badWordsIds == [[tok.unkTokenId]]
    ensures g.returnDictInGenerate && g.outputScores
  {
    GenerateCall(
      image := Orient(input),
      processorSize := ProcessorSize(),
      alignLongAxis := false,
      taskPrompt := TaskPrompt,
      maxLength := maxPositionEmbeddings,
      earlyStopping := true,
      padTokenId := tok.padTokenId,
      eosTokenId := tok.eosTokenId,
      useCache := true,
      numBeams := 1,
      badWordsIds := [[tok.unkTokenId]],
      returnDictInGenerate := true,
      outputScores := true)
  }

  // --------------------------------------------------------------- output_fn

  /** The cleanup of the decoded sequence in `output_fn`: delete the EOS and
      then the PAD token everywhere, delete the first `<...>` span, strip. */
  function Cleanup(sequence: string, eos: string, pad: string): (r: string)
    ensures |r| <= |sequence|
    ensures NoEdgeSpace(r)
  {
    Strip(SubFirstTag(RemoveAll(RemoveAll(sequence, eos), pad)))
  }

  /** Stripping the cleaned sequence again changes nothing. */
  lemma CleanupStable(sequence: string, eos: string, pad: string)
    ensures Strip(Cleanup(sequence, eos, pad)) == Cleanup(sequence, eos, pad)
  {
    StripFixedPointIff(Cleanup(sequence, eos, pad));
  }

  /** With neither token and no `<...>` span present, cleanup is strip. */
  lemma CleanupPlain(sequence: string, eos: string, pad: string)
    requires !Contains(sequence, eos) && !Contains(sequence, pad)
    requires !HasTag(sequence)
    ensures Cleanup(sequence, eos, pad) == Strip(sequence)
  {
    assert OccursAt(sequence, [], 0);
    RemoveAllUnchangedIff(sequence, eos);
    RemoveAllUnchangedIff(sequence, pad);
  }

  /** A worked sequence: the end token goes, then the leading task tag, then
      the surrounding blanks. */
  lemma CleanupExample()
    ensures Cleanup(" <s_x>a</s> ", "</s>", "<pad>") == "a"
  {
    ExampleEos();
    ExamplePad();
    ExampleTag();
    ExampleStrip();
  }

  lemma ExampleEos()
    ensures RemoveAll(" <s_x>a</s> ", "</s>") == " <s_x>a "
  {
    var s := " <s_x>a</s> ";
    assert s[7..11] == "</s>";
    forall j: nat | j < 7
      ensures !OccursAt(s, "</s>", j)
    {
      assert s[j..j + 4][1] == s[j + 1];
    }
    RemoveAllLeftmost(s, "</s>", 7);
    RemoveFromTail(s, "</s>", 11);
  }

  lemma ExamplePad()
    ensures RemoveAll(" <s_x>a ", "<pad>") == " <s_x>a "
  {
    var s := " <s_x>a ";
    forall i: nat | i <= |s|
      ensures !OccursAt(s, "<pad>", i)
    {
      if i + 5 <= |s| {
        assert s[i..i + 5][0] == s[i] && s[i..i + 5][1] == s[i + 1];
      }
    }
    RemoveAllUnchangedIff(s, "<pad>");
  }

  lemma ExampleTag()
    ensures SubFirstTag(" <s_x>a ") == " a "
  {
    var s := " <s_x>a ";
    assert TagSpan(s, 1, 5);
    assert FirstMatch(s, 1, 5);
  }

  lemma ExampleStrip()
    ensures Strip(" a ") == "a"
  {
    assert Frames(" a ", "a", 1);
    StripUnique(" a ", "a", 1);
  }

  /** `output_fn(prediction_output, content_type)`, given the decoded
      sequence; `render` stands for `json.dumps(processor.token2json(.))`. */
  function OutputFn(decoded: string, tok: Tokenizer, contentType: string, render: string -> string): (r: Result<string>)
    ensures r.Ok? <==> contentType == JsonContentType
    ensures r.Ok? ==> r.value == render(Cleanup(decoded, tok.eosToken, tok.padToken))
    ensures r.Raise? ==> r.error == UnsupportedContentType(contentType)
  {
    if contentType == JsonContentType then
      Ok(render(Cleanup(decoded, tok.eosToken, tok.padToken)))
    else
      Raise(UnsupportedContentType(contentType))
  }

  /** The response guard is an exact comparison: parameterised or
      differently cased variants are refused. */
  lemma OutputFnRejectsVariants(decoded: string, tok: Tokenizer, render: string -> string)
    ensures OutputFn(decoded, tok, "application/json; charset=utf-8", render).Raise?
    ensures OutputFn(decoded, tok, "Application/JSON", render).Raise?
    ensures OutputFn(decoded, tok, "text/plain", render).Raise?
  {
    assert "Application/JSON"[0] != JsonContentType[0];
  }
}
