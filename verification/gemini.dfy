/** The response shaping of the remote client. The SDK call is replaced by its
    outcome, passed in as a Result: `Success` with the response the call
    resolved to, or `Failure` with the message it rejected with. What the
    module decides is how a response becomes a value and how every failure is
    reported. */
module Gemini {
  import opened Wrappers

  /** An image payload carried inline in a response part. */
  datatype InlineData = InlineData(data: string, mimeType: string)

  /** A response part; either field may be absent. */
  datatype Part = Part(inlineData: Option<InlineData>, text: Option<string>)

  datatype Content = Content(parts: Option<seq<Part>>)

  datatype Candidate = Candidate(content: Option<Content>)

  /** The fields of a `GenerateContentResponse` the image operation reads. */
  datatype Response = Response(candidates: Option<seq<Candidate>>)

  /** What `JSON.parse` returned: `null`, an object (whose `prompts` property
      is None when absent or falsy), or any other JSON value (a number,
      string, boolean or array, on which `.prompts` reads `undefined`). */
  datatype JsonValue = JsonNull | JsonObject(prompts: Option<seq<string>>) | JsonOther

  const NoImageMessage: string := "No image was generated in the response."
  const ImageFailureMessage: string := "Failed to generate the image. Please check the console for more details."
  const ConceptsFailureMessage: string := "Failed to generate creative concepts."
  const NullPropertyMessage: string := "Cannot read properties of null (reading 'prompts')"

  /** `response.candidates?.[0]?.content?.parts || []`. */
  function FirstCandidateParts(response: Response): (parts: seq<Part>)
    ensures && response.candidates.Some?
            && |response.candidates.value| > 0
            && response.candidates.value[0].content.Some?
            && response.candidates.value[0].content.value.parts.Some?
        ==> parts == response.candidates.value[0].content.value.parts.value
    ensures || response.candidates.None?
            || |response.candidates.value| == 0
            || response.candidates.value[0].content.None?
            || response.candidates.value[0].content.value.parts.None?
        ==> parts == []
  {
    match response.candidates
    case None => []
    case Some(candidates) =>
      if |candidates| == 0 then []
      else
        match candidates[0].content
        case None => []
        case Some(content) =>
          match content.parts
          case None => []
          case Some(ps) => ps
  }

  /** Only candidate 0 is read; the others never matter. */
  lemma OnlyFirstCandidateConsulted(first: Candidate, others: seq<Candidate>, others': seq<Candidate>)
    ensures FirstCandidateParts(Response(Some([first] + others)))
         == FirstCandidateParts(Response(Some([first] + others')))
  {
  }

  /** A missing candidate list, an empty one, a missing content and a missing
      part list all read as no parts; otherwise the parts of candidate 0. */
  lemma FirstCandidatePartsShape(response: Response)
    ensures FirstCandidateParts(response) != [] ==>
      && response.candidates.Some?
      && |response.candidates.value| > 0
      && response.candidates.value[0].content.Some?
      && response.candidates.value[0].content.value.parts == Some(FirstCandidateParts(response))
    ensures response.candidates.None? ==> FirstCandidateParts(response) == []
    ensures response.candidates == Some([]) ==> FirstCandidateParts(response) == []
  {
  }

  /** The data of the first part that carries inline data, if any. */
  function FirstInlineData(parts: seq<Part>): (r: Option<string>)
    ensures r.None? <==> forall i :: 0 <= i < |parts| ==> parts[i].inlineData.None?
    ensures r.Some? ==> exists i ::
      && 0 <= i < |parts|
      && parts[i].inlineData.Some?
      && parts[i].inlineData.value.data == r.value
      && forall j :: 0 <= j < i ==> parts[j].inlineData.None?
    decreases |parts|
  {
    if |parts| == 0 then None
    else if parts[0].inlineData.Some? then Some(parts[0].inlineData.value.data)
    else
      var r := FirstInlineData(parts[1..]);
      assert forall i :: 1 <= i < |parts| ==> parts[i] == parts[1..][i - 1];
      r
  }

  /** Parts after the first one with inline data are ignored. */
  lemma {:induction false} LaterPartsIgnored(parts: seq<Part>, later: seq<Part>)
    requires FirstInlineData(parts).Some?
    ensures FirstInlineData(parts + later) == FirstInlineData(parts)
    decreases |parts|
  {
    if parts[0].inlineData.None? {
      assert (parts + later)[1..] == parts[1..] + later;
      LaterPartsIgnored(parts[1..], later);
    }
  }

  /** The `for ... of` loop over the parts, returning at the first part with
      inline data. */
  method ScanParts(parts: seq<Part>) returns (r: Option<string>)
    ensures r == FirstInlineData(parts)
  {
    var i := 0;
    while i < |parts|
      invariant 0 <= i <= |parts|
      invariant FirstInlineData(parts) == FirstInlineData(parts[i..])
    {
      if parts[i].inlineData.Some? {
        return Some(parts[i].inlineData.value.data);
      }
      assert parts[i..][1..] == parts[i + 1..];
      i := i + 1;
    }
    r := None;
  }

  /** The body of the `try`: the first inline image of candidate 0, or the
      "no image" error. */
  function ExtractImage(response: Response): (r: Result<string, string>)
    ensures r.Success? <==> FirstInlineData(FirstCandidateParts(response)).Some?
    ensures r.Success? ==> r.value == FirstInlineData(FirstCandidateParts(response)).value
    ensures r.Failure? ==> r.error == NoImageMessage
  {
    match FirstInlineData(FirstCandidateParts(response))
    case Some(data) => Success(data)
    case None => Failure(NoImageMessage)
  }

  /** `generateImageModification`, given how the SDK call ended. Any failure,
      from the transport or from a response without an image, is rethrown as
      one fixed message. */
  function GenerateImageModification(call: Result<Response, string>): (r: Result<string, string>)
    ensures r.Success? <==> call.Success? && ExtractImage(call.value).Success?
    ensures r.Success? ==> r.value == FirstInlineData(FirstCandidateParts(call.value)).value
    ensures r.Failure? ==> r.error == ImageFailureMessage
  {
    match call
    case Failure(_) => Failure(ImageFailureMessage)
    case Success(response) =>
      match ExtractImage(response)
      case Success(data) => Success(data)
      case Failure(_) => Failure(ImageFailureMessage)
  }

  /** `result.prompts || []` on the parsed value; reading a property of
      `null` throws. */
  function PromptsOrEmpty(json: JsonValue): (r: Result<seq<string>, string>)
    ensures r.Failure? <==> json.JsonNull?
    ensures json.JsonObject? && json.prompts.Some? ==> r == Success(json.prompts.value)
    ensures json.JsonObject? && json.prompts.None? ==> r == Success([])
    ensures json.JsonOther? ==> r == Success([])
  {
    match json
    case JsonNull => Failure(NullPropertyMessage)
    case JsonObject(prompts) =>
      (match prompts
       case Some(ps) => Success(ps)
       case None => Success([]))
    case JsonOther => Success([])
  }

  /** `generateCreativeConcepts`, given how the SDK call ended (the response
      text, or a rejection) and a model of trimming and `JSON.parse`. Any
      failure, of the transport, of the parse or of the property read, is
      rethrown as one fixed message. */
  function GenerateCreativeConcepts(call: Result<string, string>, parse: string -> Result<JsonValue, string>)
    : (r: Result<seq<string>, string>)
    ensures r.Success? <==> call.Success? && parse(call.value).Success? && !parse(call.value).value.JsonNull?
    ensures r.Success? && parse(call.value).value.JsonObject? && parse(call.value).value.prompts.Some? ==>
      r.value == parse(call.value).value.prompts.value
    ensures r.Success? && !(parse(call.value).value.JsonObject? && parse(call.value).value.prompts.Some?) ==>
      r.value == []
    ensures r.Failure? ==> r.error == ConceptsFailureMessage
  {
    match call
    case Failure(_) => Failure(ConceptsFailureMessage)
    case Success(text) =>
      match parse(text)
      case Failure(_) => Failure(ConceptsFailureMessage)
      case Success(json) =>
        match PromptsOrEmpty(json)
        case Success(prompts) => Success(prompts)
        case Failure(_) => Failure(ConceptsFailureMessage)
  }
}
