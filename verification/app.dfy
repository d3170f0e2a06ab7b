/** The session held by the application component: eight pieces of state and
    the handlers that move it from one value to the next. Every handler is a
    pure function from the current state to the next one. An asynchronous
    handler is split at its `await`: a Start function for the synchronous
    part before the remote call, and a Settle function that applies the
    call's outcome (passed in as a Result) to whatever the state is by then.
    The Handle function is the two run back to back, with nothing in
    between. */
module App {
  import opened Wrappers
  import opened Text
  import opened Types
  import Uploader
  import Gemini

  /** The eight state hooks of the application component. */
  datatype State = State(
    step: WorkflowStep,
    sourceImage: Option<SourceImage>,
    generatedImages: seq<GeneratedImage>,
    prompt: string,
    isLoading: bool,
    loadingMessage: string,
    error: Option<string>,
    creativeSuggestions: seq<string>)

  /** The state on first render. */
  const Initial: State := State(Upload, None, [], "", false, "", None, [])

  const MissingPromptError: string := "Please select a preset or write a base prompt first."
  const ConceptsLoadingMessage: string := "Generating creative ideas..."
  const SuggestionsFallbackError: string := "Failed to get suggestions."
  const MissingInputError: string := "Source image and prompt are required."
  const GenerateLoadingMessage: string := "Generating your masterpiece..."
  const PngDataUrlPrefix: string := "data:image/png;base64,"

  /** The editor is shown exactly when there is a source image to edit. */
  predicate StepMatchesImage(s: State) {
    s.step == Edit <==> s.sourceImage.Some?
  }

  /** What `generateImageModification` is called with. */
  datatype GenerateRequest = GenerateRequest(image: SourceImage, prompt: string)

  /** `handleImageUpload`: store the image, open the editor, clear the error. */
  function HandleImageUpload(s: State, image: SourceImage): (r: State)
    ensures r.sourceImage == Some(image) && r.step == Edit && r.error == None
    ensures StepMatchesImage(r)
    ensures r.prompt == s.prompt
    ensures r.generatedImages == s.generatedImages
    ensures r.creativeSuggestions == s.creativeSuggestions
    ensures r.isLoading == s.isLoading && r.loadingMessage == s.loadingMessage
  {
    s.(sourceImage := Some(image), step := Edit, error := None)
  }

  /** `handlePresetSelect`: the preset's text becomes the prompt and the old
      suggestions are dropped. */
  function HandlePresetSelect(s: State, preset: OutputPreset): (r: State)
    ensures r.prompt == preset.prompt
    ensures r.creativeSuggestions == []
    ensures r.(prompt := s.prompt, creativeSuggestions := s.creativeSuggestions) == s
  {
    s.(prompt := preset.prompt, creativeSuggestions := [])
  }

  /** The prompt text area's change handler. */
  function HandlePromptChange(s: State, text: string): (r: State)
    ensures r.prompt == text
    ensures r.(prompt := s.prompt) == s
  {
    s.(prompt := text)
  }

  /** A click on suggestion number `index`: its text becomes the prompt; the
      list itself is kept. */
  function HandleSuggestionClick(s: State, index: nat): (r: State)
    requires index < |s.creativeSuggestions|
    ensures r.prompt in s.creativeSuggestions
    ensures r.prompt == s.creativeSuggestions[index]
    ensures r.(prompt := s.prompt) == s
  {
    s.(prompt := s.creativeSuggestions[index])
  }

  /** `handleGetCreativeConcepts` up to its `await`. With an empty prompt it
      sets the guard's error and makes no call (None); otherwise it raises
      the busy flag and returns the prompt to send. */
  function StartConcepts(s: State): (r: (State, Option<string>))
    ensures s.prompt == "" ==> r.1 == None && r.0 == s.(error := Some(MissingPromptError))
    ensures s.prompt != "" ==> r.1 == Some(s.prompt)
    ensures s.prompt != "" ==>
      && r.0.isLoading
      && r.0.loadingMessage == ConceptsLoadingMessage
      && r.0.error == None
      && r.0.(isLoading := s.isLoading, loadingMessage := s.loadingMessage, error := s.error) == s
  {
    if s.prompt == "" then
      (s.(error := Some(MissingPromptError)), None)
    else
      (s.(isLoading := true, loadingMessage := ConceptsLoadingMessage, error := None), Some(s.prompt))
  }

  /** The error text the suggestion handler shows for a rejection: its
      message, or a fallback when the message is empty. */
  function SuggestionsError(message: string): (e: string)
    ensures e != ""
    ensures message != "" ==> e == message
    ensures message == "" ==> e == SuggestionsFallbackError
  {
    if message == "" then SuggestionsFallbackError else message
  }

  /** `handleGetCreativeConcepts` after its `await`: on success the list is
      replaced, on failure the error is set and the list kept; the busy flag
      is lowered either way. */
  function SettleConcepts(s: State, outcome: Result<seq<string>, string>): (r: State)
    ensures !r.isLoading
    ensures outcome.Success? ==> r.creativeSuggestions == outcome.value && r.error == s.error
    ensures outcome.Failure? ==>
      r.creativeSuggestions == s.creativeSuggestions && r.error == Some(SuggestionsError(outcome.error))
    ensures r.(isLoading := s.isLoading, creativeSuggestions := s.creativeSuggestions, error := s.error) == s
  {
    match outcome
    case Success(concepts) => s.(creativeSuggestions := concepts, isLoading := false)
    case Failure(message) => s.(error := Some(SuggestionsError(message)), isLoading := false)
  }

  /** `handleGetCreativeConcepts` run to completion, `outcome` being what the
      remote call settled with. */
  function HandleGetCreativeConcepts(s: State, outcome: Result<seq<string>, string>): (r: State)
    ensures s.prompt == "" ==> r == s.(error := Some(MissingPromptError))
    ensures s.prompt != "" ==> !r.isLoading && r.loadingMessage == ConceptsLoadingMessage
    ensures s.prompt != "" && outcome.Success? ==> r.creativeSuggestions == outcome.value && r.error == None
    ensures s.prompt != "" && outcome.Failure? ==>
      && r.creativeSuggestions == s.creativeSuggestions
      && r.error == Some(if outcome.error == "" then SuggestionsFallbackError else outcome.error)
    ensures r.step == s.step && r.sourceImage == s.sourceImage
    ensures r.prompt == s.prompt && r.generatedImages == s.generatedImages
  {
    var (started, request) := StartConcepts(s);
    if request.None? then started else SettleConcepts(started, outcome)
  }

  /** `handleGenerate` up to its `await`. Without a source image or with an
      empty prompt it sets the guard's error and makes no call; otherwise it
      raises the busy flag and returns the request. The busy flag is not
      consulted: a second click while busy starts a second request. */
  function StartGenerate(s: State): (r: (State, Option<GenerateRequest>))
    ensures (s.sourceImage.None? || s.prompt == "") ==>
      r.1 == None && r.0 == s.(error := Some(MissingInputError))
    ensures (s.sourceImage.Some? && s.prompt != "") ==>
      && r.1 == Some(GenerateRequest(s.sourceImage.value, s.prompt))
      && r.0.isLoading
      && r.0.loadingMessage == GenerateLoadingMessage
      && r.0.error == None
      && r.0.(isLoading := s.isLoading, loadingMessage := s.loadingMessage, error := s.error) == s
  {
    if s.sourceImage.None? || s.prompt == "" then
      (s.(error := Some(MissingInputError)), None)
    else
      (s.(isLoading := true, loadingMessage := GenerateLoadingMessage, error := None),
       Some(GenerateRequest(s.sourceImage.value, s.prompt)))
  }

  /** The gallery entry built from a generated base64 payload. */
  function NewImage(id: string, payload: string, prompt: string): (g: GeneratedImage)
    ensures StartsWith(g.src, PngDataUrlPrefix) && g.src[|PngDataUrlPrefix|..] == payload
    ensures g.id == id && g.prompt == prompt
  {
    var src := PngDataUrlPrefix + payload;
    assert src[..|PngDataUrlPrefix|] == PngDataUrlPrefix;
    GeneratedImage(id, src, prompt)
  }

  /** `handleGenerate` after its `await`, applied to the state as it is then.
      On success the new image goes to the front of the history and carries
      the prompt the request was made with; on failure the history is kept
      and the error set. The busy flag is lowered either way. */
  function SettleGenerate(s: State, request: GenerateRequest, id: string, outcome: Result<string, string>): (r: State)
    ensures !r.isLoading
    ensures outcome.Success? ==>
      && |r.generatedImages| == |s.generatedImages| + 1
      && r.generatedImages[0] == NewImage(id, outcome.value, request.prompt)
      && r.generatedImages[1..] == s.generatedImages
      && r.error == s.error
    ensures outcome.Failure? ==> r.generatedImages == s.generatedImages && r.error == Some(outcome.error)
    ensures r.(isLoading := s.isLoading, generatedImages := s.generatedImages, error := s.error) == s
  {
    match outcome
    case Success(payload) =>
      s.(generatedImages := [NewImage(id, payload, request.prompt)] + s.generatedImages, isLoading := false)
    case Failure(message) =>
      s.(error := Some(message), isLoading := false)
  }

  /** `handleGenerate` run to completion; `id` is the timestamp taken when
      the image arrives and `outcome` what the remote call settled with. */
  function HandleGenerate(s: State, id: string, outcome: Result<string, string>): (r: State)
    ensures (s.sourceImage.None? || s.prompt == "") ==> r == s.(error := Some(MissingInputError))
    ensures (s.sourceImage.Some? && s.prompt != "") ==> !r.isLoading && r.loadingMessage == GenerateLoadingMessage
    ensures (s.sourceImage.Some? && s.prompt != "") && outcome.Success? ==>
      && |r.generatedImages| == |s.generatedImages| + 1
      && r.generatedImages[0].src == PngDataUrlPrefix + outcome.value
      && r.generatedImages[0].prompt == s.prompt
      && r.generatedImages[0].id == id
      && r.generatedImages[1..] == s.generatedImages
      && r.error == None
    ensures (s.sourceImage.Some? && s.prompt != "") && outcome.Failure? ==>
      r.generatedImages == s.generatedImages && r.error == Some(outcome.error)
    ensures r.step == s.step && r.sourceImage == s.sourceImage
    ensures r.prompt == s.prompt && r.creativeSuggestions == s.creativeSuggestions
  {
    var (started, request) := StartGenerate(s);
    if request.None? then started else SettleGenerate(started, request.value, id, outcome)
  }

  /** `handleStartOver`: back to the upload page with an empty prompt, no
      error and no suggestions. The history is kept. */
  function HandleStartOver(s: State): (r: State)
    ensures r.step == Upload && r.sourceImage == None
    ensures r.prompt == "" && r.error == None && r.creativeSuggestions == []
    ensures StepMatchesImage(r)
    ensures r.generatedImages == s.generatedImages
    ensures r.isLoading == s.isLoading && r.loadingMessage == s.loadingMessage
  {
    s.(step := Upload, sourceImage := None, prompt := "", error := None, creativeSuggestions := [])
  }

  /** A user action, together with the outcome of the I/O it triggers. */
  datatype Event =
    | FileChosen(file: Uploader.File, read: Uploader.ReadOutcome)
    | PresetClicked(preset: OutputPreset)
    | PromptTyped(text: string)
    | SuggestionClicked(index: nat)
    | IdeasRequested(call: Result<string, string>, parse: string -> Result<Gemini.JsonValue, string>)
    | GenerateClicked(id: string, response: Result<Gemini.Response, string>)
    | StartOverClicked

  /** The effect of one action on the session. A file goes through the upload
      widget first and reaches the session only if it becomes an image; the
      remote calls go through the client's response shaping. A click on a
      suggestion that is not in the list has nothing to click. */
  function Step(s: State, e: Event): State {
    match e
    case FileChosen(file, read) =>
      (match Uploader.HandleFile(file, read)
       case Uploaded(image) => HandleImageUpload(s, image)
       case Alerted(_) => s)
    case PresetClicked(preset) => HandlePresetSelect(s, preset)
    case PromptTyped(text) => HandlePromptChange(s, text)
    case SuggestionClicked(index) =>
      if index < |s.creativeSuggestions| then HandleSuggestionClick(s, index) else s
    case IdeasRequested(call, parse) =>
      HandleGetCreativeConcepts(s, Gemini.GenerateCreativeConcepts(call, parse))
    case GenerateClicked(id, response) =>
      HandleGenerate(s, id, Gemini.GenerateImageModification(response))
    case StartOverClicked => HandleStartOver(s)
  }

  /** The session after a sequence of actions, each run to completion. */
  function Run(s: State, events: seq<Event>): State
    decreases |events|
  {
    if |events| == 0 then s else Run(Step(s, events[0]), events[1..])
  }

  /** A gallery entry as the session builds it: a PNG data URL made from a
      non-empty prompt. */
  predicate WellFormedEntry(g: GeneratedImage) {
    StartsWith(g.src, PngDataUrlPrefix) && g.prompt != ""
  }

  /** Every action keeps the step in agreement with the source image. */
  lemma StepKeepsStepMatchesImage(s: State, e: Event)
    requires StepMatchesImage(s)
    ensures StepMatchesImage(Step(s, e))
  {
  }

  /** Every sequence of actions keeps the step in agreement with the source
      image. */
  lemma {:induction false} RunKeepsStepMatchesImage(s: State, events: seq<Event>)
    requires StepMatchesImage(s)
    ensures StepMatchesImage(Run(s, events))
    decreases |events|
  {
    if |events| > 0 {
      StepKeepsStepMatchesImage(s, events[0]);
      RunKeepsStepMatchesImage(Step(s, events[0]), events[1..]);
    }
  }

  /** From the first render on, the editor is shown exactly when there is a
      source image. */
  lemma ReachableStepMatchesImage(events: seq<Event>)
    ensures StepMatchesImage(Run(Initial, events))
  {
    RunKeepsStepMatchesImage(Initial, events);
  }

  /** One action either keeps the history or puts one well-formed entry in
      front of it. */
  lemma StepHistory(s: State, e: Event)
    ensures Step(s, e).generatedImages == s.generatedImages
         || (|Step(s, e).generatedImages| == |s.generatedImages| + 1
             && WellFormedEntry(Step(s, e).generatedImages[0])
             && Step(s, e).generatedImages[1..] == s.generatedImages)
  {
    if e.GenerateClicked? {
      var outcome := Gemini.GenerateImageModification(e.response);
      if s.sourceImage.Some? && s.prompt != "" && outcome.Success? {
        var g := Step(s, e).generatedImages[0];
        assert g == NewImage(e.id, outcome.value, s.prompt);
      }
    }
  }

  /** The history only grows, at the front: the old entries stay at the end
      in their order, and every entry added is well formed. Nothing clears
      it, starting over included. */
  lemma {:induction false} RunHistoryGrowsAtFront(s: State, events: seq<Event>)
    ensures |Run(s, events).generatedImages| >= |s.generatedImages|
    ensures Run(s, events).generatedImages[|Run(s, events).generatedImages| - |s.generatedImages|..]
         == s.generatedImages
    ensures forall i :: 0 <= i < |Run(s, events).generatedImages| - |s.generatedImages| ==>
      WellFormedEntry(Run(s, events).generatedImages[i])
    decreases |events|
  {
    if |events| > 0 {
      var next := Step(s, events[0]);
      StepHistory(s, events[0]);
      RunHistoryGrowsAtFront(next, events[1..]);
      var h := Run(s, events).generatedImages;
      assert h == Run(next, events[1..]).generatedImages;
      var k := |h| - |next.generatedImages|;
      if next.generatedImages != s.generatedImages {
        assert h[k..] == next.generatedImages;
        assert h[k + 1..] == next.generatedImages[1..];
        assert h[k] == next.generatedImages[0];
      }
    }
  }

  /** Every action run to completion leaves the busy flag down if it was
      down before. */
  lemma {:induction false} RunNeverLeavesBusy(s: State, events: seq<Event>)
    requires !s.isLoading
    ensures !Run(s, events).isLoading
    decreases |events|
  {
    if |events| > 0 {
      RunNeverLeavesBusy(Step(s, events[0]), events[1..]);
    }
  }

  /** The suggestion handler's fallback text is never shown: the client
      rejects only with its own non-empty message. */
  lemma ConceptsErrorIsClientMessage(s: State, call: Result<string, string>, parse: string -> Result<Gemini.JsonValue, string>)
    requires s.prompt != ""
    ensures HandleGetCreativeConcepts(s, Gemini.GenerateCreativeConcepts(call, parse)).error
         in {None, Some(Gemini.ConceptsFailureMessage)}
  {
  }

  /** Generation from a response: the new entry shows the first inline image
      of candidate 0, or the client's fixed message is shown and the history
      kept. */
  lemma GenerateFromResponse(s: State, id: string, response: Result<Gemini.Response, string>)
    requires s.sourceImage.Some? && s.prompt != ""
    ensures var r := HandleGenerate(s, id, Gemini.GenerateImageModification(response));
      match Gemini.GenerateImageModification(response)
      case Success(payload) =>
        r.generatedImages == [GeneratedImage(id, PngDataUrlPrefix + payload, s.prompt)] + s.generatedImages
      case Failure(_) =>
        r.generatedImages == s.generatedImages && r.error == Some(Gemini.ImageFailureMessage)
  {
    var r := HandleGenerate(s, id, Gemini.GenerateImageModification(response));
    if Gemini.GenerateImageModification(response).Success? {
      assert r.generatedImages == [r.generatedImages[0]] + r.generatedImages[1..];
    }
  }

  /** No cancellation: a generation that settles after the user has started
      over still adds its image, under the prompt it was started with, while
      the session is back on the upload page with an empty prompt. */
  lemma LateGenerationAfterStartOver(s: State, id: string, payload: string)
    requires s.sourceImage.Some? && s.prompt != ""
    ensures var (busy, request) := StartGenerate(s);
      && request.Some?
      && var late := SettleGenerate(HandleStartOver(busy), request.value, id, Success(payload));
      && late.step == Upload && late.sourceImage == None && late.prompt == ""
      && |late.generatedImages| == |s.generatedImages| + 1
      && late.generatedImages[0].prompt == s.prompt
      && late.generatedImages[0].prompt != late.prompt
  {
  }

  /** Three actions in a row. */
  lemma RunThree(s: State, a: Event, b: Event, c: Event)
    ensures Run(s, [a, b, c]) == Step(Step(Step(s, a), b), c)
  {
    assert [a, b, c][1..] == [b, c];
    assert [b, c][1..] == [c];
    assert [c][1..] == [];
    calc {
      Run(s, [a, b, c]);
      Run(Step(s, a), [b, c]);
      Run(Step(Step(s, a), b), [c]);
      Run(Step(Step(Step(s, a), b), c), []);
    }
  }

  /** A full session: choose an image file read as `header,payload`, pick a
      preset, and generate from a response whose first part is text and whose
      second part carries the image `data`. */
  lemma UploadPresetGenerate(file: Uploader.File, header: string, payload: string,
                             preset: OutputPreset, id: string, data: string)
    requires StartsWith(file.mimeType, Uploader.ImagePrefix)
    requires ',' !in header && ',' !in payload
    requires preset.prompt != ""
    ensures var read := Uploader.Loaded(Uploader.TextValue(header + "," + payload));
      var parts := [Gemini.Part(None, Some(preset.prompt)), Gemini.Part(Some(Gemini.InlineData(data, "image/png")), None)];
      var response := Gemini.Response(Some([Gemini.Candidate(Some(Gemini.Content(Some(parts))))]));
      var r := Run(Initial, [FileChosen(file, read), PresetClicked(preset), GenerateClicked(id, Success(response))]);
      && r.step == Edit
      && r.sourceImage == Some(SourceImage(Some(payload), file.mimeType, file.name))
      && r.prompt == preset.prompt
      && r.generatedImages == [GeneratedImage(id, PngDataUrlPrefix + data, preset.prompt)]
  {
    var read := Uploader.Loaded(Uploader.TextValue(header + "," + payload));
    var parts := [Gemini.Part(None, Some(preset.prompt)), Gemini.Part(Some(Gemini.InlineData(data, "image/png")), None)];
    var response := Gemini.Response(Some([Gemini.Candidate(Some(Gemini.Content(Some(parts))))]));
    RunThree(Initial, FileChosen(file, read), PresetClicked(preset), GenerateClicked(id, Success(response)));
    Uploader.ImageFileUploads(file, header, payload);
    var s1 := HandleImageUpload(Initial, SourceImage(Some(payload), file.mimeType, file.name));
    assert Step(Initial, FileChosen(file, read)) == s1;
    var s2 := HandlePresetSelect(s1, preset);
    assert parts[1..][0].inlineData.Some?;
    assert Gemini.GenerateImageModification(Success(response)) == Success(data);
    var s3 := HandleGenerate(s2, id, Success(data));
    assert s3.generatedImages == [s3.generatedImages[0]];
  }
}
