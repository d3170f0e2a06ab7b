# AI Image Generator Studio: a verified model of the session logic

This project models the logic of a browser application. The user uploads a
photo, picks or writes a prompt, can ask a remote model for prompt
variations, and sends the photo and prompt to a remote image model. Each
result is added to a gallery. Three parts of the code hold logic, and each
becomes a Dafny module:

- `App` (`app.dfy`): the session state of the application component. It is
  an immutable record of the eight state hooks (step, source image,
  generated images, prompt, loading flag, loading message, error,
  suggestions). Every handler is a pure transition. An asynchronous handler
  is split at its `await`: a Start function runs the synchronous part and
  returns the request, if one is made. A Settle function applies the remote
  call's outcome, passed in as a `Result`, to the state as it is by then.
  The handler is the two run back to back. `Step` and `Run` replay a
  sequence of user actions, each run to completion, through the upload
  widget and the client's response shaping.
- `Uploader` (`uploader.dfy`): the upload widget's `image/` media-type
  guard and the cutting of the file reader's data URL into a `SourceImage`.
  How the reader ended is a parameter.
- `Gemini` (`gemini.dfy`): the remote client's response shaping. It takes
  the first inline image of candidate 0, turns a missing `prompts` field
  into an empty list, and rewraps every failure as one fixed message. The
  SDK call's outcome is a parameter.
- `Text` (`text.dfy`) holds the JavaScript string operations used:
  `startsWith`, `split` with `join` as its inverse, and array indexing
  that yields `undefined` past the end. `Types` (`types.dfy`) mirrors
  `types.ts`. `Wrappers` (`wrappers.dfy`) defines `Option` and `Result`.

Three behaviours of the code are modelled as written:
- The stored base64 is `split(',')[1]` of the data URL. Nothing decodes it
  or checks a round trip. With no comma the field is `undefined`, so
  `SourceImage.base64` is an `Option`.
- A rejected file gets an alert, not a typed error.
- The gallery id is a timestamp. Nothing makes it unique.

The handlers never look at the loading flag. Only the disabled buttons keep
a second request from starting. Nothing cancels a request: a generation
that completes after "start over" still adds its image, under the old
prompt (`App.LateGenerationAfterStartOver`). While a request is pending
the loading overlay covers the editor, but the "Start Over" button is not
disabled, so it stays reachable from the keyboard. The model records this
behaviour and does not change it.

## Model

| member | source | states |
|---|---|---|
| `Text.StartsWithIffConcat` | ImageUploader.tsx:29 | the prefix test holds exactly when the string is the prefix followed by some rest |
| `Text.Item` | ImageUploader.tsx:17 | indexing an array yields the element when the index is in range and `undefined` (None) exactly when it is not |
| `Text.Split` | ImageUploader.tsx:17 | `split` on a one-character separator always yields at least one piece, the empty string included; which pieces they are is pinned down by the `JoinSplit`, `SplitJoin` and `SplitPiecesHaveNoSeparator` rows |
| `Text.SplitPiecesHaveNoSeparator` | ImageUploader.tsx:17 | no piece of `split(',')` contains a comma |
| `Text.SplitLength` | ImageUploader.tsx:17 | `split` yields one more piece than there are separators |
| `Text.JoinSplit` | ImageUploader.tsx:17 | joining the pieces of a split with the separator gives back the original string |
| `Text.SplitJoin` | ImageUploader.tsx:17 | splitting a join of separator-free pieces gives back the pieces, so split and join are inverses |
| `Text.SplitAfterFirstSeparator` | ImageUploader.tsx:17 | the first piece ends at the first separator and the rest of the string splits on its own |
| `Uploader.DataUrlPayload` | ImageUploader.tsx:17 | the payload is present exactly when the data URL has a comma, and it contains no comma |
| `Uploader.DataUrlPayloadOfFields` | ImageUploader.tsx:17 | for `header,payload` and `header,payload,rest` with a comma-free header and payload, the stored base64 is exactly `payload` |
| `Uploader.FileToSourceImage` | ImageUploader.tsx:12-26 | succeeds exactly when the read produced a string; the image then has the file's type and name and the data URL's second field; a non-string result rejects with "Failed to read file"; a reader error rejects with that error |
| `Uploader.HandleFile` | ImageUploader.tsx:28-40 | an image reaches the session exactly when the type starts with `image/` and the read succeeds, and it is the read's image; other types get the invalid-file alert; read failures get the processing-error alert |
| `Uploader.NonImageNeverUploads` | ImageUploader.tsx:29-39 | for a file whose type does not start with `image/`, every reader outcome ends in the invalid-file alert |
| `Uploader.ImageFileUploads` | ImageUploader.tsx:15-18 | an image file read as a well-formed data URL uploads with its own type, its own name and the payload after the header |
| `Gemini.FirstCandidateParts` | geminiService.ts:32 | when candidate 0 exists and has content with a part list, exactly that part list is read; when any link of the chain is missing (no candidate list, an empty one, no content, no parts) the result is the empty list |
| `Gemini.OnlyFirstCandidateConsulted` | geminiService.ts:32 | candidates after index 0 never change the part list read |
| `Gemini.FirstCandidatePartsShape` | geminiService.ts:32 | a missing or empty candidate list reads as no parts; a non-empty part list is exactly candidate 0's `content.parts` |
| `Gemini.FirstInlineData` | geminiService.ts:32-36 | None exactly when no part carries inline data; otherwise the data of a part with inline data before which no part has any |
| `Gemini.LaterPartsIgnored` | geminiService.ts:32-36 | once a part with inline data has been found, appending further parts does not change the result |
| `Gemini.ScanParts` | geminiService.ts:32-36 | the early-returning loop over the parts computes the first inline data |
| `Gemini.ExtractImage` | geminiService.ts:32-37 | succeeds exactly when candidate 0 has a part with inline data and returns that part's data; otherwise fails with "No image was generated in the response." |
| `Gemini.GenerateImageModification` | geminiService.ts:7-42 | resolves exactly when the call resolved and its response holds an inline image, with that image's data; every failure, transport or no-image, carries the one message "Failed to generate the image. Please check the console for more details." |
| `Gemini.PromptsOrEmpty` | geminiService.ts:69-70 | a present `prompts` list is returned unchanged; an absent one, or a parsed value that is not an object, gives the empty list; a parsed `null` throws |
| `Gemini.GenerateCreativeConcepts` | geminiService.ts:44-76 | resolves exactly when the call, the parse and the property read succeed, with the parsed list unchanged or the empty list; every failure carries the one message "Failed to generate creative concepts." |
| `App.HandleImageUpload` | App.tsx:21-25 | the image is stored, the step becomes Edit and the error is cleared; prompt, history, suggestions and loading state are unchanged |
| `App.HandlePresetSelect` | App.tsx:27-30 | the prompt becomes the preset's prompt and the suggestions are emptied; nothing else changes |
| `App.HandlePromptChange` | App.tsx:125 | typing replaces the prompt and nothing else |
| `App.HandleSuggestionClick` | App.tsx:139-140 | clicking a suggestion makes that suggestion the prompt and changes nothing else, the list included |
| `App.StartConcepts` | App.tsx:32-39 | with an empty prompt: the fixed error, no request, nothing else changed; otherwise a request with the current prompt, the loading flag up with its message, the error cleared, nothing else changed |
| `App.SuggestionsError` | App.tsx:44 | the message shown is never empty: the rejection's message when that is non-empty, and "Failed to get suggestions." when it is empty |
| `App.SettleConcepts` | App.tsx:40-47 | success replaces the suggestions by exactly the returned list; failure keeps them and sets the error; the loading flag ends down; nothing else changes |
| `App.HandleGetCreativeConcepts` | App.tsx:32-48 | an empty prompt only sets the fixed error, leaving loading and suggestions as they were; otherwise loading ends down, success sets exactly the returned list and clears the error, failure keeps the list and shows the message or "Failed to get suggestions."; step, image, prompt and history never change |
| `App.StartGenerate` | App.tsx:50-57 | with no image or an empty prompt: the fixed error and no request; otherwise a request with the current image and prompt, whatever the loading flag says |
| `App.NewImage` | App.tsx:60-64 | the entry's source is the PNG data-URL prefix followed by exactly the payload, and it keeps the id and prompt |
| `App.SettleGenerate` | App.tsx:58-70 | success puts one new entry with the request's prompt at index 0 and keeps the old entries after it in order; failure keeps the history and sets the error; loading ends down |
| `App.HandleGenerate` | App.tsx:50-71 | a missing image or empty prompt only sets "Source image and prompt are required."; success grows the history by one, with the entry at index 0 holding src `data:image/png;base64,` + payload and the current prompt, then the old entries in order; failure keeps the history and sets the error; step, image, prompt and suggestions never change |
| `App.HandleStartOver` | App.tsx:73-79 | step Upload, no image, empty prompt, no error, no suggestions; the history is kept |
| `App.StepKeepsStepMatchesImage` | App.tsx:21-79 | every action keeps "step is Edit exactly when a source image is held" |
| `App.RunKeepsStepMatchesImage` | App.tsx:21-79 | every sequence of actions keeps that invariant |
| `App.ReachableStepMatchesImage` | App.tsx:12-13 | the invariant holds in the initial state and in every state reached from it |
| `App.StepHistory` | App.tsx:58-65 | one action either keeps the history or puts one well-formed entry in front of it |
| `App.RunHistoryGrowsAtFront` | App.tsx:50-79 | over any sequence of actions the history never shrinks: the old entries stay at the end in order, and every added entry is a PNG data URL with a non-empty prompt |
| `App.RunNeverLeavesBusy` | App.tsx:37-70 | actions run to completion always leave the loading flag down |
| `App.ConceptsErrorIsClientMessage` | App.tsx:43-44 | composed with the client, a failed suggestion request always shows the client's own message, so the "Failed to get suggestions." fallback is never shown |
| `App.GenerateFromResponse` | App.tsx:58-67 | composed with the client, success puts an entry with candidate 0's first inline image in front; any failure shows the client's fixed message and keeps the history |
| `App.LateGenerationAfterStartOver` | App.tsx:58-79 | a generation that settles after start-over still adds its entry under the old prompt while the session is on the upload page with an empty prompt |
| `App.UploadPresetGenerate` | App.tsx:21-65 | upload, preset and generate in sequence: the editor is open on the uploaded image, the prompt is the preset's, and the history is the one entry built from the returned image and the preset's prompt |

## Left out

- Rendering, styling, the loader overlay and the gallery, including the download link, which is DOM manipulation. These are presentation only.
- The loading message text is modelled, but what the overlay shows is not.
- The SDK calls themselves are replaced by their outcomes, given as parameters. This covers the API key, the model names, the request bodies and the response schema sent with the concepts request. These are foreign calls.
- `response.text.trim()` and `JSON.parse` are one abstract `parse` parameter. Its result is `null`, an object, or any other value.
- An object's `prompts` field is a list or absent. A truthy `prompts` that is not a list cannot be represented. The schema sent with the request asks for a list.
- `inlineData.data` is always a string in the model. The SDK types it as optional, and an inline part without data would resolve with `undefined`.
- FileReader, drag-and-drop events, `alert` and `console` are browser I/O. The reader's outcome is a parameter, and an alert is returned as an `Alerted(message)` value.
- The reader's error event rejects with a `ProgressEvent` object, not a message. The model carries a string `reason` in its place. Nothing reads it, because `handleFile` turns every read failure into the same alert.
- The `file &&` test in `handleFile` is not modelled. Both callers pass `files[0]` only after checking that the list is not empty, so a file is always present.
- Asynchronous interleaving is not modelled. `Run` applies each action to completion. The Start and Settle functions, with `App.LateGenerationAfterStartOver`, show what a late completion does, but no request is cancelled or serialised.
- The disabled state of the buttons while loading is not modelled, and neither is which view is on screen. `Run` accepts any action at any time, which covers more behaviour than the UI allows.
- Gallery ids come from the clock. Each id is an input, and nothing about uniqueness is claimed.
- The preset texts in `constants.ts` are static data. A preset is any `OutputPreset` value.
- Strings are sequences of Dafny characters. JavaScript's UTF-16 code units and Unicode handling are not modelled.
