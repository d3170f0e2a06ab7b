/** The upload widget's logic: the media-type guard on a chosen file and the
    conversion of the file reader's data URL into a SourceImage. The browser's
    FileReader is replaced by its outcome, passed in as a value. */
module Uploader {
  import opened Wrappers
  import opened Text
  import opened Types

  /** The fields of a browser `File` the widget reads. */
  datatype File = File(mimeType: string, name: string)

  /** What `reader.result` held when the load event fired: a string (the data
      URL) or anything else (an ArrayBuffer, or `null`). */
  datatype ReadValue = TextValue(text: string) | NonText

  /** How reading ended: the load event with its result, or the error event. */
  datatype ReadOutcome = Loaded(value: ReadValue) | ReadFailed(reason: string)

  /** What the widget does with one file: hand an image to the session, or
      show an alert and stop. */
  datatype UploadOutcome = Uploaded(image: SourceImage) | Alerted(message: string)

  const ImagePrefix: string := "image/"
  const ReadFailureMessage: string := "Failed to read file"
  const InvalidFileAlert: string := "Please upload a valid image file."
  const ProcessingErrorAlert: string := "There was an error processing your image. Please try again."

  /** The base64 payload of a data URL: the text between its first and second
      comma, or `undefined` when there is no comma at all. */
  function DataUrlPayload(dataUrl: string): (payload: Option<string>)
    ensures payload.Some? <==> ',' in dataUrl
    ensures payload.Some? ==> ',' !in payload.value
  {
    SplitLength(dataUrl, ',');
    CountPositive(dataUrl, ',');
    SplitPiecesHaveNoSeparator(dataUrl, ',');
    Item(Split(dataUrl, ','), 1)
  }

  /** For a data URL `header,payload,...` with a comma-free header, the
      payload is exactly the second field. */
  lemma DataUrlPayloadOfFields(header: string, payload: string, rest: string)
    requires ',' !in header && ',' !in payload
    ensures DataUrlPayload(header + "," + payload) == Some(payload)
    ensures DataUrlPayload(header + "," + payload + "," + rest) == Some(payload)
  {
    SplitAfterFirstSeparator(header, payload, ',');
    SplitWithoutSeparator(payload, ',');
    assert header + "," + payload == header + [','] + payload;
    SplitAfterFirstSeparator(header, payload + "," + rest, ',');
    SplitAfterFirstSeparator(payload, rest, ',');
    assert header + "," + payload + "," + rest == header + [','] + (payload + [','] + rest);
  }

  /** The promise `fileToSourceImage` returns, given how the read ended. */
  function FileToSourceImage(file: File, read: ReadOutcome): (r: Result<SourceImage, string>)
    ensures r.Success? <==> read.Loaded? && read.value.TextValue?
    ensures r.Success? ==>
      && r.value.mimeType == file.mimeType
      && r.value.name == file.name
      && r.value.base64 == DataUrlPayload(read.value.text)
    ensures read.Loaded? && read.value.NonText? ==> r == Failure(ReadFailureMessage)
    ensures read.ReadFailed? ==> r == Failure(read.reason)
  {
    match read
    case ReadFailed(reason) => Failure(reason)
    case Loaded(NonText) => Failure(ReadFailureMessage)
    case Loaded(TextValue(dataUrl)) =>
      Success(SourceImage(DataUrlPayload(dataUrl), file.mimeType, file.name))
  }

  /** `handleFile`: only image files reach the reader; a read that fails is
      reported by an alert and nothing is handed to the session. */
  function HandleFile(file: File, read: ReadOutcome): (r: UploadOutcome)
    ensures r.Uploaded? <==> StartsWith(file.mimeType, ImagePrefix) && FileToSourceImage(file, read).Success?
    ensures r.Uploaded? ==> r.image == FileToSourceImage(file, read).value
    ensures !StartsWith(file.mimeType, ImagePrefix) ==> r == Alerted(InvalidFileAlert)
    ensures StartsWith(file.mimeType, ImagePrefix) && FileToSourceImage(file, read).Failure? ==>
      r == Alerted(ProcessingErrorAlert)
  {
    if StartsWith(file.mimeType, ImagePrefix) then
      match FileToSourceImage(file, read)
      case Success(image) => Uploaded(image)
      case Failure(_) => Alerted(ProcessingErrorAlert)
    else
      Alerted(InvalidFileAlert)
  }

  /** Whatever the reader does, a file whose type is not `image/...` never
      produces an image. */
  lemma NonImageNeverUploads(file: File)
    requires !StartsWith(file.mimeType, ImagePrefix)
    ensures forall read :: HandleFile(file, read) == Alerted(InvalidFileAlert)
  {
  }

  /** An image file read as a well-formed data URL uploads with its type, its
      name and the payload after the header. */
  lemma ImageFileUploads(file: File, header: string, payload: string)
    requires StartsWith(file.mimeType, ImagePrefix)
    requires ',' !in header && ',' !in payload
    ensures HandleFile(file, Loaded(TextValue(header + "," + payload)))
         == Uploaded(SourceImage(Some(payload), file.mimeType, file.name))
  {
    DataUrlPayloadOfFields(header, payload, "");
  }
}
