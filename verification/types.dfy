/** The records shared by the uploader, the remote client and the session. */
module Types {
  import opened Wrappers

  /** The two views of the session: the upload page and the editor. */
  datatype WorkflowStep = Upload | Edit

  /** A named prompt template offered as a one-click shortcut. */
  datatype OutputPreset = OutputPreset(id: string, name: string, description: string, prompt: string)

  /** The user's photo. `base64` is None when the data URL it was cut from had
      no comma, which is when JavaScript stores `undefined` in a field that
      the type declaration calls a string. */
  datatype SourceImage = SourceImage(base64: Option<string>, mimeType: string, name: string)

  /** One result in the gallery: `src` is a data URL, `prompt` the text it was
      generated from, `id` the timestamp taken when it arrived. */
  datatype GeneratedImage = GeneratedImage(id: string, src: string, prompt: string)
}
