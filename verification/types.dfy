/** The shared value types of the front end. */
module Types {

  /** The four states of the analysis screen. */
  datatype AnalysisStatus = Idle | Analyzing | Succeeded | Errored

  /** A binary contract file: its MIME type and its base64 payload. */
  datatype Attachment = Attachment(mimeType: string, data: string)

  /** What the user submits for analysis: pasted text or an attached file. */
  datatype Content = TextContent(text: string) | FileContent(attachment: Attachment)
}
