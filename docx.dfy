/**
 * The part of python-docx the ingestion path uses: a document is its list of
 * paragraphs, and opening a path either yields one or raises.
 */
module Docx {
  import opened Errors

  datatype Paragraph = Paragraph(text: string)

  datatype Document = Document(paragraphs: seq<Paragraph>)

  /** `Document(file_path)`: the parsed file, or whatever exception the library raises. */
  type DocumentReader = string -> Result<Document>
}
