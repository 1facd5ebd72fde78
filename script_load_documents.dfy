/**
 * The stand-alone ingestion script: the same paragraph filter, and the same
 * ingestion, but without any exception handling.
 */
module ScriptLoadDocuments {
  import opened Errors
  import opened Text
  import opened Docx
  import opened Embedding
  import LoadDocuments
  import VectorDb

  /** `extract_paragraphs(doc)`: the same function as the application's `extract_chunks`. */
  method ExtractParagraphs(doc: Document) returns (paragraphs: seq<string>)
    ensures paragraphs == LoadDocuments.Chunks(doc.paragraphs)
  {
    paragraphs := [];
    var i := 0;
    while i < |doc.paragraphs|
      invariant 0 <= i <= |doc.paragraphs|
      invariant paragraphs == LoadDocuments.Chunks(doc.paragraphs[..i])
    {
      var paragraph := doc.paragraphs[i];
      assert doc.paragraphs[..i + 1][..i] == doc.paragraphs[..i];
      if Strip(paragraph.text) != [] {
        paragraphs := paragraphs + [Strip(paragraph.text)];
      }
      i := i + 1;
    }
    assert doc.paragraphs[..i] == doc.paragraphs;
  }

  /**
   * `load_document(file_path)`: open, extract and ingest; any exception,
   * from opening the file or from `add_documents`, reaches the caller.
   */
  method LoadDocument(filePath: string, read: DocumentReader, embedder: Embedder, collection: VectorDb.Collection)
    returns (outcome: Outcome)
    modifies collection
    ensures read(filePath).Err? ==>
      collection.added == old(collection.added) && outcome == Fail(read(filePath).error)
    ensures read(filePath).Ok? ==>
      var r := VectorDb.IngestFrom(old(collection.added), LoadDocuments.Chunks(read(filePath).value.paragraphs), 0, embedder, collection.verdict);
      collection.added == r.store && outcome == r.outcome
  {
    var doc := read(filePath);
    if doc.Err? {
      return Fail(doc.error);
    }
    var paragraphs := ExtractParagraphs(doc.value);
    ghost var attempted;
    outcome, attempted := VectorDb.AddDocuments(paragraphs, embedder, collection);
  }
}
