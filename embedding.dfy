/**
 * The two Cohere embedding entry points, held as opaque services: each maps
 * one text to the list of vectors the API returns for it (one vector per
 * input text), or to the exception the call raised.
 */
module Embedding {
  import opened Errors

  /** One embedding vector.  Its components are floats that the pipeline only passes along. */
  type Vector = seq<real>

  /** The embedding model behind one `input_type`. */
  type EmbedService = string -> Result<seq<Vector>>

  datatype Embedder = Embedder(
    /** `get_query_embeddings`: `input_type="search_query"`. */
    query: EmbedService,
    /** `get_document_embeddings`: `input_type="search_document"`. */
    document: EmbedService)
}
