/**
 * The ChromaDB collection `"documents"` and the two operations on it:
 * ingesting a list of chunks one record at a time, and similarity search.
 */
module VectorDb {
  import opened Errors
  import opened Decimal
  import opened Embedding

  /** The arguments of one `collection.add(...)` call. */
  datatype AddCall = AddCall(
    embeddings: seq<Vector>,
    documents: seq<string>,
    metadatas: seq<map<string, string>>,
    ids: seq<string>)

  /** The reply of `collection.query(...)`; `documents` holds one row of texts per query vector. */
  datatype QueryResult = QueryResult(documents: Option<seq<seq<string>>>)

  /** How the library answers an `add` call, given the calls it has accepted so far. */
  type AddVerdict = (seq<AddCall>, AddCall) -> Outcome

  /** How the library answers a query: stored calls, query vectors and `n_results`. */
  type QueryAnswer = (seq<AddCall>, seq<Vector>, int) -> Result<QueryResult>

  /**
   * The module-level `collection`.  Its state is the sequence of `add` calls
   * it has accepted, in order; what the library makes of them (upserts,
   * ranking) is left to `verdict` and `answer`.
   */
  class Collection {
    var added: seq<AddCall>
    const verdict: AddVerdict
    const answer: QueryAnswer

    /** `get_or_create_collection`: a collection that already holds `persisted`. */
    constructor (persisted: seq<AddCall>, verdict: AddVerdict, answer: QueryAnswer)
      ensures added == persisted && this.verdict == verdict && this.answer == answer
    {
      added := persisted;
      this.verdict := verdict;
      this.answer := answer;
    }

    /** `collection.add(...)`: either accepted and recorded, or raises and records nothing. */
    method Add(call: AddCall) returns (outcome: Outcome)
      modifies this
      ensures outcome == verdict(old(added), call)
      ensures added == if outcome.Pass? then old(added) + [call] else old(added)
    {
      outcome := verdict(added, call);
      if outcome.Pass? {
        added := added + [call];
      }
    }

    /** `collection.query(query_embeddings=..., n_results=...)`. */
    function Query(queryEmbeddings: seq<Vector>, nResults: int): (r: Result<QueryResult>)
      reads this
    {
      answer(added, queryEmbeddings, nResults)
    }
  }

  /**
   * The record `add_documents` sends for the document at position `i`:
   * the embeddings as returned, the text itself, and the index written
   * into both the id and the `source` metadata.
   */
  function AddCallFor(i: nat, doc: string, embeddings: seq<Vector>): (r: AddCall) {
    var digits := NatToString(i);
    AddCall(embeddings, [doc], [map["source" := "doc_" + digits]], ["id_" + digits])
  }

  /**
   * Each call carries exactly one text, the document itself, with the
   * embeddings as returned; its id and `source` name the position `i`.
   */
  lemma AddCallForShape(i: nat, doc: string, embeddings: seq<Vector>)
    ensures var call := AddCallFor(i, doc, embeddings);
      && call.embeddings == embeddings && call.documents == [doc]
      && |call.ids| == 1 && |call.metadatas| == 1
      && var id := call.ids[0];
         |id| > 3 && id[..3] == "id_" && id[3..] == NatToString(i)
         && AllDigits(id[3..]) && ParseNat(id[3..]) == i
    ensures var m := AddCallFor(i, doc, embeddings).metadatas[0];
      && m.Keys == {"source"} && |m["source"]| > 4 && m["source"][..4] == "doc_"
      && m["source"][4..] == NatToString(i)
      && AllDigits(m["source"][4..]) && ParseNat(m["source"][4..]) == i
  {
    var digits := NatToString(i);
    ParseNatToString(i);
    assert ("id_" + digits)[3..] == digits;
    assert ("doc_" + digits)[4..] == digits;
  }

  /** Where ingestion ends: the calls the collection then holds, the outcome, and how many documents were embedded. */
  datatype Ingestion = Ingestion(store: seq<AddCall>, outcome: Outcome, attempted: nat)

  /**
   * The loop of `add_documents` from position `i` on, with the collection
   * holding `store`.  Each document is embedded in document mode and added;
   * the first exception, from either call, ends the loop and is re-raised.
   */
  function IngestFrom(store: seq<AddCall>, docs: seq<string>, i: nat, embedder: Embedder, verdict: AddVerdict): (r: Ingestion)
    requires i <= |docs|
    ensures i <= r.attempted <= |docs|
    ensures |store| <= |r.store| && r.store[..|store|] == store
    ensures r.attempted == i ==> r.store == store && r.outcome == Pass
    ensures r.outcome.Pass? ==> r.attempted == |docs|
    decreases |docs| - i
  {
    if i == |docs| then Ingestion(store, Pass, |docs|)
    else
      match embedder.document(docs[i])
      case Err(e) => Ingestion(store, Fail(e), i + 1)
      case Ok(embeddings) =>
        var call := AddCallFor(i, docs[i], embeddings);
        match verdict(store, call)
        case Fail(e) => Ingestion(store, Fail(e), i + 1)
        case Pass =>
          var r := IngestFrom(store + [call], docs, i + 1, embedder, verdict);
          assert (store + [call])[..|store|] == store;
          assert r.store[..|store|] == r.store[..|store| + 1][..|store|];
          r
  }

  /**
   * The calls ingestion adds are, in order, the records of positions
   * `i`, `i + 1`, ...: each holds exactly that document and the embeddings
   * the document-mode embedder returned for it.  All documents get one when
   * nothing fails; otherwise every position before the failing one does.
   */
  lemma {:induction false} IngestStoresInOrder(store: seq<AddCall>, docs: seq<string>, i: nat, embedder: Embedder, verdict: AddVerdict)
    requires i <= |docs|
    ensures var r := IngestFrom(store, docs, i, embedder, verdict);
      && |r.store| == |store| + (if r.outcome.Pass? then |docs| - i else r.attempted - 1 - i)
      && forall j :: i <= j < i + (|r.store| - |store|) ==>
           embedder.document(docs[j]).Ok?
           && r.store[|store| + (j - i)] == AddCallFor(j, docs[j], embedder.document(docs[j]).value)
    decreases |docs| - i
  {
    if i < |docs| && embedder.document(docs[i]).Ok? {
      var call := AddCallFor(i, docs[i], embedder.document(docs[i]).value);
      if verdict(store, call).Pass? {
        var store' := store + [call];
        IngestStoresInOrder(store', docs, i + 1, embedder, verdict);
        var r := IngestFrom(store', docs, i + 1, embedder, verdict);
        assert r == IngestFrom(store, docs, i, embedder, verdict);
        assert r.store[|store|] == call by {
          assert r.store[..|store'|] == store';
          assert r.store[..|store'|][|store|] == r.store[|store|];
        }
      }
    }
  }

  /**
   * On failure, ingestion stopped at position `attempted - 1`: everything
   * before it is stored, nothing after it was embedded, and the exception
   * re-raised is the one the embedder or `collection.add` raised there.
   */
  lemma {:induction false} IngestStopsAtFirstFailure(store: seq<AddCall>, docs: seq<string>, i: nat, embedder: Embedder, verdict: AddVerdict)
    requires i <= |docs|
    ensures var r := IngestFrom(store, docs, i, embedder, verdict);
      r.outcome.Fail? ==>
        var j := r.attempted - 1;
        && i <= j < |docs|
        && |r.store| == |store| + (j - i)
        && match embedder.document(docs[j])
           case Err(e) => r.outcome.error == e
           case Ok(v) => verdict(r.store, AddCallFor(j, docs[j], v)) == r.outcome
    decreases |docs| - i
  {
    if i < |docs| && embedder.document(docs[i]).Ok? {
      var call := AddCallFor(i, docs[i], embedder.document(docs[i]).value);
      if verdict(store, call).Pass? {
        IngestStopsAtFirstFailure(store + [call], docs, i + 1, embedder, verdict);
      }
    }
  }

  /**
   * Every record ingestion stored was accepted by `collection.add` when the
   * collection held exactly the records before it: no `add` failure is
   * passed over, so ingestion stops at the first failure of either call.
   */
  lemma {:induction false} IngestAcceptedBefore(store: seq<AddCall>, docs: seq<string>, i: nat, embedder: Embedder, verdict: AddVerdict)
    requires i <= |docs|
    ensures var r := IngestFrom(store, docs, i, embedder, verdict);
      forall j :: i <= j < |docs| && j < i + (|r.store| - |store|) ==>
        embedder.document(docs[j]).Ok?
        && verdict(r.store[..|store| + (j - i)], AddCallFor(j, docs[j], embedder.document(docs[j]).value)) == Pass
    decreases |docs| - i
  {
    if i < |docs| && embedder.document(docs[i]).Ok? {
      var call := AddCallFor(i, docs[i], embedder.document(docs[i]).value);
      if verdict(store, call).Pass? {
        var store' := store + [call];
        IngestAcceptedBefore(store', docs, i + 1, embedder, verdict);
        var r := IngestFrom(store', docs, i + 1, embedder, verdict);
        assert r == IngestFrom(store, docs, i, embedder, verdict);
        assert r.store[..|store|] == store;
      }
    }
  }

  /**
   * Ingestion consults the document-mode embedder only on the documents it
   * attempted: an embedder that agrees there yields the same ingestion, so
   * no document after the failing one is embedded.
   */
  lemma {:induction false} IngestSeesOnlyAttempted(store: seq<AddCall>, docs: seq<string>, i: nat, embedder: Embedder, other: Embedder, verdict: AddVerdict)
    requires i <= |docs|
    requires forall k :: i <= k < IngestFrom(store, docs, i, embedder, verdict).attempted ==>
      other.document(docs[k]) == embedder.document(docs[k])
    ensures IngestFrom(store, docs, i, other, verdict) == IngestFrom(store, docs, i, embedder, verdict)
    decreases |docs| - i
  {
    if i < |docs| {
      assert other.document(docs[i]) == embedder.document(docs[i]);
      if embedder.document(docs[i]).Ok? {
        var call := AddCallFor(i, docs[i], embedder.document(docs[i]).value);
        if verdict(store, call).Pass? {
          IngestSeesOnlyAttempted(store + [call], docs, i + 1, embedder, other, verdict);
        }
      }
    }
  }

  /** All records one ingestion adds carry distinct ids. */
  lemma IngestIdsDistinct(store: seq<AddCall>, docs: seq<string>, embedder: Embedder, verdict: AddVerdict)
    ensures var s := IngestFrom(store, docs, 0, embedder, verdict).store;
      forall k :: |store| <= k < |s| ==> |s[k].ids| == 1
    ensures var s := IngestFrom(store, docs, 0, embedder, verdict).store;
      forall k, l :: |store| <= k < l < |s| ==> s[k].ids[0] != s[l].ids[0]
  {
    IngestStoresInOrder(store, docs, 0, embedder, verdict);
    var s := IngestFrom(store, docs, 0, embedder, verdict).store;
    forall k | |store| <= k < |s|
      ensures |s[k].ids| == 1 && |s[k].ids[0]| > 3 && AllDigits(s[k].ids[0][3..]) && ParseNat(s[k].ids[0][3..]) == k - |store|
    {
      IngestIdAt(store, docs, embedder, verdict, k);
    }
  }

  /** The record ingestion stores at position `k` has one id, whose number is `k - |store|`. */
  lemma IngestIdAt(store: seq<AddCall>, docs: seq<string>, embedder: Embedder, verdict: AddVerdict, k: nat)
    requires var s := IngestFrom(store, docs, 0, embedder, verdict).store; |store| <= k < |s|
    ensures var s := IngestFrom(store, docs, 0, embedder, verdict).store;
      |s[k].ids| == 1 && |s[k].ids[0]| > 3 && AllDigits(s[k].ids[0][3..]) && ParseNat(s[k].ids[0][3..]) == k - |store|
  {
    IngestStoresInOrder(store, docs, 0, embedder, verdict);
    var s := IngestFrom(store, docs, 0, embedder, verdict).store;
    var j := k - |store|;
    assert s[|store| + (j - 0)] == s[k];
    AddCallForShape(j, docs[j], embedder.document(docs[j]).value);
  }

  /**
   * `add_documents(documents)`.  The ghost `attempted` is the number of
   * documents handed to the embedder.
   */
  method AddDocuments(documents: seq<string>, embedder: Embedder, collection: Collection)
    returns (outcome: Outcome, ghost attempted: nat)
    modifies collection
    ensures var r := IngestFrom(old(collection.added), documents, 0, embedder, collection.verdict);
      collection.added == r.store && outcome == r.outcome && attempted == r.attempted
  {
    ghost var target := IngestFrom(collection.added, documents, 0, embedder, collection.verdict);
    var i := 0;
    while i < |documents|
      invariant 0 <= i <= |documents|
      invariant IngestFrom(collection.added, documents, i, embedder, collection.verdict) == target
    {
      var embeddings := embedder.document(documents[i]);
      if embeddings.Err? {
        outcome, attempted := Fail(embeddings.error), i + 1;
        return;
      }
      var added := collection.Add(AddCallFor(i, documents[i], embeddings.value));
      if added.Fail? {
        outcome, attempted := added, i + 1;
        return;
      }
      i := i + 1;
    }
    outcome, attempted := Pass, |documents|;
  }

  /** The first row of a query reply, or `[]` when the reply has no rows. */
  function FirstRow(result: QueryResult): (row: seq<string>)
    ensures result.documents.Some? && result.documents.value != [] ==> row == result.documents.value[0]
    ensures result.documents.None? || result.documents.value == [] ==> row == []
  {
    if result.documents.Some? && result.documents.value != [] then result.documents.value[0] else []
  }

  /**
   * `search_similar_documents(query, n_results)`: embed the query in query
   * mode, query the collection, and return the first row of texts.
   */
  function SearchSimilarDocuments(query: string, embedder: Embedder, collection: Collection, nResults: int := 1): (r: Result<seq<string>>)
    reads collection
    // An exception from either call is re-raised, never turned into `[]`.
    ensures r.Ok? <==> embedder.query(query).Ok? && collection.Query(embedder.query(query).value, nResults).Ok?
    ensures embedder.query(query).Err? ==> r == Err(embedder.query(query).error)
    ensures embedder.query(query).Ok? && collection.Query(embedder.query(query).value, nResults).Err? ==>
      r == Err(collection.Query(embedder.query(query).value, nResults).error)
    // On success the rows come from querying with the query-mode vectors.
    ensures r.Ok? ==> r.value == FirstRow(collection.Query(embedder.query(query).value, nResults).value)
  {
    match embedder.query(query)
    case Err(e) => Err(e)
    case Ok(queryEmbeddings) =>
      match collection.Query(queryEmbeddings, nResults)
      case Err(e) => Err(e)
      case Ok(results) => Ok(FirstRow(results))
  }

  /** Search never consults the document-mode embedder. */
  lemma SearchUsesQueryMode(query: string, queryMode: EmbedService, d1: EmbedService, d2: EmbedService, collection: Collection, nResults: int)
    ensures SearchSimilarDocuments(query, Embedder(queryMode, d1), collection, nResults)
         == SearchSimilarDocuments(query, Embedder(queryMode, d2), collection, nResults)
  {
  }
}
