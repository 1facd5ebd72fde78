/**
 * Ingestion as the application runs it at start-up: split the .docx into
 * trimmed, non-empty paragraphs and add them to the vector collection, logging
 * (and swallowing) any exception.
 */
module LoadDocuments {
  import opened Errors
  import opened Text
  import opened Docx
  import opened Embedding
  import VectorDb

  /** What one paragraph contributes: its stripped text, unless that is empty. */
  function Keep(p: Paragraph): (r: seq<string>) {
    var t := Strip(p.text);
    if t != [] then [t] else []
  }

  /** The contributions of the elements of `xs`, concatenated in order. */
  function FlatMap<T, U>(f: T -> seq<U>, xs: seq<T>): (r: seq<U>) {
    if xs == [] then [] else FlatMap(f, xs[..|xs| - 1]) + f(xs[|xs| - 1])
  }

  lemma {:induction false} FlatMapAppend<T, U>(f: T -> seq<U>, a: seq<T>, b: seq<T>)
    ensures FlatMap(f, a + b) == FlatMap(f, a) + FlatMap(f, b)
    decreases |b|
  {
    if b == [] {
      assert a + b == a;
    } else {
      var b' := b[..|b| - 1];
      FlatMapAppend(f, a, b');
      assert (a + b)[..|a + b| - 1] == a + b';
      assert (a + b)[|a + b| - 1] == b[|b| - 1];
    }
  }

  /** The chunks of a paragraph list: each paragraph's contribution, in order. */
  function Chunks(ps: seq<Paragraph>): (r: seq<string>) {
    FlatMap(Keep, ps)
  }

  /** Every chunk is non-empty and stripped, and there are no more chunks than paragraphs. */
  lemma {:induction false} ChunksWellFormed(ps: seq<Paragraph>)
    ensures |Chunks(ps)| <= |ps|
    ensures forall k :: 0 <= k < |Chunks(ps)| ==> Chunks(ps)[k] != [] && IsStripped(Chunks(ps)[k])
  {
    if ps != [] {
      ChunksWellFormed(ps[..|ps| - 1]);
    }
  }

  /** The positions of the paragraphs that contribute a chunk. */
  function KeptPositions(ps: seq<Paragraph>): (r: seq<nat>) {
    if ps == [] then []
    else KeptPositions(ps[..|ps| - 1]) + (if Strip(ps[|ps| - 1].text) != [] then [|ps| - 1] else [])
  }

  /** The kept positions are increasing positions of `ps`. */
  lemma {:induction false} KeptPositionsIncreasing(ps: seq<Paragraph>)
    ensures forall k :: 0 <= k < |KeptPositions(ps)| ==> KeptPositions(ps)[k] < |ps|
    ensures forall k, l :: 0 <= k < l < |KeptPositions(ps)| ==> KeptPositions(ps)[k] < KeptPositions(ps)[l]
  {
    if ps != [] {
      KeptPositionsIncreasing(ps[..|ps| - 1]);
    }
  }

  /** A position is kept exactly when its paragraph's stripped text is non-empty. */
  lemma {:induction false} KeptPositionsExact(ps: seq<Paragraph>)
    ensures forall i :: 0 <= i < |ps| ==> (i in KeptPositions(ps) <==> Strip(ps[i].text) != [])
  {
    if ps != [] {
      var front := ps[..|ps| - 1];
      KeptPositionsExact(front);
      KeptPositionsIncreasing(front);
      forall i | 0 <= i < |front| ensures ps[i] == front[i] { }
    }
  }

  /** The `k`-th chunk is the stripped text of the paragraph at the `k`-th kept position. */
  lemma {:induction false} ChunksAtKeptPositions(ps: seq<Paragraph>)
    ensures |Chunks(ps)| == |KeptPositions(ps)|
    ensures forall k :: 0 <= k < |KeptPositions(ps)| ==>
      KeptPositions(ps)[k] < |ps| && Chunks(ps)[k] == Strip(ps[KeptPositions(ps)[k]].text)
  {
    KeptPositionsIncreasing(ps);
    if ps != [] {
      var front := ps[..|ps| - 1];
      ChunksAtKeptPositions(front);
      KeptPositionsIncreasing(front);
      var pos := KeptPositions(ps);
      forall k | 0 <= k < |pos| ensures Chunks(ps)[k] == Strip(ps[pos[k]].text) {
        if k < |KeptPositions(front)| {
          assert pos[k] == KeptPositions(front)[k];
          assert Chunks(ps)[k] == Chunks(front)[k];
          assert ps[pos[k]] == front[pos[k]];
        }
      }
    }
  }

  /**
   * The chunks are, in order, the stripped texts of exactly those paragraphs
   * whose stripped text is non-empty.
   */
  lemma ChunksSelect(ps: seq<Paragraph>)
    ensures var pos := KeptPositions(ps);
      && |Chunks(ps)| == |pos|
      && (forall k :: 0 <= k < |pos| ==> pos[k] < |ps| && Chunks(ps)[k] == Strip(ps[pos[k]].text))
      && (forall k, l :: 0 <= k < l < |pos| ==> pos[k] < pos[l])
      && (forall i :: 0 <= i < |ps| ==> (i in pos <==> Strip(ps[i].text) != []))
  {
    ChunksAtKeptPositions(ps);
    KeptPositionsIncreasing(ps);
    KeptPositionsExact(ps);
  }

  lemma ChunksAppend(a: seq<Paragraph>, b: seq<Paragraph>)
    ensures Chunks(a + b) == Chunks(a) + Chunks(b)
  {
    FlatMapAppend(Keep, a, b);
  }

  /** An empty or whitespace-only paragraph contributes nothing, wherever it stands. */
  lemma BlankParagraphIgnored(a: seq<Paragraph>, p: Paragraph, b: seq<Paragraph>)
    requires AllSpace(p.text)
    ensures Chunks(a + [p] + b) == Chunks(a + b)
  {
    assert Chunks([p]) == [] by {
      assert [p][..0] == [];
      assert Keep(p) == [];
      assert FlatMap(Keep, [p]) == FlatMap(Keep, []) + Keep(p);
    }
    ChunksAppend(a, [p]);
    assert Chunks(a + [p]) == Chunks(a);
    ChunksAppend(a + [p], b);
    ChunksAppend(a, b);
  }

  /** The paragraphs of a document holding the given texts. */
  function AsParagraphs(texts: seq<string>): (ps: seq<Paragraph>)
    ensures |ps| == |texts| && forall k :: 0 <= k < |ps| ==> ps[k].text == texts[k]
  {
    seq(|texts|, k requires 0 <= k < |texts| => Paragraph(texts[k]))
  }

  /** Chunking a list of non-empty, stripped texts gives it back. */
  lemma {:induction false} ChunksOfChunks(texts: seq<string>)
    requires forall k :: 0 <= k < |texts| ==> texts[k] != [] && IsStripped(texts[k])
    ensures Chunks(AsParagraphs(texts)) == texts
  {
    if texts != [] {
      var n := |texts|;
      var front := texts[..n - 1];
      ChunksOfChunks(front);
      var ps := AsParagraphs(texts);
      assert ps[..n - 1] == AsParagraphs(front);
      var last := texts[n - 1];
      assert last == [] + last + [];
      StripUnique([], last, []);
      assert Keep(ps[n - 1]) == [last];
      assert texts == front + [last];
    }
  }

  /** Chunking the chunks again changes nothing. */
  lemma ChunksIdempotent(ps: seq<Paragraph>)
    ensures Chunks(AsParagraphs(Chunks(ps))) == Chunks(ps)
  {
    ChunksWellFormed(ps);
    ChunksOfChunks(Chunks(ps));
  }

  /** `extract_chunks(doc)`. */
  method ExtractChunks(doc: Document) returns (paragraphs: seq<string>)
    ensures paragraphs == Chunks(doc.paragraphs)
  {
    paragraphs := [];
    var i := 0;
    while i < |doc.paragraphs|
      invariant 0 <= i <= |doc.paragraphs|
      invariant paragraphs == Chunks(doc.paragraphs[..i])
    {
      var paragraph := doc.paragraphs[i];
      assert doc.paragraphs[..i + 1][..i] == doc.paragraphs[..i];
      if Strip(paragraph.text) != [] {
        paragraphs := paragraphs + [Strip(paragraph.text)];
      }
      i := i + 1;
    }
    assert doc.paragraphs[..i] == doc.paragraphs;
  }

  /** What `load_document` logs for each kind of exception it catches. */
  datatype LogEntry =
    | FileNotFound(path: string)
    | InvalidDocument(message: string)
    | Unexpected(error: Error)

  /** The `except` clauses of `load_document`, tried in order. */
  function LogFor(filePath: string, e: Error): (entry: LogEntry)
    ensures e.FileNotFoundError? <==> entry == FileNotFound(filePath)
    ensures e.ValueError? ==> entry == InvalidDocument(e.message)
    ensures !e.FileNotFoundError? && !e.ValueError? <==> entry == Unexpected(e)
  {
    match e
    case FileNotFoundError(_) => FileNotFound(filePath)
    case ValueError(message) => InvalidDocument(message)
    case _ => Unexpected(e)
  }

  /**
   * `load_document(file_path)`: open, chunk and ingest.  It returns normally
   * whatever happens; `logged` is the error entry written, if any.
   */
  method LoadDocument(filePath: string, read: DocumentReader, embedder: Embedder, collection: VectorDb.Collection)
    returns (logged: Option<LogEntry>)
    modifies collection
    ensures read(filePath).Err? ==>
      collection.added == old(collection.added) && logged == Some(LogFor(filePath, read(filePath).error))
    ensures read(filePath).Ok? ==>
      var r := VectorDb.IngestFrom(old(collection.added), Chunks(read(filePath).value.paragraphs), 0, embedder, collection.verdict);
      && collection.added == r.store
      && logged == if r.outcome.Fail? then Some(LogFor(filePath, r.outcome.error)) else None
  {
    var doc := read(filePath);
    if doc.Err? {
      return Some(LogFor(filePath, doc.error));
    }
    var chunks := ExtractChunks(doc.value);
    var outcome;
    ghost var attempted;
    outcome, attempted := VectorDb.AddDocuments(chunks, embedder, collection);
    logged := if outcome.Fail? then Some(LogFor(filePath, outcome.error)) else None;
  }
}
