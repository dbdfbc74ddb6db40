/**
 Retrieval-augmented answering and PDF ingestion (src/rag.py): how a retriever is
 opened, how retrieved chunks become the prompt context and the list of
 sources, and the degraded answer every failure turns into.

 Loading and splitting a PDF, embedding, searching and generating are outside
 the model: each enters as the outcome it produced.
 */
module Rag {
  import opened Results
  import opened Text
  import opened Config
  import opened Llm
  import opened Embeddings
  import opened VectorStore

  /** A document's metadata, as string keys and printable values */
  type Metadata = map<string, string>

  /** A loaded page or a chunk of one */
  datatype Document = Document(pageContent: string, metadata: Metadata)

  /** The number of documents a retriever returns unless told otherwise */
  const DefaultK: nat := 4

  /** The separator between chunks in the prompt context */
  const ContextSeparator := "\n\n"

  /** The system text the answer prompt uses */
  const RagInstructions := "You answer questions based on provided PDF context and cite short quotes."

  /** The prefix of every degraded answer */
  const UnavailablePrefix := "RAG unavailable. Details: "

  /** A retriever over an opened collection, searching for `k` documents */
  datatype Retriever = Retriever(embeddings: EmbeddingBackend, store: Opened, k: nat)

  /** `get_retriever(collection, search_k)`: build the embeddings, open the vector store,
      wrap it; the first error raised on the way is the result */
  function GetRetriever(embeddings: Result<EmbeddingBackend>, store: Store, collection: Option<string>,
                        settings: Settings, env: Env, probe: Result<seq<real>>, writes: Writes,
                        k: nat := DefaultK)
    : (r: Result<Retriever>)
    ensures embeddings.Err? ==> r == Err(embeddings.error)
    ensures embeddings.Ok? ==> r.Err? == store.health.Down?
    ensures embeddings.Ok? && store.health.Down? ==>
      r == Err(Exception(RuntimeError, UnreachableMessage(settings.qdrantUrl)))
    ensures r.Ok? ==>
      && r.value.k == k
      && r.value.embeddings == embeddings.value
      && r.value.store.collection == ResolveCollection(collection, settings)
      && r.value.store.dim == DetectEmbeddingDimension(probe)
  {
    var backend :- embeddings;
    var vs :- GetVectorstore(store, collection, settings, env, probe, writes);
    Ok(Retriever(backend, vs, k))
  }

  /** With no `k` given the retriever asks for four documents */
  lemma DefaultRetrieverAsksForFour(embeddings: Result<EmbeddingBackend>, store: Store, collection: Option<string>,
                                    settings: Settings, env: Env, probe: Result<seq<real>>, writes: Writes)
    requires embeddings.Ok? && store.health.Up?
    ensures var r := GetRetriever(embeddings, store, collection, settings, env, probe, writes);
      r.Ok? && r.value.k == 4
  {
  }

  /** Retrieval: the result of `invoke`, or of the legacy call when `invoke` raised */
  function Retrieve(invoked: Result<seq<Document>>, legacy: Result<seq<Document>>): (r: Result<seq<Document>>)
    ensures invoked.Ok? ==> r == invoked
    ensures invoked.Err? ==> r == legacy
  {
    if invoked.Ok? then invoked else legacy
  }

  /** The page contents of the documents, in order */
  function PageContents(docs: seq<Document>): (ps: seq<string>)
    ensures |ps| == |docs|
    ensures forall i :: 0 <= i < |docs| ==> ps[i] == docs[i].pageContent
  {
    seq(|docs|, i requires 0 <= i < |docs| => docs[i].pageContent)
  }

  /** The prompt context: the page contents joined by a blank line */
  function Context(docs: seq<Document>): string {
    Join(ContextSeparator, PageContents(docs))
  }

  /** The sources: one metadata entry per document, in retrieval order */
  function Sources(docs: seq<Document>): (ms: seq<Metadata>)
    ensures |ms| == |docs|
    ensures forall i :: 0 <= i < |docs| ==> ms[i] == docs[i].metadata
  {
    seq(|docs|, i requires 0 <= i < |docs| => docs[i].metadata)
  }

  /** Appending a document appends its text after a blank line */
  lemma ContextSnoc(docs: seq<Document>, d: Document)
    requires docs != []
    ensures Context(docs + [d]) == Context(docs) + ContextSeparator + d.pageContent
  {
    assert PageContents(docs + [d]) == PageContents(docs) + [d.pageContent];
    JoinSnoc(ContextSeparator, PageContents(docs), d.pageContent);
  }

  /** Every retrieved page's text appears in the context */
  lemma {:induction false} ContextContainsEveryPage(docs: seq<Document>, i: nat)
    requires i < |docs|
    ensures Contains(Context(docs), docs[i].pageContent)
    decreases |docs|
  {
    if |docs| == 1 {
      assert Context(docs) == docs[0].pageContent by {
        assert PageContents(docs) == [docs[0].pageContent];
      }
      ContainsInfix([], docs[0].pageContent, []);
      assert [] + docs[0].pageContent + [] == docs[0].pageContent;
    } else {
      var front := docs[..|docs| - 1];
      var last := docs[|docs| - 1];
      assert docs == front + [last];
      ContextSnoc(front, last);
      if i == |docs| - 1 {
        ContainsInfix(Context(front) + ContextSeparator, last.pageContent, []);
        assert Context(front) + ContextSeparator + last.pageContent + [] == Context(docs);
      } else {
        ContextContainsEveryPage(front, i);
        assert front[i] == docs[i];
        var k :| OccursAt(Context(front), docs[i].pageContent, k);
        assert Context(docs)[k..k + |docs[i].pageContent|] == Context(front)[k..k + |docs[i].pageContent|];
        assert OccursAt(Context(docs), docs[i].pageContent, k);
      }
    }
  }

  /** What `rag_answer` returns */
  datatype Answer = Answer(answer: string, sources: seq<Metadata>)

  /** The degraded answer for an error */
  function Unavailable(e: Exception): (a: Answer)
    ensures IsPrefix(UnavailablePrefix, a.answer) && a.sources == []
  {
    Answer(UnavailablePrefix + e.message, [])
  }

  /** The steps of `rag_answer` inside its catch-all */
  function AnswerSteps(question: string, retriever: Result<Retriever>,
                       invoked: Result<seq<Document>>, legacy: Result<seq<Document>>,
                       llm: Result<ChatBackend>, chat: (ChatBackend, seq<ChatMessage>) -> Result<Generated>)
    : Result<Answer>
  {
    var _ :- retriever;
    var docs :- Retrieve(invoked, legacy);
    var answer :- RunChain(llm, RagInstructions, Context(docs), question, chat);
    Ok(Answer(answer, Sources(docs)))
  }

  /** `rag_answer`: never raises; any failure becomes the degraded answer with no sources.
      `invoked` and `legacy` are the outcomes of the two retrieval calls on the question,
      `llm` that of `build_llm()`, and `chat` the chosen backend's generation. */
  function RagAnswer(question: string, retriever: Result<Retriever>,
                     invoked: Result<seq<Document>>, legacy: Result<seq<Document>>,
                     llm: Result<ChatBackend>, chat: (ChatBackend, seq<ChatMessage>) -> Result<Generated>)
    : (a: Answer)
    // opening the retriever failed
    ensures retriever.Err? ==> a == Unavailable(retriever.error)
    // both retrieval calls failed
    ensures retriever.Ok? && invoked.Err? && legacy.Err? ==> a == Unavailable(legacy.error)
    // retrieval succeeded: the answer is generated over the joined context, or degraded
    ensures retriever.Ok? && Retrieve(invoked, legacy).Ok? ==>
      var docs := Retrieve(invoked, legacy).value;
      var generated := RunChain(llm, RagInstructions, Context(docs), question, chat);
      && (generated.Ok? ==> a == Answer(generated.value, Sources(docs)))
      && (generated.Err? ==> a == Unavailable(generated.error))
  {
    match AnswerSteps(question, retriever, invoked, legacy, llm, chat)
    case Ok(answer) => answer
    case Err(e) => Unavailable(e)
  }

  /** An answer either carries one source per retrieved document or is the degraded one */
  lemma AnswerSourcesMatchRetrieval(question: string, retriever: Result<Retriever>,
                                    invoked: Result<seq<Document>>, legacy: Result<seq<Document>>,
                                    llm: Result<ChatBackend>, chat: (ChatBackend, seq<ChatMessage>) -> Result<Generated>)
    ensures var a := RagAnswer(question, retriever, invoked, legacy, llm, chat);
      (exists e :: a == Unavailable(e))
      || (Retrieve(invoked, legacy).Ok? && a.sources == Sources(Retrieve(invoked, legacy).value))
  {
    var a := RagAnswer(question, retriever, invoked, legacy, llm, chat);
    match AnswerSteps(question, retriever, invoked, legacy, llm, chat)
    case Ok(_) =>
    case Err(e) => assert a == Unavailable(e);
  }

  /** What ingestion reports */
  datatype Ingested = Ingested(numChunks: nat, collection: string, ids: seq<string>)

  /** `ingest_pdf_into_qdrant`: `chunks` is the outcome of loading and splitting the PDF,
      `embeddings` that of `build_embeddings()`, `added` that of adding the chunks. The first
      error raised is the result. */
  function IngestPdf(chunks: Result<seq<Document>>, embeddings: Result<EmbeddingBackend>, store: Store,
                     collection: Option<string>, settings: Settings, env: Env, probe: Result<seq<real>>,
                     writes: Writes, added: Result<seq<string>>)
    : (r: Result<Ingested>)
    ensures chunks.Err? ==> r == Err(chunks.error)
    ensures chunks.Ok? && embeddings.Err? ==> r == Err(embeddings.error)
    ensures chunks.Ok? && embeddings.Ok? && store.health.Down? ==>
      r == Err(Exception(RuntimeError, UnreachableMessage(settings.qdrantUrl)))
    ensures chunks.Ok? && embeddings.Ok? && store.health.Up? && added.Err? ==> r == Err(added.error)
    ensures r.Ok? <==> chunks.Ok? && embeddings.Ok? && store.health.Up? && added.Ok?
    ensures r.Ok? ==>
      && r.value.numChunks == |chunks.value|
      && r.value.collection == ResolveCollection(collection, settings)
      && r.value.ids == added.value
  {
    var docs :- chunks;
    var _ :- embeddings;
    var vs :- GetVectorstore(store, collection, settings, env, probe, writes);
    var ids :- added;
    Ok(Ingested(|docs|, vs.collection, ids))
  }

  /** After a successful ingestion, a retriever opened with the same arguments on the store
      that ingestion's reconciliation left behind succeeds and binds the collection the
      chunks went to, at the same dimension; unless that reconciliation dropped the
      collection, opening the retriever writes nothing more to the store */
  lemma IngestThenRetrieve(chunks: Result<seq<Document>>, embeddings: Result<EmbeddingBackend>,
                           store: Store, collection: Option<string>, settings: Settings, env: Env,
                           probe: Result<seq<real>>, writes: Writes, added: Result<seq<string>>)
    requires IngestPdf(chunks, embeddings, store, collection, settings, env, probe, writes, added).Ok?
    ensures var ingested := GetVectorstore(store, collection, settings, env, probe, writes).value;
      var r := GetRetriever(embeddings, ingested.store, collection, settings, env, probe, writes);
      && r.Ok?
      && r.value.store.collection == IngestPdf(chunks, embeddings, store, collection, settings, env, probe, writes, added).value.collection
      && r.value.store.dim == ingested.dim
      && (!ingested.report.Dropped? ==> r.value.store.store == ingested.store)
  {
    var ingested := GetVectorstore(store, collection, settings, env, probe, writes).value;
    if !ingested.report.Dropped? {
      GetVectorstoreIdempotent(store, collection, settings, env, probe, writes);
    }
  }
}
