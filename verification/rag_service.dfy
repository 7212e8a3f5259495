/** The retrieval-augmented generation service (`RAGService`): start-up of
    the LLM and the retrieval chain, answering a question with cleaned text
    and the distinct source files of the retrieved chunks, and the health
    report. The LLM, the prompt and the chain's retrieval are not modelled:
    a chain is a function from the question to what LangChain returns. */
module RagPipeline {
  import opened Wrappers
  import opened ResponseCleaner
  import opened DocumentProcessing

  const OllamaBaseUrl := "http://localhost:11434"
  const OllamaModel := "llama3"
  const DefaultAnswer := "I couldn't generate a response."
  const ApologyAnswer := "I'm sorry, I encountered an error while processing your question."
  const UnknownSource := "Unknown"
  const ChainMissingMessage := "RAG chain not initialized"

  /** The Ollama client as configured at start-up. */
  datatype Llm = OllamaLlm(baseUrl: string, model: string)

  /** The value under the chain output's "result" key. */
  datatype RawAnswer = Missing | Null | Text(text: string)

  /** The chain's output dictionary: "result" and "source_documents" (absent
      keys are `Missing` and `None`). */
  datatype ChainOutput = ChainOutput(result: RawAnswer, sourceDocuments: Option<seq<Document>>)

  /** `retrieval_chain({"query": question})`, which may raise. */
  type Chain = string -> Result<ChainOutput>

  // ---------------------------------------------------------------------------
  // Distinct sources in first-seen order, and chunk counts

  predicate NoDuplicates(s: seq<string>) {
    forall i, j :: 0 <= i < j < |s| ==> s[i] != s[j]
  }

  /** `doc.metadata.get("source", "Unknown")`. */
  function SourceOf(doc: Document): string {
    if "source" in doc.metadata then doc.metadata["source"] else UnknownSource
  }

  function SourceIds(docs: seq<Document>): (ids: seq<string>)
    ensures |ids| == |docs| && forall i :: 0 <= i < |docs| ==> ids[i] == SourceOf(docs[i])
  {
    seq(|docs|, i requires 0 <= i < |docs| => SourceOf(docs[i]))
  }

  /** The list built by appending each id that is not yet in it. */
  function Distinct(ids: seq<string>): seq<string>
  {
    if ids == [] then []
    else
      var seen := Distinct(ids[..|ids| - 1]);
      if ids[|ids| - 1] in seen then seen else seen + [ids[|ids| - 1]]
  }

  /** Position of the first occurrence of `x` in `ids`. */
  function FirstIndex(ids: seq<string>, x: string): (k: nat)
    requires x in ids
    ensures k < |ids| && ids[k] == x && x !in ids[..k]
  {
    if ids[0] == x then 0 else 1 + FirstIndex(ids[1..], x)
  }

  lemma {:induction false} FirstIndexAppend(ids: seq<string>, y: string, x: string)
    requires x in ids + [y]
    ensures x in ids ==> FirstIndex(ids + [y], x) == FirstIndex(ids, x)
    ensures x !in ids ==> FirstIndex(ids + [y], x) == |ids|
  {
    if ids != [] && ids[0] != x {
      assert (ids + [y])[1..] == ids[1..] + [y];
      FirstIndexAppend(ids[1..], y, x);
    }
  }

  /** The sources list holds every id exactly once, and in the order in which
      each first appears among the retrieved chunks. */
  lemma {:induction false} DistinctIsFirstSeenOrder(ids: seq<string>)
    ensures NoDuplicates(Distinct(ids))
    ensures forall x :: x in Distinct(ids) <==> x in ids
    ensures forall i, j :: 0 <= i < j < |Distinct(ids)| ==>
      FirstIndex(ids, Distinct(ids)[i]) < FirstIndex(ids, Distinct(ids)[j])
  {
    if ids != [] {
      var prefix, y := ids[..|ids| - 1], ids[|ids| - 1];
      assert ids == prefix + [y];
      DistinctIsFirstSeenOrder(prefix);
      var d := Distinct(ids);
      forall x | x in d
        ensures FirstIndex(ids, x) == (if x in prefix then FirstIndex(prefix, x) else |prefix|)
      {
        FirstIndexAppend(prefix, y, x);
      }
    }
  }

  /** The per-source chunk counts the service logs. */
  function ChunkCounts(ids: seq<string>): map<string, nat>
  {
    if ids == [] then map[]
    else
      var counts := ChunkCounts(ids[..|ids| - 1]);
      var x := ids[|ids| - 1];
      counts[x := (if x in counts then counts[x] else 0) + 1]
  }

  /** Every retrieved source has a count, and it is the number of chunks from
      that source. */
  lemma {:induction false} ChunkCountsAreOccurrences(ids: seq<string>)
    ensures forall x :: x in ChunkCounts(ids) <==> x in ids
    ensures forall x :: x in ChunkCounts(ids) ==> ChunkCounts(ids)[x] == multiset(ids)[x]
  {
    if ids != [] {
      var prefix, y := ids[..|ids| - 1], ids[|ids| - 1];
      assert ids == prefix + [y];
      ChunkCountsAreOccurrences(prefix);
    }
  }

  /** One more retrieved chunk, as the loop of `get_answer` takes it: its
      source is appended when not yet listed, and its count, set to zero when
      missing, goes up by one. */
  lemma CollectStep(ids: seq<string>, i: nat, seen: seq<string>, counts: map<string, nat>,
                    sources: seq<string>, chunkCounts: map<string, nat>)
    requires i < |ids| && seen == Distinct(ids[..i]) && counts == ChunkCounts(ids[..i])
    requires sources == if ids[i] in seen then seen else seen + [ids[i]]
    requires var start := if ids[i] in counts then counts else counts[ids[i] := 0];
      chunkCounts == start[ids[i] := start[ids[i]] + 1]
    ensures sources == Distinct(ids[..i + 1]) && chunkCounts == ChunkCounts(ids[..i + 1])
  {
    assert ids[..i + 1][..i] == ids[..i];
    CountStep(counts, ids[i]);
  }

  /** Setting a missing count to zero and then adding one is adding one to
      the count, taken as zero when missing. */
  lemma CountStep(m: map<string, nat>, x: string)
    ensures var m1 := if x in m then m else m[x := 0];
      m1[x := m1[x] + 1] == m[x := (if x in m then m[x] else 0) + 1]
  {
  }

  /** The loop of `get_answer` over the retrieved chunks: each chunk's source
      is appended when not yet listed, and its count goes up by one. */
  method CollectSources(sourceDocs: seq<Document>) returns (sources: seq<string>, chunkCounts: map<string, nat>)
    ensures sources == Distinct(SourceIds(sourceDocs))
    ensures chunkCounts == ChunkCounts(SourceIds(sourceDocs))
  {
    ghost var ids := SourceIds(sourceDocs);
    sources, chunkCounts := [], map[];
    var i := 0;
    while i < |sourceDocs|
      invariant 0 <= i <= |sourceDocs|
      invariant sources == Distinct(ids[..i])
      invariant chunkCounts == ChunkCounts(ids[..i])
    {
      var sourceInfo := SourceOf(sourceDocs[i]);
      ghost var seen, counts := sources, chunkCounts;
      if sourceInfo !in sources {
        sources := sources + [sourceInfo];
      }
      if sourceInfo !in chunkCounts {
        chunkCounts := chunkCounts[sourceInfo := 0];
      }
      chunkCounts := chunkCounts[sourceInfo := chunkCounts[sourceInfo] + 1];
      CollectStep(ids, i, seen, counts, sources, chunkCounts);
      i := i + 1;
    }
    assert ids[..i] == ids;
  }

  /** Sum of `counts` over the keys `keys`. */
  function SumOver(keys: seq<string>, counts: map<string, nat>): nat
    requires forall k :: k in keys ==> k in counts
  {
    if keys == [] then 0 else SumOver(keys[..|keys| - 1], counts) + counts[keys[|keys| - 1]]
  }

  lemma {:induction false} SumOverOtherKey(keys: seq<string>, counts: map<string, nat>, y: string, v: nat)
    requires forall k :: k in keys ==> k in counts
    requires y !in keys
    ensures SumOver(keys, counts[y := v]) == SumOver(keys, counts)
  {
    if keys != [] {
      SumOverOtherKey(keys[..|keys| - 1], counts, y, v);
    }
  }

  lemma {:induction false} SumOverIncrement(keys: seq<string>, counts: map<string, nat>, y: string)
    requires forall k :: k in keys ==> k in counts
    requires NoDuplicates(keys) && y in keys && y in counts
    ensures SumOver(keys, counts[y := counts[y] + 1]) == SumOver(keys, counts) + 1
  {
    var prefix, last := keys[..|keys| - 1], keys[|keys| - 1];
    assert keys == prefix + [last];
    if last == y {
      assert y !in prefix;
      SumOverOtherKey(prefix, counts, y, counts[y] + 1);
    } else {
      SumOverIncrement(prefix, counts, y);
    }
  }

  /** The logged counts add up to the number of retrieved chunks. */
  lemma {:induction false} ChunkCountsTotal(ids: seq<string>)
    ensures forall k :: k in Distinct(ids) ==> k in ChunkCounts(ids)
    ensures SumOver(Distinct(ids), ChunkCounts(ids)) == |ids|
  {
    if ids != [] {
      var prefix, y := ids[..|ids| - 1], ids[|ids| - 1];
      ChunkCountsTotal(prefix);
      var d, c := Distinct(prefix), ChunkCounts(prefix);
      assert NoDuplicates(d) && (y in d <==> y in prefix) by {
        DistinctIsFirstSeenOrder(prefix);
      }
      assert y in c <==> y in prefix by {
        ChunkCountsAreOccurrences(prefix);
      }
      ChunkCountsStep(d, c, y, |prefix|, Distinct(ids), ChunkCounts(ids));
    }
  }

  /** One more chunk from source `y`: the sum over the sources grows by one. */
  lemma ChunkCountsStep(d: seq<string>, c: map<string, nat>, y: string, n: nat,
                         d': seq<string>, c': map<string, nat>)
    requires forall k :: k in d ==> k in c
    requires SumOver(d, c) == n && NoDuplicates(d) && (y in d <==> y in c)
    requires d' == if y in d then d else d + [y]
    requires c' == c[y := (if y in c then c[y] else 0) + 1]
    ensures forall k :: k in d' ==> k in c'
    ensures SumOver(d', c') == n + 1
  {
    if y in d {
      SumOverIncrement(d, c, y);
    } else {
      SumOverOtherKey(d, c, y, 1);
      assert (d + [y])[..|d|] == d;
    }
  }

  // ---------------------------------------------------------------------------
  // get_answer and health_check as functions of the service's state

  /** What calling the chain gives: its output, or the raise (including the
      one for a missing chain). */
  function ChainResult(chain: Option<Chain>, question: string): Result<ChainOutput> {
    if chain.None? then Failure(ChainMissingMessage) else chain.value(question)
  }

  /** `result.get("result", "I couldn't generate a response.")`. */
  function RawText(raw: RawAnswer): Option<string> {
    match raw
    case Missing => Some(DefaultAnswer)
    case Null => None
    case Text(t) => Some(t)
  }

  function RetrievedIds(out: ChainOutput): seq<string> {
    SourceIds(out.sourceDocuments.GetOr([]))
  }

  /** What `get_answer(question)` returns: the cleaned answer (`None` when
      the chain's "result" is `None`) and the distinct sources of the
      retrieved chunks, or the apology and no source when anything raises. */
  function AnswerOf(chain: Option<Chain>, question: string): (r: (Option<string>, seq<string>))
    ensures ChainResult(chain, question).Failure? ==> r == (Some(ApologyAnswer), [])
    ensures r.0.None? <==> ChainResult(chain, question).Success? && ChainResult(chain, question).value.result.Null?
    ensures NoDuplicates(r.1)
    ensures forall x :: x in r.1 <==>
      ChainResult(chain, question).Success? && x in RetrievedIds(ChainResult(chain, question).value)
  {
    match ChainResult(chain, question)
    case Failure(_) => (Some(ApologyAnswer), [])
    case Success(out) =>
      DistinctIsFirstSeenOrder(RetrievedIds(out));
      (CleanResponse(RawText(out.result)), Distinct(RetrievedIds(out)))
  }

  /** The health dictionary for the outcome of `get_vector_store()`. */
  function HealthInfo(store: Result<VectorStore>, chainReady: bool): (info: map<string, string>)
    ensures info.Keys == {"llm_type", "ollama_model", "vector_store_status", "rag_chain_status"} +
      (if store.Failure? then {"error"} else {})
    ensures info["llm_type"] == "ollama" && info["ollama_model"] == OllamaModel
    ensures info["vector_store_status"] == (if store.Success? then "healthy" else "error")
    ensures info["rag_chain_status"] ==
      (if store.Failure? then "error" else if chainReady then "initialized" else "not_initialized")
    ensures store.Failure? ==> info["error"] == store.error
  {
    var base := map["llm_type" := "ollama", "ollama_model" := OllamaModel];
    if store.Success? then
      base["vector_store_status" := "healthy"]
          ["rag_chain_status" := if chainReady then "initialized" else "not_initialized"]
    else
      base["vector_store_status" := "error"]["rag_chain_status" := "error"]["error" := store.error]
  }

  /** Whether `RAGService()` returns rather than raises: the embedding model
      and the LLM load, the vector store opens or builds, and the chain is
      built over it. */
  predicate StartsUp(env: Environment, docsDirectory: string, persistPath: string, embeddings: Result<()>,
                     llm: Result<Llm>, buildChain: (VectorStore, Llm) -> Result<Chain>)
  {
    var store := LoadOutcome(env, docsDirectory, persistPath);
    embeddings.Success? && llm.Success? && store.Success? && buildChain(store.value, llm.value).Success?
  }

  class RagService {
    const processor: DocumentProcessor
    const llm: Llm
    var retrievalChain: Option<Chain>

    /** Both the chain and the vector store it searches exist. */
    predicate Ready()
      reads this, processor
    {
      retrievalChain.Some? && processor.vectorStore.Some?
    }

    constructor (processor: DocumentProcessor, llm: Llm)
      ensures this.processor == processor && this.llm == llm && retrievalChain == None
    {
      this.processor := processor;
      this.llm := llm;
      retrievalChain := None;
    }

    /** `__init__`: the embedding model, the LLM, the vector store and the
        chain are set up in this order; the first raise aborts start-up. */
    static method Create(env: Environment, docsDirectory: string, persistPath: string,
                         embeddings: Result<()>, llm: Result<Llm>,
                         buildChain: (VectorStore, Llm) -> Result<Chain>)
      returns (r: Result<RagService>)
      ensures r.Success? <==> StartsUp(env, docsDirectory, persistPath, embeddings, llm, buildChain)
      ensures r.Success? ==>
        && fresh(r.value) && fresh(r.value.processor)
        && r.value.processor.env == env && r.value.llm == llm.value
        && r.value.processor.vectorStore == Some(LoadOutcome(env, docsDirectory, persistPath).value)
        && r.value.retrievalChain == Some(buildChain(r.value.processor.vectorStore.value, llm.value).value)
    {
      if embeddings.Failure? {
        return Failure(embeddings.error);
      }
      var processor := new DocumentProcessor(env, docsDirectory, persistPath);
      if llm.Failure? {
        return Failure(llm.error);
      }
      var service := new RagService(processor, llm.value);
      var initialized := service.InitializeRagChain(buildChain);
      if initialized.Failure? {
        return Failure(initialized.error);
      }
      r := Success(service);
    }

    /** `_initialize_rag_chain`: fetch (or load) the vector store and build
        the chain over it; any raise propagates. */
    method InitializeRagChain(buildChain: (VectorStore, Llm) -> Result<Chain>) returns (r: Result<()>)
      modifies this, processor
      ensures var (store, state) := GetOutcome(processor.env, processor.docsDirectory, processor.persistPath,
                                               old(processor.vectorStore));
        && processor.vectorStore == state
        && (r.Success? <==> store.Success? && buildChain(store.value, llm).Success?)
        && retrievalChain == if r.Success? then Some(buildChain(store.value, llm).value) else old(retrievalChain)
    {
      var store := processor.GetVectorStore();
      if store.Failure? {
        return Failure(store.error);
      }
      var chain := buildChain(store.value, llm);
      if chain.Failure? {
        return Failure(chain.error);
      }
      retrievalChain := Some(chain.value);
      r := Success(());
    }

    /** `get_answer`: ask the chain, clean its answer and list the distinct
        sources of the retrieved chunks in first-seen order; any raise gives
        the apology and no source. `chunkCounts` is what the loop logs. */
    method GetAnswer(question: string) returns (answer: Option<string>, sources: seq<string>,
                                                chunkCounts: map<string, nat>)
      ensures (answer, sources) == AnswerOf(retrievalChain, question)
      ensures chunkCounts == match ChainResult(retrievalChain, question)
        case Failure(_) => map[]
        case Success(out) => ChunkCounts(RetrievedIds(out))
    {
      var result := ChainResult(retrievalChain, question);
      if result.Failure? {
        return Some(ApologyAnswer), [], map[];
      }
      answer := CleanResponse(RawText(result.value.result));
      sources, chunkCounts := CollectSources(result.value.sourceDocuments.GetOr([]));
    }

    /** `health_check`: fetching the store may load it; a raise is reported
        in the dictionary rather than propagated. */
    method HealthCheck() returns (info: map<string, string>)
      modifies processor
      ensures var (store, state) := GetOutcome(processor.env, processor.docsDirectory, processor.persistPath,
                                               old(processor.vectorStore));
        processor.vectorStore == state && info == HealthInfo(store, retrievalChain.Some?)
      ensures old(processor.vectorStore).Some? && retrievalChain.Some? ==>
        processor.vectorStore == old(processor.vectorStore)
        && info["vector_store_status"] == "healthy" && info["rag_chain_status"] == "initialized"
    {
      var store := processor.GetVectorStore();
      info := HealthInfo(store, retrievalChain.Some?);
      if old(processor.vectorStore).Some? {
        ReadyServiceIsHealthy(processor.env, processor.docsDirectory, processor.persistPath,
                              old(processor.vectorStore).value);
      }
    }
  }

  /** A service whose store is already loaded reports a healthy store and an
      initialized chain, whatever its environment now does. */
  lemma ReadyServiceIsHealthy(env: Environment, docsDirectory: string, persistPath: string, store: VectorStore)
    ensures var (outcome, state) := GetOutcome(env, docsDirectory, persistPath, Some(store));
      state == Some(store) &&
      HealthInfo(outcome, true) ==
        map["llm_type" := "ollama", "ollama_model" := OllamaModel,
            "vector_store_status" := "healthy", "rag_chain_status" := "initialized"]
  {
  }
}
