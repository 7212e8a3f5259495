/** Loading the document directory and building, loading and caching the
    vector store (`DocumentProcessor`). The filesystem, the LangChain text
    loader and splitter, the embedding model and Chroma are not modelled: they
    are the functions of an `Environment` handed to the processor, each of
    which either returns a value or raises. */
module DocumentProcessing {
  import opened Wrappers

  /** A LangChain document: its text and its metadata dictionary. */
  datatype Document = Document(pageContent: string, metadata: map<string, string>)

  /** A Chroma store, identified by how it came to be: opened from the persist
      directory, or built there from a list of chunks. */
  datatype VectorStore =
    | OpenedStore(persistDirectory: string)
    | BuiltStore(persistDirectory: string, chunks: seq<Document>)

  /** The outside world as the processor sees it. */
  datatype Environment = Environment(
    pathExists: string -> bool,                              // os.path.exists
    listDir: string -> Result<seq<string>>,                  // os.listdir
    loadText: string -> Result<seq<Document>>,               // TextLoader(path).load()
    split: seq<Document> -> Result<seq<Document>>,           // text_splitter.split_documents
    openStore: string -> Result<VectorStore>,                // Chroma(persist_directory=...)
    buildStore: (seq<Document>, string) -> Result<VectorStore>) // Chroma.from_documents(...)

  const NoChunksMessage := "No document chunks available for vector store creation"
  const NoDocumentsMessage := "No documents found to create vector store"

  // ---------------------------------------------------------------------------
  // Paths and file names

  /** `filename.endswith('.txt')`. */
  predicate IsTextFile(name: string) {
    |name| >= 4 && name[|name| - 4..] == ".txt"
  }

  /** `os.path.join(directory, name)` with POSIX rules. */
  function JoinPath(directory: string, name: string): (path: string)
    ensures |path| >= |name| && path[|path| - |name|..] == name
  {
    if name != [] && name[0] == '/' then name
    else if directory == [] || directory[|directory| - 1] == '/' then directory + name
    else directory + "/" + name
  }

  // ---------------------------------------------------------------------------
  // load_documents

  /** The loop body's metadata update, applied to every document of a file. */
  function Tag(doc: Document, filename: string, filePath: string): (tagged: Document)
    ensures tagged.pageContent == doc.pageContent
    ensures tagged.metadata.Keys == doc.metadata.Keys + {"source", "file_path"}
    ensures tagged.metadata["source"] == filename && tagged.metadata["file_path"] == filePath
  {
    doc.(metadata := doc.metadata["source" := filename]["file_path" := filePath])
  }

  function TagAll(docs: seq<Document>, filename: string, filePath: string): (tagged: seq<Document>)
    ensures |tagged| == |docs|
    ensures forall i :: 0 <= i < |docs| ==> tagged[i] == Tag(docs[i], filename, filePath)
  {
    seq(|docs|, i requires 0 <= i < |docs| => Tag(docs[i], filename, filePath))
  }

  /** Documents of the `.txt` entries of `names`, in listing order, up to the
      first file whose loading raises. */
  function CollectText(env: Environment, directory: string, names: seq<string>): seq<Document>
  {
    if names == [] then []
    else if !IsTextFile(names[0]) then CollectText(env, directory, names[1..])
    else
      var path := JoinPath(directory, names[0]);
      match env.loadText(path)
      case Failure(_) => []
      case Success(docs) => TagAll(docs, names[0], path) + CollectText(env, directory, names[1..])
  }

  /** What `load_documents(directory)` returns. */
  function LoadedDocuments(env: Environment, directory: string): (docs: seq<Document>)
    ensures !env.pathExists(directory) ==> docs == []
    ensures env.listDir(directory).Failure? ==> docs == []
  {
    if !env.pathExists(directory) then []
    else match env.listDir(directory)
      case Failure(_) => []
      case Success(names) => CollectText(env, directory, names)
  }

  /** No `.txt` file in `names` fails to load. */
  predicate AllLoad(env: Environment, directory: string, names: seq<string>) {
    forall i :: 0 <= i < |names| && IsTextFile(names[i]) ==> env.loadText(JoinPath(directory, names[i])).Success?
  }

  /** Every collected document comes from a `.txt` entry of the listing, its
      `source` is that entry and its `file_path` the entry joined to the
      directory. */
  lemma {:induction false} CollectTextTagged(env: Environment, directory: string, names: seq<string>)
    ensures forall d :: d in CollectText(env, directory, names) ==>
      && "source" in d.metadata && "file_path" in d.metadata
      && d.metadata["source"] in names && IsTextFile(d.metadata["source"])
      && d.metadata["file_path"] == JoinPath(directory, d.metadata["source"])
  {
    if names != [] {
      CollectTextTagged(env, directory, names[1..]);
      if IsTextFile(names[0]) {
        var path := JoinPath(directory, names[0]);
        if env.loadText(path).Success? {
          var tagged := TagAll(env.loadText(path).value, names[0], path);
          forall d | d in tagged
            ensures d.metadata["source"] == names[0] && d.metadata["file_path"] == path
          {
            var i :| 0 <= i < |tagged| && tagged[i] == d;
          }
        }
      }
    }
  }

  /** Errors are swallowed: when the `k`-th entry is the first `.txt` file that
      fails to load, the result is exactly what the entries before it give,
      and each of those loaded. */
  lemma {:induction false} CollectTextStopsAtFailure(env: Environment, directory: string, names: seq<string>, k: nat)
    requires k < |names| && IsTextFile(names[k])
    requires env.loadText(JoinPath(directory, names[k])).Failure?
    requires AllLoad(env, directory, names[..k])
    ensures CollectText(env, directory, names) == CollectText(env, directory, names[..k])
  {
    if k > 0 {
      var before := names[1..][..k - 1];
      assert before == names[..k][1..];
      assert AllLoad(env, directory, before) by {
        forall i | 0 <= i < k - 1 && IsTextFile(before[i])
          ensures env.loadText(JoinPath(directory, before[i])).Success?
        {
          assert before[i] == names[..k][i + 1];
        }
      }
      assert names[..k][0] == names[0];
      CollectTextStopsAtFailure(env, directory, names[1..], k - 1);
    }
  }

  /** What one entry adds to the result when it does not stop the scan. */
  function Contribution(env: Environment, directory: string, name: string): seq<Document> {
    if !IsTextFile(name) then []
    else match env.loadText(JoinPath(directory, name))
      case Failure(_) => []
      case Success(docs) => TagAll(docs, name, JoinPath(directory, name))
  }

  lemma AllLoadTail(env: Environment, directory: string, names: seq<string>)
    requires names != [] && AllLoad(env, directory, names)
    ensures AllLoad(env, directory, names[1..])
    ensures IsTextFile(names[0]) ==> env.loadText(JoinPath(directory, names[0])).Success?
  {
    forall i | 0 <= i < |names| - 1 && IsTextFile(names[1..][i])
      ensures env.loadText(JoinPath(directory, names[1..][i])).Success?
    {
      assert names[1..][i] == names[i + 1];
    }
  }

  /** An entry that does not stop the scan puts its contribution in front of
      the rest. */
  lemma CollectTextCons(env: Environment, directory: string, names: seq<string>)
    requires names != []
    requires IsTextFile(names[0]) ==> env.loadText(JoinPath(directory, names[0])).Success?
    ensures CollectText(env, directory, names) ==
      Contribution(env, directory, names[0]) + CollectText(env, directory, names[1..])
  {
  }

  lemma AppendAssociative(a: seq<Document>, b: seq<Document>, c: seq<Document>)
    ensures a + (b + c) == (a + b) + c
  {
  }

  /** Without failures every `.txt` entry contributes all its documents, in
      listing order. */
  lemma {:induction false} CollectTextAppend(env: Environment, directory: string, names: seq<string>, name: string)
    requires AllLoad(env, directory, names)
    ensures CollectText(env, directory, names + [name]) ==
      CollectText(env, directory, names) + Contribution(env, directory, name)
  {
    if names == [] {
      assert [name][1..] == [];
      assert Contribution(env, directory, name) + [] == Contribution(env, directory, name);
    } else {
      var all := names + [name];
      assert all[0] == names[0] && all[1..] == names[1..] + [name];
      AllLoadTail(env, directory, names);
      CollectTextCons(env, directory, all);
      CollectTextCons(env, directory, names);
      CollectTextAppend(env, directory, names[1..], name);
      AppendAssociative(Contribution(env, directory, names[0]), CollectText(env, directory, names[1..]),
                        Contribution(env, directory, name));
    }
  }

  /** One iteration of the scan when the `i`-th entry is not a `.txt` file
      that fails to load. */
  lemma CollectTextStep(env: Environment, directory: string, names: seq<string>, i: nat)
    requires i < |names| && AllLoad(env, directory, names[..i])
    requires IsTextFile(names[i]) ==> env.loadText(JoinPath(directory, names[i])).Success?
    ensures AllLoad(env, directory, names[..i + 1])
    ensures CollectText(env, directory, names[..i + 1]) ==
      CollectText(env, directory, names[..i]) + Contribution(env, directory, names[i])
  {
    assert names[..i + 1] == names[..i] + [names[i]];
    CollectTextAppend(env, directory, names[..i], names[i]);
  }

  // ---------------------------------------------------------------------------
  // The vector store as a state machine over `vectorStore`

  /** `split_documents`: the splitter's chunks, or no chunk when it raises. */
  function SplitDocuments(env: Environment, documents: seq<Document>): (chunks: seq<Document>)
    ensures env.split(documents).Failure? ==> chunks == []
    ensures env.split(documents).Success? ==> chunks == env.split(documents).value
  {
    match env.split(documents)
    case Success(chunks) => chunks
    case Failure(_) => []
  }

  /** What `create_vector_store(documents)` returns or raises. */
  function CreateOutcome(env: Environment, persistPath: string, documents: seq<Document>): (r: Result<VectorStore>)
    ensures SplitDocuments(env, documents) == [] ==> r == Failure(NoChunksMessage)
  {
    var chunks := SplitDocuments(env, documents);
    if chunks == [] then Failure(NoChunksMessage)
    else env.buildStore(chunks, persistPath)
  }

  /** What `load_vector_store()` returns or raises. */
  function LoadOutcome(env: Environment, docsDirectory: string, persistPath: string): (r: Result<VectorStore>)
    ensures env.pathExists(persistPath) ==> r == env.openStore(persistPath)
    ensures !env.pathExists(persistPath) && LoadedDocuments(env, docsDirectory) == [] ==>
      r == Failure(NoDocumentsMessage)
    ensures !env.pathExists(persistPath) && LoadedDocuments(env, docsDirectory) != [] ==>
      r == CreateOutcome(env, persistPath, LoadedDocuments(env, docsDirectory))
  {
    if env.pathExists(persistPath) then env.openStore(persistPath)
    else
      var documents := LoadedDocuments(env, docsDirectory);
      if documents == [] then Failure(NoDocumentsMessage)
      else CreateOutcome(env, persistPath, documents)
  }

  /** What `get_vector_store()` returns, with the new value of `vector_store`. */
  function GetOutcome(env: Environment, docsDirectory: string, persistPath: string, cached: Option<VectorStore>)
    : (r: (Result<VectorStore>, Option<VectorStore>))
    ensures cached.Some? ==> r == (Success(cached.value), cached)
    ensures r.0.Success? ==> r.1 == Some(r.0.value)
    ensures r.0.Failure? ==> r.1 == cached
  {
    if cached.Some? then (Success(cached.value), cached)
    else
      var loaded := LoadOutcome(env, docsDirectory, persistPath);
      if loaded.Success? then (loaded, Some(loaded.value)) else (loaded, cached)
  }

  /** Once `get_vector_store` has succeeded, calling it again, in any
      environment, returns the same store and changes nothing. */
  lemma GetOutcomeIdempotent(env: Environment, env': Environment, docsDirectory: string, persistPath: string,
                             cached: Option<VectorStore>)
    requires GetOutcome(env, docsDirectory, persistPath, cached).0.Success?
    ensures var (first, state) := GetOutcome(env, docsDirectory, persistPath, cached);
      GetOutcome(env', docsDirectory, persistPath, state) == (first, state)
  {
  }

  class DocumentProcessor {
    const env: Environment
    const docsDirectory: string   // settings.docs_directory
    const persistPath: string     // settings.vector_store_path
    var vectorStore: Option<VectorStore>

    constructor (env: Environment, docsDirectory: string, persistPath: string)
      ensures this.env == env && this.docsDirectory == docsDirectory && this.persistPath == persistPath
      ensures vectorStore == None
    {
      this.env := env;
      this.docsDirectory := docsDirectory;
      this.persistPath := persistPath;
      vectorStore := None;
    }

    /** `load_documents`: the directory listing is scanned in order; a raise
        while listing or loading ends the scan and keeps what was gathered. */
    method LoadDocuments(directory: string) returns (documents: seq<Document>)
      ensures documents == LoadedDocuments(env, directory)
    {
      documents := [];
      if !env.pathExists(directory) {
        return;
      }
      var listing := env.listDir(directory);
      if listing.Failure? {
        return;
      }
      var names := listing.value;
      var i := 0;
      while i < |names|
        invariant 0 <= i <= |names|
        invariant AllLoad(env, directory, names[..i])
        invariant documents == CollectText(env, directory, names[..i])
      {
        var filename := names[i];
        if IsTextFile(filename) {
          var path := JoinPath(directory, filename);
          var loaded := env.loadText(path);
          if loaded.Failure? {
            CollectTextStopsAtFailure(env, directory, names, i);
            return;
          }
          var tagged := TagDocuments(loaded.value, filename, path);
          documents := documents + tagged;
        }
        CollectTextStep(env, directory, names, i);
        i := i + 1;
      }
      assert names[..i] == names;
    }

    /** The inner loop of `load_documents`: every document of one file gets
        its `source` and `file_path`. */
    static method TagDocuments(docs: seq<Document>, filename: string, path: string) returns (tagged: seq<Document>)
      ensures tagged == TagAll(docs, filename, path)
    {
      tagged := [];
      var j := 0;
      while j < |docs|
        invariant 0 <= j <= |docs|
        invariant |tagged| == j
        invariant forall k :: 0 <= k < j ==> tagged[k] == Tag(docs[k], filename, path)
      {
        tagged := tagged + [Tag(docs[j], filename, path)];
        j := j + 1;
      }
    }

    /** `create_vector_store`: refuses an empty chunk list; `vectorStore` is
        assigned only when Chroma returns a store. */
    method CreateVectorStore(documents: seq<Document>) returns (r: Result<VectorStore>)
      modifies this
      ensures r == CreateOutcome(env, persistPath, documents)
      ensures vectorStore == if r.Success? then Some(r.value) else old(vectorStore)
    {
      var chunks := SplitDocuments(env, documents);
      if chunks == [] {
        return Failure(NoChunksMessage);
      }
      r := env.buildStore(chunks, persistPath);
      if r.Success? {
        vectorStore := Some(r.value);
      }
    }

    /** `load_vector_store`: open the persisted store when its directory
        exists, otherwise build one from the documents directory. */
    method LoadVectorStore() returns (r: Result<VectorStore>)
      modifies this
      ensures r == LoadOutcome(env, docsDirectory, persistPath)
      ensures vectorStore == if r.Success? then Some(r.value) else old(vectorStore)
    {
      if env.pathExists(persistPath) {
        r := env.openStore(persistPath);
        if r.Success? {
          vectorStore := Some(r.value);
        }
      } else {
        var documents := LoadDocuments(docsDirectory);
        if documents == [] {
          return Failure(NoDocumentsMessage);
        }
        r := CreateVectorStore(documents);
        if r.Success? {
          vectorStore := Some(r.value);
        }
      }
    }

    /** `get_vector_store`: load on first use, then reuse. */
    method GetVectorStore() returns (r: Result<VectorStore>)
      modifies this
      ensures (r, vectorStore) == GetOutcome(env, docsDirectory, persistPath, old(vectorStore))
      ensures old(vectorStore).Some? ==> vectorStore == old(vectorStore) && r == Success(vectorStore.value)
    {
      if vectorStore.None? {
        var loaded := LoadVectorStore();
        if loaded.Failure? {
          return loaded;
        }
        vectorStore := Some(loaded.value);
      }
      r := Success(vectorStore.value);
    }
  }
}
