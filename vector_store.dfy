/** The single, global vector index of the backend (backend/rag/vector_store.py).

    The llama_index objects are abstract here: an index is the sequence of documents inserted into
    it, in insertion order, and the persist directory is described by what loading it yields.
    Parsing a file into documents, embedding, ranking and answer generation are collaborators whose
    outcomes are parameters. */
module VectorStore {
  import opened Wrappers
  import opened Http

  /** A document as the directory reader produces it: its text and its metadata. */
  datatype Doc = Doc(text: string, metadata: map<string, Json>)

  /** An in-memory index: the documents inserted into it, in order. */
  type Index = seq<Doc>

  /** The state of the persist directory:
      nothing in it; a snapshot that loads as the given index; or files whose loading raises. */
  datatype StorageDir = EmptyDir | Snapshot(docs: Index) | Unloadable

  /** How `get_index` came by its index. */
  datatype Acquired = Fresh | Loaded(docs: Index)

  /** The index that `get_index` hands out (an `Acquired` forgets how it was obtained). */
  function IndexOf(a: Acquired): Index
  {
    match a
    case Fresh => []
    case Loaded(docs) => docs
  }

  /** `get_index`: a fresh empty index for an empty directory (no load is tried); the loaded index
      when loading succeeds; a fresh empty index when loading raises (the exception is swallowed). */
  function GetIndex(dir: StorageDir): (a: Acquired)
    ensures a.Loaded? <==> dir.Snapshot?
    ensures a.Loaded? ==> a.docs == dir.docs
    ensures !dir.Snapshot? ==> IndexOf(a) == []
  {
    if dir.EmptyDir? then Fresh
    else match dir
      case Snapshot(docs) => Loaded(docs)
      case Unloadable => Fresh
  }

  /** `index.insert(doc)`: the document is appended to the index. */
  function Insert(index: Index, doc: Doc): Index
  {
    index + [doc]
  }

  /** `index.storage_context.persist(...)`: the directory afterwards holds a snapshot of the index.
      Persisting is taken to be atomic and to overwrite whatever files were there. */
  function Persist(index: Index): StorageDir
  {
    Snapshot(index)
  }

  /** Whatever `get_index` returns from a directory `persist` wrote is exactly the persisted index. */
  lemma {:induction false} PersistThenGetIndex(index: Index)
    ensures GetIndex(Persist(index)) == Loaded(index)
    ensures IndexOf(GetIndex(Persist(index))) == index
  {
  }

  /** Whether `add_documents` runs to its `return`: the reader produced documents, and no insert
      raised (`insertRaisesAt` is the position of the first document whose insert raises, if any). */
  predicate InsertsComplete(loaded: Option<seq<Doc>>, insertRaisesAt: Option<nat>)
  {
    loaded.Some? && (insertRaisesAt.None? || insertRaisesAt.value >= |loaded.value|)
  }

  /** The directory after an `add_documents` that completed. */
  function AfterAdd(dir: StorageDir, documents: seq<Doc>): (d: StorageDir)
    ensures d.Snapshot?
    ensures IndexOf(GetIndex(d)) == IndexOf(GetIndex(dir)) + documents
  {
    Persist(IndexOf(GetIndex(dir)) + documents)
  }

  /** The number of documents the next `get_index` sees grows by exactly the count returned. */
  lemma {:induction false} AfterAddCount(dir: StorageDir, documents: seq<Doc>)
    ensures |IndexOf(GetIndex(AfterAdd(dir, documents)))| == |IndexOf(GetIndex(dir))| + |documents|
  {
    assert IndexOf(GetIndex(AfterAdd(dir, documents))) == IndexOf(GetIndex(dir)) + documents;
  }

  /** After an unloadable directory, a completed `add_documents` keeps only the new documents:
      what the unreadable files held is overwritten, and no earlier document survives. */
  lemma {:induction false} AddAfterUnloadableDropsOldFiles(documents: seq<Doc>)
    ensures AfterAdd(Unloadable, documents) == Snapshot(documents)
    ensures AfterAdd(Unloadable, documents) == AfterAdd(EmptyDir, documents)
  {
    assert IndexOf(GetIndex(Unloadable)) == [];
  }

  /** Two completed uploads in a row index the documents of both, in upload order. */
  lemma {:induction false} AddTwice(dir: StorageDir, first: seq<Doc>, second: seq<Doc>)
    ensures AfterAdd(AfterAdd(dir, first), second) == AfterAdd(dir, first + second)
  {
    var base := IndexOf(GetIndex(dir));
    assert IndexOf(GetIndex(AfterAdd(dir, first))) == base + first;
    assert (base + first) + second == base + (first + second);
  }

  /** A source node of a query response; only its metadata is read. */
  datatype Node = Node(metadata: map<string, Json>)

  /** The query engine's response: its text (`str(response)`) and, when the attribute exists,
      its source nodes. */
  datatype EngineResponse = EngineResponse(text: string, sourceNodes: Option<seq<Node>>)

  /** `index.as_query_engine().query(question)` on the given index: `None` when it raises.
      Embedding the question, similarity ranking and generation all happen inside it. */
  type QueryEngine = (Index, Json) -> Option<EngineResponse>

  /** What `query_index` returns, or that it raised. */
  datatype QueryResult = Answered(answer: string, sources: seq<Json>) | QueryRaised

  const UNKNOWN_FILENAME := "Unknown"

  /** `node.metadata.get("filename", "Unknown")`: the stored value, whatever it is, when the key is
      present (a stored `null` stays `null`); "Unknown" only when the key is absent. */
  function FilenameOf(node: Node): (f: Json)
    ensures "filename" !in node.metadata ==> f == JStr(UNKNOWN_FILENAME)
    ensures "filename" in node.metadata ==> f == node.metadata["filename"]
  {
    if "filename" in node.metadata then node.metadata["filename"] else JStr(UNKNOWN_FILENAME)
  }

  /** `{"filename": ...}`, one source entry. */
  function SourceEntry(node: Node): Json
  {
    JObj(map["filename" := FilenameOf(node)])
  }

  /** The source list built by appending one entry per node, in order. */
  function SourceList(nodes: seq<Node>): seq<Json>
  {
    if |nodes| == 0 then [] else SourceList(nodes[..|nodes| - 1]) + [SourceEntry(nodes[|nodes| - 1])]
  }

  /** The k-th source entry comes from the k-th node: one entry per node, same order, and no
      de-duplication (two nodes with the same filename give two entries). */
  lemma {:induction false} SourceListAt(nodes: seq<Node>)
    ensures |SourceList(nodes)| == |nodes|
    ensures forall k :: 0 <= k < |nodes| ==> SourceList(nodes)[k] == SourceEntry(nodes[k])
  {
    if |nodes| > 0 {
      var init := nodes[..|nodes| - 1];
      SourceListAt(init);
      assert forall k :: 0 <= k < |init| ==> init[k] == nodes[k];
    }
  }

  /** The source list of a response: empty when it has no `source_nodes` attribute. */
  function Sources(response: EngineResponse): seq<Json>
  {
    match response.sourceNodes
    case None => []
    case Some(nodes) => SourceList(nodes)
  }

  /** Lines 92-97 of `query_index`: start from `[]` and append one entry per source node. */
  method CollectSources(response: EngineResponse) returns (sources: seq<Json>)
    ensures sources == Sources(response)
    ensures response.sourceNodes.None? ==> sources == []
    ensures response.sourceNodes.Some? ==>
              |sources| == |response.sourceNodes.value| &&
              forall k :: 0 <= k < |sources| ==> sources[k] == SourceEntry(response.sourceNodes.value[k])
  {
    sources := [];
    if response.sourceNodes.Some? {
      var nodes := response.sourceNodes.value;
      for i := 0 to |nodes|
        invariant sources == SourceList(nodes[..i])
      {
        assert nodes[..i + 1][..i] == nodes[..i];
        sources := sources + [SourceEntry(nodes[i])];
      }
      assert nodes[..|nodes|] == nodes;
      SourceListAt(nodes);
    }
  }

  /** The persist directory, `VECTOR_STORE_PATH`, shared by every request. */
  class Storage {
    var dir: StorageDir

    constructor (initial: StorageDir)
      ensures dir == initial
    {
      dir := initial;
    }

    /** `add_documents(filepath)`. `loaded` is what `SimpleDirectoryReader(...).load_data()`
        yields (`None` when it raises) and `insertRaisesAt` the position of the first document
        whose insert raises. On completion every document is inserted, in reader order, into the
        index `get_index` returned, the directory is persisted once, and the number of documents
        (not of chunks) is returned. When anything raises, nothing has been persisted. */
    method AddDocuments(loaded: Option<seq<Doc>>, insertRaisesAt: Option<nat>) returns (count: Option<nat>)
      modifies this
      ensures count.Some? <==> InsertsComplete(loaded, insertRaisesAt)
      ensures count.Some? ==> count.value == |loaded.value| && dir == AfterAdd(old(dir), loaded.value)
      ensures count.None? ==> dir == old(dir)
    {
      if loaded.None? {
        return None;
      }
      var documents := loaded.value;
      var index := IndexOf(GetIndex(dir));
      for i := 0 to |documents|
        invariant index == IndexOf(GetIndex(dir)) + documents[..i]
        invariant insertRaisesAt.Some? ==> insertRaisesAt.value >= i
      {
        if insertRaisesAt == Some(i) {
          return None;
        }
        assert documents[..i + 1] == documents[..i] + [documents[i]];
        index := Insert(index, documents[i]);
      }
      assert documents[..|documents|] == documents;
      dir := Persist(index);
      return Some(|documents|);
    }

    /** `query_index(question)`: the engine runs on the index `get_index` returns; its text is the
        answer and the source list is built from its source nodes. When the engine raises, so does
        `query_index`. The directory is only read. */
    method QueryIndex(question: Json, engine: QueryEngine) returns (r: QueryResult)
      ensures r.QueryRaised? <==> engine(IndexOf(GetIndex(dir)), question).None?
      ensures r.Answered? ==>
                var response := engine(IndexOf(GetIndex(dir)), question).value;
                r.answer == response.text && r.sources == Sources(response)
    {
      var index := IndexOf(GetIndex(dir));
      var response := engine(index, question);
      if response.None? {
        return QueryRaised;
      }
      var sources := CollectSources(response.value);
      return Answered(response.value.text, sources);
    }
  }
}
