# RAG backend: request admission and index lifecycle

This is a Dafny model of the two pieces of logic in the Flask backend of a retrieval-augmented
question-answering service.

1. **Request admission** (`backend/app.py`). This covers the file-type filter `allowed_file` and
   the guard order of the three POST routes: `/upload`, `/ask` and `/rewrite`. For `/upload` it also
   covers how the `file_saved` flag controls temp-file cleanup on the success path and on the
   failure path.
2. **Index lifecycle** (`backend/rag/vector_store.py`). `get_index` chooses between loading the
   index and starting a fresh one. `add_documents` inserts every document and then persists once.
   `query_index` builds the source list.

There is one global index, stored in one persist directory. The index is abstract: it is the
sequence of documents inserted into it, in insertion order. The persist directory (`StorageDir`)
is empty, holds a snapshot that loads, or holds files whose loading raises. Whatever Flask,
werkzeug, llama_index or Gemini would compute becomes a parameter:

- the outcome of `file.save`;
- the documents the reader yields;
- the position of the first insert that raises;
- the query engine;
- the rewriter.

Each parameter can also say "this call raised". JSON request and response bodies are a `Json`
datatype, and Python truthiness on it is `Http.Truthy`.

Files:
- `wrappers.dfy`: `Option`.
- `http.dfy`: JSON values, truthiness and responses.
- `vector_store.dfy`: module `VectorStore`, with the `Storage` class for the persist directory.
- `app.dfy`: module `App`, with the filter, the routes and the `UploadFolder` class.

The code keeps one global index: there are no per-session indexes. There is no answer for an
empty index: a query always goes to the engine. There is no top-K parameter and no
tie-breaking. A new index is persisted only by `add_documents`, and there is no locking. A
failed insert leaves the persisted state unchanged only because every `get_index` call rebuilds
the in-memory index, and that index is persisted only after all inserts
(`Storage.AddDocuments`). The source list has one entry per node, with no de-duplication.

## Model

| member | source | states |
|---|---|---|
| App.LastDot | backend/app.py:66-67 | `None` exactly when the name has no '.'; otherwise the position holds a '.' and no '.' follows it |
| App.Extension | backend/app.py:66-67 | the text after the last '.': absent exactly when there is no '.'; dot-free; the name is a stem, a '.', and this text |
| App.AllowedExtensionIsSuffix | backend/app.py:66-67 | the text after the last '.' lower-cases to "pdf" or "txt" exactly when the name ends in '.' and three characters lower-casing to one of them |
| App.AllowedFile | backend/app.py:64-68 | an allowed name contains a '.'; a name is allowed exactly when it ends in '.' followed by three characters that lower-case to "pdf" or "txt" |
| App.NoDotNotAllowed | backend/app.py:66 | a name with no '.' (the empty name included) is never allowed |
| App.ExtensionOfSplit | backend/app.py:67 | for any stem (dots allowed) followed by '.' and dot-free text, the extension is exactly that text |
| App.AllowedFileOfSplit | backend/app.py:62-68 | such a name is allowed if and only if the lower-cased extension is "pdf" or "txt" (so an empty extension is rejected) |
| App.LastDotIgnoresCase | backend/app.py:67 | names equal after lower-casing have their last '.' at the same position |
| App.AllowedFileIgnoresCase | backend/app.py:67 | names equal after lower-casing are accepted or rejected alike |
| App.InnerDotIgnored | backend/app.py:67 | "a.tar.pdf" is allowed |
| App.LastExtensionDecides | backend/app.py:67 | "a.pdf.exe" is rejected |
| App.UpperCaseExtensionsAllowed | backend/app.py:67 | "X.PDF" and "x.Txt" are allowed |
| App.EmptyOrMissingExtensionRejected | backend/app.py:62-68 | "report.", "pdf" and "" are rejected |
| App.UploadRejection | backend/app.py:84-92 | "No file part" exactly when the part is missing; "No selected file" exactly when its filename is empty; "File type not allowed" exactly when it is non-empty and not allowed; admitted exactly when the filename is allowed |
| App.UploadFile | backend/app.py:83-125 | a rejection is a 400 with the guard's message, saves nothing and does not call `add_documents`; `add_documents` runs exactly when the upload is admitted and the save succeeded; after a successful save the temp file is gone on success and on failure; a raising save leaves what it created; success returns the document count; any failure is a 500 with the fixed message and leaves the store unchanged |
| App.GetField | backend/app.py:130-131 | a falsy or non-JSON body reads as absent; a key is present exactly in a JSON object holding it; a truthy non-object body raises |
| App.AskQuestion | backend/app.py:129-152 | the query runs exactly when the question is present and truthy; otherwise the answer is 400 "No question provided", or the 500 handler's response when the body is a truthy non-object; a raising query gives the fixed 500; otherwise 200 with the engine's text and its source list |
| App.RewriteAnswerEndpoint | backend/app.py:156-183 | the 500 handler's response when the body is a truthy non-object; 400 when the answer or the style is missing or falsy; a raising rewriter gives 500 "Failed to rewrite answer due to an internal server issue."; 200 exactly when both are truthy and the rewriter succeeds, and then both inputs are echoed unchanged beside the new answer |
| App.RewriteRejectsWithoutCalling | backend/app.py:161-167 | a rejected rewrite request gets the same response whatever the rewriter does, and never a 200 |
| VectorStore.GetIndex | backend/rag/vector_store.py:43-63 | an index is loaded exactly when the directory holds a loadable snapshot, and it is that snapshot; an empty directory or one whose load raises gives a fresh empty index and no exception |
| VectorStore.PersistThenGetIndex | backend/rag/vector_store.py:52-56 | after a persist, `get_index` loads exactly the persisted index |
| VectorStore.AfterAdd | backend/rag/vector_store.py:74-79 | after a completed `add_documents` the directory holds a snapshot, and the next `get_index` sees the earlier index followed by the new documents |
| VectorStore.AfterAddCount | backend/rag/vector_store.py:74-80 | the index the next `get_index` sees grows by exactly the number of documents returned |
| VectorStore.AddAfterUnloadableDropsOldFiles | backend/rag/vector_store.py:58-79 | after an unloadable directory, a completed `add_documents` persists only the new documents, as if the directory had been empty |
| VectorStore.AddTwice | backend/rag/vector_store.py:74-79 | two completed uploads in a row index the documents of both, in order, the same as one upload of both |
| VectorStore.FilenameOf | backend/rag/vector_store.py:96 | "Unknown" exactly when the metadata has no "filename" key; otherwise the stored value, even `null` |
| VectorStore.SourceListAt | backend/rag/vector_store.py:94-97 | one source entry per node, in node order, with no de-duplication |
| VectorStore.CollectSources | backend/rag/vector_store.py:92-97 | the list built by the loop is empty without `source_nodes`; otherwise it has one entry per node, each from the node at the same position |
| VectorStore.Storage.AddDocuments | backend/rag/vector_store.py:69-80 | completes exactly when the reader succeeds and no insert raises; then it returns the number of documents read, and the persisted index is the earlier index followed by every document in reader order; otherwise nothing is persisted |
| VectorStore.Storage.QueryIndex | backend/rag/vector_store.py:86-99 | the engine runs on the index `get_index` returns; it raises exactly when the engine raises; otherwise the answer is the engine's text and the sources are built from its source nodes |

## Left out

- Flask setup, CORS, logging and `app.run` (backend/app.py:17-56, backend/app.py:188-189) are
  framework plumbing. The generic 500 handler's message is kept only as the response to an
  uncaught exception. The `GET /` health route (backend/app.py:74-79) is left out for the same
  reason.
- `secure_filename` and `os.path.join` (backend/app.py:94-95) are folded into the `path`
  parameter of `UploadFile`. The file system is reduced to the set of paths in the upload
  folder. `os.remove` is taken never to raise.
- When `request.files` holds several parts named "file", only the first is read. The model's
  map holds one filename per part name.
- Gemini configuration and the API-key check (backend/rag/vector_store.py:21-37) are
  import-time configuration of foreign clients. As written, line 32 names `GoogleEmbedding`,
  while line 11 imports `GoogleGenAIEmbedding`.
- `rewrite_answer` is imported at backend/app.py:12 but is not defined in
  backend/rag/vector_store.py. As written, that import fails. The model treats the rewriter as
  a parameter of `RewriteAnswerEndpoint`.
- The modules `.chunker` and backend/config.py are not part of this model. Document parsing
  (`SimpleDirectoryReader`, backend/rag/vector_store.py:70-72) is the `loaded` parameter.
  Splitting a document into nodes inside `insert` is not modelled: the index records whole
  documents.
- The query engine (backend/rag/vector_store.py:89-90) is an opaque function of the index and
  the question. This covers embedding, floating-point similarity ranking and generation. A
  `source_nodes` attribute that exists but is `None` is not modelled.
- `os.makedirs` (backend/rag/vector_store.py:44) is left out: the persist directory is assumed to
  exist. The `print` of a load failure (line 59) is left out too.
- `persist` (backend/rag/vector_store.py:79) is taken to be atomic and never to raise. It
  overwrites whatever files were in the directory.
- JSON numbers are integers. Floating-point values, and their truthiness (`0.0` is falsy), are
  not modelled.
- App.Lower: folds only the letters A-Z, unlike Python's `str.lower`, which folds Unicode too.
  This does not change any decision `allowed_file` makes. The only non-ASCII characters that
  Python lower-cases to ASCII letters are U+0130 (to "i" plus a combining dot) and U+212A (to
  "k"), and neither letter occurs in "pdf" or "txt".
- Concurrency is not modelled. The code has no locking around load, insert and persist, and
  the model adds none.
