/** Request admission and the three POST routes of the Flask backend (backend/app.py).

    Flask itself is abstract: a request is given by the values the route reads from it, and every
    collaborator a route calls (saving the upload, reading it into documents, the query engine,
    the rewriter) is a parameter whose outcome, or whose raising, the caller chooses. */
module App {
  import opened Wrappers
  import opened Http
  import opened VectorStore

  // ---------------------------------------------------------------------------------------------
  // File-type filter
  // ---------------------------------------------------------------------------------------------

  const ALLOWED_EXTENSIONS: set<string> := {"pdf", "txt"}

  /** The position of the last '.' in `s`, if there is one. */
  function LastDot(s: string): (r: Option<nat>)
    ensures r.None? <==> '.' !in s
    ensures r.Some? ==> r.value < |s| && s[r.value] == '.' && '.' !in s[r.value + 1..]
  {
    if |s| == 0 then None
    else if s[|s| - 1] == '.' then Some(|s| - 1)
    else
      assert s == s[..|s| - 1] + [s[|s| - 1]];
      LastDot(s[..|s| - 1])
  }

  /** `filename.rsplit(".", 1)[1]` when `"." in filename`: the text after the last '.'. */
  function Extension(filename: string): (ext: Option<string>)
    ensures ext.None? <==> '.' !in filename
    ensures ext.Some? ==>
              '.' !in ext.value && |ext.value| < |filename| &&
              filename == filename[..|filename| - |ext.value| - 1] + "." + ext.value
  {
    match LastDot(filename)
    case None => None
    case Some(i) =>
      assert filename == filename[..i] + "." + filename[i + 1..];
      Some(filename[i + 1..])
  }

  /** `str.lower` on one character, for the letters A-Z. */
  function LowerChar(c: char): char
  {
    if 'A' <= c <= 'Z' then (c as int + 32) as char else c
  }

  /** `str.lower`, character by character. */
  function Lower(s: string): string
  {
    seq(|s|, i requires 0 <= i < |s| => LowerChar(s[i]))
  }

  /** The name is a '.' followed by three characters that lower-case to "pdf" or "txt". */
  predicate HasAllowedSuffix(filename: string)
  {
    |filename| >= 4 && filename[|filename| - 4] == '.' &&
    Lower(filename[|filename| - 3..]) in ALLOWED_EXTENSIONS
  }

  /** The last extension of a name is allowed exactly when the name ends in an allowed suffix. */
  lemma {:induction false} AllowedExtensionIsSuffix(filename: string)
    ensures (Extension(filename).Some? && Lower(Extension(filename).value) in ALLOWED_EXTENSIONS)
            <==> HasAllowedSuffix(filename)
  {
    var n := |filename|;
    if Extension(filename).Some? && Lower(Extension(filename).value) in ALLOWED_EXTENSIONS {
      var ext := Extension(filename).value;
      assert |ext| == |Lower(ext)| == 3;
      assert filename == filename[..n - 4] + "." + ext;
      assert filename[n - 4] == '.';
      assert filename[n - 3..] == ext;
    }
    if HasAllowedSuffix(filename) {
      var tail := filename[n - 3..];
      forall k | 0 <= k < 3
        ensures tail[k] != '.'
      {
        assert LowerChar(tail[k]) == Lower(tail)[k];
      }
      assert filename == filename[..n - 4] + "." + tail;
      ExtensionOfSplit(filename[..n - 4], tail);
    }
  }

  /** `allowed_file(filename)`: there is a '.', and the text after the last one, lower-cased, is
      "pdf" or "txt"; equivalently, the name ends in '.' and three characters lower-casing to one
      of them. */
  predicate AllowedFile(filename: string): (allowed: bool)
    ensures allowed ==> '.' in filename
    ensures allowed <==> HasAllowedSuffix(filename)
  {
    AllowedExtensionIsSuffix(filename);
    var ext := Extension(filename);
    ext.Some? && Lower(ext.value) in ALLOWED_EXTENSIONS
  }

  /** A name without a '.' is never allowed, the empty name included. */
  lemma {:induction false} NoDotNotAllowed(filename: string)
    requires '.' !in filename
    ensures !AllowedFile(filename)
  {
  }

  /** For any split of a name at a '.' followed only by dot-free text, the extension is exactly
      that text, whatever dots the stem holds. */
  lemma {:induction false} ExtensionOfSplit(stem: string, ext: string)
    requires '.' !in ext
    ensures Extension(stem + "." + ext) == Some(ext)
  {
    var s := stem + "." + ext;
    assert s[|stem|] == '.';
    assert s[|stem| + 1..] == ext;
  }

  /** The decision depends only on the text after the last '.', compared case-insensitively
      against "pdf" and "txt"; an empty text (a name ending in '.') is rejected. */
  lemma {:induction false} AllowedFileOfSplit(stem: string, ext: string)
    requires '.' !in ext
    ensures AllowedFile(stem + "." + ext) <==> Lower(ext) == "pdf" || Lower(ext) == "txt"
  {
    ExtensionOfSplit(stem, ext);
  }

  /** Two names that lower-case to the same string have the same dots at the same places. */
  lemma {:induction false} LastDotIgnoresCase(f: string, g: string)
    requires Lower(f) == Lower(g)
    ensures LastDot(f) == LastDot(g)
  {
    assert |f| == |Lower(f)| == |g|;
    if |f| > 0 {
      var n := |f| - 1;
      assert LowerChar(f[n]) == Lower(f)[n] == Lower(g)[n] == LowerChar(g[n]);
      assert f[n] == '.' <==> g[n] == '.';
      if f[n] != '.' {
        assert Lower(f[..n]) == Lower(f)[..n];
        assert Lower(g[..n]) == Lower(g)[..n];
        LastDotIgnoresCase(f[..n], g[..n]);
      }
    }
  }

  /** The filter is case-insensitive over the whole name: "X.PDF", "x.pdf" and "x.Pdf" are
      decided alike. */
  lemma {:induction false} AllowedFileIgnoresCase(f: string, g: string)
    requires Lower(f) == Lower(g)
    ensures AllowedFile(f) <==> AllowedFile(g)
  {
    LastDotIgnoresCase(f, g);
    if LastDot(f).Some? {
      var i := LastDot(f).value;
      assert Lower(f[i + 1..]) == Lower(f)[i + 1..];
      assert Lower(g[i + 1..]) == Lower(g)[i + 1..];
    }
  }

  /** The extension is the text after the LAST '.': "a.tar.pdf" is allowed. */
  lemma InnerDotIgnored()
    ensures AllowedFile("a.tar.pdf")
  {
    assert "a.tar" + "." + "pdf" == "a.tar.pdf";
    AllowedFileOfSplit("a.tar", "pdf");
    assert Lower("pdf") == "pdf";
  }

  /** ... and "a.pdf.exe" is not: only the last extension counts. */
  lemma LastExtensionDecides()
    ensures !AllowedFile("a.pdf.exe")
  {
    assert "a.pdf" + "." + "exe" == "a.pdf.exe";
    AllowedFileOfSplit("a.pdf", "exe");
    assert Lower("exe")[0] == 'e';
  }

  /** Upper- and mixed-case extensions are allowed: "X.PDF" and "x.Txt". */
  lemma UpperCaseExtensionsAllowed()
    ensures AllowedFile("X.PDF") && AllowedFile("x.Txt")
  {
    AllowedFileOfSplit("X", "PDF");
    assert Lower("PDF") == "pdf";
    AllowedFileOfSplit("x", "Txt");
    assert Lower("Txt") == "txt";
  }

  /** A name ending in '.' has an empty extension, and a bare "pdf" has none: both are rejected. */
  lemma EmptyOrMissingExtensionRejected()
    ensures !AllowedFile("report.") && !AllowedFile("pdf") && !AllowedFile("")
  {
    AllowedFileOfSplit("report", "");
    assert Lower("") == "";
    NoDotNotAllowed("pdf");
    NoDotNotAllowed("");
  }

  // ---------------------------------------------------------------------------------------------
  // Responses
  // ---------------------------------------------------------------------------------------------

  const NO_FILE_PART := "No file part"
  const NO_SELECTED_FILE := "No selected file"
  const FILE_TYPE_NOT_ALLOWED := "File type not allowed"
  const FILE_PROCESSED := "File processed successfully"
  const INDEXING_FAILED := "Indexing failed due to an internal server issue."
  const NO_QUESTION := "No question provided"
  const QUERY_FAILED := "Failed to retrieve answer due to an internal server issue."
  const MISSING_REWRITE_INPUT := "Missing original answer or style request"
  const REWRITE_FAILED := "Failed to rewrite answer due to an internal server issue."
  /** The body the application's 500 handler sends for an exception no route caught. */
  const INTERNAL_ERROR := "An internal server error occurred. Please try again later."

  /** The body of a successful upload. */
  function Processed(chunksIndexed: nat): Response
  {
    Response(200, JObj(map["message" := JStr(FILE_PROCESSED), "chunks_indexed" := JNum(chunksIndexed)]))
  }

  // ---------------------------------------------------------------------------------------------
  // POST /upload
  // ---------------------------------------------------------------------------------------------

  /** The name of the multipart part the upload route reads. */
  const FILE_PART := "file"

  /** The upload guards, in order: the 400 message, or `None` when the upload is admitted.
      `files` maps each multipart part name to the client's filename for it. */
  function UploadRejection(files: map<string, string>): (r: Option<string>)
    ensures r == Some(NO_FILE_PART) <==> FILE_PART !in files
    ensures r == Some(NO_SELECTED_FILE) <==> FILE_PART in files && files[FILE_PART] == ""
    ensures r == Some(FILE_TYPE_NOT_ALLOWED) <==>
              FILE_PART in files && files[FILE_PART] != "" && !AllowedFile(files[FILE_PART])
    ensures r.None? <==> FILE_PART in files && AllowedFile(files[FILE_PART])
  {
    if FILE_PART !in files then Some(NO_FILE_PART)
    else if files[FILE_PART] == "" then
      assert !AllowedFile(files[FILE_PART]) by { NoDotNotAllowed(files[FILE_PART]); }
      Some(NO_SELECTED_FILE)
    else if !AllowedFile(files[FILE_PART]) then Some(FILE_TYPE_NOT_ALLOWED)
    else None
  }

  /** What `file.save(filepath)` does: it completes, or it raises, possibly after having created
      the file. */
  datatype SaveOutcome = Saved | SaveRaised(leftPartialFile: bool)

  /** The upload folder: the paths of the files currently in it. */
  class UploadFolder {
    var files: set<string>

    constructor (present: set<string>)
      ensures files == present
    {
      files := present;
    }
  }

  /** `upload_file()`. `path` stands for `os.path.join(UPLOAD_FOLDER, secure_filename(name))`;
      `save`, `loaded` and `insertRaisesAt` are the outcomes of saving the file, of reading it
      into documents and of inserting them. `indexed` tells whether `add_documents` was called.

      A rejected request changes nothing and indexes nothing. Once the file was saved, it is gone
      from the folder when the route returns, on the success path and on the failure path alike;
      a save that raised leaves behind whatever it created, since `file_saved` is still false. */
  method UploadFile(folder: UploadFolder, store: Storage, files: map<string, string>, path: string,
                    save: SaveOutcome, loaded: Option<seq<Doc>>, insertRaisesAt: Option<nat>)
    returns (resp: Response, indexed: bool)
    modifies folder, store
    ensures indexed <==> UploadRejection(files).None? && save.Saved?
    ensures UploadRejection(files).Some? ==>
              resp == ErrorResponse(400, UploadRejection(files).value) &&
              folder.files == old(folder.files)
    ensures !indexed ==> store.dir == old(store.dir)
    ensures UploadRejection(files).None? && save.SaveRaised? ==>
              resp == ErrorResponse(500, INDEXING_FAILED) &&
              folder.files == old(folder.files) + (if save.leftPartialFile then {path} else {})
    ensures indexed ==> folder.files == old(folder.files) - {path}
    ensures indexed && InsertsComplete(loaded, insertRaisesAt) ==>
              resp == Processed(|loaded.value|) && store.dir == AfterAdd(old(store.dir), loaded.value)
    ensures indexed && !InsertsComplete(loaded, insertRaisesAt) ==>
              resp == ErrorResponse(500, INDEXING_FAILED) && store.dir == old(store.dir)
  {
    var rejection := UploadRejection(files);
    if rejection.Some? {
      return ErrorResponse(400, rejection.value), false;
    }
    var fileSaved := false;
    var raised := false;
    indexed := false;
    resp := ErrorResponse(500, INDEXING_FAILED);
    // try:
    if save.SaveRaised? {
      if save.leftPartialFile {
        folder.files := folder.files + {path};
      }
      raised := true;
    } else {
      folder.files := folder.files + {path};
      fileSaved := true;
      indexed := true;
      var chunksIndexed := store.AddDocuments(loaded, insertRaisesAt);
      if chunksIndexed.None? {
        raised := true;
      } else {
        if path in folder.files {
          folder.files := folder.files - {path};
        }
        resp := Processed(chunksIndexed.value);
      }
    }
    // except Exception:
    if raised {
      if fileSaved && path in folder.files {
        folder.files := folder.files - {path};
      }
      resp := ErrorResponse(500, INDEXING_FAILED);
    }
  }

  // ---------------------------------------------------------------------------------------------
  // Reading fields of a JSON body
  // ---------------------------------------------------------------------------------------------

  /** What `data.get(key) if data else None` evaluates to, where `data` is
      `request.get_json(silent=True)` (`None` when the body is not JSON): the key's value, its
      absence, or the AttributeError of calling `get` on a truthy value that is not an object. */
  datatype Field = Absent | Present(value: Json) | NotAMapping

  function GetField(data: Option<Json>, key: string): (f: Field)
    ensures f.NotAMapping? <==> data.Some? && Truthy(data.value) && !data.value.JObj?
    ensures f.Present? <==> data.Some? && data.value.JObj? && key in data.value.fields
    ensures f.Present? ==> f.value == data.value.fields[key]
  {
    if data.None? || !Truthy(data.value) then Absent
    else match data.value
      case JObj(m) => if key in m then Present(m[key]) else Absent
      case _ => NotAMapping
  }

  /** The field passed the route's `if not value` test. */
  predicate Provided(f: Field)
  {
    f.Present? && Truthy(f.value)
  }

  // ---------------------------------------------------------------------------------------------
  // POST /ask
  // ---------------------------------------------------------------------------------------------

  const QUESTION_KEY := "question"

  /** `ask_question()`. `queried` tells whether `query_index` was called. A missing, null or falsy
      question, or a body that is not JSON, gets 400 "No question provided" without a query; a
      truthy JSON body that is not an object makes `data.get` raise before the `try`, which the
      application's 500 handler answers. */
  method AskQuestion(store: Storage, body: Option<Json>, engine: QueryEngine)
    returns (resp: Response, queried: bool)
    ensures queried <==> Provided(GetField(body, QUESTION_KEY))
    ensures GetField(body, QUESTION_KEY).NotAMapping? ==> resp == ErrorResponse(500, INTERNAL_ERROR)
    ensures !queried && !GetField(body, QUESTION_KEY).NotAMapping? ==>
              resp == ErrorResponse(400, NO_QUESTION)
    ensures queried ==>
              var response := engine(IndexOf(GetIndex(store.dir)), GetField(body, QUESTION_KEY).value);
              (response.None? ==> resp == ErrorResponse(500, QUERY_FAILED)) &&
              (response.Some? ==>
                 resp == Response(200, JObj(map["answer" := JStr(response.value.text),
                                                "sources" := JArr(Sources(response.value))])))
  {
    var question := GetField(body, QUESTION_KEY);
    if question.NotAMapping? {
      return ErrorResponse(500, INTERNAL_ERROR), false;
    }
    if !Provided(question) {
      return ErrorResponse(400, NO_QUESTION), false;
    }
    // try:
    var result := store.QueryIndex(question.value, engine);
    queried := true;
    match result
    case QueryRaised =>
      resp := ErrorResponse(500, QUERY_FAILED);
    case Answered(answer, sources) =>
      resp := Response(200, JObj(map["answer" := JStr(answer), "sources" := JArr(sources)]));
  }

  // ---------------------------------------------------------------------------------------------
  // POST /rewrite
  // ---------------------------------------------------------------------------------------------

  /** `rewrite_answer(original_answer, style_request)`: the new answer, or `None` when it raises. */
  type Rewriter = (Json, Json) -> Option<Json>

  const ANSWER_KEY := "answer"
  const STYLE_KEY := "style"

  /** `rewrite_answer_endpoint()`. Both the answer and the style must be truthy, else 400; on
      success both are echoed unchanged beside the new answer; a raising rewriter gives a 500; a
      truthy non-object body makes `data.get` raise before the guard. */
  function RewriteAnswerEndpoint(body: Option<Json>, rewrite: Rewriter): (resp: Response)
    ensures GetField(body, ANSWER_KEY).NotAMapping? ==> resp == ErrorResponse(500, INTERNAL_ERROR)
    ensures !GetField(body, ANSWER_KEY).NotAMapping? &&
            (!Provided(GetField(body, ANSWER_KEY)) || !Provided(GetField(body, STYLE_KEY))) ==>
              resp == ErrorResponse(400, MISSING_REWRITE_INPUT)
    ensures resp.status == 200 <==>
              Provided(GetField(body, ANSWER_KEY)) && Provided(GetField(body, STYLE_KEY)) &&
              rewrite(GetField(body, ANSWER_KEY).value, GetField(body, STYLE_KEY).value).Some?
    ensures Provided(GetField(body, ANSWER_KEY)) && Provided(GetField(body, STYLE_KEY)) &&
            rewrite(GetField(body, ANSWER_KEY).value, GetField(body, STYLE_KEY).value).None? ==>
              resp == ErrorResponse(500, REWRITE_FAILED)
    ensures resp.status == 200 ==>
              resp.body.JObj? &&
              resp.body.fields.Keys == {"original_answer", "style_request", "new_answer"} &&
              resp.body.fields["original_answer"] == GetField(body, ANSWER_KEY).value &&
              resp.body.fields["style_request"] == GetField(body, STYLE_KEY).value &&
              rewrite(GetField(body, ANSWER_KEY).value, GetField(body, STYLE_KEY).value)
                == Some(resp.body.fields["new_answer"])
  {
    var original := GetField(body, ANSWER_KEY);
    if original.NotAMapping? then ErrorResponse(500, INTERNAL_ERROR)
    else
      var style := GetField(body, STYLE_KEY);
      if !Provided(original) || !Provided(style) then ErrorResponse(400, MISSING_REWRITE_INPUT)
      else match rewrite(original.value, style.value)
        case None => ErrorResponse(500, REWRITE_FAILED)
        case Some(newAnswer) =>
          Response(200, JObj(map["original_answer" := original.value,
                                 "style_request" := style.value,
                                 "new_answer" := newAnswer]))
  }

  /** A rejected rewrite request never reaches the rewriter: its response is the same whatever
      the rewriter would have done. */
  lemma {:induction false} RewriteRejectsWithoutCalling(body: Option<Json>, f: Rewriter, g: Rewriter)
    requires !Provided(GetField(body, ANSWER_KEY)) || !Provided(GetField(body, STYLE_KEY))
    ensures RewriteAnswerEndpoint(body, f) == RewriteAnswerEndpoint(body, g)
    ensures RewriteAnswerEndpoint(body, f).status != 200
  {
  }
}
