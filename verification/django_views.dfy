/** The Django views of chatbot/views.py as pure transitions over the module
    state `docs_chunks` / `docs_embeddings`. A request is reduced to what the
    views read from it; text extraction, the encoder and the Gemini service
    are inputs. An exception the views do not catch becomes `Crashed`, the
    server error Django answers with; the state keeps whatever was assigned
    before the exception. */
module DjangoViews {
  import opened Strings
  import opened Documents
  import Chunker
  import Generation

  /** `docs_chunks` and `docs_embeddings` (`None` until the first upload). */
  datatype Store = Store(chunks: seq<string>, embeddings: Option<seq<Vector>>)

  const InitialStore := Store([], None)

  /** The JSON bodies the views return, and the server error of an uncaught exception. */
  datatype Response =
    | UploadOk(chunkCount: nat)
    | ChatOk(answer: string)
    | ErrorJson(message: string)
    | Crashed(message: string)

  datatype Handled = Handled(store: Store, response: Response)

  const NoFileMessage := "No file uploaded"
  const NoQueryMessage := "No documents or query provided"
  const InvalidRequestMessage := "Invalid request"

  /** Only names ending in ".txt" or ".pdf" (case-sensitive) are read. */
  predicate Readable(f: UploadedFile)
  {
    EndsWith(f.name, ".txt") || EndsWith(f.name, ".pdf")
  }

  /** What reading the uploaded files gives: all their chunks, or the message
      of the first read that raised. */
  datatype Collected = Chunks(chunks: seq<string>) | ReadFailed(message: string)

  /** What one file gives (chatbot/views.py:25-34): a readable file's text
      is split unless it is empty; other files give the empty text. */
  function FileChunks(f: UploadedFile): Collected
  {
    if !Readable(f) then Chunks([])
    else
      match f.content
      case ExtractionFailed(m) => ReadFailed(m)
      case Extracted(text) => Chunks(if text != "" then Chunker.SplitDefault(text) else [])
  }

  /** The first failure, else the chunks of both in order. */
  function Combine(a: Collected, b: Collected): Collected
  {
    if a.ReadFailed? then a
    else if b.ReadFailed? then b
    else Chunks(a.chunks + b.chunks)
  }

  /** The loop of `upload_file` over the uploaded files (chatbot/views.py:24-34). */
  function CollectChunks(files: seq<UploadedFile>): Collected
  {
    if |files| == 0 then Chunks([]) else Combine(FileChunks(files[0]), CollectChunks(files[1..]))
  }

  /** Reading fails exactly when some readable file cannot be read. */
  lemma {:induction false} CollectFailsIff(files: seq<UploadedFile>)
    ensures CollectChunks(files).ReadFailed? <==>
              exists i :: 0 <= i < |files| && Readable(files[i]) && files[i].content.ExtractionFailed?
  {
    if |files| > 0 {
      CollectFailsIff(files[1..]);
      if CollectChunks(files[1..]).ReadFailed? {
        var i :| 0 <= i < |files[1..]| && Readable(files[1..][i]) && files[1..][i].content.ExtractionFailed?;
        assert files[i + 1] == files[1..][i];
      }
      forall i | 1 <= i < |files|
        ensures files[i] == files[1..][i - 1]
      {
      }
    }
  }

  /** The chunks of a successful read are those of each file in upload order. */
  lemma {:induction false} CollectChunksAppend(a: seq<UploadedFile>, b: seq<UploadedFile>)
    ensures CollectChunks(a + b) == Combine(CollectChunks(a), CollectChunks(b))
  {
    if |a| == 0 {
      assert a + b == b;
    } else {
      assert (a + b)[1..] == a[1..] + b;
      assert (a + b)[0] == a[0];
      CollectChunksAppend(a[1..], b);
    }
  }

  /** A file that is not read, or whose text is empty, contributes nothing. */
  lemma SkippedFileContributesNothing(a: seq<UploadedFile>, f: UploadedFile, b: seq<UploadedFile>)
    requires !Readable(f) || f.content == Extracted("")
    ensures CollectChunks(a + [f] + b) == CollectChunks(a + b)
  {
    assert CollectChunks([f]) == Chunks([]) by {
      assert [f][1..] == [];
    }
    CollectChunksAppend(a, [f]);
    assert CollectChunks(a + [f]) == CollectChunks(a);
    CollectChunksAppend(a + [f], b);
    CollectChunksAppend(a, b);
  }

  /** `upload_file`, as written. `docs_chunks` is assigned before the
      encoder runs, so when `embed_texts` raises the view fails with the new
      chunks stored beside the old embeddings. Otherwise the store is
      replaced exactly when the answer is a success, which reports how many
      chunks were stored. */
  function UploadFile(store: Store, httpMethod: string, files: seq<UploadedFile>, embed: Embedder): (h: Handled)
    ensures h.response.UploadOk? <==>
              && httpMethod == "POST" && |files| > 0 && CollectChunks(files).Chunks?
              && CollectChunks(files).chunks != [] && embed(CollectChunks(files).chunks).Embedded?
    ensures h.response.UploadOk? ==>
              && h.store.chunks == CollectChunks(files).chunks
              && h.store.embeddings == Some(embed(h.store.chunks).vectors)
              && h.response.chunkCount == |h.store.chunks|
    ensures h.response.Crashed? <==>
              && httpMethod == "POST" && |files| > 0
              && (|| CollectChunks(files).ReadFailed?
                  || (CollectChunks(files).chunks != [] && embed(CollectChunks(files).chunks).EmbedFailed?))
    ensures h.response.ErrorJson? ==> h.response.message == NoFileMessage
    ensures !h.response.ChatOk?
    ensures !h.response.UploadOk? && !h.response.Crashed? ==> h.response == ErrorJson(NoFileMessage)
    ensures !h.response.UploadOk? && h.store != store ==>
              && CollectChunks(files).Chunks? && CollectChunks(files).chunks != []
              && embed(CollectChunks(files).chunks).EmbedFailed?
              && h.store == Store(CollectChunks(files).chunks, store.embeddings)
              && h.response == Crashed(embed(CollectChunks(files).chunks).message)
  {
    if httpMethod != "POST" || |files| == 0 then Handled(store, ErrorJson(NoFileMessage))
    else
      match CollectChunks(files)
      case ReadFailed(m) => Handled(store, Crashed(m))
      case Chunks(all) =>
        if |all| == 0 then Handled(store, ErrorJson(NoFileMessage))
        else
          match embed(all)
          case EmbedFailed(m) => Handled(Store(all, store.embeddings), Crashed(m))
          case Embedded(vectors) => Handled(Store(all, Some(vectors)), UploadOk(|all|))
  }

  /** As written, a failing encoder leaves the new chunks stored beside the
      embeddings of the previous upload: after a first upload that fails this
      way there are chunks but no embeddings. */
  lemma UploadPartialUpdate(store: Store, files: seq<UploadedFile>, embed: Embedder)
    requires CollectChunks(files).Chunks? && CollectChunks(files).chunks != []
    requires embed(CollectChunks(files).chunks).EmbedFailed?
    ensures var h := UploadFile(store, "POST", files, embed);
            && h.response.Crashed?
            && h.store.chunks == CollectChunks(files).chunks
            && h.store.embeddings == store.embeddings
    ensures UploadFile(InitialStore, "POST", files, embed).store.chunks != []
    ensures UploadFile(InitialStore, "POST", files, embed).store.embeddings.None?
  {
    assert |files| > 0;
  }

  /** `upload_file` with the encoder run before anything is assigned: a
      failing encoder then leaves the store as it was, and only a success
      changes it. */
  function UploadFileIntended(store: Store, httpMethod: string, files: seq<UploadedFile>, embed: Embedder): (h: Handled)
    ensures h.response.UploadOk? || h.store == store
    ensures h.response == UploadFile(store, httpMethod, files, embed).response
    ensures h.response.UploadOk? ==> h.store == UploadFile(store, httpMethod, files, embed).store
  {
    if httpMethod != "POST" || |files| == 0 then Handled(store, ErrorJson(NoFileMessage))
    else
      match CollectChunks(files)
      case ReadFailed(m) => Handled(store, Crashed(m))
      case Chunks(all) =>
        if |all| == 0 then Handled(store, ErrorJson(NoFileMessage))
        else
          match embed(all)
          case EmbedFailed(m) => Handled(store, Crashed(m))
          case Embedded(vectors) => Handled(Store(all, Some(vectors)), UploadOk(|all|))
  }

  /** Every stored chunk is non-empty and at most the default chunk size. */
  lemma {:induction false} CollectedChunkBounds(files: seq<UploadedFile>)
    requires CollectChunks(files).Chunks?
    ensures var all := CollectChunks(files).chunks;
            forall i :: 0 <= i < |all| ==> 1 <= |all[i]| <= Chunker.DefaultChunkSize
  {
    if |files| > 0 {
      var f := files[0];
      CollectedChunkBounds(files[1..]);
      var own := FileChunks(f).chunks;
      var all := CollectChunks(files).chunks;
      forall i | 0 <= i < |all|
        ensures 1 <= |all[i]| <= Chunker.DefaultChunkSize
      {
        if i < |own| {
          Chunker.SplitTextChunk(f.content.text, Chunker.DefaultChunkSize, Chunker.DefaultOverlap, i);
        } else {
          assert all[i] == CollectChunks(files[1..]).chunks[i - |own|];
        }
      }
    }
  }

  /** A JSON request body: an object with an optional "query" string, or a
      body `json.loads` rejects (with the exception's message). */
  datatype Body = JsonObject(query: Option<string>) | Malformed(message: string)

  /** The "naive retrieval" context: the first five stored chunks joined by spaces. */
  function ChatContext(chunks: seq<string>): string
  {
    Join(" ", chunks[..Min(5, |chunks|)])
  }

  /** `chat`. The store never changes; an answer is produced exactly for a
      POST whose query is non-empty while chunks are stored, and it is the
      Django Gemini wrapper called with the query and the context swapped. */
  function Chat(store: Store, httpMethod: string, body: Body, apiKey: Option<string>,
                service: Generation.Service): (h: Handled)
    ensures h.store == store
    ensures httpMethod != "POST" <==> h.response == ErrorJson(InvalidRequestMessage)
    ensures h.response.Crashed? <==> httpMethod == "POST" && body.Malformed?
    ensures h.response.ChatOk? <==>
              httpMethod == "POST" && body.JsonObject? && body.query.GetOr("") != "" && |store.chunks| > 0
    ensures !h.response.UploadOk?
    ensures httpMethod == "POST" && body.JsonObject? && (body.query.GetOr("") == "" || |store.chunks| == 0) ==>
              h.response == ErrorJson(NoQueryMessage)
    ensures h.response.ChatOk? ==>
              h.response.answer
              == Generation.GeminiDjango(body.query.value, ChatContext(store.chunks), apiKey, service)
  {
    if httpMethod != "POST" then Handled(store, ErrorJson(InvalidRequestMessage))
    else
      match body
      case Malformed(m) => Handled(store, Crashed(m))
      case JsonObject(q) =>
        var query := q.GetOr("");
        if query == "" || |store.chunks| == 0 then Handled(store, ErrorJson(NoQueryMessage))
        else
          var context := ChatContext(store.chunks);
          Handled(store, ChatOk(Generation.GeminiDjango(query, context, apiKey, service)))
  }

  /** Chunks after the fifth never reach the context, and the context holds
      the first min(5, n) chunks with one space between neighbours. */
  lemma ChatContextFirstFive(a: seq<string>, b: seq<string>)
    ensures |a| >= 5 ==> ChatContext(a + b) == ChatContext(a)
    ensures |a| >= 1 ==> |ChatContext(a)| == TotalLength(a[..Min(5, |a|)]) + Min(5, |a|) - 1
  {
    if |a| >= 5 {
      assert (a + b)[..5] == a[..5];
    }
    if |a| >= 1 {
      JoinLength(" ", a[..Min(5, |a|)]);
    }
  }

  /** The query reaches the prompt where the document context belongs. */
  lemma ChatQueryInContextSlot(store: Store, query: string, apiKey: Option<string>, service: Generation.Service)
    requires query != "" && |store.chunks| > 0
    ensures var h := Chat(store, "POST", JsonObject(Some(query)), apiKey, service);
            var prompt := Generation.DjangoPrompt(query, ChatContext(store.chunks));
            && h.response == ChatOk(Generation.GeminiDjango(query, ChatContext(store.chunks), apiKey, service))
            && prompt[|Generation.DjangoPromptHead|..|Generation.DjangoPromptHead| + |query|] == query
  {
    Generation.DjangoPromptContextSlot(query, ChatContext(store.chunks));
  }

  /** `chat` with the two arguments in the order `generate_answer_gemini`
      declares them: the document context first, then the query. It agrees
      with `Chat` on every response except the answer text. */
  function ChatIntended(store: Store, httpMethod: string, body: Body, apiKey: Option<string>,
                        service: Generation.Service): (h: Handled)
    ensures h.store == store
    ensures h.response.ChatOk? <==> Chat(store, httpMethod, body, apiKey, service).response.ChatOk?
    ensures !h.response.ChatOk? ==> h.response == Chat(store, httpMethod, body, apiKey, service).response
    ensures h.response.ChatOk? ==>
              h.response.answer
              == Generation.GeminiDjango(ChatContext(store.chunks), body.query.value, apiKey, service)
  {
    if httpMethod != "POST" then Handled(store, ErrorJson(InvalidRequestMessage))
    else
      match body
      case Malformed(m) => Handled(store, Crashed(m))
      case JsonObject(q) =>
        var query := q.GetOr("");
        if query == "" || |store.chunks| == 0 then Handled(store, ErrorJson(NoQueryMessage))
        else Handled(store, ChatOk(Generation.GeminiDjango(ChatContext(store.chunks), query, apiKey, service)))
  }

  /** In the intended call the stored chunks fill the context slot of the
      prompt and the query the question slot; as written, a query and a
      context that begin differently give the service another prompt. */
  lemma ChatIntendedPrompt(store: Store, query: string, apiKey: Option<string>, service: Generation.Service)
    requires query != "" && |store.chunks| > 0
    ensures var context := ChatContext(store.chunks);
            var p := Generation.DjangoPrompt(context, query);
            var head := |Generation.DjangoPromptHead|;
            && ChatIntended(store, "POST", JsonObject(Some(query)), apiKey, service).response
               == ChatOk(Generation.GeminiDjango(context, query, apiKey, service))
            && p[head..head + |context|] == context
            && p[head + |context| + |Generation.DjangoPromptMiddle|..][..|query|] == query
    ensures var context := ChatContext(store.chunks);
            |context| > 0 && context[0] != query[0] ==>
              Generation.DjangoPrompt(query, context) != Generation.DjangoPrompt(context, query)
  {
    var context := ChatContext(store.chunks);
    Generation.DjangoPromptContextSlot(context, query);
    if |context| > 0 && context[0] != query[0] {
      Generation.DjangoPromptOrderMatters(context, query);
    }
  }

  /** Unlike the Streamlit page, the query is not stripped: a blank query is answered. */
  lemma BlankQueryAnswered(store: Store, apiKey: Option<string>, service: Generation.Service)
    requires |store.chunks| > 0
    ensures Chat(store, "POST", JsonObject(Some(" ")), apiKey, service).response.ChatOk?
  {
  }

  /** The stored embeddings play no part in answering. */
  lemma ChatIgnoresEmbeddings(chunks: seq<string>, e1: Option<seq<Vector>>, e2: Option<seq<Vector>>,
                              httpMethod: string, body: Body, apiKey: Option<string>, service: Generation.Service)
    ensures Chat(Store(chunks, e1), httpMethod, body, apiKey, service).response
            == Chat(Store(chunks, e2), httpMethod, body, apiKey, service).response
  {
  }

  /** Suffixes are matched case-sensitively: "notes.TXT" is not read. */
  lemma UpperCaseSuffixSkipped(content: Extraction)
    ensures !Readable(UploadedFile("notes.TXT", content))
    ensures CollectChunks([UploadedFile("notes.TXT", content)]) == Chunks([])
  {
    var f := UploadedFile("notes.TXT", content);
    assert f.name[|f.name| - 4..] == ".TXT";
    assert [f][1..] == [];
  }
}
