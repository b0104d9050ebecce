/** The Streamlit front end (app.py) as pure transitions over its session
    state: "Process Documents" rebuilds the store from the uploaded files, and
    submitting a question appends a question/answer pair to the chat history.
    Text extraction, the sentence encoder, the similarity scores and the
    ascending order `argsort` gives them, and the Gemini service are inputs. */
module StreamlitApp {
  import opened Strings
  import opened Documents
  import Chunker
  import Ranking
  import Generation

  datatype Role = User | Bot

  /** One entry of `chat_history`. */
  datatype Turn = Turn(role: Role, message: string)

  /** `st.session_state`: the stored chunks and their embeddings, the chat
      history, and the text of the query box. */
  datatype Session = Session(chunks: seq<string>, embeddings: seq<Vector>, history: seq<Turn>, queryBox: string)

  /** Every stored chunk has its embedding. */
  predicate Aligned(s: Session)
  {
    |s.chunks| == |s.embeddings|
  }

  /** `file_name.split('.')[-1].lower()` (lower-casing ASCII letters only). */
  function Extension(name: string): (e: string)
    ensures '.' !in e
    ensures forall i :: 0 <= i < |e| ==> !('A' <= e[i] <= 'Z')
  {
    var piece := Last(SplitOn(name, '.'));
    var e := AsciiLower(piece);
    assert forall i :: 0 <= i < |e| ==> e[i] == LowerChar(piece[i]) && piece[i] != '.';
    e
  }

  /** The extension is what follows the last dot, lower-cased; a name
      without a dot is its own extension. */
  lemma ExtensionAfterLastDot(base: string, ext: string)
    requires '.' !in ext
    ensures Extension(base + "." + ext) == AsciiLower(ext)
    ensures Extension(ext) == AsciiLower(ext)
  {
    SplitOnLast(base, ext, '.');
    SplitOnNoSeparator(ext, '.');
  }

  predicate Supported(f: UploadedFile)
  {
    Extension(f.name) == "txt" || Extension(f.name) == "pdf"
  }

  /** The chunks one file contributes (app.py:104-126): none when its type is
      unsupported or reading it raised, else `split_text` of its text. */
  function FileChunks(f: UploadedFile): seq<string>
  {
    if !Supported(f) then []
    else
      match f.content
      case ExtractionFailed(_) => []
      case Extracted(text) => Chunker.SplitDefault(text)
  }

  /** `all_chunks`: the chunks of the files, in upload order. */
  function CollectChunks(files: seq<UploadedFile>): seq<string>
  {
    if |files| == 0 then [] else FileChunks(files[0]) + CollectChunks(files[1..])
  }

  lemma {:induction false} CollectChunksAppend(a: seq<UploadedFile>, b: seq<UploadedFile>)
    ensures CollectChunks(a + b) == CollectChunks(a) + CollectChunks(b)
  {
    if |a| == 0 {
      assert a + b == b;
    } else {
      assert (a + b)[1..] == a[1..] + b;
      CollectChunksAppend(a[1..], b);
    }
  }

  /** A skipped file (unsupported type or unreadable) changes nothing about
      what the others contribute. */
  lemma SkippedFileContributesNothing(a: seq<UploadedFile>, f: UploadedFile, b: seq<UploadedFile>)
    requires !Supported(f) || f.content.ExtractionFailed?
    ensures CollectChunks(a + [f] + b) == CollectChunks(a + b)
  {
    SkippedAlone(f);
    CollectChunksAppend(a + [f], b);
    CollectChunksAppend(a, [f]);
    CollectChunksAppend(a, b);
  }

  /** A skipped file on its own contributes no chunk. */
  lemma SkippedAlone(f: UploadedFile)
    requires !Supported(f) || f.content.ExtractionFailed?
    ensures CollectChunks([f]) == []
  {
    assert FileChunks(f) == [];
    assert [f][1..] == [];
  }

  /** Every collected chunk is non-empty and at most the default chunk size. */
  lemma {:induction false} CollectedChunkBounds(files: seq<UploadedFile>)
    ensures forall i :: 0 <= i < |CollectChunks(files)| ==>
              1 <= |CollectChunks(files)[i]| <= Chunker.DefaultChunkSize
  {
    if |files| > 0 {
      CollectedChunkBounds(files[1..]);
      var own := FileChunks(files[0]);
      var all := CollectChunks(files);
      forall i | 0 <= i < |all|
        ensures 1 <= |all[i]| <= Chunker.DefaultChunkSize
      {
        if i < |own| {
          var text := files[0].content.text;
          Chunker.SplitTextChunk(text, Chunker.DefaultChunkSize, Chunker.DefaultOverlap, i);
        } else {
          assert all[i] == CollectChunks(files[1..])[i - |own|];
        }
      }
    }
  }

  /** The "Process Documents" step (app.py:102-135). The store is replaced and
      the history cleared exactly when the button was pressed, files were
      uploaded, at least one chunk was collected and the encoder succeeded;
      otherwise nothing changes. The encoder runs before anything is
      assigned, so its exception ends the run with the session untouched. */
  function Ingest(s: Session, pressed: bool, files: seq<UploadedFile>, embed: Embedder): (s': Session)
    ensures s'.queryBox == s.queryBox
    ensures pressed && |files| > 0 && CollectChunks(files) != [] && embed(CollectChunks(files)).Embedded? ==>
              && s'.chunks == CollectChunks(files)
              && s'.embeddings == embed(s'.chunks).vectors
              && s'.history == []
    ensures !(pressed && |files| > 0 && CollectChunks(files) != [] && embed(CollectChunks(files)).Embedded?) ==>
              s' == s
  {
    if !pressed || |files| == 0 then s
    else
      var all := CollectChunks(files);
      if |all| == 0 then s
      else
        match embed(all)
        case EmbedFailed(_) => s
        case Embedded(vectors) => s.(chunks := all, embeddings := vectors, history := [])
  }

  /** Ingesting keeps every stored chunk paired with its embedding. */
  lemma IngestKeepsAligned(s: Session, pressed: bool, files: seq<UploadedFile>, embed: Embedder)
    requires Aligned(s) && OneVectorPerText(embed)
    ensures Aligned(Ingest(s, pressed, files, embed))
  {
    var all := CollectChunks(files);
    assert embed(all).Embedded? ==> |embed(all).vectors| == |all|;
  }

  const TopK := 4
  const ContextSeparator := "\n---\n"

  /** What `submit_query` shows: nothing (blank query), the "no documents"
      warning, or an answer. */
  datatype QueryOutcome = Ignored | NoDocuments | Answered(answer: string)

  datatype QueryStep = QueryStep(session: Session, outcome: QueryOutcome)

  /** The generation context: the retrieved chunks, highest score first,
      joined by "\n---\n". */
  function Context(s: Session, scores: seq<int>, order: seq<int>): string
    requires |scores| == |s.chunks| && Ranking.IsArgsort(scores, order)
  {
    Join(ContextSeparator, Ranking.Retrieve(scores, s.chunks, order, TopK))
  }

  /** The answer: Gemini when a key was entered, the fallback otherwise. */
  function Answer(context: string, query: string, apiKey: string, service: Generation.Service): string
  {
    if apiKey != "" then Generation.GeminiStreamlit(context, query, service)
    else Generation.Fallback(context, query)
  }

  /** `submit_query` (app.py:140-163). `scores[i]` is the similarity of the
      query to stored chunk `i` and `order` their ascending order. */
  function SubmitQuery(s: Session, apiKey: string, scores: seq<int>, order: seq<int>,
                       service: Generation.Service): (step: QueryStep)
    requires |scores| == |s.chunks| && Ranking.IsArgsort(scores, order)
    ensures step.session.chunks == s.chunks && step.session.embeddings == s.embeddings
    ensures PyStrip(s.queryBox) == "" <==> step.outcome.Ignored?
    ensures step.outcome.Ignored? ==> step.session == s
    ensures !step.outcome.Ignored? ==> step.session.queryBox == ""
    ensures step.outcome.NoDocuments? <==> PyStrip(s.queryBox) != "" && |s.chunks| == 0
    ensures !step.outcome.Answered? ==> step.session.history == s.history
    ensures step.outcome.Answered? ==>
              step.session.history
              == s.history + [Turn(User, PyStrip(s.queryBox)), Turn(Bot, step.outcome.answer)]
    ensures step.outcome.Answered? ==>
              step.outcome.answer == Answer(Context(s, scores, order), PyStrip(s.queryBox), apiKey, service)
  {
    var query := PyStrip(s.queryBox);
    if query == "" then QueryStep(s, Ignored)
    else
      var cleared := s.(queryBox := "");
      if |s.chunks| == 0 then QueryStep(cleared, NoDocuments)
      else
        var answer := Answer(Context(s, scores, order), query, apiKey, service);
        QueryStep(cleared.(history := s.history + [Turn(User, query), Turn(Bot, answer)]), Answered(answer))
  }

  /** The context holds min(4, n) chunks in rank order. */
  lemma ContextChunks(s: Session, scores: seq<int>, order: seq<int>)
    requires |scores| == |s.chunks| && Ranking.IsArgsort(scores, order)
    ensures var retrieved := Ranking.Retrieve(scores, s.chunks, order, TopK);
            && |retrieved| == Min(TopK, |s.chunks|)
            && (forall k, l :: 0 <= k < l < |retrieved| ==>
                  scores[Ranking.TopIndices(order, TopK)[k]] >= scores[Ranking.TopIndices(order, TopK)[l]])
            && Context(s, scores, order) == Join(ContextSeparator, retrieved)
  {
    Ranking.TopIndicesSpec(scores, order, TopK);
  }

  /** With no key the answer is the fallback over the "\n---\n" context, and
      so it is the same for every query text. */
  lemma NoKeyAnswerIgnoresQuery(context: string, q1: string, q2: string, service: Generation.Service)
    ensures Answer(context, q1, "", service) == Answer(context, q2, "", service)
    ensures StartsWith(Answer(context, q1, "", service), Generation.FallbackPrefix)
  {
  }
}
