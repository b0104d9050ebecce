# Document-based chatbot: a Dafny model of its core

The chatbot answers questions about uploaded documents using retrieval. It has two front ends:

- a Streamlit page (`app.py`);
- a Django site (`chatbot/views.py` with `chatbot/utils.py` and `chatbot/generation.py`, plus a browser script).

Both front ends cut uploaded text into overlapping fixed-size chunks and embed the chunks. They build the answer differently:

- The Streamlit page joins the best-scoring chunks into a context. It sends the context to Gemini, or to a fallback generator when no key is entered.
- The Django `chat` view joins the first five stored chunks and always calls its Gemini wrapper. Without a key the answer is that wrapper's error text.

In the Django site, a browser script turns the answer into HTML.

This project models the pure logic inside that glue and proves properties of it:

| module | file | models |
|---|---|---|
| `Strings` | strings.dfy | Python slicing, `join`, one-character `split`, Python `strip` vs JavaScript `trim` whitespace, ASCII lower-casing |
| `Chunker` | chunker.dfy | `split_text` |
| `Ranking` | ranking.dfy | `retrieve_documents` over given scores (`argsort()[-top_k:][::-1]`) |
| `Generation` | generation.dfy | the fallback generator; the result-not-exception shape of both `generate_answer_gemini` |
| `Documents` | documents.dfy | uploaded files, extraction outcomes, the encoder type |
| `StreamlitApp` | streamlit_app.dfy | "Process Documents" and `submit_query` as pure transitions over the session state |
| `DjangoViews` | django_views.dfy | `upload_file` and `chat` as pure transitions over `docs_chunks` / `docs_embeddings` |
| `AnswerFormat` | answer_format.dfy | `formatAnswer` and `convertBold` of the chat page script |
| `Cookies` | cookies.dfy | `getCookie` |

`split_text` and `retrieve_documents` behave identically in `chatbot/utils.py` and `app.py`. Both copies are therefore modelled by the same Dafny functions.

Behaviour of the code worth knowing:

- `split_text` raises no configuration error. A stride `chunk_size - chunk_overlap` below 1 makes the loop run forever on non-empty text, so the model takes that case as a precondition (`Chunker.Terminates`).
- `argsort` is numpy's default sort, which is not stable. The ascending order is an input constrained only by `Ranking.IsArgsort`, so the order among tied scores stays open.
- `top_k = 0` returns every chunk, because `[-0:]` is the whole array.
- Django's `chat` does no similarity search. It joins the first five stored chunks, and it passes `(query, context)` to `generate_answer_gemini(context, query)`.

Similarity scores are modelled as integers. Only their order matters to the code.

## Model

| member | source | states |
|---|---|---|
| Chunker.SplitText | chatbot/utils.py:5-13 | the text is empty exactly when no chunk is produced |
| Chunker.SplitTextLoop | chatbot/utils.py:6-13 | the `while` loop as written returns `SplitText`, given a stride of at least 1 or an empty text |
| Chunker.SplitTextCount | chatbot/utils.py:9-12 | with stride `step >= 1` the number of chunks n is ceil(len/step): `n*step >= len` and `(n-1)*step < len` |
| Chunker.SplitTextChunk | chatbot/utils.py:9-12 | chunk i is `text[i*step .. min(i*step + chunk_size, len)]`, starts inside the text, and has length 1..chunk_size |
| Chunker.ChunkAt | chatbot/utils.py:9-12 | chunk i emitted from offset `start` begins `i` strides after `start`, inside the text |
| Chunker.ChunksDrop | chatbot/utils.py:9-12 | dropping the first i chunks emitted from `start` leaves the chunks emitted from i strides further on |
| Chunker.ChunksFromCount | chatbot/utils.py:9-12 | the loop from `start` emits the fewest strides that carry `start` to or past the end |
| Chunker.Coverage | app.py:18-27 | with `0 <= overlap < chunk_size`, every position of the text lies inside some chunk |
| Chunker.ConcatNoOverlap | chatbot/utils.py:9-12 | with overlap 0, concatenating the chunks gives back the text |
| Chunker.ExampleNoOverlap | chatbot/utils.py:5-13 | "AAAAA BBBBB CCCCC DDDDD" with size 5 and overlap 0 gives "AAAAA", " BBBB", "B CCC", "CC DD", "DDD" |
| Chunker.ExampleShortTail | chatbot/utils.py:9-12 | with overlap 3 and size 4, the last three chunks of "abcde" are shorter than the chunk size |
| Ranking.Retrieve | chatbot/utils.py:15-18 | result k is the chunk at the k-th picked position, and there are `ResultCount(n, top_k)` results |
| Ranking.TopIndices | chatbot/utils.py:17 | the picked positions are the last `ResultCount` entries of the ascending order, read backwards: min(top_k, n) for top_k >= 1, all n for top_k = 0, n + top_k (at least 0) for a negative top_k |
| Ranking.TopIndicesOrdered | chatbot/utils.py:17-18 | the picked positions are distinct, in range, and in non-increasing score order |
| Ranking.TopInRange | chatbot/utils.py:17-18 | the picked positions are valid indices of the chunks |
| Ranking.TopDistinct | chatbot/utils.py:17 | no position is picked twice |
| Ranking.TopDescending | chatbot/utils.py:17 | the picked positions come in non-increasing score order |
| Ranking.TopIndicesDominate | chatbot/utils.py:16-17 | every picked position scores at least as high as any position left out |
| Ranking.TopIndicesSpec | app.py:37-45 | count, validity, distinctness, ordering and dominance of the picked positions, together |
| Ranking.TieOrderUnspecified | chatbot/utils.py:17 | two valid argsort orders of equal scores make `retrieve_documents` return different chunks |
| Ranking.Argsort | chatbot/utils.py:17 | every score sequence has an order satisfying `IsArgsort`, built by insertion |
| Ranking.InsertAscending | chatbot/utils.py:17 | inserting a position after all positions with scores not above its own keeps the order ascending |
| Generation.Fallback | chatbot/generation.py:37-41 | the answer starts with "Simulated answer based on retrieved content:\n\n" and ends with "..."; the middle is the whole context when it has at most 1000 characters, else its first 1000; the length is prefix + min(1000, len) + 3 |
| Generation.FallbackIgnoresQuery | app.py:66-67 | the fallback answer does not depend on the query |
| Generation.GeminiDjango | chatbot/generation.py:6-34 | never raises: a missing or empty key gives "Error generating response: ❌ Missing GENAI_API_KEY…", a service exception "Error generating response: " + message, a missing or empty reply the no-response notice, else the stripped reply; its partners are GeminiWrappersCompared and DjangoBlankReply |
| Generation.GeminiStreamlit | app.py:48-62 | never raises: a service exception, including reading the text of a missing response, becomes "Error generating response: " + message; else the stripped reply; its partner is GeminiWrappersCompared |
| Generation.GeminiWrappersCompared | chatbot/generation.py:20-34 | with a non-empty key and services that answer both prompts alike, the Django wrapper and the Streamlit wrapper of app.py:48-62 give the same text for an exception and for a non-empty reply; a missing response gives the no-response notice in Django but "Error generating response: 'NoneType' object has no attribute 'text'" in Streamlit; an empty reply gives the notice in Django but "" in Streamlit |
| Generation.DjangoBlankReply | chatbot/generation.py:32 | the emptiness test comes before `strip`, so a non-empty reply made only of whitespace is answered with "", not with the no-response notice |
| Generation.DjangoPromptContextSlot | chatbot/generation.py:23-30 | the prompt carries its first argument right after "Context:" and its second right after "Question: " |
| Generation.DjangoPromptOrderMatters | chatbot/generation.py:16-30 | exchanging a context and a query that begin differently changes the prompt |
| StreamlitApp.Extension | app.py:106 | the extension holds no '.' and no upper-case ASCII letter; `ExtensionAfterLastDot` pins it to the text after the last dot |
| StreamlitApp.ExtensionAfterLastDot | app.py:106 | the extension is what follows the last '.', lower-cased; a name without '.' is its own extension |
| StreamlitApp.CollectChunks | app.py:103-126 | `all_chunks`: the chunks of each file in upload order, unsupported and unreadable files skipped; pinned by CollectChunksAppend and SkippedFileContributesNothing |
| StreamlitApp.CollectChunksAppend | app.py:103-126 | the chunks of a list of files are those of each file, concatenated in upload order |
| StreamlitApp.SkippedFileContributesNothing | app.py:104-126 | a file whose extension is not txt/pdf, or whose reading raised, adds no chunks and does not affect the others |
| StreamlitApp.SkippedAlone | app.py:104-124 | a file of another type, or whose reading raised, yields no chunk |
| StreamlitApp.CollectedChunkBounds | app.py:125-126 | every collected chunk has 1 to 500 characters |
| StreamlitApp.Ingest | app.py:102-135 | chunks and embeddings are replaced and the history cleared exactly when the button was pressed, files were uploaded, a chunk was collected and the encoder succeeded; otherwise, a raising encoder included, nothing changes |
| StreamlitApp.IngestKeepsAligned | app.py:128-131 | with an encoder giving one vector per text whenever it succeeds, every stored chunk keeps its embedding |
| StreamlitApp.SubmitQuery | app.py:140-163 | a query blank after `strip` leaves everything unchanged; otherwise the box is cleared; the empty store gives the warning with the history unchanged; an answer appends exactly ("User", stripped query) then ("Bot", answer); chunks and embeddings never change |
| StreamlitApp.Context | app.py:154-155 | the retrieved chunks joined by "\n---\n"; `ContextChunks` shows it holds min(4, n) chunks in non-increasing score order |
| StreamlitApp.Answer | app.py:157-160 | Gemini with a non-empty key, else the fallback; `NoKeyAnswerIgnoresQuery` shows the keyless answer is the same for every query |
| StreamlitApp.ContextChunks | app.py:154-155 | the context is min(4, n) retrieved chunks in non-increasing score order, joined by "\n---\n" |
| StreamlitApp.NoKeyAnswerIgnoresQuery | app.py:157-160 | without a key the answer is the fallback, the same for every query |
| DjangoViews.Combine | chatbot/views.py:24-34 | one step of the loop: the first read failure wins, else the chunks of the earlier files then the later; pinned by CollectChunksAppend and CollectFailsIff |
| DjangoViews.CollectChunks | chatbot/views.py:23-34 | the loop of `upload_file`: a read failure of any readable file, else the chunks of each file in order, other suffixes and empty texts contributing nothing; pinned by CollectFailsIff, CollectChunksAppend and SkippedFileContributesNothing |
| DjangoViews.CollectFailsIff | chatbot/views.py:24-34 | reading the upload fails exactly when some file with a readable suffix cannot be read |
| DjangoViews.CollectChunksAppend | chatbot/views.py:23-34 | the chunks of a list of files are those of each file in order, the first failure winning |
| DjangoViews.SkippedFileContributesNothing | chatbot/views.py:26-33 | a file not ending in ".txt"/".pdf", or with empty text, contributes nothing |
| DjangoViews.UpperCaseSuffixSkipped | chatbot/views.py:26-30 | suffixes are compared case-sensitively: "notes.TXT" is not read |
| DjangoViews.CollectedChunkBounds | chatbot/views.py:32-34 | every stored chunk has 1 to 500 characters |
| DjangoViews.UploadFile | chatbot/views.py:20-41 | as written: success exactly for a POST with files, at least one chunk and a working encoder, reporting the chunk count and replacing chunks and embeddings; an unreadable file or a raising encoder is an uncaught error; every other case, a GET or a POST without files or without any chunk, answers "No file uploaded" and never a chat answer; the store changes only on success or when the encoder raised, and then holds the new chunks beside the old embeddings |
| DjangoViews.UploadPartialUpdate | chatbot/views.py:36-38 | as written, a raising encoder leaves the new chunks stored beside the previous embeddings; after a first upload that fails this way there are chunks and no embeddings |
| DjangoViews.UploadFileIntended | chatbot/views.py:36-39 | with the encoder run before the assignments, every response is the one `upload_file` gives, and only a success changes the store |
| DjangoViews.Chat | chatbot/views.py:43-60 | never changes the store; a non-POST gets "Invalid request"; an unparsable body is an uncaught error; a POST whose query is missing or empty, or that arrives while no chunks are stored, gets "No documents or query provided"; never an upload answer; an answer exactly for a POST with a non-empty query while chunks are stored; the answer is the Gemini wrapper called with (query, context) |
| DjangoViews.ChatContext | chatbot/views.py:53 | the first five stored chunks joined by one space; `ChatContextFirstFive` pins what it holds |
| DjangoViews.ChatContextFirstFive | chatbot/views.py:53 | chunks after the fifth never reach the context; the context is the first min(5, n) chunks with one space between neighbours |
| DjangoViews.ChatQueryInContextSlot | chatbot/views.py:53-56 | as written, the query lands in the prompt where the document context belongs |
| DjangoViews.ChatIntended | chatbot/views.py:43-60 | the corrected view agrees with `Chat` on every response but the answer, which is the Gemini wrapper called with (context, query) |
| DjangoViews.ChatIntendedPrompt | chatbot/views.py:53-56 | in the corrected call the chunks fill the context slot and the query the question slot; the call as written gives another prompt |
| DjangoViews.BlankQueryAnswered | chatbot/views.py:47-49 | the query is not stripped: a query of one space is answered |
| DjangoViews.ChatIgnoresEmbeddings | chatbot/views.py:43-58 | the stored embeddings play no part in the response |
| AnswerFormat.SplitSections | chatbot/static/chatbot/script.js:83 | `text.split(/\n\s*\n/)`; `SplitSectionsWeave`, `SplitSectionsPieces` and `SplitSectionsAtEmptyLine` pin its pieces |
| AnswerFormat.MatchEnd | chatbot/static/chatbot/script.js:83 | a match of `\n\s*\n` at a position is a newline, whitespace, a newline |
| AnswerFormat.MatchEndLongest | chatbot/static/chatbot/script.js:83 | the match found is the longest separator starting there (greedy `\s*`) |
| AnswerFormat.SplitFrom | chatbot/static/chatbot/script.js:83 | there is one more piece than separators, and every separator is a blank line |
| AnswerFormat.SplitSectionsWeave | chatbot/static/chatbot/script.js:83 | putting the separators back between the sections gives the text |
| AnswerFormat.SplitSectionsPieces | chatbot/static/chatbot/script.js:83 | no section contains a blank line; a text without one is a single section |
| AnswerFormat.SplitSectionsAtEmptyLine | chatbot/static/chatbot/script.js:83 | an empty line between text that neither ends nor begins with whitespace cuts there and nowhere earlier |
| AnswerFormat.ConvertBold | chatbot/static/chatbot/script.js:78 | `line.replace(/\*\*(.*?)\*\*/g, …)`; `ConvertBoldPair`, `BoldLeftmostShortest`, `NoClosingUnchanged` and `LineBreakBlocksBold` pin it |
| AnswerFormat.CloseAt | chatbot/static/chatbot/script.js:80 | the lazy `(.*?)` closes at the first "**" on the line, with no line terminator before it |
| AnswerFormat.CloseAtNone | chatbot/static/chatbot/script.js:80 | when nothing closes, every later "**" has a line terminator before it |
| AnswerFormat.ConvertBoldNoStars | chatbot/static/chatbot/script.js:80 | a line without "**" is unchanged |
| AnswerFormat.ConvertBoldPlain | chatbot/static/chatbot/script.js:80 | star-free text passes through unchanged |
| AnswerFormat.ConvertBoldPair | chatbot/static/chatbot/script.js:80 | `**x**` with a star-free single-line x becomes `<strong>x</strong>` |
| AnswerFormat.UnclosedBoldUnchanged | chatbot/static/chatbot/script.js:80 | an opening "**" followed by star-free text stays as it is |
| AnswerFormat.CloseAtShift | chatbot/static/chatbot/script.js:80 | the lazy scan finds the same closing "**" in a string and in its tail, one position apart |
| AnswerFormat.NoClosingUnchanged | chatbot/static/chatbot/script.js:80 | a line in which no "**" is ever closed, such as "**a*b", is unchanged |
| AnswerFormat.CloseAtBlocked | chatbot/static/chatbot/script.js:80 | a line terminator reached before any "**" leaves the lazy group unclosed |
| AnswerFormat.UnclosedOpen | chatbot/static/chatbot/script.js:80 | for every line starting with "**" whose lazy group never closes (including "**" alone and "***…"), the "**" is copied and the scan resumes right after it |
| AnswerFormat.BrokenGroup | chatbot/static/chatbot/script.js:80 | in `**x`, a line terminator, `y**` (x single-line and star-free) nothing closes the first "**" |
| AnswerFormat.UnclosedStays | chatbot/static/chatbot/script.js:80 | a star-free `**body**` whose group never closes is unchanged |
| AnswerFormat.LineBreakBlocksBold | chatbot/static/chatbot/script.js:80 | a line terminator between the stars stops the match: star-free `**x`, line break, `y**` is unchanged |
| AnswerFormat.BoldLeftmostShortest | chatbot/static/chatbot/script.js:80 | for star-free x and y with x on one line, `**x**y**` becomes `<strong>x</strong>y**`: the first pair closes at the second "**" |
| AnswerFormat.MarkerRun | chatbot/static/chatbot/script.js:93 | the leading run of `[*\-\d]` characters is exactly the maximal one |
| AnswerFormat.ListTextIff | chatbot/static/chatbot/script.js:93 | a line is a list line exactly when some marker length matches `[*\-\d]+\.? ` at its start |
| AnswerFormat.StripMarker | chatbot/static/chatbot/script.js:101 | removing the marker leaves a suffix of the line |
| AnswerFormat.StripMarkerInverse | chatbot/static/chatbot/script.js:101 | a marker, an optional '.', whitespace and an item strip back to the item |
| AnswerFormat.StripNoDot | chatbot/static/chatbot/script.js:101 | a marker, some whitespace and an item not beginning with whitespace strip to the item |
| AnswerFormat.StripWithDot | chatbot/static/chatbot/script.js:101 | a marker, '.', some whitespace and an item not beginning with whitespace strip to the item |
| AnswerFormat.InSection | chatbot/static/chatbot/script.js:105-109 | the section element wraps its body exactly between `<div class="section">` and `</div>` |
| AnswerFormat.FormatSection | chatbot/static/chatbot/script.js:85-110 | a section gives "" exactly when it is all whitespace, else one `<div class="section">…</div>` |
| Strings.JoinSplitOn | chatbot/static/chatbot/script.js:90 | `split('\n')` loses nothing: joining the pieces again with the separator gives back the section; the same split serves `split(';')` of the cookie string and `split('.')` of a file name |
| Strings.SplitOnJoin | chatbot/static/chatbot/script.js:90 | the other direction of the round trip: pieces free of the separator, joined with it and split again, come back unchanged and in order |
| AnswerFormat.SectionIsList | chatbot/static/chatbot/script.js:90-105 | a non-blank section whose trimmed lines all are list lines becomes a list with one item per line |
| AnswerFormat.SectionIsParagraph | chatbot/static/chatbot/script.js:106-109 | any other non-blank section becomes `<p>` + its lines, bold-converted, joined by `<br>` + `</p>` |
| AnswerFormat.ListOrdered | chatbot/static/chatbot/script.js:97-104 | the list is `<ol>…</ol>` exactly when its first line begins with a digit |
| AnswerFormat.ListItems | chatbot/static/chatbot/script.js:99-103 | one `<li>` per line, holding the trimmed line without marker, bold-converted |
| AnswerFormat.FormatAnswer | chatbot/static/chatbot/script.js:76-112 | each section of the split formatted and the results concatenated; `FormatSingleSection`, `FormatAtEmptyLine` and `ParagraphThenList` pin it |
| AnswerFormat.FormatSingleSection | chatbot/static/chatbot/script.js:83-111 | text without a blank line is formatted as one section |
| AnswerFormat.FormatAtEmptyLine | chatbot/static/chatbot/script.js:83-111 | the answer is the first section's HTML followed by the HTML of the rest |
| AnswerFormat.PlainSection | chatbot/static/chatbot/script.js:106-109 | a single non-empty, star-free line with no whitespace at either end, whose first character is not a list-marker character, is `<p>line</p>` in a section (a line with edge whitespace is trimmed first and is not covered) |
| AnswerFormat.NumberedLine | chatbot/static/chatbot/script.js:93-101 | for a non-empty item with no whitespace at either end, "d. item" is its own trim, a list line beginning with a digit, and strips to its item |
| AnswerFormat.OrderedListSection | chatbot/static/chatbot/script.js:90-105 | "1. x\n2. **y**" becomes `<ol><li>x</li><li><strong>y</strong></li></ol>` in a section |
| AnswerFormat.TwoLineList | chatbot/static/chatbot/script.js:85-105 | two trimmed list lines joined by a newline form one list section with one item per line |
| AnswerFormat.ParagraphThenList | chatbot/static/chatbot/script.js:78-112 | a paragraph, an empty line and a two-item numbered list become a paragraph section followed by an ordered-list section |
| Cookies.SubstringPrefix | chatbot/statics/scripts.js:11 | comparing the first k characters with a k-character string is a prefix test, also for entries shorter than k |
| Cookies.MatchesIsPrefix | chatbot/statics/scripts.js:11 | an entry matches exactly when it begins with `name=` |
| Cookies.LongerNameNoMatch | chatbot/statics/scripts.js:11 | an entry for a longer name, such as "namex=1" for "name", does not match |
| Cookies.Entries | chatbot/statics/scripts.js:8-10 | one entry per `;`-separated piece, each trimmed |
| Cookies.EmptyCookieEntries | chatbot/statics/scripts.js:7-10 | an empty cookie string splits into one empty entry, which matches no name |
| Cookies.FirstMatch | chatbot/statics/scripts.js:9-15 | the least position whose trimmed entry matches, or none when no entry matches |
| Cookies.GetCookie | chatbot/statics/scripts.js:5-18 | an empty cookie string gives null |
| Cookies.GetCookieLoop | chatbot/statics/scripts.js:5-18 | the `for … of` loop with its `break` computes `GetCookie` |
| Cookies.GetCookieFoundIff | chatbot/statics/scripts.js:7-17 | something is found exactly when some entry, trimmed, begins with `name=`; otherwise null |
| Cookies.GetCookieFirst | chatbot/statics/scripts.js:9-14 | the first entry beginning with `name=` is the one decoded |
| Cookies.FirstEntryWins | chatbot/statics/scripts.js:11-14 | of two entries for the name the first wins, whatever follows |
| Cookies.SingleEntry | chatbot/statics/scripts.js:8-12 | a cookie of one `name=value` entry yields the decoded value |

## Left out

- Embeddings: the SentenceTransformer encoder, its L2 normalisation and `cosine_similarity` are floating-point library code. The encoder is a function parameter that gives the vectors or the message of the exception it raised. The similarity scores are given integers with a given ascending order.
- Gemini: `genai.configure` and `generate_content` are a network service. The service is a function from the prompt to a reply, a missing response or an exception message. The model name is not modelled.
- Text extraction: UTF-8 decoding and PyPDF2 page extraction are library I/O. Each file carries its extraction outcome.
- Presentation and transport: the Streamlit widgets, warnings and chat rendering; Django `render`, `JsonResponse` and URL routing; the DOM, `fetch`, event handlers and `appendMessage` of both scripts.
- `decodeURIComponent`: a parameter that decodes or fails. A failure is the uncaught `URIError`.
- Cookies.GetCookie: `document.cookie` is a string in the browser, so an absent cookie is not modelled beyond the empty string.
- DjangoViews.Chat: a JSON body that is not an object, or a "query" that is not a string, is not modelled. Only an object with an optional string query and an unparsable body are.
- StreamlitApp.Extension: lower-casing is ASCII only. It matters only in the comparison with "txt" and "pdf".
- StreamlitApp.SubmitQuery: the query embedding is not modelled. The scores of the stored chunks against it are an input. Nor is the path where `embedding_model.encode` (app.py:151) raises after the box was cleared at app.py:145: the box is then empty, the history unchanged and no warning shown, which the model cannot reach because encoding the query cannot fail in it.
- The "Process Documents" widget state across reruns and the `on_change` callback timing are Streamlit runtime behaviour. They are modelled as one transition per event.

## Findings

| source | as written | input that shows it | evidently intended | confidence | as-written member | corrected member |
|---|---|---|---|---|---|---|
| chatbot/views.py:56 | `generate_answer_gemini(query, context)` against the signature `(context, query)` | any POST with query "what?" while the first stored chunk begins with "d": the prompt's context slot holds "what?" | `generate_answer_gemini(context, query)` | high; not executed | DjangoViews.ChatQueryInContextSlot | DjangoViews.ChatIntended |
| chatbot/views.py:37-38 | `docs_chunks = all_chunks` before `embed_texts(all_chunks, …)` | a first upload whose encoding raises: the view fails, yet `docs_chunks` holds the new chunks and `docs_embeddings` is still `None`, and later chats answer from those chunks | embed first, then assign both | medium; not executed | DjangoViews.UploadPartialUpdate | DjangoViews.UploadFileIntended |
