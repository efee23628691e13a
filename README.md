# Simple RAG: a Dafny model of the chunker, the search bookkeeping and the prompts

The system is a small retrieval-augmented question answering service. A
Flask backend (`app.py`) accepts `.txt` uploads, cuts them into chunks,
indexes the chunks in a FAISS inner-product index and answers questions by
sending a prompt built from the best chunks to a local Ollama model. A
command-line variant (`rag_system.py`, class `SimpleRAG`) loads a folder of
`.txt` files, one document per file, and does the same.

The model covers the deterministic logic around the retrieval step:

- `text.dfy` (module `Text`): the Python string built-ins the core relies
  on: `str.isspace` (also the class `\s` of a `str` regular expression),
  `str.strip`, `str.join`, `str(n)` for non-negative `n`, and `str.lower`
  on ASCII letters.
- `chunker.dfy` (module `Chunker`): `load_documents_from_text`, that is,
  `re.split(r'\n\s*\n')` as a leftmost-first scan, the stripping and
  dropping of empty paragraphs, `re.split(r'[.!?]+')`, and the greedy
  re-packing of the sentences of a paragraph over 1000 characters. A
  sentence joins the running buffer only while buffer and sentence
  together stay under 1000 characters; the `". "` appended after that test
  can take a buffer to 1001, and a buffer opened by a long sentence has no
  bound, so only a single sentence can give a chunk over 1000 characters
  (`ChunkerProperties.PackOversizeIsOneSentence`). The two loops are
  methods (`PackParagraph`, with the flush `AppendFlushed`, and
  `ChunkParagraphs` called by `LoadDocumentsFromText`) proved equal to the
  functions `Pack` and `ChunksOf`.
- `chunker_properties.dfy` (module `ChunkerProperties`): what the chunker
  guarantees. Both `re.split` calls are read back: the pieces with the
  removed separators put back between them give the input, and the
  separators are the leftmost, longest matches. The blank-line split and
  the strip drop only whitespace, and the sentence split drops only `.!?`,
  so the chunks keep every character that is neither, in order. Every
  chunk is stripped and non-empty. Re-split chunks end in `.`. Short
  paragraphs pass through unchanged. An oversize chunk is a single
  sentence. No paragraph holds a blank line.
- `hits.dfy` (module `Hits`): the answer of `index.search`, which is
  taken as an input: one row of `(score, idx)` pairs, `top_k` long, padded
  by FAISS with `idx = -1`. It also defines which positions of the row
  name a stored document.
- `app_server.dfy` (module `AppServer`): `allowed_file`, the hit-to-result
  mapping of `search_documents`, `create_context_prompt`, and the
  module-level `documents`/`index` as class `AppState`. The class's methods
  are `/upload`, `create_embeddings`, `/clear`, `search_documents` and
  `/query`.
- `rag_system.py` is modelled in `rag_system.dfy` (module `RagSystem`):
  the documents kept by `load_documents`, the ranked search, the context
  prompt, and class `SimpleRag` with its constructor, `load_documents`,
  `create_index`, `search` and `query`.

The FAISS index is represented by the number of vectors it holds
(`FlatIndex(ntotal)`). Scores are opaque reals that are only copied.
Everything that needs the embedding model or the network becomes an input
of the operation: the answer row of a search, the files of the folder, and
the name `secure_filename` produced.

## Model

| member | source | states |
|---|---|---|
| Text.Strip | app.py:43 | `s.strip()` is a contiguous slice of `s` that starts at `StripStart(s)` and neither starts nor ends with whitespace |
| Text.StripRemovesOnlySpace | app.py:43 | what `strip()` removes at either end is whitespace, and the result is empty exactly when the text is all whitespace (the `if chunk.strip()` filter) |
| Text.JoinPlacesElements | app.py:140-141 | in `sep.join(xs)` every element sits at its offset, consecutive elements are separated by exactly `sep`, and the last one ends the string |
| Text.ParseNatToString | app.py:140 | the rendering of `i+1` used in `Document {i+1}` reads back as the same number |
| Text.NatToString | app.py:140 | `str(i+1)` is a non-empty string of decimal digits that starts with `0` only for the number 0 |
| Text.Lower | app.py:37 | `lower()` keeps the length and maps each character by itself: ASCII capitals to small letters, everything else unchanged |
| Chunker.BlankMatchEnd | app.py:42 | `\n\s*\n` matches at `i` exactly when a blank-line boundary starts at `i`, and the match spans only whitespace |
| Chunker.SplitBlankLines | app.py:42 | `re.split` always returns at least one piece, and exactly `[text]` when the text holds no blank line |
| Chunker.SplitFromWithoutMatch | app.py:42 | without a blank line in the text the scan finds no match and returns the rest of the text as its one piece |
| Chunker.StripAll | app.py:43 | the comprehension keeps at most one stripped paragraph per piece |
| Chunker.SplitSentences | app.py:51 | `re.split(r'[.!?]+')` gives at least one piece and no piece holds a terminator; `ChunkerProperties.SplitSentencesRoundTrip` reads the split back |
| Chunker.Pack | app.py:52-61 | the sentence loop emits at least one chunk when there is a sentence or a pending buffer, and at most one per sentence plus one for the pending buffer |
| Chunker.ChunkParagraph | app.py:49-63 | every stripped paragraph yields at least one chunk |
| Chunker.ChunksOf | app.py:48-63 | the paragraph loop emits at least one chunk per paragraph |
| Chunker.Tag | app.py:65 | one dictionary per chunk, in order, each with that chunk as content and the filename as source |
| Chunker.PackParagraph | app.py:51-61 | the sentence loop with its buffer `current_chunk` emits exactly `Pack(SplitSentences(chunk), "")`, including the final flush |
| Chunker.AppendFlushed | app.py:57-58 | the buffer is appended, stripped, exactly when it is not empty |
| Chunker.ChunkParagraphs | app.py:47-63 | the loop over the stripped paragraphs returns exactly `ChunksOf(paragraphs)`: each paragraph kept whole when short enough, otherwise packed sentence by sentence |
| Chunker.LoadDocumentsFromText | app.py:39-65 | returns exactly `LoadDocuments(text, filename)`: the chunks of the text, each tagged with the file name |
| ChunkerProperties.ChunkerKeepsWords | app.py:39-65 | read in order, the chunks hold exactly the characters of the text that are neither whitespace nor `.!?`: chunking changes only whitespace and sentence punctuation |
| ChunkerProperties.SplitBlankLinesRoundTrip | app.py:42 | `re.split(r'\n\s*\n')` read back: the pieces with the removed separators between them are the text; each separator is a newline, whitespace and a newline; no piece holds a blank line and none that a separator follows has a newline in its trailing whitespace (leftmost match); no piece after a separator has a newline in its leading whitespace and none between two separators is all whitespace (longest match) |
| ChunkerProperties.StripAllKeeps | app.py:43 | for any character class without whitespace, the stripped non-empty paragraphs hold, in order, exactly the characters of that class the pieces hold |
| ChunkerProperties.ParagraphsKeep | app.py:42-43 | for any character class without whitespace, the paragraphs read in order hold exactly the characters of that class the text holds |
| ChunkerProperties.SplitSentencesRoundTrip | app.py:51 | `re.split(r'[.!?]+')` read back: the pieces with the removed runs between them are the paragraph; every run is a non-empty run of terminators, and every piece between two runs is non-empty, so each run is maximal |
| ChunkerProperties.SentencesKeep | app.py:51 | for any character class without `.!?`, the pieces read in order hold exactly the characters of that class the paragraph holds |
| ChunkerProperties.SentencesAreTheNonTerminators | app.py:51 | the pieces read in order are exactly the characters of the paragraph other than `.!?` |
| ChunkerProperties.PackKeepsWords | app.py:52-61 | packing keeps the words of the buffer and of every sentence; the `". "` it adds holds none |
| ChunkerProperties.StripAllStripped | app.py:43 | every paragraph kept is non-empty and has no whitespace at either end |
| ChunkerProperties.ChunkedDocumentsAreClean | app.py:39-65 | one document per final chunk, in order, each with the given filename as source and a stripped non-empty content |
| ChunkerProperties.PackChunksEndWithPeriod | app.py:55-61 | every buffer flushed by the sentence loop is stripped, non-empty and ends in `.` |
| ChunkerProperties.LongParagraphChunks | app.py:49-61 | a paragraph over 1000 characters yields at least one chunk, and each is stripped and ends in `.` |
| ChunkerProperties.ShortParagraphsPassThrough | app.py:62-63 | paragraphs of at most 1000 characters are emitted unchanged, one chunk each, in order |
| ChunkerProperties.ShortTextChunksAreParagraphs | app.py:48-63 | when no paragraph exceeds 1000 characters the final chunks are exactly the stripped paragraphs |
| ChunkerProperties.PackOversizeIsOneSentence | app.py:53-61 | a packed chunk over 1000 characters is the stripped starting buffer or one stripped sentence with its `". "` |
| ChunkerProperties.OversizeChunkIsOneSentence | app.py:49-61 | a chunk over 1000 characters comes from a long paragraph and is a single sentence of it, because a sentence joins a buffer only while the two stay under 1000 |
| ChunkerProperties.ParagraphsHaveNoBlankLine | app.py:42-43 | no paragraph contains a blank-line boundary |
| ChunkerProperties.TextWithoutBlankLineIsOneParagraph | app.py:42-43 | a text without a blank line is one paragraph, the text stripped, or none when it is all whitespace |
| Hits.KeptPositions | app.py:108-109 | the positions kept from an answer row each name a stored document and strictly increase |
| Hits.KeptPositionsAreAll | app.py:108-109 | every position of the answer row whose idx names a stored document is kept |
| Hits.NothingKeptOfNone | app.py:108-109 | with no document stored, no position of the answer row is kept |
| AppServer.LastDot | app.py:37 | the position of the last `.`, with no `.` after it; none exactly when the name has no `.` |
| AppServer.AllowedFile | app.py:36-37 | a name is accepted exactly when it holds a `.` and the text after the last `.`, lower-cased, is `txt` |
| AppServer.HitsToResults | app.py:107-114 | the results loop, with the guard `0 <= idx < len(documents)`, gives at most one result per hit |
| AppServer.SearchResultsFollowHits | app.py:104-116 | the results are exactly the kept hits in hit order, each copying content and source of the chunk it names and carrying its score |
| AppServer.SearchDocuments | app.py:92-116 | nothing without an index; otherwise one result per hit whose idx names a stored chunk, in hit order, with that chunk and the hit's score (corrected guard) |
| AppServer.HitsToResultsAsWritten | app.py:107-114 | the results loop with the guard as written (`idx < len(documents)`) gives at most one result per hit |
| AppServer.SentinelRepeatsLastChunk | app.py:108-114 | a padding hit `idx = -1` passes the guard as written and appends the last chunk again; the corrected guard adds nothing |
| AppServer.AsWrittenAgreesWithoutPadding | app.py:108-114 | on an answer row without padding the guard as written and the corrected guard give the same results |
| AppServer.TwoChunksTopThree | app.py:104-114 | two stored chunks, `top_k = 3`: as written three results come back and the third repeats chunk 2; corrected, two |
| AppServer.NoResultsPrompt | app.py:137-138 | without results the prompt is exactly `Question: {q}` followed by the general-knowledge request |
| AppServer.CreateContextPrompt | app.py:135-152 | without results the question follows `Question: ` at the start; with results the prompt ends with `Question: {q}` and `Answer:` |
| AppServer.PromptFramesContext | app.py:143-150 | with results the prompt is the fixed instructions and `Documents:` header, then the context, then `Question: {q}` and `Answer:` |
| AppServer.ContextNumbersResults | app.py:140-141 | the context holds block `k+1` for result `k`, blocks in order separated by one blank line, the last ending the context |
| AppServer.AppState.constructor | app.py:32-34 | the corpus starts with no chunks and no index |
| AppServer.AppState.CreateEmbeddings | app.py:67-90 | false and nothing changed when no chunk is stored; otherwise true and an index over all chunks |
| AppServer.AppState.UploadFile | app.py:194-229 | the three 400 replies leave the corpus alone; an accepted file appends its chunks tagged with the secured name, the index is rebuilt, and the reply counts the new chunks and the total |
| AppServer.AppState.AppendDocuments | app.py:215-218 | `documents.extend(new_docs)` then create_embeddings: the corpus grows by exactly the new chunks; the result is true exactly when the corpus is not empty, and then the index covers all chunks, otherwise there is none |
| AppServer.AppState.ClearDocuments | app.py:286-292 | afterwards no chunk and no index, and the fixed message |
| AppServer.AppState.Search | app.py:92-116 | the loop returns exactly `SearchDocuments` of the stored chunks and the answer row (corrected guard), at most `top_k` results |
| AppServer.AppState.Query | app.py:231-257 | a missing question is a 400; otherwise the prompt over the results of a `top_k = 3` search (corrected guard), their count (at most 3) and their sources in order |
| RagSystem.LoadedFrom | rag_system.py:94-100 | a file gives at most one document, whose content is stripped and non-empty |
| RagSystem.LoadedDocumentsAreStripped | rag_system.py:94-100 | every loaded document has non-empty content without whitespace at either end |
| RagSystem.LoadedDocumentsOfOne | rag_system.py:94-100 | a file contributes a document exactly when its text is not all whitespace, and then the text stripped, its base name and its path |
| RagSystem.LoadedDocumentsAppend | rag_system.py:91-100 | loading two batches of files is loading them one after the other |
| RagSystem.LoadedDocuments | rag_system.py:91-100 | at most one document per file |
| RagSystem.RankedResults | rag_system.py:144-151 | the results loop, with the guard `0 <= idx < len(self.documents)`, gives at most one result per hit |
| RagSystem.RankedResultsFollowHits | rag_system.py:142-153 | the results are exactly the kept hits in hit order, each with the named document, the hit's score and rank `i+1`; ranks lie in 1..top_k and strictly increase |
| RagSystem.SearchResults | rag_system.py:124-153 | nothing without an index; otherwise one result per hit whose idx names a stored document, in hit order, with that document, the hit's score and its rank (corrected guard) |
| RagSystem.RankedResultsAsWritten | rag_system.py:144-151 | the results loop with the guard as written gives at most one result per hit |
| RagSystem.SentinelRanksLastDocumentTwice | rag_system.py:145-151 | a padding hit `idx = -1` passes the guard as written and ranks the last document again; the corrected guard adds nothing |
| RagSystem.AsWrittenAgreesWithoutPadding | rag_system.py:144-151 | on an answer row without padding the guard as written and the corrected guard give the same ranked results |
| RagSystem.NoResultsPrompt | rag_system.py:183-184 | without results the prompt is exactly `Question: {query}` followed by the general-knowledge request |
| RagSystem.CreateContextPrompt | rag_system.py:181-202 | without results the question follows `Question: ` at the start; with results the prompt ends with `Question: {query}` and the closing request |
| RagSystem.PromptFramesContext | rag_system.py:193-200 | with results the prompt is the fixed instructions and `Context from documents:` header, then the context, then `Question: {query}` and the closing request |
| RagSystem.ContextListsResults | rag_system.py:186-191 | the context holds the part of result `k`, parts in order separated by one newline, the last ending the context |
| RagSystem.SimpleRag.constructor | rag_system.py:24-37 | the documents are those loaded from the files, and an index over all of them exists exactly when there is one |
| RagSystem.SimpleRag.LoadDocuments | rag_system.py:83-105 | appends the documents of the files in file order and leaves the index alone |
| RagSystem.SimpleRag.LoadFile | rag_system.py:92-101 | one file appends its stripped text as a document exactly when that text is not empty, and nothing else changes |
| RagSystem.SimpleRag.CreateIndex | rag_system.py:107-122 | changes nothing without documents; otherwise an index over all documents |
| RagSystem.SimpleRag.Search | rag_system.py:124-153 | the loop returns exactly `SearchResults` of the documents and the answer row (corrected guard), at most `top_k` results |
| RagSystem.SimpleRag.Query | rag_system.py:204-237 | without context the prompt is the question and nothing is searched; with context the prompt is the context prompt over the search results |

## Left out

- Embeddings and FAISS: `SentenceTransformer.encode`, `faiss.normalize_L2`, `IndexFlatIP.add` and `search` (app.py:74-88, 99-104; rag_system.py:113-120, 138-142). These are float computations in foreign libraries. The index is its vector count, and a search answer is an input row of `(score, idx)` pairs. No ranking property is claimed.
- The `embeddings` field of `SimpleRAG` (rag_system.py:26, 115) is folded into the index it feeds.
- Ollama: `query_ollama` in both files, `check_ollama_connection` (rag_system.py:39-81) and the `/status` route (app.py:259-284) are network I/O. The model stops at the prompt: `AppServer.AppState.Query` returns the prompt in place of the answer text.
- Flask glue: routing, `request.files`/`get_json`, `jsonify`, CORS, the `/` page. The name `secure_filename` makes is an input field (`FileUpload.secureName`). A missing `question` key and a missing JSON body are both `question == None`.
- Error paths raised by foreign code: a UTF-8 decode failure of an upload, the generic 500 replies of `/upload` and `/query`, and `Error: ...` strings of `SimpleRAG.query`.
- Filesystem I/O: `glob`, `open` and `os.path.basename` in `load_documents` (rag_system.py:85-93). The files arrive as `TextFile(path, name, content)` in the order `glob` lists them. A file that cannot be read is not modelled. The console messages are not modelled either.
- `main`, `setup.py`, `run_backend.py`, `example_usage.py` and `test_specific_file.py` are not part of this model: they are a CLI, environment checks and demos.
- Text.Lower: only ASCII capitals are lowered, while Python's `str.lower` maps more characters. The one use compares the result with `txt`, and no other character lowers to `t` or `x`, so the same names are accepted.
- `not self.index` (rag_system.py:135) is modelled as "no index built". A FAISS index object defines no length or truth value, so it is always truthy.
- In app.py the view function `def index()` (app.py:155) rebinds the module name `index` set to `None` at app.py:34. Before the first build, `index` therefore holds a function rather than `None`. Only `/status` tells the two apart, and it is left out. `search_documents` returns `[]` in that state anyway, because no chunk is stored. The model starts with no index.
- AppServer.AppState.Search: filters the answer row with the corrected guard `0 <= idx < len(documents)`, not the guard as written at app.py:109 (`idx < len(documents)`). On a row padded with `idx = -1` the code as written also returns the last chunk again (see Findings). On rows without padding the two agree (`AppServer.AsWrittenAgreesWithoutPadding`).
- AppServer.AppState.Query: searches through `AppServer.AppState.Search`, so it uses the same corrected guard; with padding, the code as written would also put the repeated last chunk into the prompt and the sources.
- RagSystem.SimpleRag.Search: filters with the corrected guard `0 <= idx < len(self.documents)`, not the guard as written at rag_system.py:146. On a padded row the code as written also ranks the last document again (see Findings). On rows without padding the two agree (`RagSystem.AsWrittenAgreesWithoutPadding`).
- RagSystem.SimpleRag.Query: searches through `RagSystem.SimpleRag.Search`, so it uses the same corrected guard; with padding, the code as written would also put the last document into the context a second time.
- Integer widths: FAISS indices are `int64` and lengths are unbounded here. No wrap-around is possible at the sizes involved.

## Findings

| source | as written | input that shows it | evidently intended | confidence | as-written member | corrected member |
|---|---|---|---|---|---|---|
| app.py:108-114 | the guard `idx < len(documents)` admits FAISS's padding index -1, and `documents[-1]` is the last chunk | two chunks stored, `/query` asks for `top_k=3`: the row is `idx = 0, 1, -1` and three results come back, the third a copy of chunk 2 with the padding score | keep only `0 <= idx < len(documents)` | not executed | AppServer.HitsToResultsAsWritten (AppServer.SentinelRepeatsLastChunk, AppServer.TwoChunksTopThree) | AppServer.HitsToResults (AppServer.SearchResultsFollowHits, AppServer.SearchDocuments) |
| rag_system.py:145-151 | the same guard `idx < len(self.documents)` admits -1 and ranks the last document a second time | one document in the folder and `top_k=3`: the row is `idx = 0, -1, -1` and the one document comes back three times, ranked 1, 2 and 3 | keep only `0 <= idx < len(self.documents)` | not executed | RagSystem.RankedResultsAsWritten (RagSystem.SentinelRanksLastDocumentTwice) | RagSystem.RankedResults (RagSystem.RankedResultsFollowHits, RagSystem.SearchResults) |
