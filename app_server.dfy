// The Flask backend of app.py, without the web glue: the upload filter, the
// module-level corpus (`documents` and `index`) and the routes that change
// it, the mapping of index hits back to chunks, and the prompt sent to the
// language model.

module AppServer {
  import opened Text
  import opened Chunker
  import opened Hits

  /** ALLOWED_EXTENSIONS */
  const AllowedExtensions: set<string> := {"txt"}

  /** The number of chunks the /query route retrieves. */
  const QueryTopK: nat := 3

  // ---------------------------------------------------------------------
  // allowed_file

  /** The position of the last `.` in `s`, if there is one. */
  function LastDot(s: string): (r: Option<nat>)
    ensures r.Some? ==> r.value < |s| && s[r.value] == '.'
                        && forall j :: r.value < j < |s| ==> s[j] != '.'
    ensures r.None? ==> forall j :: 0 <= j < |s| ==> s[j] != '.'
  {
    if s == [] then None
    else if s[|s| - 1] == '.' then Some(|s| - 1)
    else LastDot(s[..|s| - 1])
  }

  /** A file is accepted exactly when its name holds a `.` and the text after
      the last one, lower-cased, is an allowed extension. */
  function AllowedFile(filename: string): (ok: bool)
    ensures ok <==> exists k :: 0 <= k < |filename| && filename[k] == '.'
                                && (forall j :: k < j < |filename| ==> filename[j] != '.')
                                && Lower(filename[k + 1..]) in AllowedExtensions
  {
    match LastDot(filename)
    case None => false
    case Some(k) => Lower(filename[k + 1..]) in AllowedExtensions
  }

  // ---------------------------------------------------------------------
  // search_documents: from hits back to chunks

  /** A result dictionary `{"content", "source", "score"}`. */
  datatype SearchResult = SearchResult(content: string, source: string, score: real)

  function ResultFor(documents: seq<Doc>, h: Hit): SearchResult
    requires 0 <= h.idx < |documents|
  {
    SearchResult(documents[h.idx].content, documents[h.idx].source, h.score)
  }

  /** The results built from an answer row, keeping the hits that name a
      stored chunk (the guard `0 <= idx < len(documents)`). */
  function HitsToResults(documents: seq<Doc>, hits: seq<Hit>): (r: seq<SearchResult>)
    ensures |r| <= |hits|
    decreases |hits|
  {
    if hits == [] then []
    else
      var k := |hits| - 1;
      HitsToResults(documents, hits[..k])
        + (if Names(hits[k], |documents|) then [ResultFor(documents, hits[k])] else [])
  }

  /** The results are exactly the kept hits, in hit order, each copying
      content and source from the chunk it names and carrying its score. */
  lemma {:induction false} SearchResultsFollowHits(documents: seq<Doc>, hits: seq<Hit>)
    ensures |HitsToResults(documents, hits)| == |KeptPositions(hits, |documents|)|
    ensures forall j :: 0 <= j < |KeptPositions(hits, |documents|)| ==>
              HitsToResults(documents, hits)[j]
                == ResultFor(documents, hits[KeptPositions(hits, |documents|)[j]])
    decreases |hits|
  {
    if hits != [] {
      var k, n := |hits| - 1, |documents|;
      SearchResultsFollowHits(documents, hits[..k]);
      var front, results := KeptPositions(hits[..k], n), HitsToResults(documents, hits[..k]);
      var kept := if Names(hits[k], n) then [k] else [];
      var extra := if Names(hits[k], n) then [ResultFor(documents, hits[k])] else [];
      assert KeptPositions(hits, n) == front + kept;
      assert HitsToResults(documents, hits) == results + extra;
      forall j | 0 <= j < |front| + |kept|
        ensures (results + extra)[j] == ResultFor(documents, hits[(front + kept)[j]])
      {
        if j < |front| {
          assert hits[..k][front[j]] == hits[front[j]];
        }
      }
    }
  }

  /** The loop of search_documents as written: the guard `idx < len(documents)`
      is only an upper bound, and a negative index reaches Python's
      negative indexing. FAISS's only negative index is -1. */
  function HitsToResultsAsWritten(documents: seq<Doc>, hits: seq<Hit>): (r: seq<SearchResult>)
    requires forall h :: h in hits ==> -1 <= h.idx
    requires hits != [] ==> documents != []
    ensures |r| <= |hits|
    decreases |hits|
  {
    if hits == [] then []
    else
      var k := |hits| - 1;
      var h := hits[k];
      HitsToResultsAsWritten(documents, hits[..k])
        + (if h.idx < |documents|
           then [SearchResult(PyIndex(documents, h.idx).content, PyIndex(documents, h.idx).source, h.score)]
           else [])
  }

  /** The padding row FAISS returns when fewer chunks are stored than asked
      for passes the guard as written and repeats the last chunk; the
      corrected guard drops it. */
  lemma SentinelRepeatsLastChunk(documents: seq<Doc>, hits: seq<Hit>, score: real)
    requires documents != []
    requires forall h :: h in hits ==> -1 <= h.idx
    ensures HitsToResultsAsWritten(documents, hits + [Hit(score, -1)])
              == HitsToResultsAsWritten(documents, hits)
                 + [SearchResult(documents[|documents| - 1].content, documents[|documents| - 1].source, score)]
    ensures HitsToResults(documents, hits + [Hit(score, -1)]) == HitsToResults(documents, hits)
  {
    var padded := hits + [Hit(score, -1)];
    assert padded[..|hits|] == hits && padded[|hits|] == Hit(score, -1);
  }

  /** Two stored chunks and a query for three: FAISS answers with idx 0, 1
      and the padding -1. As written, three results come back and the last
      one repeats chunk 1; with the corrected guard, two. */
  lemma TwoChunksTopThree(a: Doc, b: Doc, s0: real, s1: real, s2: real)
    ensures |HitsToResultsAsWritten([a, b], [Hit(s0, 0), Hit(s1, 1), Hit(s2, -1)])| == 3
    ensures HitsToResultsAsWritten([a, b], [Hit(s0, 0), Hit(s1, 1), Hit(s2, -1)])[2]
              == SearchResult(b.content, b.source, s2)
    ensures HitsToResults([a, b], [Hit(s0, 0), Hit(s1, 1), Hit(s2, -1)])
              == [SearchResult(a.content, a.source, s0), SearchResult(b.content, b.source, s1)]
  {
    var docs := [a, b];
    var hits := [Hit(s0, 0), Hit(s1, 1), Hit(s2, -1)];
    var ra, rb := SearchResult(a.content, a.source, s0), SearchResult(b.content, b.source, s1);
    assert hits[..2] == [Hit(s0, 0), Hit(s1, 1)];
    assert hits[..2][..1] == [Hit(s0, 0)];
    assert hits[..2][..1][..0] == [];
    assert HitsToResultsAsWritten(docs, [Hit(s0, 0)]) == [ra];
    assert HitsToResultsAsWritten(docs, hits[..2]) == [ra, rb];
    assert HitsToResults(docs, [Hit(s0, 0)]) == [ra];
    assert HitsToResults(docs, hits[..2]) == [ra, rb];
  }

  /** On a row without padding, where every idx is a real position, the
      guard as written and the corrected guard keep the same hits. */
  lemma {:induction false} AsWrittenAgreesWithoutPadding(documents: seq<Doc>, hits: seq<Hit>)
    requires forall h :: h in hits ==> 0 <= h.idx
    requires hits != [] ==> documents != []
    ensures HitsToResultsAsWritten(documents, hits) == HitsToResults(documents, hits)
    decreases |hits|
  {
    if hits != [] {
      var k := |hits| - 1;
      assert forall h :: h in hits[..k] ==> h in hits;
      AsWrittenAgreesWithoutPadding(documents, hits[..k]);
      assert hits[k] in hits;
    }
  }

  /** search_documents: nothing without an index; otherwise one result per
      hit that names a stored chunk, in hit order, copying that chunk and
      the hit's score. */
  function SearchDocuments(documents: seq<Doc>, index: Option<FlatIndex>, hits: seq<Hit>): (r: seq<SearchResult>)
    ensures index.None? ==> r == []
    ensures index.Some? ==>
              |r| == |KeptPositions(hits, |documents|)|
              && forall j :: 0 <= j < |r| ==> r[j] == ResultFor(documents, hits[KeptPositions(hits, |documents|)[j]])
  {
    if index.None? then []
    else if documents == [] then
      NothingKeptOfNone(hits);
      []
    else
      SearchResultsFollowHits(documents, hits);
      HitsToResults(documents, hits)
  }

  // ---------------------------------------------------------------------
  // create_context_prompt

  const Intro: string := "You are a helpful AI assistant. Use the following documents as context to answer the question. If the documents don't contain relevant information, you can use your general knowledge, but prioritize the document context."

  /** `f"Document {n} ({source}): {content}"` */
  function DocumentBlock(n: nat, r: SearchResult): string
  {
    "Document " + NatToString(n) + " (" + r.source + "): " + r.content
  }

  /** The blocks of the context, numbered from 1 in result order. */
  function DocumentBlocks(results: seq<SearchResult>): seq<string>
  {
    seq(|results|, i requires 0 <= i < |results| => DocumentBlock(i + 1, results[i]))
  }

  const ContextHeader: string := Intro + "\n\nDocuments:\n"

  function QuestionTail(query: string): string
  {
    "\n\nQuestion: " + query + "\n\nAnswer:"
  }

  /** `context`: the numbered blocks joined by blank lines. */
  function Context(results: seq<SearchResult>): string
  {
    Join(DocumentBlocks(results), "\n\n")
  }

  /** The prompt for the language model: a fixed general-knowledge prompt
      without results, otherwise the instructions, the context and the
      question. */
  function CreateContextPrompt(query: string, results: seq<SearchResult>): (r: string)
    ensures results == [] ==> IsInfixAt(r, query, |"Question: "|)
    ensures results != [] ==> IsSuffix(QuestionTail(query), r)
  {
    if results == [] then "Question: " + query + "\n\nAnswer based on your general knowledge:"
    else ContextHeader + Context(results) + QuestionTail(query)
  }

  /** Without results the prompt is the fixed general-knowledge prompt
      around the question. */
  lemma NoResultsPrompt(query: string)
    ensures CreateContextPrompt(query, []) == "Question: " + query + "\n\nAnswer based on your general knowledge:"
  {
  }

  /** With results, the prompt is the instructions and the `Documents:`
      header, then the context, then the question and `Answer:`. */
  lemma PromptFramesContext(query: string, results: seq<SearchResult>)
    requires results != []
    ensures IsPrefix(ContextHeader, CreateContextPrompt(query, results))
    ensures IsInfixAt(CreateContextPrompt(query, results), Context(results), |ContextHeader|)
    ensures IsSuffix(QuestionTail(query), CreateContextPrompt(query, results))
    ensures |CreateContextPrompt(query, results)| == |ContextHeader| + |Context(results)| + |QuestionTail(query)|
  {
    var p := CreateContextPrompt(query, results);
    var context := Context(results);
    assert p == ContextHeader + context + QuestionTail(query);
    assert p[..|ContextHeader|] == ContextHeader;
    assert p[|ContextHeader|..|ContextHeader| + |context|] == context;
    assert p[|ContextHeader| + |context|..] == QuestionTail(query);
  }

  /** The context holds `Document k+1 (source): content` for the `k`th
      result; the blocks come in result order, each followed by a blank
      line except the last, which ends the context. */
  lemma ContextNumbersResults(results: seq<SearchResult>, k: nat)
    requires k < |results|
    ensures IsInfixAt(Context(results), DocumentBlock(k + 1, results[k]), JoinOffset(DocumentBlocks(results), "\n\n", k))
    ensures k + 1 < |results| ==>
              JoinOffset(DocumentBlocks(results), "\n\n", k + 1)
                == JoinOffset(DocumentBlocks(results), "\n\n", k) + |DocumentBlock(k + 1, results[k])| + 2
              && IsInfixAt(Context(results), "\n\n",
                           JoinOffset(DocumentBlocks(results), "\n\n", k) + |DocumentBlock(k + 1, results[k])|)
    ensures k + 1 == |results| ==>
              JoinOffset(DocumentBlocks(results), "\n\n", k) + |DocumentBlock(k + 1, results[k])| == |Context(results)|
  {
    JoinPlacesElements(DocumentBlocks(results), "\n\n", k);
  }

  // ---------------------------------------------------------------------
  // The corpus and the routes that change it

  /** A part `file` of an upload request: the name the client sent, the
      name secure_filename makes of it, and the body decoded as UTF-8. */
  datatype FileUpload = FileUpload(filename: string, secureName: string, content: string)

  /** A JSON reply of /upload: a success body, or an error with its status. */
  datatype UploadResponse =
    | Uploaded(message: string, totalDocuments: nat, embeddingsCreated: bool)
    | UploadRejected(status: nat, error: string)

  /** A JSON reply of /query; the answer the language model gives is not
      modelled, the prompt sent to it stands in its place. */
  datatype QueryResponse =
    | Answered(prompt: string, contextUsed: nat, sources: seq<string>)
    | QueryRejected(status: nat, error: string)

  /** The upload passes every check of upload_file. */
  predicate Accepted(file: Option<FileUpload>)
  {
    file.Some? && file.value.filename != "" && AllowedFile(file.value.filename)
  }

  function UploadMessage(count: nat, filename: string): string
  {
    "Successfully processed " + NatToString(count) + " document chunks from " + filename
  }

  /** The module-level `documents` and `index` of app.py. */
  class AppState {
    var documents: seq<Doc>
    var index: Option<FlatIndex>

    /** An index, once built, holds one vector per stored chunk. */
    ghost predicate Valid()
      reads this
    {
      index.Some? ==> documents != [] && index.value.ntotal == |documents|
    }

    constructor ()
      ensures Valid() && documents == [] && index == None
    {
      documents := [];
      index := None;
    }

    /** create_embeddings: reports false and changes nothing when no chunk
        is stored; otherwise rebuilds the index over all chunks. Between
        `documents.extend` and this call the index may cover only a prefix
        of the chunks, so only an empty corpus without index is required. */
    method CreateEmbeddings() returns (success: bool)
      requires index.Some? ==> documents != []
      modifies this
      ensures Valid() && documents == old(documents)
      ensures success <==> documents != []
      ensures index == if success then Some(FlatIndex(|documents|)) else old(index)
    {
      if documents == [] {
        return false;
      }
      index := Some(FlatIndex(|documents|));
      return true;
    }

    /** upload_file: the three rejections leave the corpus alone; an
        accepted file appends its chunks, tagged with the secured name, and
        the index is rebuilt over the whole corpus. */
    method UploadFile(file: Option<FileUpload>) returns (response: UploadResponse)
      requires Valid()
      modifies this
      ensures Valid()
      ensures file.None? ==> response == UploadRejected(400, "No file provided")
      ensures file.Some? && file.value.filename == "" ==> response == UploadRejected(400, "No file selected")
      ensures file.Some? && file.value.filename != "" && !AllowedFile(file.value.filename) ==>
                response == UploadRejected(400, "Invalid file type")
      ensures !Accepted(file) ==> documents == old(documents) && index == old(index)
      ensures Accepted(file) ==>
                var added := LoadDocuments(file.value.content, file.value.secureName);
                && documents == old(documents) + added
                && index == (if documents == [] then None else Some(FlatIndex(|documents|)))
                && response == Uploaded(UploadMessage(|added|, file.value.secureName), |documents|, documents != [])
    {
      if file.None? {
        return UploadRejected(400, "No file provided");
      }
      var f := file.value;
      if f.filename == "" {
        return UploadRejected(400, "No file selected");
      }
      if !AllowedFile(f.filename) {
        return UploadRejected(400, "Invalid file type");
      }
      var newDocs := LoadDocumentsFromText(f.content, f.secureName);
      var success := AppendDocuments(newDocs);
      response := Uploaded(UploadMessage(|newDocs|, f.secureName), |documents|, success);
    }

    /** `documents.extend(new_docs)` followed by create_embeddings. */
    method AppendDocuments(newDocs: seq<Doc>) returns (success: bool)
      requires Valid()
      modifies this
      ensures Valid() && documents == old(documents) + newDocs
      ensures success <==> documents != []
      ensures index == if success then Some(FlatIndex(|documents|)) else None
    {
      documents := documents + newDocs;
      success := CreateEmbeddings();
    }

    /** clear_documents */
    method ClearDocuments() returns (message: string)
      modifies this
      ensures Valid() && documents == [] && index == None
      ensures message == "All documents cleared"
    {
      documents := [];
      index := None;
      message := "All documents cleared";
    }

    /** search_documents over an answer row of `topK` hits, with its loop. */
    method Search(topK: nat, hits: seq<Hit>) returns (results: seq<SearchResult>)
      requires |hits| == topK
      ensures results == SearchDocuments(documents, index, hits)
      ensures |results| <= topK
    {
      if index.None? || documents == [] {
        return [];
      }
      results := [];
      var i := 0;
      while i < |hits|
        invariant 0 <= i <= |hits|
        invariant results == HitsToResults(documents, hits[..i])
      {
        var h := hits[i];
        assert hits[..i + 1][..i] == hits[..i];
        if 0 <= h.idx < |documents| {
          results := results + [ResultFor(documents, h)];
        }
        i := i + 1;
      }
      assert hits[..i] == hits;
    }

    /** The /query route: the question is required; the three best chunks
        go into the prompt, and the reply counts them and lists their
        sources in order. */
    method Query(question: Option<string>, hits: seq<Hit>) returns (response: QueryResponse)
      requires |hits| == QueryTopK
      ensures question.None? ==> response == QueryRejected(400, "No question provided")
      ensures question.Some? ==>
                var used := SearchDocuments(documents, index, hits);
                && response.Answered?
                && response.prompt == CreateContextPrompt(question.value, used)
                && response.contextUsed == |used| <= QueryTopK
                && |response.sources| == |used|
                && forall j :: 0 <= j < |used| ==> response.sources[j] == used[j].source
    {
      if question.None? {
        return QueryRejected(400, "No question provided");
      }
      var relevant := Search(QueryTopK, hits);
      var prompt := CreateContextPrompt(question.value, relevant);
      var sources := seq(|relevant|, j requires 0 <= j < |relevant| => relevant[j].source);
      return Answered(prompt, |relevant|, sources);
    }
  }
}
