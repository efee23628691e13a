// The SimpleRAG class of rag_system.py: its document store and index, the
// ranked search over an index answer, the context prompt and the choice
// of prompt in `query`.

module RagSystem {
  import opened Text
  import opened Chunker
  import opened Hits

  /** A document dictionary `{"content", "file", "path"}`. */
  datatype Document = Document(content: string, file: string, path: string)

  /** A search result `{"document", "score", "rank"}`. */
  datatype RankedResult = RankedResult(document: Document, score: real, rank: nat)

  /** A `.txt` file of the folder, as read: its path, its base name and its
      text decoded as UTF-8. */
  datatype TextFile = TextFile(path: string, name: string, content: string)

  // ---------------------------------------------------------------------
  // load_documents, after the files are read

  /** The document one file contributes: its stripped text, or nothing
      when that is empty. */
  function LoadedFrom(f: TextFile): (r: seq<Document>)
    ensures |r| <= 1
    ensures r != [] ==> IsStripped(r[0].content)
  {
    var content := Strip(f.content);
    if content != [] then [Document(content, f.name, f.path)] else []
  }

  /** The documents kept from `files`, in file order. */
  function LoadedDocuments(files: seq<TextFile>): (r: seq<Document>)
    ensures |r| <= |files|
    decreases |files|
  {
    if files == [] then []
    else
      var k := |files| - 1;
      LoadedDocuments(files[..k]) + LoadedFrom(files[k])
  }

  /** Every loaded document holds non-empty text with no whitespace at
      either end. */
  lemma {:induction false} LoadedDocumentsAreStripped(files: seq<TextFile>)
    ensures forall j :: 0 <= j < |LoadedDocuments(files)| ==> IsStripped(LoadedDocuments(files)[j].content)
    decreases |files|
  {
    if files != [] {
      var k := |files| - 1;
      var front: seq<Document>, last: seq<Document> := LoadedDocuments(files[..k]), LoadedFrom(files[k]);
      LoadedDocumentsAreStripped(files[..k]);
      assert LoadedDocuments(files) == front + last;
      forall j | 0 <= j < |front| + |last|
        ensures IsStripped((front + last)[j].content)
      {
        if j < |front| {
          assert (front + last)[j] == front[j];
        } else {
          assert (front + last)[j] == last[0];
        }
      }
    }
  }

  /** A file contributes a document exactly when its text is not all
      whitespace, and then the document is that text stripped. */
  lemma {:induction false} LoadedDocumentsOfOne(f: TextFile)
    ensures LoadedDocuments([f]) == if AllSpace(f.content) then [] else [Document(Strip(f.content), f.name, f.path)]
  {
    StripRemovesOnlySpace(f.content);
    assert [f][..0] == [];
  }

  /** Loading one more file appends what that file contributes. */
  lemma LoadedDocumentsSnoc(files: seq<TextFile>, f: TextFile)
    ensures LoadedDocuments(files + [f]) == LoadedDocuments(files) + LoadedFrom(f)
  {
    assert (files + [f])[..|files|] == files;
  }

  /** One turn of the loading loop, after `loaded` documents were there. */
  lemma LoadStep(loaded: seq<Document>, files: seq<TextFile>, i: nat)
    requires i < |files|
    ensures loaded + LoadedDocuments(files[..i]) + LoadedFrom(files[i]) == loaded + LoadedDocuments(files[..i + 1])
  {
    assert files[..i + 1] == files[..i] + [files[i]];
    LoadedDocumentsSnoc(files[..i], files[i]);
    AppendAssoc(loaded, LoadedDocuments(files[..i]), LoadedFrom(files[i]));
  }

  /** Loading two batches of files is loading them one after the other. */
  lemma {:induction false} LoadedDocumentsAppend(xs: seq<TextFile>, ys: seq<TextFile>)
    ensures LoadedDocuments(xs + ys) == LoadedDocuments(xs) + LoadedDocuments(ys)
    decreases |ys|
  {
    if ys == [] {
      assert xs + ys == xs;
    } else {
      var k := |ys| - 1;
      var front, f := ys[..k], ys[k];
      assert ys == front + [f];
      assert xs + ys == (xs + front) + [f];
      LoadedDocumentsSnoc(xs + front, f);
      LoadedDocumentsSnoc(front, f);
      LoadedDocumentsAppend(xs, front);
      AppendAssoc(LoadedDocuments(xs), LoadedDocuments(front), LoadedFrom(f));
    }
  }

  // ---------------------------------------------------------------------
  // search: from hits back to documents, with ranks

  function RankedFor(documents: seq<Document>, hits: seq<Hit>, i: nat): RankedResult
    requires i < |hits| && 0 <= hits[i].idx < |documents|
  {
    RankedResult(documents[hits[i].idx], hits[i].score, i + 1)
  }

  /** The results built from an answer row, keeping the hits that name a
      stored document (the guard `0 <= idx < len(self.documents)`); a result's
      rank is its hit's position plus one. */
  function RankedResults(documents: seq<Document>, hits: seq<Hit>): (r: seq<RankedResult>)
    ensures |r| <= |hits|
    decreases |hits|
  {
    if hits == [] then []
    else
      var k := |hits| - 1;
      RankedResults(documents, hits[..k])
        + (if Names(hits[k], |documents|) then [RankedFor(documents, hits, k)] else [])
  }

  /** The results are exactly the kept hits, in hit order: result `j` is the
      document its hit names, with the hit's score, ranked by the hit's
      position; so ranks lie in 1..top_k and strictly increase. */
  lemma {:induction false} RankedResultsFollowHits(documents: seq<Document>, hits: seq<Hit>)
    ensures |RankedResults(documents, hits)| == |KeptPositions(hits, |documents|)|
    ensures forall j :: 0 <= j < |KeptPositions(hits, |documents|)| ==>
              RankedResults(documents, hits)[j] == RankedFor(documents, hits, KeptPositions(hits, |documents|)[j])
    ensures forall j :: 0 <= j < |RankedResults(documents, hits)| ==>
              1 <= RankedResults(documents, hits)[j].rank <= |hits|
    ensures forall j, j' :: 0 <= j < j' < |RankedResults(documents, hits)| ==>
              RankedResults(documents, hits)[j].rank < RankedResults(documents, hits)[j'].rank
    decreases |hits|
  {
    if hits != [] {
      var k := |hits| - 1;
      RankedResultsFollowHits(documents, hits[..k]);
      var front := KeptPositions(hits[..k], |documents|);
      assert forall j :: 0 <= j < |front| ==> hits[..k][front[j]] == hits[front[j]];
      assert forall j :: 0 <= j < |front| ==>
               RankedFor(documents, hits[..k], front[j]) == RankedFor(documents, hits, front[j]);
    }
  }

  /** The loop of `search` as written: the guard `idx < len(self.documents)`
      is only an upper bound, and a negative index reaches Python's
      negative indexing. FAISS's only negative index is -1. */
  function RankedResultsAsWritten(documents: seq<Document>, hits: seq<Hit>): (r: seq<RankedResult>)
    requires forall h :: h in hits ==> -1 <= h.idx
    requires hits != [] ==> documents != []
    ensures |r| <= |hits|
    decreases |hits|
  {
    if hits == [] then []
    else
      var k := |hits| - 1;
      var h := hits[k];
      RankedResultsAsWritten(documents, hits[..k])
        + (if h.idx < |documents| then [RankedResult(PyIndex(documents, h.idx), h.score, k + 1)] else [])
  }

  /** The padding row FAISS returns when fewer documents are indexed than
      asked for passes the guard as written and ranks the last document a
      second time; the corrected guard drops it. */
  lemma SentinelRanksLastDocumentTwice(documents: seq<Document>, hits: seq<Hit>, score: real)
    requires documents != []
    requires forall h :: h in hits ==> -1 <= h.idx
    ensures RankedResultsAsWritten(documents, hits + [Hit(score, -1)])
              == RankedResultsAsWritten(documents, hits)
                 + [RankedResult(documents[|documents| - 1], score, |hits| + 1)]
    ensures RankedResults(documents, hits + [Hit(score, -1)]) == RankedResults(documents, hits)
  {
    var padded := hits + [Hit(score, -1)];
    assert padded[..|hits|] == hits && padded[|hits|] == Hit(score, -1);
  }

  /** On a row without padding, where every idx is a real position, the
      guard as written and the corrected guard keep the same hits. */
  lemma {:induction false} AsWrittenAgreesWithoutPadding(documents: seq<Document>, hits: seq<Hit>)
    requires forall h :: h in hits ==> 0 <= h.idx
    requires hits != [] ==> documents != []
    ensures RankedResultsAsWritten(documents, hits) == RankedResults(documents, hits)
    decreases |hits|
  {
    if hits != [] {
      var k := |hits| - 1;
      assert forall h :: h in hits[..k] ==> h in hits;
      AsWrittenAgreesWithoutPadding(documents, hits[..k]);
      assert hits[k] in hits;
    }
  }

  /** `search`: nothing without an index; otherwise one result per hit
      that names a stored document, in hit order, with its score and the
      hit's position plus one as rank. */
  function SearchResults(documents: seq<Document>, index: Option<FlatIndex>, hits: seq<Hit>): (r: seq<RankedResult>)
    ensures index.None? ==> r == []
    ensures index.Some? ==>
              |r| == |KeptPositions(hits, |documents|)|
              && forall j :: 0 <= j < |r| ==> r[j] == RankedFor(documents, hits, KeptPositions(hits, |documents|)[j])
  {
    if index.None? then []
    else if documents == [] then
      NothingKeptOfNone(hits);
      []
    else
      RankedResultsFollowHits(documents, hits);
      RankedResults(documents, hits)
  }

  // ---------------------------------------------------------------------
  // create_context_prompt

  const Intro: string := "You are a helpful assistant with access to specific documents. Use the following context to answer the question, but you can also use your general knowledge when appropriate."

  const Closing: string := "Please provide a comprehensive answer using the context above when relevant, but feel free to use your general knowledge when the context doesn't fully address the question or when you need to provide additional insights."

  const ContextHeader: string := Intro + "\n\nContext from documents:\n"

  function QuestionTail(query: string): string
  {
    "\n\nQuestion: " + query + "\n\n" + Closing
  }

  /** `f"From file '{doc['file']}':\n{doc['content']}\n"` */
  function ContextPart(d: Document): string
  {
    "From file '" + d.file + "':\n" + d.content + "\n"
  }

  /** One context part per result, in result order. */
  function ContextParts(results: seq<RankedResult>): seq<string>
  {
    seq(|results|, i requires 0 <= i < |results| => ContextPart(results[i].document))
  }

  /** `context`: the parts joined by newlines. */
  function Context(results: seq<RankedResult>): string
  {
    Join(ContextParts(results), "\n")
  }

  /** The prompt for the language model: a fixed general-knowledge prompt
      without results, otherwise the instructions, the context, the
      question and the closing request. */
  function CreateContextPrompt(query: string, results: seq<RankedResult>): (r: string)
    ensures results == [] ==> IsInfixAt(r, query, |"Question: "|)
    ensures results != [] ==> IsSuffix(QuestionTail(query), r)
  {
    if results == [] then "Question: " + query + "\n\nPlease answer based on your general knowledge."
    else ContextHeader + Context(results) + QuestionTail(query)
  }

  /** Without results the prompt is the fixed general-knowledge prompt
      around the question. */
  lemma NoResultsPrompt(query: string)
    ensures CreateContextPrompt(query, []) == "Question: " + query + "\n\nPlease answer based on your general knowledge."
  {
  }

  /** With results, the prompt is the instructions and the
      `Context from documents:` header, then the context, then the
      question and the closing request. */
  lemma PromptFramesContext(query: string, results: seq<RankedResult>)
    requires results != []
    ensures IsPrefix(ContextHeader, CreateContextPrompt(query, results))
    ensures IsInfixAt(CreateContextPrompt(query, results), Context(results), |ContextHeader|)
    ensures IsSuffix(QuestionTail(query), CreateContextPrompt(query, results))
    ensures |CreateContextPrompt(query, results)| == |ContextHeader| + |Context(results)| + |QuestionTail(query)|
  {
    var p := CreateContextPrompt(query, results);
    var context := Context(results);
    assert p == ContextHeader + context + QuestionTail(query);
    assert p[..|ContextHeader|] == ContextHeader;
    assert p[|ContextHeader|..|ContextHeader| + |context|] == context;
    assert p[|ContextHeader| + |context|..] == QuestionTail(query);
  }

  /** The context holds the part of the `k`th result's document; the parts
      come in result order, each followed by one newline except the last,
      which ends the context. */
  lemma ContextListsResults(results: seq<RankedResult>, k: nat)
    requires k < |results|
    ensures IsInfixAt(Context(results), ContextPart(results[k].document), JoinOffset(ContextParts(results), "\n", k))
    ensures k + 1 < |results| ==>
              JoinOffset(ContextParts(results), "\n", k + 1)
                == JoinOffset(ContextParts(results), "\n", k) + |ContextPart(results[k].document)| + 1
              && IsInfixAt(Context(results), "\n",
                           JoinOffset(ContextParts(results), "\n", k) + |ContextPart(results[k].document)|)
    ensures k + 1 == |results| ==>
              JoinOffset(ContextParts(results), "\n", k) + |ContextPart(results[k].document)| == |Context(results)|
  {
    JoinPlacesElements(ContextParts(results), "\n", k);
  }

  // ---------------------------------------------------------------------
  // The SimpleRAG object

  lemma EmptyPrefix(docs: seq<Document>)
    ensures [] + docs == docs
  {
  }

  /** SimpleRAG's `documents` and `index` (the `embeddings` it also keeps
      are the vectors of the index and are folded into it). */
  class SimpleRag {
    var documents: seq<Document>
    var index: Option<FlatIndex>

    /** An index, once built, holds one vector for each of the first
        `ntotal` documents, and at least one. */
    ghost predicate Valid()
      reads this
    {
      index.Some? ==> 0 < index.value.ntotal <= |documents|
    }

    /** `__init__`: load the folder's files, then build the index. */
    constructor (files: seq<TextFile>)
      ensures Valid()
      ensures documents == LoadedDocuments(files)
      ensures index == if documents == [] then None else Some(FlatIndex(|documents|))
    {
      documents := [];
      index := None;
      new;
      LoadDocuments(files);
      EmptyPrefix(LoadedDocuments(files));
      CreateIndex();
    }

    /** load_documents over the files read from the folder, appending in
        file order. */
    method LoadDocuments(files: seq<TextFile>)
      requires Valid()
      modifies this
      ensures Valid()
      ensures documents == old(documents) + LoadedDocuments(files) && index == old(index)
    {
      var i := 0;
      while i < |files|
        invariant 0 <= i <= |files|
        invariant documents == old(documents) + LoadedDocuments(files[..i])
        invariant index == old(index)
        invariant Valid()
      {
        LoadStep(old(documents), files, i);
        LoadFile(files[i]);
        i := i + 1;
      }
      assert files[..i] == files;
    }

    /** One turn of load_documents' loop: the file's text is stripped and
        kept as a document when something is left. */
    method LoadFile(f: TextFile)
      requires Valid()
      modifies this
      ensures Valid()
      ensures documents == old(documents) + LoadedFrom(f) && index == old(index)
    {
      var content := Strip(f.content);
      if content != [] {
        documents := documents + [Document(content, f.name, f.path)];
      }
    }

    /** create_index: changes nothing without documents, otherwise indexes
        all of them. */
    method CreateIndex()
      requires Valid()
      modifies this
      ensures Valid() && documents == old(documents)
      ensures index == if documents == [] then old(index) else Some(FlatIndex(|documents|))
    {
      if documents == [] {
        return;
      }
      index := Some(FlatIndex(|documents|));
    }

    /** search over an answer row of `topK` hits, with its loop. */
    method Search(topK: nat, hits: seq<Hit>) returns (results: seq<RankedResult>)
      requires |hits| == topK
      ensures results == SearchResults(documents, index, hits)
      ensures |results| <= topK
    {
      if index.None? || documents == [] {
        return [];
      }
      results := [];
      var i := 0;
      while i < |hits|
        invariant 0 <= i <= |hits|
        invariant results == RankedResults(documents, hits[..i])
      {
        var h := hits[i];
        assert hits[..i + 1][..i] == hits[..i];
        if 0 <= h.idx < |documents| {
          assert RankedFor(documents, hits[..i + 1], i) == RankedResult(documents[h.idx], h.score, i + 1);
          results := results + [RankedResult(documents[h.idx], h.score, i + 1)];
        }
        i := i + 1;
      }
      assert hits[..i] == hits;
    }

    /** The prompt `query` sends to the language model, and the results it
        used: the question alone without context and with no search;
        otherwise the context prompt over the search results. */
    method Query(question: string, useContext: bool, topK: nat, hits: seq<Hit>)
      returns (prompt: string, used: seq<RankedResult>)
      requires |hits| == topK
      ensures useContext ==>
                used == SearchResults(documents, index, hits) && prompt == CreateContextPrompt(question, used)
      ensures !useContext ==> used == [] && prompt == question
    {
      if useContext {
        used := Search(topK, hits);
        prompt := CreateContextPrompt(question, used);
      } else {
        used := [];
        prompt := question;
      }
    }
  }
}
