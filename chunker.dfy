// The chunker of app.py (load_documents_from_text): blank-line paragraphs,
// stripped and non-empty, with paragraphs over 1000 characters re-split on
// sentence terminators and greedily re-packed into buffers.

module Chunker {
  import opened Text

  /** max_chunk_size */
  const MaxChunkSize: nat := 1000

  /** A chunk dictionary `{"content": ..., "source": ...}`. */
  datatype Doc = Doc(content: string, source: string)

  // ---------------------------------------------------------------------
  // re.split(r'\n\s*\n', text)

  /** Positions `i < k` hold newlines and everything strictly between them
      is whitespace: a blank-line boundary. */
  ghost predicate BlankLineAt(s: string, i: nat, k: nat)
  {
    i < k < |s| && s[i] == '\n' && s[k] == '\n' && forall m :: i < m < k ==> IsSpace(s[m])
  }

  ghost predicate HasBlankLine(s: string)
  {
    exists i: nat, k: nat :: BlankLineAt(s, i, k)
  }

  /** The last newline in `s[lo..hi]`, if any. */
  function LastNewline(s: string, lo: nat, hi: nat): (r: Option<nat>)
    requires lo <= hi <= |s|
    ensures r.Some? ==> lo <= r.value < hi && s[r.value] == '\n'
                        && forall m :: r.value < m < hi ==> s[m] != '\n'
    ensures r.None? ==> forall m :: lo <= m < hi ==> s[m] != '\n'
    decreases hi - lo
  {
    if hi == lo then None
    else if s[hi - 1] == '\n' then Some(hi - 1)
    else LastNewline(s, lo, hi - 1)
  }

  /** The end of the match of `\n\s*\n` that starts at `i`, if one does: the
      greedy `\s*` backs off to the last newline of the whitespace run. A
      match exists exactly when a blank-line boundary starts at `i`. */
  function BlankMatchEnd(s: string, i: nat): (r: Option<nat>)
    requires i < |s|
    ensures r.Some? ==> i + 2 <= r.value <= |s| && BlankLineAt(s, i, r.value - 1)
                        && forall m :: i <= m < r.value ==> IsSpace(s[m])
    ensures r.None? ==> forall k: nat :: !BlankLineAt(s, i, k)
  {
    if s[i] != '\n' then None
    else
      var end := SpanEnd(s, i + 1, IsSpace);
      match LastNewline(s, i + 1, end)
      case None => None
      case Some(k) => Some(k + 1)
  }

  /** The leftmost-first scan of re.split: `start` is where the current
      piece began, `i` the next position at which a match is tried. */
  function SplitFrom(s: string, start: nat, i: nat): (r: seq<string>)
    requires start <= i <= |s|
    ensures |r| >= 1
    decreases |s| - i
  {
    if i == |s| then [s[start..]]
    else match BlankMatchEnd(s, i)
      case Some(e) => [s[start..i]] + SplitFrom(s, e, e)
      case None => SplitFrom(s, start, i + 1)
  }

  /** Without a blank line in `s` the scan finds no match: one piece. */
  lemma {:induction false} SplitFromWithoutMatch(s: string, start: nat, i: nat)
    requires start <= i <= |s|
    ensures !HasBlankLine(s) ==> SplitFrom(s, start, i) == [s[start..]]
    decreases |s| - i
  {
    if i < |s| {
      SplitFromWithoutMatch(s, start, i + 1);
    }
  }

  /** re.split(r'\n\s*\n', text): always at least one piece, and the
      whole text when there is no blank line to match. */
  function SplitBlankLines(text: string): (r: seq<string>)
    ensures |r| >= 1
    ensures !HasBlankLine(text) ==> r == [text]
  {
    SplitFromWithoutMatch(text, 0, 0);
    assert text[0..] == text;
    SplitFrom(text, 0, 0)
  }

  /** A chunk as the chunker emits it: non-empty, no whitespace at either end. */
  predicate IsStripped(c: string)
  {
    c != [] && !IsSpace(c[0]) && !IsSpace(c[|c| - 1])
  }

  /** `[p.strip() for p in pieces if p.strip()]` */
  function StripAll(pieces: seq<string>): (r: seq<string>)
    ensures |r| <= |pieces|
  {
    if pieces == [] then []
    else
      var p := Strip(pieces[0]);
      (if p != [] then [p] else []) + StripAll(pieces[1..])
  }

  /** The paragraphs of `text` (app.py, the list `chunks` after line 43). */
  function Paragraphs(text: string): seq<string>
  {
    StripAll(SplitBlankLines(text))
  }

  // ---------------------------------------------------------------------
  // re.split(r'[.!?]+', chunk)

  predicate IsTerminator(c: char)
  {
    c == '.' || c == '!' || c == '?'
  }

  predicate IsSentenceChar(c: char)
  {
    !IsTerminator(c)
  }

  predicate NoTerminator(s: string)
  {
    forall i :: 0 <= i < |s| ==> !IsTerminator(s[i])
  }

  /** The pieces between maximal runs of `.`, `!` and `?`; never empty, and
      no piece holds a terminator. */
  function SplitSentences(s: string): (r: seq<string>)
    ensures |r| >= 1
    ensures forall j :: 0 <= j < |r| ==> NoTerminator(r[j])
    decreases |s|
  {
    var k := SpanEnd(s, 0, IsSentenceChar);
    if k == |s| then [s]
    else
      var e := SpanEnd(s, k, IsTerminator);
      [s[..k]] + SplitSentences(s[e..])
  }

  // ---------------------------------------------------------------------
  // The greedy re-packing (app.py:52-61) and the whole chunker

  /** The flush at app.py:57-58 and 60-61: a buffer is emitted, stripped,
      only when it is not empty. */
  function Flush(buffer: string): seq<string>
  {
    if buffer == [] then [] else [Strip(buffer)]
  }

  /** What the sentence loop emits for the remaining `sentences` when the
      running buffer holds `buffer`, including the final flush: at least one
      chunk when there is anything to pack, and at most one per sentence
      plus one for a pending buffer. */
  function Pack(sentences: seq<string>, buffer: string): (r: seq<string>)
    ensures sentences != [] || buffer != [] ==> |r| >= 1
    ensures |r| <= |sentences| + (if buffer == [] then 0 else 1)
    decreases |sentences|
  {
    if sentences == [] then Flush(buffer)
    else
      var s := sentences[0];
      if |buffer| + |s| < MaxChunkSize then Pack(sentences[1..], buffer + s + ". ")
      else Flush(buffer) + Pack(sentences[1..], s + ". ")
  }

  /** The chunks one stripped paragraph contributes: at least one. */
  function ChunkParagraph(p: string): (r: seq<string>)
    ensures |r| >= 1
  {
    if |p| > MaxChunkSize then Pack(SplitSentences(p), "") else [p]
  }

  /** The chunks of the paragraph loop: every paragraph yields at least one. */
  function ChunksOf(paragraphs: seq<string>): (r: seq<string>)
    ensures |r| >= |paragraphs|
  {
    if paragraphs == [] then [] else ChunkParagraph(paragraphs[0]) + ChunksOf(paragraphs[1..])
  }

  /** `final_chunks` as load_documents_from_text computes it. */
  function FinalChunks(text: string): seq<string>
  {
    ChunksOf(Paragraphs(text))
  }

  /** `[{"content": c, "source": source} for c in chunks]` */
  function Tag(chunks: seq<string>, source: string): (r: seq<Doc>)
    ensures |r| == |chunks|
    ensures forall k :: 0 <= k < |r| ==> r[k].content == chunks[k] && r[k].source == source
  {
    if chunks == [] then [] else [Doc(chunks[0], source)] + Tag(chunks[1..], source)
  }

  /** The value load_documents_from_text returns. */
  function LoadDocuments(text: string, filename: string): seq<Doc>
  {
    Tag(FinalChunks(text), filename)
  }

  lemma AppendAssoc<T>(a: seq<T>, b: seq<T>, c: seq<T>)
    ensures (a + b) + c == a + (b + c)
  {
  }

  /** One turn of the paragraph loop: the paragraph's chunks come next. */
  lemma ParagraphStep(done: seq<string>, chunks: seq<string>, i: nat)
    requires i < |chunks|
    ensures done + ChunksOf(chunks[i..]) == (done + ChunkParagraph(chunks[i])) + ChunksOf(chunks[i + 1..])
  {
    assert chunks[i..][0] == chunks[i] && chunks[i..][1..] == chunks[i + 1..];
    AppendAssoc(done, ChunkParagraph(chunks[i]), ChunksOf(chunks[i + 1..]));
  }

  /** A turn of the sentence loop that adds the sentence to the buffer. */
  lemma PackJoinStep(sentences: seq<string>, j: nat, buffer: string)
    requires j < |sentences| && |buffer| + |sentences[j]| < MaxChunkSize
    ensures Pack(sentences[j..], buffer) == Pack(sentences[j + 1..], buffer + sentences[j] + ". ")
  {
    assert sentences[j..][0] == sentences[j] && sentences[j..][1..] == sentences[j + 1..];
  }

  /** A turn of the sentence loop that flushes the buffer and restarts it
      with the sentence. */
  lemma PackFlushStep(emitted: seq<string>, sentences: seq<string>, j: nat, buffer: string)
    requires j < |sentences| && |buffer| + |sentences[j]| >= MaxChunkSize
    ensures emitted + Pack(sentences[j..], buffer)
              == (emitted + Flush(buffer)) + Pack(sentences[j + 1..], sentences[j] + ". ")
  {
    assert sentences[j..][0] == sentences[j] && sentences[j..][1..] == sentences[j + 1..];
    AppendAssoc(emitted, Flush(buffer), Pack(sentences[j + 1..], sentences[j] + ". "));
  }

  /** The sentence loop of load_documents_from_text for one paragraph:
      re-split on terminators and re-pack greedily. */
  method PackParagraph(chunk: string) returns (packed: seq<string>)
    ensures packed == Pack(SplitSentences(chunk), "")
  {
    var sentences := SplitSentences(chunk);
    packed := [];
    var current := "";
    var j := 0;
    assert sentences[j..] == sentences;
    while j < |sentences|
      invariant 0 <= j <= |sentences|
      invariant packed + Pack(sentences[j..], current) == Pack(sentences, "")
    {
      var sentence := sentences[j];
      if |current| + |sentence| < MaxChunkSize {
        PackJoinStep(sentences, j, current);
        current := current + sentence + ". ";
      } else {
        PackFlushStep(packed, sentences, j, current);
        packed := AppendFlushed(packed, current);
        current := sentence + ". ";
      }
      j := j + 1;
    }
    assert sentences[j..] == [];
    packed := AppendFlushed(packed, current);
  }

  /** `if current_chunk: final_chunks.append(current_chunk.strip())` */
  method AppendFlushed(emitted: seq<string>, buffer: string) returns (r: seq<string>)
    ensures r == emitted + Flush(buffer)
  {
    r := emitted;
    if buffer != "" {
      r := r + [Strip(buffer)];
    }
  }

  /** The paragraph loop of load_documents_from_text: a paragraph over
      1000 characters goes through the sentence loop, a shorter one is
      kept as it is. */
  method ChunkParagraphs(chunks: seq<string>) returns (finalChunks: seq<string>)
    ensures finalChunks == ChunksOf(chunks)
  {
    finalChunks := [];
    var i := 0;
    assert chunks[i..] == chunks;
    while i < |chunks|
      invariant 0 <= i <= |chunks|
      invariant finalChunks + ChunksOf(chunks[i..]) == ChunksOf(chunks)
    {
      var chunk := chunks[i];
      ParagraphStep(finalChunks, chunks, i);
      if |chunk| > MaxChunkSize {
        var packed := PackParagraph(chunk);
        finalChunks := finalChunks + packed;
      } else {
        finalChunks := finalChunks + [chunk];
      }
      i := i + 1;
    }
  }

  /** load_documents_from_text: the paragraphs, their chunks, and one
      dictionary per chunk. */
  method LoadDocumentsFromText(text: string, filename: string) returns (docs: seq<Doc>)
    ensures docs == LoadDocuments(text, filename)
  {
    var chunks := Paragraphs(text);
    var finalChunks := ChunkParagraphs(chunks);
    docs := Tag(finalChunks, filename);
  }
}
