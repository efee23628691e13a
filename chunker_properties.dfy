// What load_documents_from_text guarantees about the chunks it returns.

module ChunkerProperties {
  import opened Text
  import opened Chunker

  // ---------------------------------------------------------------------
  // Filters: which characters a step of the chunker may drop.

  /** The characters of `s` that satisfy `p`, in order. */
  function Keep(s: string, p: char -> bool): string
  {
    if s == [] then [] else (if p(s[0]) then [s[0]] else []) + Keep(s[1..], p)
  }

  /** `p` keeps no whitespace character. */
  predicate DropsSpace(p: char -> bool)
  {
    forall c :: IsSpace(c) ==> !p(c)
  }

  /** `p` keeps no sentence terminator. */
  predicate DropsTerminators(p: char -> bool)
  {
    forall c :: IsTerminator(c) ==> !p(c)
  }

  predicate IsWordChar(c: char)
  {
    !IsSpace(c) && !IsTerminator(c)
  }

  /** The word characters of `s` (neither whitespace nor terminators), in
      order. */
  function Words(s: string): string
  {
    Keep(s, IsWordChar)
  }

  lemma {:induction false} KeepAppend(a: string, b: string, p: char -> bool)
    ensures Keep(a + b, p) == Keep(a, p) + Keep(b, p)
  {
    if a == [] {
      assert a + b == b;
    } else {
      var head := if p(a[0]) then [a[0]] else [];
      assert (a + b)[0] == a[0] && (a + b)[1..] == a[1..] + b;
      calc {
        Keep(a + b, p);
        head + Keep(a[1..] + b, p);
        { KeepAppend(a[1..], b, p); }
        head + (Keep(a[1..], p) + Keep(b, p));
        { AppendAssoc(head, Keep(a[1..], p), Keep(b, p)); }
        Keep(a, p) + Keep(b, p);
      }
    }
  }

  lemma {:induction false} KeepNone(s: string, p: char -> bool)
    requires forall i :: 0 <= i < |s| ==> !p(s[i])
    ensures Keep(s, p) == []
  {
    if s != [] {
      KeepNone(s[1..], p);
    }
  }

  lemma {:induction false} KeepAll(s: string, p: char -> bool)
    requires forall i :: 0 <= i < |s| ==> p(s[i])
    ensures Keep(s, p) == s
  {
    if s != [] {
      KeepAll(s[1..], p);
      assert s == [s[0]] + s[1..];
    }
  }

  lemma WordsAppend(a: string, b: string)
    ensures Words(a + b) == Words(a) + Words(b)
  {
    KeepAppend(a, b, IsWordChar);
  }

  lemma ConcatSingle(x: string)
    ensures Concat([x]) == x
  {
    assert [x][1..] == [];
  }

  lemma ConcatCons(x: string, ys: seq<string>)
    ensures Concat([x] + ys) == x + Concat(ys)
  {
    assert ([x] + ys)[0] == x && ([x] + ys)[1..] == ys;
  }

  /** str.strip() drops nothing but whitespace. */
  lemma StripKeeps(s: string, p: char -> bool)
    requires DropsSpace(p)
    ensures Keep(Strip(s), p) == Keep(s, p)
  {
    var a := StripStart(s);
    var r := Strip(s);
    StripRemovesOnlySpace(s);
    assert s == s[..a] + r + s[a + |r|..];
    KeepAppend(s[..a] + r, s[a + |r|..], p);
    KeepAppend(s[..a], r, p);
    KeepNone(s[..a], p);
    KeepNone(s[a + |r|..], p);
  }

  lemma {:induction false} StripAllKeeps(pieces: seq<string>, p: char -> bool)
    requires DropsSpace(p)
    ensures Keep(Concat(StripAll(pieces)), p) == Keep(Concat(pieces), p)
  {
    if pieces != [] {
      var x := Strip(pieces[0]);
      var head: seq<string> := if x != [] then [x] else [];
      var rest := StripAll(pieces[1..]);
      assert StripAll(pieces) == head + rest;
      calc {
        Keep(Concat(StripAll(pieces)), p);
        Keep(Concat(head + rest), p);
        { ConcatAppend(head, rest); }
        Keep(Concat(head) + Concat(rest), p);
        { KeepAppend(Concat(head), Concat(rest), p); }
        Keep(Concat(head), p) + Keep(Concat(rest), p);
        { StripKeeps(pieces[0], p);
          if x != [] { ConcatSingle(x); }
          StripAllKeeps(pieces[1..], p); }
        Keep(pieces[0], p) + Keep(Concat(pieces[1..]), p);
        { KeepAppend(pieces[0], Concat(pieces[1..]), p); }
        Keep(Concat(pieces), p);
      }
    }
  }

  /** Removing separators that `p` drops keeps what `p` keeps. */
  lemma {:induction false} InterleaveKeep(pieces: seq<string>, seps: seq<string>, p: char -> bool)
    requires |pieces| == |seps| + 1
    requires forall j :: 0 <= j < |seps| ==> Keep(seps[j], p) == []
    ensures Keep(Interleave(pieces, seps), p) == Keep(Concat(pieces), p)
    decreases |seps|
  {
    if seps == [] {
      ConcatSingle(pieces[0]);
      assert pieces == [pieces[0]];
    } else {
      var x, rest := pieces[0], Interleave(pieces[1..], seps[1..]);
      InterleaveKeep(pieces[1..], seps[1..], p);
      KeepAppend(x + seps[0], rest, p);
      KeepAppend(x, seps[0], p);
      ConcatCons(x, pieces[1..]);
      assert pieces == [x] + pieces[1..];
      KeepAppend(x, Concat(pieces[1..]), p);
    }
  }

  // ---------------------------------------------------------------------
  // re.split(r'\n\s*\n'), read back

  /** A match of `\n\s*\n`: a newline, whitespace, a newline. */
  predicate IsBlankSeparator(m: string)
  {
    |m| >= 2 && m[0] == '\n' && m[|m| - 1] == '\n' && AllSpace(m)
  }

  /** The whitespace `x` ends with holds no newline. */
  predicate TrailingSpaceHasNoNewline(x: string)
  {
    forall m :: |TrimEnd(x)| <= m < |x| ==> x[m] != '\n'
  }

  /** The whitespace `x` starts with holds no newline. */
  predicate LeadingSpaceHasNoNewline(x: string)
  {
    forall m :: 0 <= m < |x| - |TrimStart(x)| ==> x[m] != '\n'
  }

  /** No newline in the whitespace run that starts at `e`. */
  ghost predicate NoNewlineInSpaceFrom(s: string, e: nat)
    requires e <= |s|
  {
    forall m :: e <= m < SpanEnd(s, e, IsSpace) ==> s[m] != '\n'
  }

  /** The separators the blank-line split removes, in order, when the scan
      is at `i`. */
  function BlankSeparatorsFrom(s: string, i: nat): seq<string>
    requires i <= |s|
    decreases |s| - i
  {
    if i == |s| then []
    else match BlankMatchEnd(s, i)
      case Some(e) => [s[i..e]] + BlankSeparatorsFrom(s, e)
      case None => BlankSeparatorsFrom(s, i + 1)
  }

  function BlankSeparators(text: string): seq<string>
  {
    BlankSeparatorsFrom(text, 0)
  }

  /** The greedy `\s*`: after the end of a match, the whitespace run holds
      no further newline. */
  lemma BlankMatchIsGreedy(s: string, i: nat)
    requires i < |s| && BlankMatchEnd(s, i).Some?
    ensures NoNewlineInSpaceFrom(s, BlankMatchEnd(s, i).value)
  {
    var end := SpanEnd(s, i + 1, IsSpace);
    var e := BlankMatchEnd(s, i).value;
    SpanEndIs(s, e, end, IsSpace);
  }

  /** The pieces with the removed separators between them are the text. */
  lemma {:induction false} SplitFromInterleaves(s: string, start: nat, i: nat)
    requires start <= i <= |s|
    ensures |SplitFrom(s, start, i)| == |BlankSeparatorsFrom(s, i)| + 1
    ensures Interleave(SplitFrom(s, start, i), BlankSeparatorsFrom(s, i)) == s[start..]
    decreases |s| - i
  {
    if i < |s| {
      match BlankMatchEnd(s, i)
      case Some(e) =>
        SplitFromInterleaves(s, e, e);
        InterleaveCons(s[start..i], s[i..e], SplitFrom(s, e, e), BlankSeparatorsFrom(s, e));
        SliceThree(s, start, i, e);
      case None =>
        SplitFromInterleaves(s, start, i + 1);
    }
  }

  lemma {:induction false} SeparatorsAreBlank(s: string, i: nat)
    requires i <= |s|
    ensures forall j :: 0 <= j < |BlankSeparatorsFrom(s, i)| ==> IsBlankSeparator(BlankSeparatorsFrom(s, i)[j])
    decreases |s| - i
  {
    if i < |s| {
      match BlankMatchEnd(s, i)
      case Some(e) =>
        SeparatorsAreBlank(s, e);
        var m := s[i..e];
        assert m[0] == s[i] && m[|m| - 1] == s[e - 1];
        assert forall q :: 0 <= q < |m| ==> m[q] == s[i + q];
      case None =>
        SeparatorsAreBlank(s, i + 1);
    }
  }

  /** A piece cut off at a match at `i`, when no match starts in it, has no
      newline in its trailing whitespace: otherwise a match would start
      there, before `i`. */
  lemma PieceBeforeMatch(s: string, start: nat, i: nat)
    requires start <= i < |s| && BlankMatchEnd(s, i).Some?
    requires forall q :: start <= q < i ==> BlankMatchEnd(s, q).None?
    ensures TrailingSpaceHasNoNewline(s[start..i])
  {
    var x := s[start..i];
    TrimEndRemovesSpace(x);
    forall m | |TrimEnd(x)| <= m < |x|
      ensures x[m] != '\n'
    {
      forall q | start + m < q < i
        ensures IsSpace(s[q])
      {
        assert s[q] == x[|TrimEnd(x)|..][q - start - |TrimEnd(x)|];
      }
      assert s[start + m] == x[m] && s[i] == '\n';
      NoMatchMeansNoBlankLine(s, start + m, i);
    }
  }

  lemma {:induction false} SplitFromLeftmost(s: string, start: nat, i: nat)
    requires start <= i <= |s|
    requires forall q :: start <= q < i ==> BlankMatchEnd(s, q).None?
    ensures forall j :: 0 <= j < |SplitFrom(s, start, i)| - 1 ==> TrailingSpaceHasNoNewline(SplitFrom(s, start, i)[j])
    decreases |s| - i
  {
    if i < |s| {
      match BlankMatchEnd(s, i)
      case Some(e) =>
        PieceBeforeMatch(s, start, i);
        SplitFromLeftmost(s, e, e);
      case None =>
        SplitFromLeftmost(s, start, i + 1);
    }
  }

  /** All of `s[lo..hi]` is whitespace, so the run from `lo` reaches past `hi - 1`. */
  lemma SpaceRunReaches(s: string, lo: nat, hi: nat)
    requires lo < hi <= |s| && forall q :: lo <= q < hi ==> IsSpace(s[q])
    ensures hi <= SpanEnd(s, lo, IsSpace)
  {
  }

  /** The first piece after a greedy match end. */
  lemma {:induction false} PieceAfterMatch(s: string, start: nat, i: nat)
    requires start <= i <= |s| && NoNewlineInSpaceFrom(s, start)
    ensures LeadingSpaceHasNoNewline(SplitFrom(s, start, i)[0])
    ensures |SplitFrom(s, start, i)| > 1 ==> !AllSpace(SplitFrom(s, start, i)[0])
    decreases |s| - i
  {
    if i == |s| {
      LeadingPiece(s, start, |s|);
      assert s[start..|s|] == s[start..];
    } else {
      match BlankMatchEnd(s, i)
      case Some(e) =>
        LeadingPiece(s, start, i);
        PieceBeforeNewlineNotSpace(s, start, i);
      case None =>
        PieceAfterMatch(s, start, i + 1);
    }
  }

  /** When the whitespace run from `start` holds no newline, the text
      before a later newline is not all whitespace: the run stops first. */
  lemma PieceBeforeNewlineNotSpace(s: string, start: nat, i: nat)
    requires start <= i < |s| && s[i] == '\n' && NoNewlineInSpaceFrom(s, start)
    ensures !AllSpace(s[start..i])
  {
    var end := SpanEnd(s, start, IsSpace);
    assert end < i;
    assert s[start..i][end - start] == s[end];
  }

  lemma LeadingPiece(s: string, start: nat, end: nat)
    requires start <= end <= |s| && NoNewlineInSpaceFrom(s, start)
    ensures LeadingSpaceHasNoNewline(s[start..end])
  {
    var x := s[start..end];
    TrimStartRemovesSpace(x);
    forall m | 0 <= m < |x| - |TrimStart(x)|
      ensures x[m] != '\n'
    {
      forall q | start <= q < start + m + 1
        ensures IsSpace(s[q])
      {
        assert s[q] == x[..|x| - |TrimStart(x)|][q - start];
      }
      SpaceRunReaches(s, start, start + m + 1);
    }
  }

  lemma {:induction false} SplitFromGreedy(s: string, start: nat, i: nat)
    requires start <= i <= |s|
    ensures forall j :: 1 <= j < |SplitFrom(s, start, i)| ==>
              LeadingSpaceHasNoNewline(SplitFrom(s, start, i)[j])
              && (j + 1 < |SplitFrom(s, start, i)| ==> !AllSpace(SplitFrom(s, start, i)[j]))
    decreases |s| - i
  {
    if i < |s| {
      match BlankMatchEnd(s, i)
      case Some(e) =>
        BlankMatchIsGreedy(s, i);
        PieceAfterMatch(s, e, e);
        SplitFromGreedy(s, e, e);
      case None =>
        SplitFromGreedy(s, start, i + 1);
    }
  }

  /** re.split(r'\n\s*\n', text), read back. The pieces with the removed
      separators between them are the text, and each separator is a match:
      a newline, whitespace, a newline. The match taken is the leftmost:
      no piece holds a blank line, and no piece that a separator follows
      has a newline in its trailing whitespace. The match is the longest:
      no piece after a separator has a newline in its leading whitespace,
      and none between two separators is all whitespace. */
  lemma SplitBlankLinesRoundTrip(text: string)
    ensures |SplitBlankLines(text)| == |BlankSeparators(text)| + 1
    ensures Interleave(SplitBlankLines(text), BlankSeparators(text)) == text
    ensures forall j :: 0 <= j < |BlankSeparators(text)| ==> IsBlankSeparator(BlankSeparators(text)[j])
    ensures forall j :: 0 <= j < |SplitBlankLines(text)| ==> !HasBlankLine(SplitBlankLines(text)[j])
    ensures forall j :: 0 <= j < |SplitBlankLines(text)| - 1 ==> TrailingSpaceHasNoNewline(SplitBlankLines(text)[j])
    ensures forall j :: 1 <= j < |SplitBlankLines(text)| ==>
              LeadingSpaceHasNoNewline(SplitBlankLines(text)[j])
              && (j + 1 < |SplitBlankLines(text)| ==> !AllSpace(SplitBlankLines(text)[j]))
  {
    SplitFromInterleaves(text, 0, 0);
    assert text[0..] == text;
    SeparatorsAreBlank(text, 0);
    SplitFromPiecesHaveNoBlankLine(text, 0, 0);
    SplitFromLeftmost(text, 0, 0);
    SplitFromGreedy(text, 0, 0);
  }

  /** The paragraphs hold exactly the characters of the text that any class
      without whitespace keeps, in order: the split and the strip drop only
      whitespace. */
  lemma ParagraphsKeep(text: string, p: char -> bool)
    requires DropsSpace(p)
    ensures Keep(Concat(Paragraphs(text)), p) == Keep(text, p)
  {
    var pieces, seps := SplitBlankLines(text), BlankSeparators(text);
    SplitBlankLinesRoundTrip(text);
    forall j | 0 <= j < |seps|
      ensures Keep(seps[j], p) == []
    {
      KeepNone(seps[j], p);
    }
    InterleaveKeep(pieces, seps, p);
    StripAllKeeps(pieces, p);
  }

  // ---------------------------------------------------------------------
  // re.split(r'[.!?]+'), read back

  predicate AllTerminators(t: string)
  {
    forall i :: 0 <= i < |t| ==> IsTerminator(t[i])
  }

  /** The runs of terminators the sentence split removes, in order. */
  function SentenceRuns(s: string): seq<string>
    decreases |s|
  {
    var k := SpanEnd(s, 0, IsSentenceChar);
    if k == |s| then []
    else
      var e := SpanEnd(s, k, IsTerminator);
      [s[k..e]] + SentenceRuns(s[e..])
  }

  lemma {:induction false} SentencesInterleave(s: string)
    ensures |SplitSentences(s)| == |SentenceRuns(s)| + 1
    ensures Interleave(SplitSentences(s), SentenceRuns(s)) == s
    decreases |s|
  {
    var k := SpanEnd(s, 0, IsSentenceChar);
    if k < |s| {
      var e := SpanEnd(s, k, IsTerminator);
      var t := s[e..];
      SentencesInterleave(t);
      SentencesStep(s);
      InterleaveCons(s[..k], s[k..e], SplitSentences(t), SentenceRuns(t));
      SliceThree(s, 0, k, e);
      assert s[0..] == s && s[0..k] == s[..k];
    }
  }

  /** One step of both splits: the leading piece, then the leading run. */
  lemma SentencesStep(s: string)
    requires SpanEnd(s, 0, IsSentenceChar) < |s|
    ensures var k := SpanEnd(s, 0, IsSentenceChar);
            var e := SpanEnd(s, k, IsTerminator);
            && SplitSentences(s) == [s[..k]] + SplitSentences(s[e..])
            && SentenceRuns(s) == [s[k..e]] + SentenceRuns(s[e..])
  {
  }

  lemma {:induction false} SentenceRunsAreTerminators(s: string)
    ensures forall j :: 0 <= j < |SentenceRuns(s)| ==> SentenceRuns(s)[j] != [] && AllTerminators(SentenceRuns(s)[j])
    decreases |s|
  {
    var k := SpanEnd(s, 0, IsSentenceChar);
    if k < |s| {
      var e := SpanEnd(s, k, IsTerminator);
      SentenceRunsAreTerminators(s[e..]);
      var run := s[k..e];
      assert SentenceRuns(s) == [run] + SentenceRuns(s[e..]);
      assert forall q :: 0 <= q < |run| ==> run[q] == s[k + q];
    }
  }

  lemma {:induction false} SentencesBetweenRunsNotEmpty(s: string)
    ensures |SplitSentences(s)| == |SentenceRuns(s)| + 1
    ensures forall j :: 0 < j < |SentenceRuns(s)| ==> SplitSentences(s)[j] != []
    decreases |s|
  {
    SentencesInterleave(s);
    var k := SpanEnd(s, 0, IsSentenceChar);
    if k < |s| {
      var e := SpanEnd(s, k, IsTerminator);
      var t := s[e..];
      SentencesBetweenRunsNotEmpty(t);
      assert SplitSentences(s)[1..] == SplitSentences(t);
      assert SentenceRuns(s)[1..] == SentenceRuns(t);
      if SentenceRuns(t) != [] {
        assert t != [] && IsSentenceChar(t[0]);
        assert SplitSentences(t)[0] == t[..SpanEnd(t, 0, IsSentenceChar)];
      }
    }
  }

  /** re.split(r'[.!?]+', s), read back: the pieces with the removed runs
      between them are `s`; each run is a non-empty run of terminators; no
      piece holds a terminator (the contract of SplitSentences); and every
      piece between two runs is non-empty, so each run is maximal. */
  lemma SplitSentencesRoundTrip(s: string)
    ensures |SplitSentences(s)| == |SentenceRuns(s)| + 1
    ensures Interleave(SplitSentences(s), SentenceRuns(s)) == s
    ensures forall j :: 0 <= j < |SentenceRuns(s)| ==> SentenceRuns(s)[j] != [] && AllTerminators(SentenceRuns(s)[j])
    ensures forall j :: 0 < j < |SentenceRuns(s)| ==> SplitSentences(s)[j] != []
  {
    SentencesInterleave(s);
    SentenceRunsAreTerminators(s);
    SentencesBetweenRunsNotEmpty(s);
  }

  /** The sentence split drops only terminators: any class without them
      keeps the same characters of the pieces as of the paragraph. */
  lemma SentencesKeep(s: string, p: char -> bool)
    requires DropsTerminators(p)
    ensures Keep(Concat(SplitSentences(s)), p) == Keep(s, p)
  {
    var pieces, runs := SplitSentences(s), SentenceRuns(s);
    SplitSentencesRoundTrip(s);
    forall j | 0 <= j < |runs|
      ensures Keep(runs[j], p) == []
    {
      KeepNone(runs[j], p);
    }
    InterleaveKeep(pieces, runs, p);
  }

  lemma {:induction false} ConcatHasNoTerminator(pieces: seq<string>)
    requires forall j :: 0 <= j < |pieces| ==> NoTerminator(pieces[j])
    ensures NoTerminator(Concat(pieces))
  {
    if pieces != [] {
      ConcatHasNoTerminator(pieces[1..]);
      var x, rest := pieces[0], Concat(pieces[1..]);
      assert Concat(pieces) == x + rest;
      forall i | 0 <= i < |x| + |rest|
        ensures !IsTerminator((x + rest)[i])
      {
        if i >= |x| {
          assert (x + rest)[i] == rest[i - |x|];
        }
      }
    }
  }

  /** The pieces, read in order, are exactly the paragraph without its
      terminators. */
  lemma SentencesAreTheNonTerminators(s: string)
    ensures Concat(SplitSentences(s)) == Keep(s, IsSentenceChar)
  {
    SentencesKeep(s, IsSentenceChar);
    ConcatHasNoTerminator(SplitSentences(s));
    KeepAll(Concat(SplitSentences(s)), IsSentenceChar);
  }

  lemma FlushKeepsWords(buffer: string)
    ensures Words(Concat(Flush(buffer))) == Words(buffer)
  {
    if buffer != [] {
      ConcatSingle(Strip(buffer));
      StripKeeps(buffer, IsWordChar);
    }
  }

  lemma SentencesHeadWords(sentences: seq<string>)
    requires sentences != []
    ensures Words(Concat(sentences)) == Words(sentences[0]) + Words(Concat(sentences[1..]))
  {
    ConcatCons(sentences[0], sentences[1..]);
    assert sentences == [sentences[0]] + sentences[1..];
    WordsAppend(sentences[0], Concat(sentences[1..]));
  }

  lemma DotSpaceHasNoWords(x: string)
    ensures Words(x + ". ") == Words(x)
  {
    KeepNone(". ", IsWordChar);
    WordsAppend(x, ". ");
  }

  /** The step of the sentence loop that appends to the buffer. */
  lemma PackJoinWords(sentences: seq<string>, buffer: string)
    requires sentences != [] && |buffer| + |sentences[0]| < MaxChunkSize
    requires Words(Concat(Pack(sentences[1..], buffer + sentences[0] + ". ")))
               == Words(buffer + sentences[0] + ". ") + Words(Concat(sentences[1..]))
    ensures Words(Concat(Pack(sentences, buffer))) == Words(buffer) + Words(Concat(sentences))
  {
    var s0, rest := sentences[0], sentences[1..];
    calc {
      Words(Concat(Pack(sentences, buffer)));
      Words(Concat(Pack(rest, buffer + s0 + ". ")));
      Words(buffer + s0 + ". ") + Words(Concat(rest));
      { DotSpaceHasNoWords(buffer + s0); }
      Words(buffer + s0) + Words(Concat(rest));
      { WordsAppend(buffer, s0); }
      (Words(buffer) + Words(s0)) + Words(Concat(rest));
      { AppendAssoc(Words(buffer), Words(s0), Words(Concat(rest))); }
      Words(buffer) + (Words(s0) + Words(Concat(rest)));
      { SentencesHeadWords(sentences); }
      Words(buffer) + Words(Concat(sentences));
    }
  }

  /** The step of the sentence loop that flushes the buffer and starts a
      new one. */
  lemma PackFlushWords(sentences: seq<string>, buffer: string)
    requires sentences != [] && |buffer| + |sentences[0]| >= MaxChunkSize
    requires Words(Concat(Pack(sentences[1..], sentences[0] + ". ")))
               == Words(sentences[0] + ". ") + Words(Concat(sentences[1..]))
    ensures Words(Concat(Pack(sentences, buffer))) == Words(buffer) + Words(Concat(sentences))
  {
    var s0, rest := sentences[0], sentences[1..];
    var tail := Pack(rest, s0 + ". ");
    calc {
      Words(Concat(Pack(sentences, buffer)));
      Words(Concat(Flush(buffer) + tail));
      { ConcatAppend(Flush(buffer), tail); }
      Words(Concat(Flush(buffer)) + Concat(tail));
      { WordsAppend(Concat(Flush(buffer)), Concat(tail)); }
      Words(Concat(Flush(buffer))) + Words(Concat(tail));
      { FlushKeepsWords(buffer); DotSpaceHasNoWords(s0); }
      Words(buffer) + (Words(s0) + Words(Concat(rest)));
      { SentencesHeadWords(sentences); }
      Words(buffer) + Words(Concat(sentences));
    }
  }

  /** Packing keeps the word characters of the buffer and of every sentence:
      the `". "` it inserts and the terminators it drops are not words. */
  lemma {:induction false} PackKeepsWords(sentences: seq<string>, buffer: string)
    ensures Words(Concat(Pack(sentences, buffer))) == Words(buffer) + Words(Concat(sentences))
    decreases |sentences|
  {
    if sentences == [] {
      FlushKeepsWords(buffer);
    } else if |buffer| + |sentences[0]| < MaxChunkSize {
      PackKeepsWords(sentences[1..], buffer + sentences[0] + ". ");
      PackJoinWords(sentences, buffer);
    } else {
      PackKeepsWords(sentences[1..], sentences[0] + ". ");
      PackFlushWords(sentences, buffer);
    }
  }

  lemma ChunkParagraphKeepsWords(p: string)
    ensures Words(Concat(ChunkParagraph(p))) == Words(p)
  {
    if |p| > MaxChunkSize {
      var sentences := SplitSentences(p);
      assert ChunkParagraph(p) == Pack(sentences, "");
      PackKeepsWords(sentences, "");
      assert Words("") == [];
      assert DropsTerminators(IsWordChar);
      SentencesKeep(p, IsWordChar);
    } else {
      ConcatSingle(p);
    }
  }

  lemma {:induction false} ChunksOfKeepsWords(paragraphs: seq<string>)
    ensures Words(Concat(ChunksOf(paragraphs))) == Words(Concat(paragraphs))
  {
    if paragraphs != [] {
      var p := paragraphs[0];
      ChunksOfKeepsWords(paragraphs[1..]);
      ChunkParagraphKeepsWords(p);
      ConcatAppend(ChunkParagraph(p), ChunksOf(paragraphs[1..]));
      WordsAppend(Concat(ChunkParagraph(p)), Concat(ChunksOf(paragraphs[1..])));
      ConcatCons(p, paragraphs[1..]);
      assert paragraphs == [p] + paragraphs[1..];
      WordsAppend(p, Concat(paragraphs[1..]));
    }
  }

  /** The chunks, read in order, hold every word character of the text in
      the text's order and no other word character: chunking only changes
      whitespace and sentence punctuation. */
  lemma ChunkerKeepsWords(text: string)
    ensures Words(Concat(FinalChunks(text))) == Words(text)
  {
    ChunksOfKeepsWords(Paragraphs(text));
    ParagraphsKeep(text, IsWordChar);
  }

  // ---------------------------------------------------------------------
  // Every chunk is stripped and non-empty; re-split chunks end in '.'.

  predicate EndsWithDotSpace(b: string)
  {
    |b| >= 2 && b[|b| - 2] == '.' && b[|b| - 1] == ' '
  }

  /** A chunk as the sentence loop emits it: stripped, ending in '.'. */
  predicate EndsWithPeriod(c: string)
  {
    IsStripped(c) && c[|c| - 1] == '.'
  }

  predicate AllEndWithPeriod(cs: seq<string>)
  {
    forall j :: 0 <= j < |cs| ==> EndsWithPeriod(cs[j])
  }

  lemma AllEndWithPeriodAppend(a: seq<string>, b: seq<string>)
    requires AllEndWithPeriod(a) && AllEndWithPeriod(b)
    ensures AllEndWithPeriod(a + b)
  {
    forall j | 0 <= j < |a + b|
      ensures EndsWithPeriod((a + b)[j])
    {
      if j >= |a| {
        assert (a + b)[j] == b[j - |a|];
      }
    }
  }

  /** A buffer ending in `". "`, once stripped, ends in '.'. */
  lemma StripDotBuffer(b: string)
    requires EndsWithDotSpace(b)
    ensures EndsWithPeriod(Strip(b))
  {
    var a := StripStart(b);
    var r := Strip(b);
    var n := |b|;
    StripRemovesOnlySpace(b);
    assert !IsSpace(b[n - 2]);
    assert !AllSpace(b);
    assert a + |r| == n - 1;
    assert r[|r| - 1] == b[n - 2];
  }

  /** Every buffer the sentence loop flushes is stripped and ends in '.',
      given a starting buffer that is empty or ends in `". "`. */
  lemma {:induction false} PackChunksEndWithPeriod(sentences: seq<string>, buffer: string)
    requires buffer == [] || EndsWithDotSpace(buffer)
    ensures AllEndWithPeriod(Pack(sentences, buffer))
    decreases |sentences|
  {
    if sentences != [] {
      var s := sentences[0];
      if |buffer| + |s| < MaxChunkSize {
        assert Pack(sentences, buffer) == Pack(sentences[1..], buffer + s + ". ");
        PackChunksEndWithPeriod(sentences[1..], buffer + s + ". ");
      } else {
        var tail := Pack(sentences[1..], s + ". ");
        assert Pack(sentences, buffer) == Flush(buffer) + tail;
        PackChunksEndWithPeriod(sentences[1..], s + ". ");
        if buffer != [] {
          StripDotBuffer(buffer);
        }
        AllEndWithPeriodAppend(Flush(buffer), tail);
      }
    } else if buffer != [] {
      StripDotBuffer(buffer);
    }
  }

  /** A paragraph over 1000 characters yields at least one chunk, and each of
      its chunks is stripped and ends with '.'. */
  lemma LongParagraphChunks(p: string)
    requires |p| > MaxChunkSize
    ensures |ChunkParagraph(p)| >= 1
    ensures forall j :: 0 <= j < |ChunkParagraph(p)| ==>
              IsStripped(ChunkParagraph(p)[j]) && ChunkParagraph(p)[j][|ChunkParagraph(p)[j]| - 1] == '.'
  {
    PackChunksEndWithPeriod(SplitSentences(p), "");
  }

  /** Every paragraph kept is stripped and non-empty. */
  lemma {:induction false} StripAllStripped(pieces: seq<string>)
    ensures forall j :: 0 <= j < |StripAll(pieces)| ==> IsStripped(StripAll(pieces)[j])
  {
    if pieces != [] {
      var p := Strip(pieces[0]);
      var head: seq<string> := if p != [] then [p] else [];
      var tail := StripAll(pieces[1..]);
      StripAllStripped(pieces[1..]);
      assert StripAll(pieces) == head + tail;
      forall j | 0 <= j < |head| + |tail|
        ensures IsStripped((head + tail)[j])
      {
        if j >= |head| {
          assert (head + tail)[j] == tail[j - |head|];
        }
      }
    }
  }

  lemma {:induction false} ChunksOfStripped(paragraphs: seq<string>)
    requires forall j :: 0 <= j < |paragraphs| ==> IsStripped(paragraphs[j])
    ensures forall j :: 0 <= j < |ChunksOf(paragraphs)| ==> IsStripped(ChunksOf(paragraphs)[j])
  {
    if paragraphs != [] {
      ChunksOfStripped(paragraphs[1..]);
      if |paragraphs[0]| > MaxChunkSize {
        LongParagraphChunks(paragraphs[0]);
      }
    }
  }

  /** Every document load_documents_from_text returns carries the given
      filename and a stripped, non-empty content, in the order of
      FinalChunks. */
  lemma ChunkedDocumentsAreClean(text: string, filename: string)
    ensures |LoadDocuments(text, filename)| == |FinalChunks(text)|
    ensures forall k :: 0 <= k < |LoadDocuments(text, filename)| ==>
              LoadDocuments(text, filename)[k].source == filename
              && LoadDocuments(text, filename)[k].content == FinalChunks(text)[k]
              && IsStripped(LoadDocuments(text, filename)[k].content)
  {
    StripAllStripped(SplitBlankLines(text));
    ChunksOfStripped(Paragraphs(text));
  }

  // ---------------------------------------------------------------------
  // Short paragraphs pass through unchanged.

  lemma {:induction false} ShortParagraphsPassThrough(paragraphs: seq<string>)
    requires forall j :: 0 <= j < |paragraphs| ==> |paragraphs[j]| <= MaxChunkSize
    ensures ChunksOf(paragraphs) == paragraphs
  {
    if paragraphs != [] {
      ShortParagraphsPassThrough(paragraphs[1..]);
      assert paragraphs == [paragraphs[0]] + paragraphs[1..];
    }
  }

  /** When no paragraph exceeds 1000 characters, the chunks are exactly the
      stripped paragraphs, one each, in order. */
  lemma ShortTextChunksAreParagraphs(text: string)
    requires forall j :: 0 <= j < |Paragraphs(text)| ==> |Paragraphs(text)[j]| <= MaxChunkSize
    ensures FinalChunks(text) == Paragraphs(text)
  {
    ShortParagraphsPassThrough(Paragraphs(text));
  }

  // ---------------------------------------------------------------------
  // The flush condition: only a single sentence can overflow.

  lemma StripDropsTrailingSpace(b: string)
    requires |b| >= 1 && b[|b| - 1] == ' '
    ensures |Strip(b)| < |b|
  {
    var r := Strip(b);
    assert r == [] || r[|r| - 1] == b[StripStart(b) + |r| - 1];
  }

  lemma {:induction false} PackOversizeIsOneSentence(sentences: seq<string>, buffer: string, c: string)
    requires c in Pack(sentences, buffer) && |c| > MaxChunkSize
    ensures c == Strip(buffer) || exists s :: s in sentences && c == Strip(s + ". ")
    decreases |sentences|
  {
    if sentences != [] {
      var s := sentences[0];
      if |buffer| + |s| < MaxChunkSize {
        var joined := buffer + s + ". ";
        StripDropsTrailingSpace(joined);
        PackOversizeIsOneSentence(sentences[1..], joined, c);
      } else if c !in Flush(buffer) {
        PackOversizeIsOneSentence(sentences[1..], s + ". ", c);
      }
    }
  }

  /** A chunk longer than 1000 characters is a single sentence of a long
      paragraph, stripped after its `". "`: a sentence joins a non-empty
      buffer only while the two together stay under 1000 characters. */
  lemma OversizeChunkIsOneSentence(p: string, c: string)
    requires c in ChunkParagraph(p) && |c| > MaxChunkSize
    ensures |p| > MaxChunkSize
    ensures exists s :: s in SplitSentences(p) && c == Strip(s + ". ")
  {
    if |p| > MaxChunkSize {
      PackOversizeIsOneSentence(SplitSentences(p), "", c);
    }
  }

  // ---------------------------------------------------------------------
  // Paragraph boundaries

  lemma SliceBlankLine(s: string, lo: nat, hi: nat, a: nat, b: nat)
    requires lo <= hi <= |s| && BlankLineAt(s[lo..hi], a, b)
    ensures BlankLineAt(s, lo + a, lo + b)
  {
    forall m | lo + a < m < lo + b
      ensures IsSpace(s[m])
    {
      assert s[lo..hi][m - lo] == s[m];
    }
  }

  lemma NoMatchMeansNoBlankLine(s: string, i: nat, k: nat)
    requires i < |s| && BlankMatchEnd(s, i).None?
    ensures !BlankLineAt(s, i, k)
  {
  }

  lemma PieceHasNoBlankLine(s: string, start: nat, end: nat)
    requires start <= end <= |s|
    requires forall p :: start <= p < end ==> BlankMatchEnd(s, p).None?
    ensures !HasBlankLine(s[start..end])
  {
    forall a: nat, b: nat
      ensures !BlankLineAt(s[start..end], a, b)
    {
      if a < end - start {
        NoMatchMeansNoBlankLine(s, start + a, start + b);
        if BlankLineAt(s[start..end], a, b) {
          SliceBlankLine(s, start, end, a, b);
        }
      }
    }
  }

  lemma {:induction false} SplitFromPiecesHaveNoBlankLine(s: string, start: nat, i: nat)
    requires start <= i <= |s|
    requires forall p :: start <= p < i ==> BlankMatchEnd(s, p).None?
    ensures forall j :: 0 <= j < |SplitFrom(s, start, i)| ==> !HasBlankLine(SplitFrom(s, start, i)[j])
    decreases |s| - i
  {
    if i == |s| {
      PieceHasNoBlankLine(s, start, |s|);
      assert s[start..|s|] == s[start..];
    } else {
      match BlankMatchEnd(s, i)
      case Some(e) =>
        PieceHasNoBlankLine(s, start, i);
        SplitFromPiecesHaveNoBlankLine(s, e, e);
      case None =>
        SplitFromPiecesHaveNoBlankLine(s, start, i + 1);
    }
  }

  lemma SliceHasNoBlankLine(s: string, lo: nat, hi: nat)
    requires lo <= hi <= |s| && !HasBlankLine(s)
    ensures !HasBlankLine(s[lo..hi])
  {
    forall a: nat, b: nat
      ensures !BlankLineAt(s[lo..hi], a, b)
    {
      if BlankLineAt(s[lo..hi], a, b) {
        SliceBlankLine(s, lo, hi, a, b);
      }
    }
  }

  lemma {:induction false} StripAllHasNoBlankLine(pieces: seq<string>)
    requires forall j :: 0 <= j < |pieces| ==> !HasBlankLine(pieces[j])
    ensures forall j :: 0 <= j < |StripAll(pieces)| ==> !HasBlankLine(StripAll(pieces)[j])
  {
    if pieces != [] {
      var x := pieces[0];
      SliceHasNoBlankLine(x, StripStart(x), StripStart(x) + |Strip(x)|);
      StripAllHasNoBlankLine(pieces[1..]);
    }
  }

  /** No paragraph contains a blank-line boundary. */
  lemma ParagraphsHaveNoBlankLine(text: string)
    ensures forall j :: 0 <= j < |Paragraphs(text)| ==> !HasBlankLine(Paragraphs(text)[j])
  {
    SplitFromPiecesHaveNoBlankLine(text, 0, 0);
    StripAllHasNoBlankLine(SplitBlankLines(text));
  }


  /** A text without a blank line is one paragraph: the text stripped, or
      nothing when it is all whitespace. */
  lemma TextWithoutBlankLineIsOneParagraph(text: string)
    requires !HasBlankLine(text)
    ensures Paragraphs(text) == if AllSpace(text) then [] else [Strip(text)]
  {
    StripRemovesOnlySpace(text);
  }
}
