/**
 What cutting keeps and how large the pieces get: no text but the terminators in front of a
 sentence run is lost, ranks are consecutive, and fragments stay below fixed lengths, the
 longest of which a document of four-letter paragraphs reaches.
 */
module ChunkingTheorems {
  import opened ChunkText
  import opened Chunking
  import opened Wrappers

  // ---------------------------------------------------------------- conservation

  /** The substance a packing holds, finished and buffered. */
  function Held(p: Packing): Text {
    SubstanceOf(p.done) + Substance(p.buffer)
  }

  lemma FlushKeeps(p: Packing)
    ensures Held(Flush(p)) == Held(p) && SubstanceOf(Flush(p).done) == Held(p)
  {
    TrimKeeps(p.buffer);
    if Trim(p.buffer) != [] {
      SubstanceSnoc(p.done, Trim(p.buffer));
    }
    assert Held(Flush(p)) == SubstanceOf(Flush(p).done) + [];
  }

  predicate OnlyBlank(t: Text) {
    forall i | 0 <= i < |t| :: Blank(t[i])
  }

  lemma {:induction false} BlankHasNoSubstance(t: Text)
    requires OnlyBlank(t)
    ensures Substance(t) == []
  {
    if t != [] {
      BlankHasNoSubstance(t[1..]);
    }
  }

  lemma AppendKeeps(p: Packing, separator: Text, piece: Text)
    requires OnlyBlank(separator)
    ensures Held(Append(p, separator, piece)) == Held(p) + Substance(piece)
  {
    if p.buffer == [] {
      assert Held(p) == SubstanceOf(p.done) + [];
    } else {
      BlankHasNoSubstance(separator);
      SubstanceJoin(p.buffer, separator);
      SubstanceJoin(p.buffer + separator, piece);
      assert Substance(p.buffer) + [] == Substance(p.buffer);
    }
  }

  lemma FitKeeps(p: Packing, separator: Text, piece: Text)
    requires OnlyBlank(separator)
    ensures Held(Fit(p, separator, piece)) == Held(p) + Substance(piece)
  {
    FlushKeeps(p);
    AppendKeeps(Flush(p), separator, piece);
    AppendKeeps(p, separator, piece);
  }

  lemma EmitKeeps(p: Packing, fragments: seq<Text>)
    ensures Held(Emit(p, fragments)) == Held(p) + SubstanceOf(fragments)
  {
    FlushKeeps(p);
    SubstanceOfJoin(Flush(p).done, fragments);
    assert Held(Emit(p, fragments)) == SubstanceOf(Flush(p).done + fragments) + [];
  }

  lemma PackSentenceKeeps(p: Packing, s: Text)
    ensures Held(PackSentence(p, s)) == Held(p) + Substance(s)
  {
    if Tokens(s) > MAX_CHUNK_TOKENS {
      EmitKeeps(p, Cut(s));
      CutKeeps(s);
    } else {
      FitKeeps(p, [SPACE], s);
    }
  }

  lemma {:induction false} PackSentencesKeeps(sentences: seq<Text>)
    ensures Held(PackSentences(sentences)) == SubstanceOf(sentences)
  {
    if sentences != [] {
      var front := sentences[..|sentences| - 1];
      PackSentencesKeeps(front);
      PackSentenceKeeps(PackSentences(front), sentences[|sentences| - 1]);
    } else {
      assert Held(START) == [];
    }
  }

  /** Cutting a text by its sentences loses the terminators in front of it, and nothing else. */
  lemma SentenceFragmentsKeep(text: Text)
    ensures SubstanceOf(SentenceFragments(text)) == Substance(Said(text))
  {
    PackSentencesKeeps(Sentences(text));
    FlushKeeps(PackSentences(Sentences(text)));
    SentencesKeep(text);
  }

  /** A paragraph as it comes out of the packing: an oversized one goes through the sentence cut. */
  function Passed(paragraph: Text): Text {
    if Tokens(paragraph) > MAX_CHUNK_TOKENS then Said(paragraph) else paragraph
  }

  function AllPassed(paragraphs: seq<Text>): seq<Text> {
    if paragraphs == [] then []
    else AllPassed(paragraphs[..|paragraphs| - 1]) + [Passed(paragraphs[|paragraphs| - 1])]
  }

  lemma PackParagraphKeeps(p: Packing, paragraph: Text)
    ensures Held(PackParagraph(p, paragraph)) == Held(p) + Substance(Passed(paragraph))
  {
    if Tokens(paragraph) > MAX_CHUNK_TOKENS {
      EmitKeeps(p, SentenceFragments(paragraph));
      SentenceFragmentsKeep(paragraph);
    } else {
      FitKeeps(p, BLANK_LINE, paragraph);
    }
  }

  lemma {:induction false} PackParagraphsKeeps(paragraphs: seq<Text>)
    ensures Held(PackParagraphs(paragraphs)) == SubstanceOf(AllPassed(paragraphs))
  {
    if paragraphs != [] {
      var front, last := paragraphs[..|paragraphs| - 1], paragraphs[|paragraphs| - 1];
      PackParagraphsKeeps(front);
      SubstanceSnoc(AllPassed(front), Passed(last));
      PackParagraphKeeps(PackParagraphs(front), last);
    } else {
      assert Held(START) == [];
    }
  }

  /**
   Splitting an oversized section keeps its text in order, without loss or repetition, but for
   the terminators in front of what is sent to the sentence cut.
   */
  lemma FragmentsKeepText(raw: Text)
    ensures SubstanceOf(RawFragments(raw)) ==
      if |Paragraphs(raw)| <= 1 then Substance(Said(raw)) else SubstanceOf(AllPassed(Paragraphs(raw)))
  {
    SentenceFragmentsKeep(raw);
    PackParagraphsKeeps(Paragraphs(raw));
    FlushKeeps(PackParagraphs(Paragraphs(raw)));
  }

  /** Non-empty, with no whitespace at either end. */
  ghost predicate Tight(t: Text) {
    t != [] && !Blank(t[0]) && !Blank(t[|t| - 1])
  }

  ghost predicate AllTightTexts(parts: seq<Text>) {
    forall k | 0 <= k < |parts| :: Tight(parts[k])
  }

  lemma TrimIsTight(t: Text)
    ensures Trim(t) != [] ==> Tight(Trim(t))
  {}

  lemma {:induction false} PartsAreTight(parts: seq<Text>)
    ensures AllTightTexts(TrimmedParts(parts))
  {
    if parts != [] {
      PartsAreTight(parts[..|parts| - 1]);
      TrimIsTight(parts[|parts| - 1]);
    }
  }

  lemma {:induction false} HasSubstance(t: Text, i: nat)
    requires i < |t| && !Blank(t[i])
    ensures Substance(t) != []
    decreases |t|
  {
    if Blank(t[0]) {
      HasSubstance(t[1..], i - 1);
    }
  }

  /** The text opens with a terminator and has something else to say. */
  predicate OpensWithTerminator(t: Text) {
    t != [] && Terminator(t[0]) && !AllTerminators(t)
  }

  /** The sentence cut keeps a text if and only if it does not open with a terminator. */
  lemma SaidKeepsIff(t: Text)
    requires Tight(t)
    ensures |Substance(Said(t))| <= |Substance(t)|
    ensures |Substance(Said(t))| == |Substance(t)| <==> !OpensWithTerminator(t)
    ensures !OpensWithTerminator(t) ==> Said(t) == t
  {
    if OpensWithTerminator(t) {
      var m := NextOrdinary(t, 0);
      SubstanceJoin(t[..m], t[m..]);
      assert t == t[..m] + t[m..];
      HasSubstance(t[..m], 0);
    }
  }

  /** An oversized paragraph goes through the sentence cut, and this one loses its opening there. */
  predicate LosesOpening(paragraph: Text) {
    Tokens(paragraph) > MAX_CHUNK_TOKENS && OpensWithTerminator(paragraph)
  }

  lemma PassedKeepsIff(paragraph: Text)
    requires Tight(paragraph)
    ensures |Substance(Passed(paragraph))| <= |Substance(paragraph)|
    ensures |Substance(Passed(paragraph))| == |Substance(paragraph)| <==> !LosesOpening(paragraph)
    ensures !LosesOpening(paragraph) ==> Passed(paragraph) == paragraph
  {
    SaidKeepsIff(paragraph);
  }

  ghost predicate NoneLosesOpening(paragraphs: seq<Text>) {
    forall k | 0 <= k < |paragraphs| :: !LosesOpening(paragraphs[k])
  }

  lemma NoneLosesOneMore(front: seq<Text>, last: Text)
    ensures NoneLosesOpening(front + [last]) <==> NoneLosesOpening(front) && !LosesOpening(last)
  {
    var all := front + [last];
    assert all[|front|] == last;
    assert forall k | 0 <= k < |front| :: all[k] == front[k];
  }

  lemma {:induction false} AllPassedKeepIff(paragraphs: seq<Text>)
    requires AllTightTexts(paragraphs)
    ensures |SubstanceOf(AllPassed(paragraphs))| <= |SubstanceOf(paragraphs)|
    ensures |SubstanceOf(AllPassed(paragraphs))| == |SubstanceOf(paragraphs)| <==> NoneLosesOpening(paragraphs)
    ensures NoneLosesOpening(paragraphs) ==> AllPassed(paragraphs) == paragraphs
  {
    if paragraphs != [] {
      var n := |paragraphs| - 1;
      var front, last := paragraphs[..n], paragraphs[n];
      assert AllTightTexts(front) by {
        assert forall k | 0 <= k < n :: front[k] == paragraphs[k];
      }
      assert paragraphs == front + [last];
      AllPassedKeepIff(front);
      NoneLosesOneMore(front, last);
      OneMorePassed(front, last);
      PassedKeepsIff(last);
    }
  }

  lemma OneMorePassed(front: seq<Text>, last: Text)
    ensures AllPassed(front + [last]) == AllPassed(front) + [Passed(last)]
    ensures |SubstanceOf(AllPassed(front + [last]))| == |SubstanceOf(AllPassed(front))| + |Substance(Passed(last))|
    ensures |SubstanceOf(front + [last])| == |SubstanceOf(front)| + |Substance(last)|
  {
    assert (front + [last])[..|front|] == front;
    SubstanceSnoc(AllPassed(front), Passed(last));
    SubstanceSnoc(front, last);
  }

  /**
   Exactly when a section loses nothing: sent to the sentence cut as a whole, if it does not open
   with a terminator in front of other text; cut by paragraphs, if no oversized one does.
   */
  lemma NothingLost(raw: Text)
    requires Tight(raw)
    ensures SubstanceOf(RawFragments(raw)) == Substance(raw) <==>
      if |Paragraphs(raw)| <= 1 then !OpensWithTerminator(raw)
      else NoneLosesOpening(Paragraphs(raw))
  {
    FragmentsKeepText(raw);
    SaidKeepsIff(raw);
    PartsAreTight(SplitAtBlankLines(raw));
    AllPassedKeepIff(Paragraphs(raw));
    ParagraphsKeep(raw);
  }

  lemma {:induction false} NoBreakFrom(t: Text, i: nat)
    requires i <= |t| && forall k | 0 <= k < |t| :: t[k] != NEWLINE
    ensures BreakFrom(t, i) == |t|
    decreases |t| - i
  {
    if i < |t| {
      NoBreakFrom(t, i + 1);
    }
  }

  lemma OneLineOneParagraph(t: Text)
    requires forall k | 0 <= k < |t| :: t[k] != NEWLINE
    ensures |Paragraphs(t)| <= 1
  {
    NoBreakFrom(t, 0);
    var parts := [t];
    assert SplitAtBlankLines(t) == parts;
    assert parts[..|parts| - 1] == [] && TrimmedParts([]) == [];
  }

  /** An exclamation mark in front of n letters; the section is oversized from 1920 letters on. */
  function Exclaimed(n: nat): Text {
    [0x21] + seq(n, i => 0x61)
  }

  lemma OpeningMarkIsLost(n: nat)
    requires n > 0
    ensures Tight(Exclaimed(n)) && (n >= 4 * MAX_CHUNK_TOKENS ==> Tokens(Exclaimed(n)) > MAX_CHUNK_TOKENS)
    ensures SubstanceOf(RawFragments(Exclaimed(n))) != Substance(Exclaimed(n))
  {
    var raw := Exclaimed(n);
    OneLineOneParagraph(raw);
    assert !Terminator(raw[1]);
    assert NextOrdinary(raw, 0) == 1;
    NothingLost(raw);
  }

  // ---------------------------------------------------------------- bounds

  const SENTENCE_BOUND := 2399
  const PARAGRAPH_BOUND := 2878

  ghost predicate Within(parts: seq<Text>, bound: nat) {
    forall k | 0 <= k < |parts| :: 0 < |parts[k]| <= bound
  }

  /** How long a buffer of so many tokens can be, when its pieces are joined by one or by two units. */
  predicate Covers(gap: nat, length: nat, tokens: nat) {
    (gap == 1 && 1 + length <= 5 * tokens) || (gap == 2 && 2 + length <= 6 * tokens)
  }

  predicate GapBound(gap: nat, bound: nat) {
    (gap == 1 && bound == SENTENCE_BOUND) || (gap == 2 && bound == PARAGRAPH_BOUND)
  }

  /** No fragment too long, and the buffer covered by the tokens counted for it. */
  ghost predicate Bounded(p: Packing, gap: nat, bound: nat) {
    && Within(p.done, bound) && p.tokens <= MAX_CHUNK_TOKENS
    && (p.buffer == [] ==> p.tokens == 0)
    && (p.buffer != [] ==> Covers(gap, |p.buffer|, p.tokens))
  }

  lemma FlushBounded(p: Packing, gap: nat, bound: nat)
    requires Bounded(p, gap, bound) && GapBound(gap, bound)
    ensures Bounded(Flush(p), gap, bound)
  {}

  /** Every piece has a token, which pays for its separator. */
  lemma AppendCovers(gap: nat, length: nat, tokens: nat, piece: Text)
    requires piece != []
    ensures gap == 1 || gap == 2 ==> Covers(gap, |piece|, Tokens(piece))
    ensures Covers(gap, length, tokens) ==> Covers(gap, length + gap + |piece|, tokens + Tokens(piece))
  {}

  lemma AppendBounded(p: Packing, separator: Text, piece: Text, bound: nat)
    requires Bounded(p, |separator|, bound) && GapBound(|separator|, bound) && piece != []
    requires p.tokens + Tokens(piece) <= MAX_CHUNK_TOKENS
    ensures Bounded(Append(p, separator, piece), |separator|, bound)
  {
    AppendCovers(|separator|, |p.buffer|, p.tokens, piece);
  }

  lemma FitBounded(p: Packing, separator: Text, piece: Text, bound: nat)
    requires Bounded(p, |separator|, bound) && GapBound(|separator|, bound)
    requires piece != [] && Tokens(piece) <= MAX_CHUNK_TOKENS
    ensures Bounded(Fit(p, separator, piece), |separator|, bound)
  {
    FlushBounded(p, |separator|, bound);
    if p.buffer != [] && p.tokens + Tokens(piece) > MAX_CHUNK_TOKENS {
      AppendBounded(Flush(p), separator, piece, bound);
    } else {
      AppendBounded(p, separator, piece, bound);
    }
  }

  lemma EmitBounded(p: Packing, fragments: seq<Text>, gap: nat, bound: nat)
    requires Bounded(p, gap, bound) && GapBound(gap, bound) && Within(fragments, bound)
    ensures Bounded(Emit(p, fragments), gap, bound)
  {
    FlushBounded(p, gap, bound);
  }

  lemma {:induction false} PackSentencesBounded(sentences: seq<Text>)
    requires forall k | 0 <= k < |sentences| :: sentences[k] != []
    ensures Bounded(PackSentences(sentences), 1, SENTENCE_BOUND)
  {
    if sentences != [] {
      var front, last := sentences[..|sentences| - 1], sentences[|sentences| - 1];
      PackSentencesBounded(front);
      if Tokens(last) > MAX_CHUNK_TOKENS {
        CutKeeps(last);
        EmitBounded(PackSentences(front), Cut(last), 1, SENTENCE_BOUND);
      } else {
        FitBounded(PackSentences(front), [SPACE], last, SENTENCE_BOUND);
      }
    }
  }

  lemma SentenceFragmentsBounded(text: Text)
    requires text != []
    ensures Within(SentenceFragments(text), SENTENCE_BOUND)
  {
    PackSentencesBounded(Sentences(text));
    FlushBounded(PackSentences(Sentences(text)), 1, SENTENCE_BOUND);
  }

  lemma {:induction false} PackParagraphsBounded(paragraphs: seq<Text>)
    requires forall k | 0 <= k < |paragraphs| :: paragraphs[k] != []
    ensures Bounded(PackParagraphs(paragraphs), 2, PARAGRAPH_BOUND)
  {
    if paragraphs != [] {
      var front, last := paragraphs[..|paragraphs| - 1], paragraphs[|paragraphs| - 1];
      PackParagraphsBounded(front);
      if Tokens(last) > MAX_CHUNK_TOKENS {
        SentenceFragmentsBounded(last);
        EmitBounded(PackParagraphs(front), SentenceFragments(last), 2, PARAGRAPH_BOUND);
      } else {
        FitBounded(PackParagraphs(front), BLANK_LINE, last, PARAGRAPH_BOUND);
      }
    }
  }

  /** Every raw fragment of an oversized section is non-empty and at most 2878 units long, 2399 without paragraphs. */
  lemma FragmentsBounded(raw: Text)
    requires raw != []
    ensures Within(RawFragments(raw), PARAGRAPH_BOUND)
    ensures |Paragraphs(raw)| <= 1 ==> Within(RawFragments(raw), SENTENCE_BOUND)
  {
    SentenceFragmentsBounded(raw);
    PackParagraphsBounded(Paragraphs(raw));
    FlushBounded(PackParagraphs(Paragraphs(raw)), 2, PARAGRAPH_BOUND);
  }

  // ---------------------------------------------------------------- the bounds are reached

  const WORD: Text := [0x61, 0x61, 0x61, 0x61]

  /** n paragraphs of the same four letters. */
  function Words(n: nat): seq<Text> {
    if n == 0 then [] else Words(n - 1) + [WORD]
  }

  /** The same as one text, a blank line between them. */
  function WordsText(n: nat): Text {
    if n <= 1 then WORD else WORD + BLANK_LINE + WordsText(n - 1)
  }

  lemma {:induction false} WordsRepeat(n: nat)
    ensures |Words(n)| == n && forall k | 0 <= k < n :: Words(n)[k] == WORD
  {
    if n > 0 {
      WordsRepeat(n - 1);
    }
  }

  lemma {:induction false} WordsTextSplits(n: nat)
    requires n > 0
    ensures WordsText(n)[0] == 0x61 && SplitAtBlankLines(WordsText(n)) == Words(n)
  {
    var t := WordsText(n);
    WordsRepeat(n);
    if n == 1 {
      NoBreakFrom(t, 0);
      assert Words(1) == Words(0) + [WORD];
    } else {
      WordsTextSplits(n - 1);
      WordsRepeat(n - 1);
      var rest := WordsText(n - 1);
      FirstWord(rest);
      assert [WORD] + Words(n - 1) == Words(n);
    }
  }

  lemma FirstWord(rest: Text)
    requires rest != [] && rest[0] == 0x61
    ensures var t := WORD + BLANK_LINE + rest; SplitAtBlankLines(t) == [WORD] + SplitAtBlankLines(rest)
  {
    var t := WORD + BLANK_LINE + rest;
    assert ParagraphBreak(t, 4);
    assert !ParagraphBreak(t, 0) && !ParagraphBreak(t, 1) && !ParagraphBreak(t, 2) && !ParagraphBreak(t, 3);
    assert BreakFrom(t, 4) == 4;
    assert BreakFrom(t, 3) == 4;
    assert BreakFrom(t, 2) == 4;
    assert BreakFrom(t, 1) == 4;
    assert BreakFrom(t, 0) == 4;
    assert t[..4] == WORD;
    var behind := t[4..];
    assert behind[0] == NEWLINE && behind[1..][0] == NEWLINE && behind[1..][1..] == rest;
    assert SkipNewlines(behind[1..]) == SkipNewlines(rest) == rest;
    assert SkipNewlines(behind) == rest;
  }

  lemma {:induction false} WordsStayTrimmed(n: nat)
    ensures TrimmedParts(Words(n)) == Words(n)
  {
    if n > 0 {
      WordsStayTrimmed(n - 1);
      TrimWord();
      OneMoreTrimmed(Words(n - 1), WORD);
    }
  }

  lemma OneMoreTrimmed(front: seq<Text>, last: Text)
    requires Trim(last) == last != []
    ensures TrimmedParts(front + [last]) == TrimmedParts(front) + [last]
  {
    assert (front + [last])[..|front|] == front;
  }

  lemma TrimWord()
    ensures Trim(WORD) == WORD
  {}

  /** What fills a buffer word by word, with `gap` units between two words. */
  ghost predicate Filled(p: Packing, n: nat, gap: nat, opening: nat, closing: nat) {
    && p.done == [] && p.tokens == n && |p.buffer| == (if n == 0 then 0 else (4 + gap) * n - gap)
    && (n > 0 ==> p.buffer[0] == opening && p.buffer[|p.buffer| - 1] == closing)
  }

  lemma FilledByOneMore(p: Packing, n: nat, separator: Text, word: Text, closing: nat)
    requires n < MAX_CHUNK_TOKENS && |word| == 4 && word[0] == 0x61 && word[3] == closing
    requires Filled(p, n, |separator|, 0x61, closing)
    ensures Filled(Fit(p, separator, word), n + 1, |separator|, 0x61, closing)
  {
    assert Tokens(word) == 1;
    assert Fit(p, separator, word) == Append(p, separator, word);
    if n == 0 {
      assert Append(p, separator, word).buffer == word;
    } else {
      assert Append(p, separator, word).buffer == p.buffer + separator + word;
      FilledLength(n, |separator|);
    }
  }

  lemma FilledLength(n: nat, gap: nat)
    ensures (4 + gap) * (n + 1) - gap == (4 + gap) * n - gap + gap + 4
  {}

  lemma {:induction false} WordsFill(n: nat)
    requires n <= MAX_CHUNK_TOKENS
    ensures Filled(PackParagraphs(Words(n)), n, 2, 0x61, 0x61)
  {
    if n > 0 {
      var less := n - 1;
      WordsFill(less);
      WordsRepeat(n);
      assert Words(n)[..less] == Words(less);
      FilledByOneMore(PackParagraphs(Words(less)), less, BLANK_LINE, WORD, 0x61);
    }
  }

  /** A full buffer is flushed by one word more, and never taken back. */
  lemma FullBufferIsFlushed(p: Packing, gap: nat, separator: Text, word: Text, closing: nat)
    requires Filled(p, MAX_CHUNK_TOKENS, gap, 0x61, closing) && !Blank(closing) && |word| == 4
    ensures Fit(p, separator, word).done == [p.buffer]
    ensures |p.buffer| == (4 + gap) * MAX_CHUNK_TOKENS - gap
  {
    assert Trim(p.buffer) == p.buffer;
  }

  /** 481 four-letter paragraphs: the first fragment is exactly 2878 units long. */
  lemma ParagraphBoundIsReached()
    ensures Tokens(WordsText(481)) > MAX_CHUNK_TOKENS
    ensures RawFragments(WordsText(481)) != [] && |RawFragments(WordsText(481))[0]| == PARAGRAPH_BOUND
  {
    BoundByParagraphs(MAX_CHUNK_TOKENS, 481);
  }

  lemma BoundByParagraphs(n: nat, more: nat)
    requires n == MAX_CHUNK_TOKENS && more == n + 1
    ensures Tokens(WordsText(more)) > MAX_CHUNK_TOKENS
    ensures RawFragments(WordsText(more)) != [] && |RawFragments(WordsText(more))[0]| == PARAGRAPH_BOUND
  {
    WordsTextSplits(more);
    WordsStayTrimmed(more);
    WordsRepeat(more);
    WordsTextLength(more);
    var p := PackParagraphs(Words(n));
    WordsFill(n);
    FullBufferIsFlushed(p, 2, BLANK_LINE, WORD, 0x61);
    assert Words(more) == Words(n) + [WORD] && Words(more)[..n] == Words(n);
    assert PackParagraphs(Words(more)).done == [p.buffer];
  }

  lemma {:induction false} WordsTextLength(n: nat)
    requires n > 0
    ensures |WordsText(n)| == 6 * n - 2
  {
    if n > 1 {
      WordsTextLength(n - 1);
    }
  }

  // ---------------------------------------------------------------- the bound on the sentence path

  const PHRASE: Text := [0x61, 0x61, 0x61, 0x2E]

  function Phrases(n: nat): seq<Text> {
    if n == 0 then [] else Phrases(n - 1) + [PHRASE]
  }

  /** n sentences of three letters and a full stop, as one line. */
  function PhrasesText(n: nat): Text {
    seq(4 * n, i => if i % 4 == 3 then 0x2E else 0x61)
  }

  lemma {:induction false} PhrasesRepeat(n: nat)
    ensures |Phrases(n)| == n && forall k | 0 <= k < n :: Phrases(n)[k] == PHRASE
  {
    if n > 0 {
      PhrasesRepeat(n - 1);
    }
  }

  lemma {:induction false} PhrasesFound(n: nat, i: nat, from: nat)
    requires i <= n && from == 4 * i
    ensures |SentencesFrom(PhrasesText(n), from)| == n - i
    ensures forall k | 0 <= k < n - i :: SentencesFrom(PhrasesText(n), from)[k] == PHRASE
    decreases n - i
  {
    if i < n {
      var t := PhrasesText(n);
      var next, more := from + 4, i + 1;
      PhraseAt(n, i, from);
      PhraseEnds(t, from, next);
      PhrasesFound(n, more, next);
      var rest := SentencesFrom(t, next);
      assert SentencesFrom(t, from) == [PHRASE] + rest;
    }
  }

  lemma PhraseAt(n: nat, i: nat, from: nat)
    requires i < n && from == 4 * i
    ensures PhrasesText(n)[from..from + 4] == PHRASE
    ensures from + 4 < 4 * n ==> PhrasesText(n)[from + 4] == 0x61
  {}

  lemma PhraseEnds(t: Text, from: nat, next: nat)
    requires next == from + 4 <= |t| && t[from..next] == PHRASE && (next < |t| ==> t[next] == 0x61)
    ensures !Terminator(t[from]) && NextOrdinary(t, NextTerminator(t, from)) == next
  {
    var stop := from + 3;
    assert t[from..next][0] == t[from] && t[from..next][1] == t[from + 1] && t[from..next][2] == t[from + 2];
    assert t[from..next][3] == t[stop];
    assert NextTerminator(t, from) == stop;
    assert NextOrdinary(t, stop) == next;
  }

  lemma PhrasesAreSentences(n: nat)
    requires n > 0
    ensures Sentences(PhrasesText(n)) == Phrases(n) && |Paragraphs(PhrasesText(n))| <= 1
  {
    var t := PhrasesText(n);
    assert t[0] == 0x61;
    assert NextOrdinary(t, 0) == 0;
    PhrasesFound(n, 0, 0);
    PhrasesRepeat(n);
    OneLineOneParagraph(t);
  }

  lemma {:induction false} PhrasesFill(n: nat)
    requires n <= MAX_CHUNK_TOKENS
    ensures Filled(PackSentences(Phrases(n)), n, 1, 0x61, 0x2E)
  {
    if n > 0 {
      var less := n - 1;
      PhrasesFill(less);
      PhrasesRepeat(n);
      assert Phrases(n)[..less] == Phrases(less);
      FilledByOneMore(PackSentences(Phrases(less)), less, [SPACE], PHRASE, 0x2E);
    }
  }

  /** 481 four-unit sentences in one paragraph: the first fragment is exactly 2399 units long. */
  lemma SentenceBoundIsReached()
    ensures Tokens(PhrasesText(481)) > MAX_CHUNK_TOKENS && |Paragraphs(PhrasesText(481))| <= 1
    ensures RawFragments(PhrasesText(481)) != [] && |RawFragments(PhrasesText(481))[0]| == SENTENCE_BOUND
  {
    BoundBySentences(MAX_CHUNK_TOKENS, 481);
  }

  lemma BoundBySentences(n: nat, more: nat)
    requires n == MAX_CHUNK_TOKENS && more == n + 1
    ensures Tokens(PhrasesText(more)) > MAX_CHUNK_TOKENS && |Paragraphs(PhrasesText(more))| <= 1
    ensures RawFragments(PhrasesText(more)) != [] && |RawFragments(PhrasesText(more))[0]| == SENTENCE_BOUND
  {
    PhrasesAreSentences(more);
    var p := PackSentences(Phrases(n));
    PhrasesFill(n);
    FullBufferIsFlushed(p, 1, [SPACE], PHRASE, 0x2E);
    assert Phrases(more) == Phrases(n) + [PHRASE];
    PhrasesRepeat(n);
    assert Phrases(more)[..n] == Phrases(n);
    assert PackSentences(Phrases(more)).done == [p.buffer];
  }

  // ---------------------------------------------------------------- sections

  /** The end of a tight text is not in the run of terminators that is dropped. */
  lemma TightIsSaid(t: Text)
    requires Tight(t)
    ensures Substance(Said(t)) != [] && Substance(t) != []
  {
    var said := Said(t);
    assert said[|said| - 1] == t[|t| - 1];
    HasSubstance(said, |said| - 1);
    HasSubstance(t, |t| - 1);
  }

  lemma LastParagraphStays(paragraphs: seq<Text>)
    requires paragraphs != [] && Tight(paragraphs[|paragraphs| - 1])
    ensures SubstanceOf(AllPassed(paragraphs)) != []
  {
    var front, last := paragraphs[..|paragraphs| - 1], paragraphs[|paragraphs| - 1];
    TightIsSaid(last);
    SubstanceSnoc(AllPassed(front), Passed(last));
  }

  /** A tight text is cut into at least one fragment, so the fallback that keeps a section whole is not taken. */
  lemma TightHasFragments(raw: Text)
    requires Tight(raw)
    ensures RawFragments(raw) != []
  {
    FragmentsKeepText(raw);
    TightIsSaid(raw);
    if |Paragraphs(raw)| > 1 {
      PartsAreTight(SplitAtBlankLines(raw));
      LastParagraphStays(Paragraphs(raw));
    }
  }

  ghost predicate Shortens(strip: Text -> Text) {
    forall t: Text :: |strip(t)| <= |t|
  }

  /** A section under the same heading with a content that is not too long. */
  ghost predicate PieceOf(section: Section, piece: Section) {
    piece.heading == section.heading && piece.level == section.level && |piece.content| <= PARAGRAPH_BOUND
  }

  lemma PiecesKeepHeading(section: Section, strip: Text -> Text, k: nat)
    requires Shortens(strip) && Tight(section.raw) && k < |SplitLargeSection(section, strip)|
    ensures PieceOf(section, SplitLargeSection(section, strip)[k])
  {
    if Tokens(section.content) > MAX_CHUNK_TOKENS {
      TightHasFragments(section.raw);
      FragmentsBounded(section.raw);
    }
  }

  ghost predicate AllTight(bases: seq<Section>) {
    forall k | 0 <= k < |bases| :: Tight(bases[k].raw)
  }

  lemma {:induction false} ReadLinesTight(lines: seq<Source>, strip: Text -> Text)
    ensures AllTight(ReadLines(lines, strip).bases)
  {
    if lines != [] {
      var front := ReadLines(lines[..|lines| - 1], strip);
      ReadLinesTight(lines[..|lines| - 1], strip);
      TrimIsTight(JoinLines(front.buffer));
    }
  }

  lemma BaseSectionsTight(lines: seq<Source>, strip: Text -> Text)
    ensures AllTight(BaseSections(lines, strip))
  {
    ReadLinesTight(lines, strip);
    TrimIsTight(JoinLines(ReadLines(lines, strip).buffer));
  }

  ghost predicate PieceOfSome(bases: seq<Section>, piece: Section) {
    exists b :: 0 <= b < |bases| && PieceOf(bases[b], piece)
  }

  /** Every section has its place as rank, and a content of bounded length under a heading of the document. */
  ghost predicate Placed(bases: seq<Section>, sections: seq<Section>) {
    forall k | 0 <= k < |sections| :: sections[k].rank == k && PieceOfSome(bases, sections[k])
  }

  lemma OneMoreBase(bases: seq<Section>, last: Section, piece: Section)
    requires PieceOfSome(bases, piece) || PieceOf(last, piece)
    ensures PieceOfSome(bases + [last], piece)
  {
    var all := bases + [last];
    if b :| 0 <= b < |bases| && PieceOf(bases[b], piece) {
      assert PieceOf(all[b], piece);
    } else {
      assert PieceOf(all[|bases|], piece);
    }
  }

  lemma PiecesPlaced(bases: seq<Section>, front: seq<Section>, last: Section, strip: Text -> Text, pieces: seq<Section>)
    requires Placed(bases, front) && Shortens(strip) && Tight(last.raw) && pieces == SplitLargeSection(last, strip)
    ensures Placed(bases + [last], front + Renumbered(pieces, |front|))
  {
    var all := front + Renumbered(pieces, |front|);
    forall k | 0 <= k < |all|
      ensures all[k].rank == k && PieceOfSome(bases + [last], all[k])
    {
      if k >= |front| {
        PiecesKeepHeading(last, strip, k - |front|);
      }
      OneMoreBase(bases, last, all[k]);
    }
  }

  lemma NumberedUnfolds(bases: seq<Section>, front: seq<Section>, last: Section, strip: Text -> Text)
    requires bases == front + [last]
    ensures Numbered(bases, strip)
         == Numbered(front, strip) + Renumbered(SplitLargeSection(last, strip), |Numbered(front, strip)|)
  {
    assert bases[..|bases| - 1] == front;
  }

  lemma {:induction false} SectionsNumbered(bases: seq<Section>, strip: Text -> Text)
    requires Shortens(strip) && AllTight(bases)
    ensures Placed(bases, Numbered(bases, strip))
    decreases |bases|
  {
    if bases != [] {
      var front, last := bases[..|bases| - 1], bases[|bases| - 1];
      assert AllTight(front) by {
        assert forall k | 0 <= k < |front| :: front[k] == bases[k];
      }
      assert bases == front + [last];
      SectionsNumbered(front, strip);
      var numbered := Numbered(front, strip);
      var pieces := SplitLargeSection(last, strip);
      PiecesPlaced(front, numbered, last, strip, pieces);
      NumberedUnfolds(bases, front, last, strip);
    }
  }

  /** The sections of a whole document: ranks 0, 1, 2, ..., each under a heading of it, no content longer than 2878 units. */
  lemma DocumentSections(lines: seq<Source>, strip: Text -> Text)
    requires Shortens(strip)
    ensures Placed(BaseSections(lines, strip), Numbered(BaseSections(lines, strip), strip))
  {
    BaseSectionsTight(lines, strip);
    SectionsNumbered(BaseSections(lines, strip), strip);
  }
}
