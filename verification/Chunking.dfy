/**
 Cutting a document into chunks for the embedding model: sections by heading, oversized
 sections by paragraph, oversized paragraphs by sentence, oversized sentences by length.
 */
module Chunking {
  import opened ChunkText
  import opened Wrappers

  datatype Section = Section(heading: Option<Text>, level: nat, content: Text, raw: Text, rank: nat)

  // ---------------------------------------------------------------- packing

  /** The fragments so far, the buffered run of pieces, and the tokens counted for it. */
  datatype Packing = Packing(done: seq<Text>, buffer: Text, tokens: nat)

  const START := Packing([], [], 0)

  function Flush(p: Packing): Packing {
    Packing(if Trim(p.buffer) == [] then p.done else p.done + [Trim(p.buffer)], [], 0)
  }

  function Append(p: Packing, separator: Text, piece: Text): Packing {
    Packing(p.done, if p.buffer == [] then piece else p.buffer + separator + piece, p.tokens + Tokens(piece))
  }

  /** A piece that fits joins the buffer, which is flushed first when it would grow too large. */
  function Fit(p: Packing, separator: Text, piece: Text): Packing {
    Append(if p.buffer != [] && p.tokens + Tokens(piece) > MAX_CHUNK_TOKENS then Flush(p) else p, separator, piece)
  }

  function Emit(p: Packing, fragments: seq<Text>): Packing {
    var f := Flush(p);
    f.(done := f.done + fragments)
  }

  function PackSentence(p: Packing, s: Text): Packing {
    if Tokens(s) > MAX_CHUNK_TOKENS then Emit(p, Cut(s)) else Fit(p, [SPACE], s)
  }

  function PackSentences(sentences: seq<Text>): Packing {
    if sentences == [] then START
    else PackSentence(PackSentences(sentences[..|sentences| - 1]), sentences[|sentences| - 1])
  }

  /** `splitBySentences`, raw fragments only. */
  function SentenceFragments(text: Text): seq<Text> {
    Flush(PackSentences(Sentences(text))).done
  }

  const BLANK_LINE: Text := [NEWLINE, NEWLINE]

  function PackParagraph(p: Packing, paragraph: Text): Packing {
    if Tokens(paragraph) > MAX_CHUNK_TOKENS then Emit(p, SentenceFragments(paragraph)) else Fit(p, BLANK_LINE, paragraph)
  }

  function PackParagraphs(paragraphs: seq<Text>): Packing {
    if paragraphs == [] then START
    else PackParagraph(PackParagraphs(paragraphs[..|paragraphs| - 1]), paragraphs[|paragraphs| - 1])
  }

  /** The raw fragments of an oversized section. */
  function RawFragments(raw: Text): seq<Text> {
    if |Paragraphs(raw)| <= 1 then SentenceFragments(raw) else Flush(PackParagraphs(Paragraphs(raw))).done
  }

  function AsSections(section: Section, strip: Text -> Text, raws: seq<Text>): seq<Section> {
    seq(|raws|, k requires 0 <= k < |raws| => Section(section.heading, section.level, strip(raws[k]), raws[k], 0))
  }

  /** `splitLargeSection` */
  function SplitLargeSection(section: Section, strip: Text -> Text): seq<Section> {
    if Tokens(section.content) <= MAX_CHUNK_TOKENS then [section]
    else
      var raws := RawFragments(section.raw);
      if raws == [] then [section.(rank := if |Paragraphs(section.raw)| <= 1 then 0 else section.rank)]
      else AsSections(section, strip, raws)
  }

  // ---------------------------------------------------------------- the loops

  /** `splitBySentences`, with its buffer and its flush closure. */
  method SplitBySentences(text: Text) returns (result: seq<Text>)
    ensures result == SentenceFragments(text)
  {
    var sentences := SplitSentences(text);
    var p := START;
    for k := 0 to |sentences|
      invariant p == PackSentences(sentences[..k])
    {
      assert sentences[..k + 1][..k] == sentences[..k];
      if Tokens(sentences[k]) > MAX_CHUNK_TOKENS {
        p := Flush(p);
        var pieces := SplitByCharLimit(sentences[k]);
        p := p.(done := p.done + pieces);
        continue;
      }
      if p.buffer != [] && p.tokens + Tokens(sentences[k]) > MAX_CHUNK_TOKENS {
        p := Flush(p);
      }
      p := Append(p, [SPACE], sentences[k]);
    }
    assert sentences[..|sentences|] == sentences;
    p := Flush(p);
    result := p.done;
  }

  /** `splitByCharLimit` */
  method SplitByCharLimit(text: Text) returns (chunks: seq<Text>)
    ensures chunks == Cut(text)
  {
    var limit := CUT_LIMIT;
    chunks := [];
    var remaining := Trim(text);
    while |remaining| > limit
      invariant chunks + CutFrom(remaining, limit) == Cut(text)
      decreases |remaining|
    {
      ghost var rest := CutFrom(TrimStart(remaining[limit..]), limit);
      assert chunks + ([remaining[..limit]] + rest) == chunks + [remaining[..limit]] + rest;
      chunks := chunks + [remaining[..limit]];
      remaining := TrimStart(remaining[limit..]);
    }
    if remaining != [] {
      chunks := chunks + [remaining];
    }
  }

  /** `splitSentences`, from its first match on. */
  method SplitSentences(text: Text) returns (sentences: seq<Text>)
    ensures sentences == Sentences(text)
  {
    var i := NextOrdinary(text, 0);
    if i == |text| {
      return [text];
    }
    sentences := [];
    while i < |text|
      invariant i <= |text| && (i < |text| ==> !Terminator(text[i]))
      invariant sentences + SentencesFrom(text, i) == Sentences(text)
    {
      var end := NextOrdinary(text, NextTerminator(text, i));
      assert sentences + ([text[i..end]] + SentencesFrom(text, end)) == sentences + [text[i..end]] + SentencesFrom(text, end);
      sentences := sentences + [text[i..end]];
      i := end;
    }
  }

  /** The paragraph loop of `splitLargeSection`. */
  method SplitByParagraphs(paragraphs: seq<Text>) returns (result: seq<Text>)
    ensures result == Flush(PackParagraphs(paragraphs)).done
  {
    var p := START;
    for k := 0 to |paragraphs|
      invariant p == PackParagraphs(paragraphs[..k])
    {
      assert paragraphs[..k + 1][..k] == paragraphs[..k];
      if Tokens(paragraphs[k]) > MAX_CHUNK_TOKENS {
        p := Flush(p);
        var fragments := SplitBySentences(paragraphs[k]);
        p := p.(done := p.done + fragments);
        continue;
      }
      if p.buffer != [] && p.tokens + Tokens(paragraphs[k]) > MAX_CHUNK_TOKENS {
        p := Flush(p);
      }
      p := Append(p, BLANK_LINE, paragraphs[k]);
    }
    assert paragraphs[..|paragraphs|] == paragraphs;
    p := Flush(p);
    result := p.done;
  }

  method Split(section: Section, strip: Text -> Text) returns (result: seq<Section>)
    ensures result == SplitLargeSection(section, strip)
  {
    if Tokens(section.content) <= MAX_CHUNK_TOKENS {
      return [section];
    }
    var paragraphs := Paragraphs(section.raw);
    if |paragraphs| <= 1 {
      var raws := SplitBySentences(section.raw);
      return if raws == [] then [section.(rank := 0)] else AsSections(section, strip, raws);
    }
    var raws := SplitByParagraphs(paragraphs);
    return if raws == [] then [section] else AsSections(section, strip, raws);
  }

  // ---------------------------------------------------------------- the whole document

  /** A line and what the two patterns say about it: a code fence, or a heading with its level and title. */
  datatype Source = Source(text: Text, fence: bool, heading: Option<(nat, Text)>)

  /** The variables of the loop between two lines, and the sections flushed so far, none of them split yet. */
  datatype Reading = Reading(bases: seq<Section>, buffer: seq<Text>, heading: Option<Text>, level: nat, inFence: bool)

  const FIRST_LINE := Reading([], [], None, 0, false)

  function JoinLines(lines: seq<Text>): Text {
    if lines == [] then []
    else if |lines| == 1 then lines[0]
    else JoinLines(lines[..|lines| - 1]) + [NEWLINE] + lines[|lines| - 1]
  }

  /** A flush: a section without a body, or stripped to nothing under no heading, is no section. */
  function Finish(r: Reading, strip: Text -> Text): Reading {
    var raw := Trim(JoinLines(r.buffer));
    if raw == [] || (strip(raw) == [] && r.heading.None?) then r.(buffer := [])
    else r.(buffer := [], bases := r.bases + [Section(r.heading, r.level, strip(raw), raw, 0)])
  }

  /** Inside a fence a heading line is text like any other. */
  function ReadLine(r: Reading, line: Source, strip: Text -> Text): Reading {
    if line.fence then r.(buffer := r.buffer + [line.text], inFence := !r.inFence)
    else if r.inFence || line.heading.None? then r.(buffer := r.buffer + [line.text])
    else Finish(r, strip).(heading := Some(line.heading.value.1), level := line.heading.value.0)
  }

  function ReadLines(lines: seq<Source>, strip: Text -> Text): Reading {
    if lines == [] then FIRST_LINE else ReadLine(ReadLines(lines[..|lines| - 1], strip), lines[|lines| - 1], strip)
  }

  /** The sections of a document before any of them is split. */
  function BaseSections(lines: seq<Source>, strip: Text -> Text): seq<Section> {
    Finish(ReadLines(lines, strip), strip).bases
  }

  /** The pieces of all sections, numbered through. */
  function Numbered(bases: seq<Section>, strip: Text -> Text): seq<Section> {
    if bases == [] then []
    else
      var front := Numbered(bases[..|bases| - 1], strip);
      front + Renumbered(SplitLargeSection(bases[|bases| - 1], strip), |front|)
  }

  function Renumbered(pieces: seq<Section>, from: nat): seq<Section> {
    seq(|pieces|, k requires 0 <= k < |pieces| => pieces[k].(rank := from + k))
  }

  /** `chunkMarkdown` as an object: the variables its loop and its flush closure share. */
  class MarkdownChunker {
    const strip: Text -> Text
    var buffer: seq<Text>
    var currentHeading: Option<Text>
    var currentLevel: nat
    var inFence: bool
    var rank: nat
    var sections: seq<Section>

    /** The sections flushed so far, before they were split. */
    ghost var bases: seq<Section>

    ghost predicate Valid()
      reads this
    {
      sections == Numbered(bases, strip) && rank == |sections|
    }

    ghost function State(): Reading
      reads this
    {
      Reading(bases, buffer, currentHeading, currentLevel, inFence)
    }

    constructor (stripMarkdown: Text -> Text)
      ensures Valid() && strip == stripMarkdown && State() == FIRST_LINE
    {
      strip, buffer, currentHeading, currentLevel, inFence := stripMarkdown, [], None, 0, false;
      rank, sections, bases := 0, [], [];
    }

    method Flush()
      requires Valid()
      modifies this
      ensures Valid() && State() == Finish(old(State()), strip)
    {
      var raw := Trim(JoinLines(buffer));
      buffer := [];
      if raw == [] {
        return;
      }
      var body := strip(raw);
      if body == [] && currentHeading.None? {
        return;
      }
      var base := Section(currentHeading, currentLevel, body, raw, rank);
      var pieces := Split(base, strip);
      RankIsReassigned(base, 0, strip);
      ghost var known := bases;
      bases := bases + [base.(rank := 0)];
      assert bases[..|bases| - 1] == known;
      sections := sections + Renumbered(pieces, rank);
      rank := rank + |pieces|;
    }

    /** The loop over the lines, and the last flush. */
    method Chunk(lines: seq<Source>)
      requires Valid() && State() == FIRST_LINE
      modifies this
      ensures Valid() && bases == BaseSections(lines, strip)
    {
      for k := 0 to |lines|
        invariant Valid() && State() == ReadLines(lines[..k], strip)
      {
        var line := lines[k];
        assert lines[..k + 1][..k] == lines[..k];
        if line.fence {
          inFence := !inFence;
          buffer := buffer + [line.text];
          continue;
        }
        if inFence {
          buffer := buffer + [line.text];
          continue;
        }
        if line.heading.Some? {
          Flush();
          currentHeading := Some(line.heading.value.1);
          currentLevel := line.heading.value.0;
        } else {
          buffer := buffer + [line.text];
        }
      }
      assert lines[..|lines|] == lines;
      Flush();
    }
  }

  /** Renumbering forgets the rank a section came with. */
  lemma RankIsReassigned(base: Section, other: nat, strip: Text -> Text)
    ensures forall from: nat ::
      Renumbered(SplitLargeSection(base, strip), from) == Renumbered(SplitLargeSection(base.(rank := other), strip), from)
  {
    var a, b := SplitLargeSection(base, strip), SplitLargeSection(base.(rank := other), strip);
    assert |a| == |b| && forall k | 0 <= k < |a| :: a[k].(rank := 0) == b[k].(rank := 0);
  }
}
