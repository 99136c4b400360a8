/**
 What becomes of the text of a document: the lines that are no headings arrive, in order, in
 the sections, but for a text in front of the first heading that is stripped to nothing; and in
 the chunks, if no section loses an opening terminator.
 */
module DocumentText {
  import opened ChunkText
  import opened Chunking
  import opened ChunkingTheorems
  import opened Wrappers

  /** After these lines a fence is open. */
  predicate FenceOpen(lines: seq<Source>) {
    lines != [] && FenceOpen(lines[..|lines| - 1]) != lines[|lines| - 1].fence
  }

  /** The line, behind those lines, is a heading: neither a fence nor inside one. */
  predicate IsHeading(before: seq<Source>, line: Source) {
    !line.fence && !FenceOpen(before) && line.heading.Some?
  }

  predicate AnyHeading(lines: seq<Source>) {
    lines != [] && (AnyHeading(lines[..|lines| - 1]) || IsHeading(lines[..|lines| - 1], lines[|lines| - 1]))
  }

  /** The lines in front of the first heading. */
  function Preamble(lines: seq<Source>): seq<Text> {
    if lines == [] then []
    else
      var front, last := lines[..|lines| - 1], lines[|lines| - 1];
      Preamble(front) + if AnyHeading(lines) then [] else [last.text]
  }

  /** The lines behind the first heading that are no headings themselves. */
  function Body(lines: seq<Source>): seq<Text> {
    if lines == [] then []
    else
      var front, last := lines[..|lines| - 1], lines[|lines| - 1];
      Body(front) + if AnyHeading(front) && !IsHeading(front, last) then [last.text] else []
  }

  function Raws(bases: seq<Section>): seq<Text> {
    seq(|bases|, k requires 0 <= k < |bases| => bases[k].raw)
  }

  // ---------------------------------------------------------------- one flush

  lemma {:induction false} JoinKeeps(lines: seq<Text>)
    ensures Substance(JoinLines(lines)) == SubstanceOf(lines)
  {
    if |lines| == 1 {
      SubstanceOne(lines[0]);
      assert lines == [lines[0]];
    } else if lines != [] {
      var front, last := lines[..|lines| - 1], lines[|lines| - 1];
      var joined := JoinLines(front);
      JoinKeeps(front);
      SubstanceJoin(joined, [NEWLINE]);
      SubstanceJoin(joined + [NEWLINE], last);
      assert [NEWLINE][1..] == [] && Substance([NEWLINE]) == [];
      assert Substance(joined) + [] == Substance(joined);
    }
  }

  /** The flush drops the buffer for good only in front of the first heading, when it is stripped to nothing. */
  predicate Dropped(buffer: seq<Text>, heading: Option<Text>, strip: Text -> Text) {
    heading.None? && strip(Trim(JoinLines(buffer))) == []
  }

  lemma FinishKeeps(r: Reading, strip: Text -> Text)
    ensures SubstanceOf(Raws(Finish(r, strip).bases))
         == SubstanceOf(Raws(r.bases)) + if Dropped(r.buffer, r.heading, strip) then [] else SubstanceOf(r.buffer)
  {
    var after := Finish(r, strip);
    var raw := Trim(JoinLines(r.buffer));
    JoinKeeps(r.buffer);
    TrimKeeps(JoinLines(r.buffer));
    if after.bases != r.bases {
      assert Raws(after.bases) == Raws(r.bases) + [raw];
      SubstanceSnoc(Raws(r.bases), raw);
    } else {
      assert SubstanceOf(Raws(r.bases)) + [] == SubstanceOf(Raws(r.bases));
    }
  }

  // ---------------------------------------------------------------- line by line

  /** What the sections and the buffer hold when the loop has read these lines. */
  ghost predicate HasRead(lines: seq<Source>, r: Reading, strip: Text -> Text) {
    && r.inFence == FenceOpen(lines)
    && (r.heading.None? <==> !AnyHeading(lines))
    && (!AnyHeading(lines) ==> r.bases == [] && r.buffer == Preamble(lines) && Body(lines) == [])
    && (AnyHeading(lines) ==> SubstanceOf(Raws(r.bases)) + SubstanceOf(r.buffer) == Arriving(lines, strip))
  }

  /** The text that arrives: the preamble, unless it is stripped to nothing, and the body. */
  function Arriving(lines: seq<Source>, strip: Text -> Text): Text {
    (if Dropped(Preamble(lines), None, strip) then [] else SubstanceOf(Preamble(lines))) + SubstanceOf(Body(lines))
  }

  lemma TextIsRead(front: seq<Source>, line: Source, r: Reading, strip: Text -> Text)
    requires HasRead(front, r, strip) && !IsHeading(front, line)
    ensures HasRead(front + [line], ReadLine(r, line, strip), strip)
  {
    var lines := front + [line];
    assert lines[..|front|] == front;
    assert ReadLine(r, line, strip).buffer == r.buffer + [line.text];
    if AnyHeading(front) {
      SubstanceSnoc(r.buffer, line.text);
      SubstanceSnoc(Body(front), line.text);
      assert Preamble(lines) == Preamble(front) + [] == Preamble(front);
      TailsAgree(SubstanceOf(Raws(r.bases)), SubstanceOf(r.buffer),
                 if Dropped(Preamble(front), None, strip) then [] else SubstanceOf(Preamble(front)),
                 SubstanceOf(Body(front)), Substance(line.text));
    } else {
      assert Body(lines) == Body(front) + [] == Body(front);
    }
  }

  lemma TailsAgree(a: Text, b: Text, c: Text, d: Text, e: Text)
    requires a + b == c + d
    ensures a + (b + e) == c + (d + e)
  {
    assert a + (b + e) == a + b + e;
    assert c + (d + e) == c + d + e;
  }

  lemma HeadingIsRead(front: seq<Source>, line: Source, r: Reading, strip: Text -> Text)
    requires HasRead(front, r, strip) && IsHeading(front, line)
    ensures HasRead(front + [line], ReadLine(r, line, strip), strip)
  {
    var lines := front + [line];
    assert lines[..|front|] == front;
    var after := ReadLine(r, line, strip);
    FinishKeeps(r, strip);
    assert after.buffer == [] && after.bases == Finish(r, strip).bases;
    assert Preamble(lines) == Preamble(front) + [] == Preamble(front);
    assert Body(lines) == Body(front) + [] == Body(front);
    assert SubstanceOf(Raws(after.bases)) + SubstanceOf([]) == SubstanceOf(Raws(after.bases));
    if !AnyHeading(front) {
      assert SubstanceOf(Raws(after.bases)) == if Dropped(Preamble(front), None, strip) then [] else SubstanceOf(Preamble(front));
    }
  }

  lemma {:induction false} LinesAreRead(lines: seq<Source>, strip: Text -> Text)
    ensures HasRead(lines, ReadLines(lines, strip), strip)
  {
    if lines != [] {
      var front, last := lines[..|lines| - 1], lines[|lines| - 1];
      LinesAreRead(front, strip);
      assert lines == front + [last];
      if IsHeading(front, last) {
        HeadingIsRead(front, last, ReadLines(front, strip), strip);
      } else {
        TextIsRead(front, last, ReadLines(front, strip), strip);
      }
    }
  }

  /**
   The sections of a document hold exactly the text of its lines that are no headings, in order
   and once, but for a preamble that is stripped to nothing.
   */
  lemma DocumentKeepsText(lines: seq<Source>, strip: Text -> Text)
    ensures SubstanceOf(Raws(BaseSections(lines, strip))) == Arriving(lines, strip)
  {
    var r := ReadLines(lines, strip);
    LinesAreRead(lines, strip);
    FinishKeeps(r, strip);
    if !AnyHeading(lines) {
      assert SubstanceOf(Raws(r.bases)) == [];
      assert Arriving(lines, strip) == (if Dropped(Preamble(lines), None, strip) then [] else SubstanceOf(Preamble(lines))) + [];
    }
  }

  // ---------------------------------------------------------------- from the lines to the chunks

  /** The section is cut, and opens with terminators where that loses them. */
  ghost predicate LosesText(section: Section) {
    && Tokens(section.content) > MAX_CHUNK_TOKENS
    && if |Paragraphs(section.raw)| <= 1 then OpensWithTerminator(section.raw)
       else !NoneLosesOpening(Paragraphs(section.raw))
  }

  lemma FragmentsNoLonger(raw: Text)
    requires Tight(raw)
    ensures |SubstanceOf(RawFragments(raw))| <= |Substance(raw)|
    ensures |SubstanceOf(RawFragments(raw))| == |Substance(raw)| <==> SubstanceOf(RawFragments(raw)) == Substance(raw)
  {
    FragmentsKeepText(raw);
    SaidKeepsIff(raw);
    PartsAreTight(SplitAtBlankLines(raw));
    AllPassedKeepIff(Paragraphs(raw));
    ParagraphsKeep(raw);
  }

  /** What becomes of one section. */
  lemma SectionKeeps(section: Section, strip: Text -> Text)
    requires Tight(section.raw)
    ensures var kept := SubstanceOf(Raws(SplitLargeSection(section, strip))); var text := Substance(section.raw);
      |kept| <= |text| && (|kept| == |text| <==> !LosesText(section)) && (!LosesText(section) ==> kept == text)
  {
    var pieces := SplitLargeSection(section, strip);
    if Tokens(section.content) <= MAX_CHUNK_TOKENS {
      assert Raws(pieces) == [section.raw];
      SubstanceOne(section.raw);
    } else {
      TightHasFragments(section.raw);
      assert Raws(pieces) == RawFragments(section.raw);
      FragmentsNoLonger(section.raw);
      NothingLost(section.raw);
    }
  }

  ghost predicate NoneLosesText(bases: seq<Section>) {
    forall k | 0 <= k < |bases| :: !LosesText(bases[k])
  }

  lemma NoneLosesOneMore(front: seq<Section>, last: Section)
    ensures NoneLosesText(front + [last]) <==> NoneLosesText(front) && !LosesText(last)
  {
    var all := front + [last];
    assert all[|front|] == last;
    assert forall k | 0 <= k < |front| :: all[k] == front[k];
  }

  lemma RawsOfOneMore(front: seq<Section>, last: Section, strip: Text -> Text)
    ensures SubstanceOf(Raws(front + [last])) == SubstanceOf(Raws(front)) + Substance(last.raw)
    ensures SubstanceOf(Raws(Numbered(front + [last], strip)))
         == SubstanceOf(Raws(Numbered(front, strip))) + SubstanceOf(Raws(SplitLargeSection(last, strip)))
  {
    var numbered, pieces := Numbered(front, strip), SplitLargeSection(last, strip);
    NumberedUnfolds(front + [last], front, last, strip);
    RawsJoin(front, [last]);
    assert Raws([last]) == [last.raw];
    SubstanceSnoc(Raws(front), last.raw);
    RawsJoin(numbered, Renumbered(pieces, |numbered|));
    RawsStay(pieces, |numbered|);
    SubstanceOfJoin(Raws(numbered), Raws(pieces));
  }

  lemma RawsJoin(a: seq<Section>, b: seq<Section>)
    ensures Raws(a + b) == Raws(a) + Raws(b)
  {}

  lemma RawsStay(pieces: seq<Section>, from: nat)
    ensures Raws(Renumbered(pieces, from)) == Raws(pieces)
  {}

  lemma {:induction false} SectionsKeep(bases: seq<Section>, strip: Text -> Text)
    requires AllTight(bases)
    ensures var kept := SubstanceOf(Raws(Numbered(bases, strip))); var text := SubstanceOf(Raws(bases));
      |kept| <= |text| && (|kept| == |text| <==> NoneLosesText(bases)) && (NoneLosesText(bases) ==> kept == text)
    decreases |bases|
  {
    if bases != [] {
      var front, last := bases[..|bases| - 1], bases[|bases| - 1];
      assert AllTight(front) by {
        assert forall k | 0 <= k < |front| :: front[k] == bases[k];
      }
      assert bases == front + [last];
      SectionsKeep(front, strip);
      SectionKeeps(last, strip);
      RawsOfOneMore(front, last, strip);
      NoneLosesOneMore(front, last);
    }
  }

  /**
   From the lines of a document to its chunks: the text that arrives in the sections arrives in
   the chunks, in order and once, if and only if no section loses text when it is cut.
   */
  lemma ChunksKeepTextIff(lines: seq<Source>, strip: Text -> Text)
    ensures SubstanceOf(Raws(Numbered(BaseSections(lines, strip), strip))) == Arriving(lines, strip)
       <==> NoneLosesText(BaseSections(lines, strip))
  {
    DocumentKeepsText(lines, strip);
    BaseSectionsTight(lines, strip);
    SectionsKeep(BaseSections(lines, strip), strip);
  }
}
