/**
 Where the sections of a document come from: each is the text between two headings, in the
 order of the document, with the heading it stands under.
 */
module DocumentSections {
  import opened ChunkText
  import opened Chunking
  import opened DocumentText
  import opened Wrappers

  /** The line at k is a heading: no fence, and outside of one. */
  ghost predicate HeadingAt(lines: seq<Source>, k: nat) {
    k < |lines| && IsHeading(lines[..k], lines[k])
  }

  /** The lines from `from` up to `to` are all that stand between two headings, or an end of the document. */
  ghost predicate Stretch(lines: seq<Source>, from: nat, to: nat) {
    && from <= to <= |lines|
    && (from == 0 || HeadingAt(lines, from - 1)) && (to == |lines| || HeadingAt(lines, to))
    && forall k | from <= k < to :: !HeadingAt(lines, k)
  }

  function TextsOf(lines: seq<Source>): seq<Text> {
    seq(|lines|, k requires 0 <= k < |lines| => lines[k].text)
  }

  function Raw(lines: seq<Source>, from: nat, to: nat): Text
    requires from <= to <= |lines|
  {
    Trim(JoinLines(TextsOf(lines[from..to])))
  }

  /** The stretch has a section of its own: there is text in it and, in front of the first heading, text that is not stripped to nothing. */
  ghost predicate Kept(lines: seq<Source>, from: nat, to: nat, strip: Text -> Text)
    requires from <= to <= |lines|
  {
    Raw(lines, from, to) != [] && (from == 0 ==> strip(Raw(lines, from, to)) != [])
  }

  /** The section has the text of the stretch, and level and title of the heading in front of it. */
  ghost predicate SectionOf(lines: seq<Source>, from: nat, to: nat, strip: Text -> Text, s: Section)
    requires from <= to <= |lines| && (from > 0 ==> HeadingAt(lines, from - 1))
  {
    && s.raw == Raw(lines, from, to) && s.content == strip(s.raw) && s.rank == 0
    && (if from == 0 then s.heading == None && s.level == 0
        else s.heading == Some(lines[from - 1].heading.value.1) && s.level == lines[from - 1].heading.value.0)
  }

  datatype Place = Place(from: nat, to: nat)

  /** The sections are those of these stretches that are kept, in order; all end before `limit`. */
  ghost predicate LaidOut(lines: seq<Source>, limit: nat, bases: seq<Section>, places: seq<Place>, strip: Text -> Text) {
    && |places| == |bases|
    && (forall k | 0 <= k < |places| :: SectionAt(lines, limit, bases[k], places[k], strip))
    && (forall i, k | 0 <= i < k < |places| :: places[i].to < places[k].from)
    && (forall p: Place :: KeptPlace(lines, limit, p, strip) ==> p in places)
  }

  ghost predicate KeptPlace(lines: seq<Source>, limit: nat, p: Place, strip: Text -> Text) {
    Stretch(lines, p.from, p.to) && p.to < limit && Kept(lines, p.from, p.to, strip)
  }

  ghost predicate SectionAt(lines: seq<Source>, limit: nat, s: Section, p: Place, strip: Text -> Text) {
    KeptPlace(lines, limit, p, strip) && SectionOf(lines, p.from, p.to, strip, s)
  }

  // ---------------------------------------------------------------- one more line

  lemma HeadingOfLonger(front: seq<Source>, line: Source, k: nat)
    ensures HeadingAt(front + [line], k) <==> HeadingAt(front, k) || (k == |front| && IsHeading(front, line))
  {
    if k < |front| {
      assert (front + [line])[..k] == front[..k];
    } else if k == |front| {
      assert (front + [line])[..k] == front;
    }
  }

  /** A stretch that a heading ends is one also when more lines come. */
  lemma StretchOfLonger(front: seq<Source>, line: Source, from: nat, to: nat)
    requires to < |front|
    ensures Stretch(front + [line], from, to) <==> Stretch(front, from, to)
  {
    forall k: nat
      ensures k < |front| ==> (HeadingAt(front + [line], k) <==> HeadingAt(front, k))
    {
      HeadingOfLonger(front, line, k);
    }
  }

  lemma RawOfLonger(front: seq<Source>, line: Source, from: nat, to: nat)
    requires from <= to <= |front|
    ensures Raw(front + [line], from, to) == Raw(front, from, to)
  {
    assert (front + [line])[from..to] == front[from..to];
  }

  lemma PlaceOfLonger(front: seq<Source>, line: Source, p: Place, strip: Text -> Text)
    ensures KeptPlace(front + [line], |front|, p, strip) <==> KeptPlace(front, |front|, p, strip)
  {
    if p.to < |front| {
      StretchOfLonger(front, line, p.from, p.to);
      if p.from <= p.to {
        RawOfLonger(front, line, p.from, p.to);
      }
    }
  }

  lemma SectionOfLonger(front: seq<Source>, line: Source, s: Section, p: Place, strip: Text -> Text)
    requires SectionAt(front, |front|, s, p, strip)
    ensures SectionAt(front + [line], |front|, s, p, strip)
  {
    PlaceOfLonger(front, line, p, strip);
    RawOfLonger(front, line, p.from, p.to);
    if p.from > 0 {
      HeadingOfLonger(front, line, p.from - 1);
    }
  }

  lemma LaidOutLonger(front: seq<Source>, line: Source, bases: seq<Section>, places: seq<Place>, strip: Text -> Text)
    requires LaidOut(front, |front|, bases, places, strip)
    ensures LaidOut(front + [line], |front|, bases, places, strip)
  {
    forall k | 0 <= k < |places|
      ensures SectionAt(front + [line], |front|, bases[k], places[k], strip)
    {
      SectionOfLonger(front, line, bases[k], places[k], strip);
    }
    forall p: Place | KeptPlace(front + [line], |front|, p, strip)
      ensures p in places
    {
      PlaceOfLonger(front, line, p, strip);
    }
  }

  // ---------------------------------------------------------------- the open stretch

  /** The buffer has the lines since the last heading, and the loop has that heading. */
  ghost predicate Open(lines: seq<Source>, r: Reading, from: nat) {
    && Stretch(lines, from, |lines|) && r.buffer == TextsOf(lines[from..])
    && (if from == 0 then r.heading == None && r.level == 0
        else r.heading == Some(lines[from - 1].heading.value.1) && r.level == lines[from - 1].heading.value.0)
  }

  /** Behind the limit that a heading at n sets there is only the stretch it ends. */
  lemma OnlyOneEndsHere(lines: seq<Source>, n: nat, from: nat, p: Place)
    requires n <= |lines| && Stretch(lines, from, n) && Stretch(lines, p.from, p.to) && p.to < n + 1
    ensures p.to == n ==> p.from == from
    ensures p.to != n ==> p.to < from
  {
    if p.to != n {
      assert HeadingAt(lines, p.to);
      assert p.to < from;
    }
  }

  /** The flush in front of place n adds the section of the stretch that ends there, if it is kept. */
  lemma FlushLaysOut(lines: seq<Source>, n: nat, r: Reading, from: nat, places: seq<Place>, strip: Text -> Text)
    returns (more: seq<Place>)
    requires n <= |lines| && Stretch(lines, from, n) && r.buffer == TextsOf(lines[from..n])
    requires if from == 0 then r.heading == None && r.level == 0
             else r.heading == Some(lines[from - 1].heading.value.1) && r.level == lines[from - 1].heading.value.0
    requires LaidOut(lines, n, r.bases, places, strip)
    ensures LaidOut(lines, n + 1, Finish(r, strip).bases, more, strip)
  {
    var here, limit := Place(from, n), n + 1;
    var raw := Raw(lines, from, n);
    assert raw == Trim(JoinLines(r.buffer));
    forall p: Place | KeptPlace(lines, limit, p, strip)
      ensures p == here || KeptPlace(lines, n, p, strip)
    {
      OnlyOneEndsHere(lines, n, from, p);
    }
    forall k | 0 <= k < |places|
      ensures SectionAt(lines, limit, r.bases[k], places[k], strip) && places[k].to < from
    {
      assert SectionAt(lines, n, r.bases[k], places[k], strip);
      OnlyOneEndsHere(lines, n, from, places[k]);
    }
    if Kept(lines, from, n, strip) {
      more := places + [here];
      var s := Section(r.heading, r.level, strip(raw), raw, 0);
      assert Finish(r, strip).bases == r.bases + [s];
      assert SectionAt(lines, limit, s, here, strip);
    } else {
      more := places;
      assert Finish(r, strip).bases == r.bases;
      assert !KeptPlace(lines, limit, here, strip);
    }
  }

  lemma StretchGrows(front: seq<Source>, line: Source, from: nat)
    requires Stretch(front, from, |front|) && !IsHeading(front, line)
    ensures Stretch(front + [line], from, |front| + 1)
  {
    forall k: nat
      ensures HeadingAt(front + [line], k) <==> HeadingAt(front, k)
    {
      HeadingOfLonger(front, line, k);
    }
  }

  lemma StretchEnds(front: seq<Source>, line: Source, from: nat)
    requires Stretch(front, from, |front|) && IsHeading(front, line)
    ensures Stretch(front + [line], from, |front|) && Stretch(front + [line], |front| + 1, |front| + 1)
  {
    forall k: nat
      ensures HeadingAt(front + [line], k) <==> HeadingAt(front, k) || k == |front|
    {
      HeadingOfLonger(front, line, k);
    }
  }

  /** A line that is no heading ends no stretch. */
  lemma NothingEndsHere(front: seq<Source>, line: Source, bases: seq<Section>, places: seq<Place>, strip: Text -> Text)
    requires LaidOut(front + [line], |front|, bases, places, strip) && !IsHeading(front, line)
    ensures LaidOut(front + [line], |front| + 1, bases, places, strip)
  {
    var lines, limit := front + [line], |front| + 1;
    HeadingOfLonger(front, line, |front|);
    forall p: Place | KeptPlace(lines, limit, p, strip)
      ensures p in places
    {
      assert p.to != |front|;
      assert KeptPlace(lines, |front|, p, strip);
    }
    forall k | 0 <= k < |places|
      ensures SectionAt(lines, limit, bases[k], places[k], strip)
    {
      assert SectionAt(lines, |front|, bases[k], places[k], strip);
    }
  }

  lemma TextGrows(front: seq<Source>, line: Source, r: Reading, from: nat)
    requires Open(front, r, from) && !IsHeading(front, line)
    ensures Open(front + [line], r.(buffer := r.buffer + [line.text]), from)
  {
    var lines := front + [line];
    StretchGrows(front, line, from);
    assert lines[from..] == front[from..] + [line];
    assert TextsOf(lines[from..]) == TextsOf(front[from..]) + [line.text];
  }

  ghost predicate LaidOutSoFar(lines: seq<Source>, r: Reading, from: nat, places: seq<Place>, strip: Text -> Text) {
    Open(lines, r, from) && LaidOut(lines, |lines|, r.bases, places, strip)
  }

  lemma HeadingLaysOut(front: seq<Source>, line: Source, r: Reading, from: nat, places: seq<Place>, strip: Text -> Text)
    returns (more: seq<Place>)
    requires LaidOutSoFar(front, r, from, places, strip) && IsHeading(front, line)
    ensures LaidOutSoFar(front + [line], Finish(r, strip).(heading := Some(line.heading.value.1), level := line.heading.value.0),
                         |front| + 1, more, strip)
  {
    var lines, n := front + [line], |front| + 1;
    LaidOutLonger(front, line, r.bases, places, strip);
    StretchEnds(front, line, from);
    assert lines[from..|front|] == front[from..];
    assert from > 0 ==> lines[from - 1] == front[from - 1];
    more := FlushLaysOut(lines, |front|, r, from, places, strip);
    assert TextsOf(lines[n..]) == [];
  }

  lemma TextLaysOut(front: seq<Source>, line: Source, r: Reading, from: nat, places: seq<Place>, strip: Text -> Text)
    requires LaidOutSoFar(front, r, from, places, strip) && !IsHeading(front, line)
    ensures LaidOutSoFar(front + [line], r.(buffer := r.buffer + [line.text]), from, places, strip)
  {
    LaidOutLonger(front, line, r.bases, places, strip);
    TextGrows(front, line, r, from);
    NothingEndsHere(front, line, r.bases, places, strip);
  }

  lemma FenceDoesNotMatter(lines: seq<Source>, r: Reading, q: Reading, from: nat, places: seq<Place>, strip: Text -> Text)
    requires LaidOutSoFar(lines, r, from, places, strip) && q == r.(inFence := q.inFence)
    ensures LaidOutSoFar(lines, q, from, places, strip)
  {}

  /** The loop has laid out the stretches that a heading has ended, and its buffer is the one since the last heading. */
  lemma {:induction false} ReadingLaysOut(lines: seq<Source>, strip: Text -> Text) returns (from: nat, places: seq<Place>)
    ensures LaidOutSoFar(lines, ReadLines(lines, strip), from, places, strip)
    decreases |lines|
  {
    if lines == [] {
      from, places := 0, [];
      assert TextsOf(lines[0..]) == [];
    } else {
      var front, line := lines[..|lines| - 1], lines[|lines| - 1];
      var r := ReadLines(front, strip);
      assert lines == front + [line];
      from, places := ReadingLaysOut(front, strip);
      LinesAreRead(front, strip);
      var after := ReadLine(r, line, strip);
      if IsHeading(front, line) {
        places := HeadingLaysOut(front, line, r, from, places, strip);
        from := |lines|;
      } else {
        TextLaysOut(front, line, r, from, places, strip);
        FenceDoesNotMatter(lines, r.(buffer := r.buffer + [line.text]), after, from, places, strip);
      }
    }
  }

  /**
   The sections of a document, before any is split, are its stretches between headings, in order:
   each with the trimmed text of its lines, and level and title of the heading in front of it. None
   is left out but those without text, and a text in front of the first heading that is stripped to nothing.
   */
  lemma SectionsAreStretches(lines: seq<Source>, strip: Text -> Text) returns (places: seq<Place>)
    ensures LaidOut(lines, |lines| + 1, BaseSections(lines, strip), places, strip)
  {
    var r := ReadLines(lines, strip);
    var from, before := ReadingLaysOut(lines, strip);
    assert lines[from..|lines|] == lines[from..];
    places := FlushLaysOut(lines, |lines|, r, from, before, strip);
  }

  // ---------------------------------------------------------------- the finished sections

  ghost predicate Stripped(sections: seq<Section>, strip: Text -> Text) {
    forall k | 0 <= k < |sections| :: sections[k].content == strip(sections[k].raw)
  }

  lemma {:induction false} NumberedAreStripped(bases: seq<Section>, strip: Text -> Text)
    requires Stripped(bases, strip)
    ensures Stripped(Numbered(bases, strip), strip)
  {
    if bases != [] {
      var front, last := bases[..|bases| - 1], bases[|bases| - 1];
      NumberedAreStripped(front, strip);
      var pieces := SplitLargeSection(last, strip);
      assert Stripped(pieces, strip);
      assert Stripped(Renumbered(pieces, |Numbered(front, strip)|), strip);
    }
  }

  /** In every section of a document, split or not, the content is its own raw text without the markup. */
  lemma ContentsAreStripped(lines: seq<Source>, strip: Text -> Text)
    ensures Stripped(Numbered(BaseSections(lines, strip), strip), strip)
  {
    var bases := BaseSections(lines, strip);
    var places := SectionsAreStretches(lines, strip);
    forall k | 0 <= k < |bases|
      ensures bases[k].content == strip(bases[k].raw)
    {
      assert SectionAt(lines, |lines| + 1, bases[k], places[k], strip);
    }
    NumberedAreStripped(bases, strip);
  }
}
