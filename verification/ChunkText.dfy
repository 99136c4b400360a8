/**
 Text as the chunker handles it: UTF-16 code units, what counts as whitespace, what ends a
 sentence, and the pieces that paragraphs, sentences and the hard cut make of it.
 */
module ChunkText {

  type Text = seq<nat>

  const NEWLINE := 0x0A
  const SPACE := 0x20

  const MAX_CHUNK_TOKENS := 480

  /** `estimateTokens`: code units over four, rounded up. */
  function Tokens(t: Text): nat {
    (|t| + 3) / 4
  }

  /** Whitespace as `trim` removes it. */
  predicate Blank(u: nat) {
    || 0x09 <= u <= 0x0D || u == SPACE || u == 0xA0 || u == 0x1680 || 0x2000 <= u <= 0x200A
    || u == 0x2028 || u == 0x2029 || u == 0x202F || u == 0x205F || u == 0x3000 || u == 0xFEFF
  }

  /** `[。！？!?.\n]` */
  predicate Terminator(u: nat) {
    u == 0x3002 || u == 0xFF01 || u == 0xFF1F || u == 0x21 || u == 0x3F || u == 0x2E || u == NEWLINE
  }

  // ---------------------------------------------------------------- substance

  /** The text without its whitespace: what no splitting may lose, repeat or reorder. */
  function Substance(t: Text): Text {
    if t == [] then [] else (if Blank(t[0]) then [] else [t[0]]) + Substance(t[1..])
  }

  lemma {:induction false} SubstanceJoin(a: Text, b: Text)
    ensures Substance(a + b) == Substance(a) + Substance(b)
    decreases |a|
  {
    if a == [] {
      assert a + b == b;
    } else {
      assert (a + b)[1..] == a[1..] + b;
      SubstanceJoin(a[1..], b);
    }
  }

  /** The substance of several pieces, in order. */
  function SubstanceOf(parts: seq<Text>): Text {
    if parts == [] then [] else SubstanceOf(parts[..|parts| - 1]) + Substance(parts[|parts| - 1])
  }

  lemma SubstanceSnoc(parts: seq<Text>, last: Text)
    ensures SubstanceOf(parts + [last]) == SubstanceOf(parts) + Substance(last)
  {
    assert (parts + [last])[..|parts|] == parts;
  }

  lemma {:induction false} SubstanceOfJoin(a: seq<Text>, b: seq<Text>)
    ensures SubstanceOf(a + b) == SubstanceOf(a) + SubstanceOf(b)
    decreases |b|
  {
    if b == [] {
      assert a + b == a;
    } else {
      var front, last := b[..|b| - 1], b[|b| - 1];
      SubstanceOfJoin(a, front);
      SubstanceSnoc(a + front, last);
      SubstanceSnoc(front, last);
      assert b == front + [last] && a + b == a + front + [last];
      var x, y, z := SubstanceOf(a), SubstanceOf(front), Substance(last);
      assert x + y + z == x + (y + z);
    }
  }

  // ---------------------------------------------------------------- trimming

  function TrimStart(t: Text): (r: Text)
    ensures |r| <= |t| && (r != [] ==> !Blank(r[0]))
  {
    if t != [] && Blank(t[0]) then TrimStart(t[1..]) else t
  }

  function TrimEnd(t: Text): (r: Text)
    ensures r <= t && (r != [] ==> !Blank(r[|r| - 1]))
  {
    if t != [] && Blank(t[|t| - 1]) then TrimEnd(t[..|t| - 1]) else t
  }

  function Trim(t: Text): (r: Text)
    ensures |r| <= |t|
  {
    TrimEnd(TrimStart(t))
  }

  lemma {:induction false} TrimStartKeeps(t: Text)
    ensures Substance(TrimStart(t)) == Substance(t)
    decreases |t|
  {
    if t != [] && Blank(t[0]) {
      TrimStartKeeps(t[1..]);
    }
  }

  lemma {:induction false} TrimEndKeeps(t: Text)
    ensures Substance(TrimEnd(t)) == Substance(t)
    decreases |t|
  {
    if t != [] && Blank(t[|t| - 1]) {
      TrimEndKeeps(t[..|t| - 1]);
      SubstanceJoin(t[..|t| - 1], [t[|t| - 1]]);
      assert t == t[..|t| - 1] + [t[|t| - 1]];
      assert [t[|t| - 1]][1..] == [];
    }
  }

  /** Trimming takes whitespace only. */
  lemma TrimKeeps(t: Text)
    ensures Substance(Trim(t)) == Substance(t)
  {
    TrimStartKeeps(t);
    TrimEndKeeps(TrimStart(t));
  }

  // ---------------------------------------------------------------- paragraphs

  predicate ParagraphBreak(t: Text, i: nat) {
    i + 1 < |t| && t[i] == NEWLINE && t[i + 1] == NEWLINE
  }

  /** The first place from i on where two newlines stand, or the end. */
  function BreakFrom(t: Text, i: nat): (at: nat)
    requires i <= |t|
    ensures i <= at <= |t| && (at < |t| ==> ParagraphBreak(t, at))
    decreases |t| - i
  {
    if i == |t| then i else if ParagraphBreak(t, i) then i else BreakFrom(t, i + 1)
  }

  function SkipNewlines(t: Text): (r: Text)
    ensures |r| <= |t| && (t != [] && t[0] == NEWLINE ==> |r| < |t|)
  {
    if t != [] && t[0] == NEWLINE then SkipNewlines(t[1..]) else t
  }

  /** `split(/\n{2,}/)` */
  function SplitAtBlankLines(t: Text): seq<Text>
    decreases |t|
  {
    var at := BreakFrom(t, 0);
    if at == |t| then [t] else [t[..at]] + SplitAtBlankLines(SkipNewlines(t[at..]))
  }

  function TrimmedParts(parts: seq<Text>): (r: seq<Text>)
    ensures forall k | 0 <= k < |r| :: r[k] != []
  {
    if parts == [] then []
    else TrimmedParts(parts[..|parts| - 1]) + if Trim(parts[|parts| - 1]) == [] then [] else [Trim(parts[|parts| - 1])]
  }

  function Paragraphs(t: Text): (r: seq<Text>)
    ensures forall k | 0 <= k < |r| :: r[k] != []
  {
    TrimmedParts(SplitAtBlankLines(t))
  }

  lemma {:induction false} SkipKeeps(t: Text)
    ensures Substance(SkipNewlines(t)) == Substance(t)
  {
    if t != [] && t[0] == NEWLINE {
      SkipKeeps(t[1..]);
    }
  }

  lemma {:induction false} SplitKeeps(t: Text)
    ensures SubstanceOf(SplitAtBlankLines(t)) == Substance(t)
    decreases |t|
  {
    var at := BreakFrom(t, 0);
    if at == |t| {
      SubstanceSnoc([], t);
      assert [] + [t] == [t];
    } else {
      var rest := SkipNewlines(t[at..]);
      SplitKeeps(rest);
      SkipKeeps(t[at..]);
      SubstanceJoin(t[..at], t[at..]);
      assert t == t[..at] + t[at..];
      SubstanceOfJoin([t[..at]], SplitAtBlankLines(rest));
      SubstanceSnoc([], t[..at]);
      assert [] + [t[..at]] == [t[..at]];
    }
  }

  lemma {:induction false} TrimmedPartsKeep(parts: seq<Text>)
    ensures SubstanceOf(TrimmedParts(parts)) == SubstanceOf(parts)
  {
    if parts != [] {
      var front, last := parts[..|parts| - 1], parts[|parts| - 1];
      TrimmedPartsKeep(front);
      TrimKeeps(last);
      if Trim(last) == [] {
        assert TrimmedParts(front) + [] == TrimmedParts(front);
      } else {
        SubstanceSnoc(TrimmedParts(front), Trim(last));
      }
    }
  }

  /** Cutting into paragraphs loses whitespace only. */
  lemma ParagraphsKeep(t: Text)
    ensures SubstanceOf(Paragraphs(t)) == Substance(t)
  {
    SplitKeeps(t);
    TrimmedPartsKeep(SplitAtBlankLines(t));
  }

  // ---------------------------------------------------------------- sentences

  /** The first place from i on that is a terminator (or is none), or the end. */
  function NextTerminator(t: Text, i: nat): (at: nat)
    requires i <= |t|
    ensures i <= at <= |t| && (at < |t| ==> Terminator(t[at])) && forall k | i <= k < at :: !Terminator(t[k])
    decreases |t| - i
  {
    if i == |t| || Terminator(t[i]) then i else NextTerminator(t, i + 1)
  }

  function NextOrdinary(t: Text, i: nat): (at: nat)
    requires i <= |t|
    ensures i <= at <= |t| && (at < |t| ==> !Terminator(t[at])) && forall k | i <= k < at :: Terminator(t[k])
    decreases |t| - i
  {
    if i == |t| || !Terminator(t[i]) then i else NextOrdinary(t, i + 1)
  }

  predicate AllTerminators(t: Text) {
    NextOrdinary(t, 0) == |t|
  }

  /** What the sentence pattern finds from i on: ordinary text with the terminators behind it. */
  function SentencesFrom(t: Text, i: nat): (r: seq<Text>)
    requires i <= |t| && (i < |t| ==> !Terminator(t[i]))
    ensures forall k | 0 <= k < |r| :: r[k] != []
    decreases |t| - i
  {
    if i == |t| then []
    else
      var end := NextOrdinary(t, NextTerminator(t, i));
      [t[i..end]] + SentencesFrom(t, end)
  }

  /** `splitSentences`: terminators in front of all text match nothing; text of terminators alone stays whole. */
  function Sentences(t: Text): seq<Text> {
    if AllTerminators(t) then [t] else SentencesFrom(t, NextOrdinary(t, 0))
  }

  /** The text without the terminators in front, unless it has nothing else. */
  function Said(t: Text): Text {
    if AllTerminators(t) then t else t[NextOrdinary(t, 0)..]
  }

  lemma {:induction false} SentencesFromKeep(t: Text, i: nat)
    requires i <= |t| && (i < |t| ==> !Terminator(t[i]))
    ensures SubstanceOf(SentencesFrom(t, i)) == Substance(t[i..])
    decreases |t| - i
  {
    if i < |t| {
      var end := NextOrdinary(t, NextTerminator(t, i));
      SentencesFromKeep(t, end);
      SubstanceOfJoin([t[i..end]], SentencesFrom(t, end));
      SubstanceOne(t[i..end]);
      SubstanceJoin(t[i..end], t[end..]);
      assert t[i..] == t[i..end] + t[end..];
    }
  }

  /** Cutting into sentences loses the terminators in front of the text, and nothing else. */
  lemma SentencesKeep(t: Text)
    ensures SubstanceOf(Sentences(t)) == Substance(Said(t))
  {
    if AllTerminators(t) {
      SubstanceSnoc([], t);
      assert [] + [t] == [t];
    } else {
      SentencesFromKeep(t, NextOrdinary(t, 0));
    }
  }

  // ---------------------------------------------------------------- the hard cut

  /** `splitByCharLimit` behind its first trim. */
  function CutFrom(remaining: Text, limit: nat): seq<Text>
    requires limit > 0
    decreases |remaining|
  {
    if |remaining| > limit then [remaining[..limit]] + CutFrom(TrimStart(remaining[limit..]), limit)
    else if remaining == [] then []
    else [remaining]
  }

  const CUT_LIMIT: nat := MAX_CHUNK_TOKENS * 4

  function Cut(t: Text): seq<Text> {
    CutFrom(Trim(t), CUT_LIMIT)
  }

  lemma SubstanceOne(t: Text)
    ensures SubstanceOf([t]) == Substance(t)
  {
    SubstanceSnoc([], t);
    assert [] + [t] == [t];
  }

  lemma {:induction false} CutFromKeeps(t: Text, limit: nat)
    requires limit > 0
    ensures SubstanceOf(CutFrom(t, limit)) == Substance(t)
    decreases |t|
  {
    if |t| > limit {
      var front, back := t[..limit], t[limit..];
      var rest := CutFrom(TrimStart(back), limit);
      CutFromKeeps(TrimStart(back), limit);
      TrimStartKeeps(back);
      SubstanceOfJoin([front], rest);
      SubstanceOne(front);
      SubstanceJoin(front, back);
      assert t == front + back;
    } else if t != [] {
      SubstanceOne(t);
    }
  }

  lemma {:induction false} CutFromBounded(t: Text, limit: nat)
    requires limit > 0
    ensures forall k | 0 <= k < |CutFrom(t, limit)| :: 0 < |CutFrom(t, limit)[k]| <= limit
    decreases |t|
  {
    if |t| > limit {
      CutFromBounded(TrimStart(t[limit..]), limit);
    }
  }

  /** The hard cut loses whitespace only, and no piece is longer than 1920 units. */
  lemma CutKeeps(t: Text)
    ensures SubstanceOf(Cut(t)) == Substance(t)
    ensures forall k | 0 <= k < |Cut(t)| :: 0 < |Cut(t)[k]| <= 1920
  {
    TrimKeeps(t);
    CutFromKeeps(Trim(t), CUT_LIMIT);
    CutFromBounded(Trim(t), CUT_LIMIT);
  }
}
