/** How a text comes apart at its newlines: into paragraphs at blank lines, and into lines. */
module TextPieces {
  import opened ChunkText
  import opened Chunking

  function Newlines(n: nat): Text {
    seq(n, i requires 0 <= i < n => NEWLINE)
  }

  /** The parts with runs of newlines between them. */
  function Rejoined(parts: seq<Text>, gaps: seq<nat>): Text
    requires |parts| == |gaps| + 1
  {
    if gaps == [] then parts[0] else parts[0] + Newlines(gaps[0]) + Rejoined(parts[1..], gaps[1..])
  }

  /** Nowhere do two newlines follow each other. */
  ghost predicate NoBlankLine(t: Text) {
    forall i | 0 <= i && i + 1 < |t| :: t[i] != 0x0A || t[i + 1] != 0x0A
  }

  /** The parts are what stands between the blank lines: no blank line in any of them, and no newline of one left to a part. */
  ghost predicate CutAtBlankLines(t: Text, parts: seq<Text>, gaps: seq<nat>) {
    && |parts| == |gaps| + 1 && t == Rejoined(parts, gaps)
    && (forall g | 0 <= g < |gaps| :: gaps[g] >= 2)
    && (forall k | 0 <= k < |parts| :: NoBlankLine(parts[k]))
    && (forall k | 0 < k < |parts| :: parts[k] != [] ==> parts[k][0] != 0x0A)
    && (forall k | 0 <= k < |gaps| :: parts[k] != [] ==> parts[k][|parts[k]| - 1] != 0x0A)
  }

  lemma OneMoreNewline(m: nat, rest: Text)
    ensures Newlines(m + 1) + rest == [NEWLINE] + (Newlines(m) + rest)
  {
    assert Newlines(m + 1) == [NEWLINE] + Newlines(m);
  }

  lemma {:induction false} NewlinesSkipped(t: Text) returns (n: nat)
    ensures t == Newlines(n) + SkipNewlines(t)
    ensures SkipNewlines(t) != [] ==> SkipNewlines(t)[0] != NEWLINE
    ensures t != [] && t[0] == NEWLINE ==> n >= 1
    ensures |t| > 1 && t[0] == NEWLINE && t[1] == NEWLINE ==> n >= 2
  {
    if t != [] && t[0] == NEWLINE {
      var m := NewlinesSkipped(t[1..]);
      OneMoreNewline(m, SkipNewlines(t));
      assert t == [NEWLINE] + t[1..];
      n := m + 1;
    } else {
      n := 0;
      assert Newlines(0) + t == t;
    }
  }

  lemma {:induction false} FirstBreak(t: Text, i: nat)
    requires i <= |t|
    ensures forall k | i <= k < BreakFrom(t, i) :: !ParagraphBreak(t, k)
    decreases |t| - i
  {
    if i < |t| && !ParagraphBreak(t, i) {
      FirstBreak(t, i + 1);
    }
  }

  /** In front of the first blank line there is none, and no newline right before it. */
  lemma FrontHasNoBlankLine(t: Text, at: nat)
    requires at == BreakFrom(t, 0)
    ensures NoBlankLine(t[..at])
    ensures at < |t| && at > 0 ==> t[at - 1] != 0x0A
  {
    FirstBreak(t, 0);
    var front := t[..at];
    forall i | 0 <= i && i + 1 < |front|
      ensures front[i] != 0x0A || front[i + 1] != 0x0A
    {
      assert !ParagraphBreak(t, i);
    }
    if 0 < at < |t| {
      assert !ParagraphBreak(t, at - 1);
    }
  }

  lemma OneMoreCut(front: Text, n: nat, rest: Text, parts: seq<Text>, gaps: seq<nat>, t: Text)
    requires n >= 2 && NoBlankLine(front) && (front != [] ==> front[|front| - 1] != 0x0A)
    requires CutAtBlankLines(rest, parts, gaps) && (parts[0] != [] ==> parts[0][0] != 0x0A)
    requires t == front + Newlines(n) + rest
    ensures CutAtBlankLines(t, [front] + parts, [n] + gaps)
  {
    var more, runs := [front] + parts, [n] + gaps;
    assert more[1..] == parts && runs[1..] == gaps;
    assert forall k | 0 < k < |more| :: more[k] == parts[k - 1];
    assert forall g | 0 < g < |runs| :: runs[g] == gaps[g - 1];
  }

  lemma CutThere(t: Text, at: nat, run: Text, rest: Text)
    requires at <= |t| && t[at..] == run + rest
    ensures t == t[..at] + run + rest
  {
    assert t == t[..at] + t[at..];
  }

  /** A text is cut into paragraphs exactly at its blank lines: at every run of two newlines or more, and nowhere else. */
  lemma {:induction false} SplitIsAtBlankLines(t: Text) returns (gaps: seq<nat>)
    ensures CutAtBlankLines(t, SplitAtBlankLines(t), gaps)
    ensures t != [] && t[0] != NEWLINE ==> SplitAtBlankLines(t)[0] != [] && SplitAtBlankLines(t)[0][0] == t[0]
    ensures t == [] ==> SplitAtBlankLines(t)[0] == []
    decreases |t|
  {
    var at := BreakFrom(t, 0);
    FrontHasNoBlankLine(t, at);
    if at == |t| {
      gaps := [];
      assert t[..at] == t;
    } else {
      var behind := t[at..];
      var n := NewlinesSkipped(behind);
      var rest := SkipNewlines(behind);
      assert behind[0] == NEWLINE && behind[1] == NEWLINE;
      var more := SplitIsAtBlankLines(rest);
      CutThere(t, at, Newlines(n), rest);
      OneMoreCut(t[..at], n, rest, SplitAtBlankLines(rest), more, t);
      gaps := [n] + more;
    }
  }

  // ---------------------------------------------------------------- lines

  /** The place behind the last newline, or the start. */
  function LastLine(t: Text): (at: nat)
    ensures at <= |t| && (at > 0 ==> t[at - 1] == NEWLINE)
    ensures NEWLINE !in t[at..]
  {
    if t == [] || t[|t| - 1] == NEWLINE then |t|
    else
      var at := LastLine(t[..|t| - 1]);
      assert t[at..] == t[..|t| - 1][at..] + [t[|t| - 1]];
      at
  }

  /** `split('\n')` */
  function LinesOf(t: Text): seq<Text>
    decreases |t|
  {
    var at := LastLine(t);
    if at == 0 then [t] else LinesOf(t[..at - 1]) + [t[at..]]
  }

  lemma {:induction false} LastLineOf(front: Text, last: Text)
    requires NEWLINE !in last
    ensures LastLine(front + [NEWLINE] + last) == |front| + 1
    decreases |last|
  {
    var t := front + [NEWLINE] + last;
    if last == [] {
      assert t[|t| - 1] == NEWLINE;
    } else {
      var less := last[..|last| - 1];
      assert t[|t| - 1] == last[|last| - 1] && last[|last| - 1] in last;
      assert t[..|t| - 1] == front + [NEWLINE] + less;
      LastLineOf(front, less);
    }
  }

  lemma NoNewlineIsOneLine(t: Text)
    requires NEWLINE !in t
    ensures LinesOf(t) == [t]
  {
    assert LastLine(t) == 0;
  }

  /** Joining the lines of a buffer puts one newline between two of them: taken apart again it is those lines. */
  lemma {:induction false} LinesRoundTrip(lines: seq<Text>)
    requires lines != [] && forall k | 0 <= k < |lines| :: NEWLINE !in lines[k]
    ensures LinesOf(JoinLines(lines)) == lines
  {
    if |lines| == 1 {
      NoNewlineIsOneLine(lines[0]);
      assert lines == [lines[0]];
    } else {
      var front, last := lines[..|lines| - 1], lines[|lines| - 1];
      var joined := JoinLines(front);
      LinesRoundTrip(front);
      LastLineOf(joined, last);
      var t := joined + [NEWLINE] + last;
      assert t[..|joined|] == joined && t[|joined| + 1..] == last;
    }
  }
}
