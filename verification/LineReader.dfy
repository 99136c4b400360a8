/**
 The `ignore` line reader: it gathers raw bytes up to a line feed and decodes line by
 line. However the bytes arrive in chunks, it reads what a decode of the whole file
 would read, cut after each line feed.
 */
module LineReader {
  import opened Wrappers
  import opened ByteDecoders

  // ---------------------------------------------------------------- decoding cuts at characters

  /** The bytes cannot continue a character: no step that starts before them reaches into them. */
  predicate StartsAfresh(enc: Encoding, e: seq<Byte>) {
    match enc
    case Utf8 => e != [] && !Continuation(e[0])
    case Utf16Le => |e| >= 2 && !(0xDC00 <= UnitAt(e, 0) <= 0xDFFF)
  }

  lemma CharacterStartsAfresh(enc: Encoding, v: int)
    requires IsScalar(v)
    ensures StartsAfresh(enc, Encode(enc, v))
  {}

  lemma StepStopsBefore(enc: Encoding, x: seq<Byte>, e: seq<Byte>, y: seq<Byte>)
    requires |x| >= Unit(enc) && Aligned(enc, |x|) && StartsAfresh(enc, e)
    ensures StepOf(enc, x + e + y) == StepOf(enc, x)
  {
    var d := x + e + y;
    assert forall i: nat | i < |x| :: At(d, i) == At(x, i);
    assert At(d, |x|) == e[0];
    if enc.Utf16Le? {
      assert At(d, |x| + 1) == e[1];
    }
  }

  lemma DecodeUnfolds(enc: Encoding, d: seq<Byte>, s: Step, text: seq<int>, rest: seq<Byte>)
    requires |d| >= Unit(enc) && StepOf(enc, d) == s && rest == d[s.length..]
    requires text == if s.Accept? then [s.scalar] else []
    ensures Decode(enc, d) == text + Decode(enc, rest)
  {}

  /** Both decodes begin with the same step. */
  lemma CommonStep(enc: Encoding, x: seq<Byte>, e: seq<Byte>, y: seq<Byte>) returns (text: seq<int>, rest: seq<Byte>)
    requires x != [] && Aligned(enc, |x|) && StartsAfresh(enc, e)
    ensures |rest| < |x| && Aligned(enc, |rest|)
    ensures Decode(enc, x) == text + Decode(enc, rest)
    ensures Decode(enc, x + e + y) == text + Decode(enc, rest + e + y)
  {
    var s := StepOf(enc, x);
    text := if s.Accept? then [s.scalar] else [];
    rest := x[s.length..];
    StepKeepsAligned(enc, x);
    var whole, tail := x + e + y, rest + e + y;
    StepStopsBefore(enc, x, e, y);
    RestOfThree(x, e, y, s.length);
    DecodeUnfolds(enc, x, s, text, rest);
    DecodeUnfolds(enc, whole, s, text, tail);
  }

  lemma StepKeepsAligned(enc: Encoding, x: seq<Byte>)
    requires x != [] && Aligned(enc, |x|)
    ensures |x| >= Unit(enc) && 0 < StepOf(enc, x).length <= |x| && Aligned(enc, |x[StepOf(enc, x).length..]|)
  {}

  lemma {:induction false} DecodeCutsBefore(enc: Encoding, x: seq<Byte>, e: seq<Byte>, y: seq<Byte>)
    requires Aligned(enc, |x|) && StartsAfresh(enc, e)
    ensures Decode(enc, x + e + y) == Decode(enc, x) + Decode(enc, e + y)
    decreases |x|
  {
    if x == [] {
      assert x + e + y == e + y;
    } else {
      var text, rest := CommonStep(enc, x, e, y);
      DecodeCutsBefore(enc, rest, e, y);
      Associative(text, Decode(enc, rest), Decode(enc, e + y));
    }
  }

  lemma RestOfThree<T>(x: seq<T>, e: seq<T>, y: seq<T>, n: nat)
    requires n <= |x|
    ensures (x + e + y)[n..] == x[n..] + e + y
  {}

  lemma Associative<T>(a: seq<T>, b: seq<T>, c: seq<T>)
    ensures a + (b + c) == a + b + c
  {}

  /**
   No byte of a well-formed character is ever dropped or read as part of another one:
   decoding can be cut on both sides of it.
   */
  lemma DecodeCutsAtCharacter(enc: Encoding, x: seq<Byte>, v: int, y: seq<Byte>)
    requires IsScalar(v) && Aligned(enc, |x|)
    ensures Decode(enc, x + Encode(enc, v) + y) == Decode(enc, x) + [v] + Decode(enc, y)
  {
    var e := Encode(enc, v);
    CharacterStartsAfresh(enc, v);
    DecodeCutsBefore(enc, x, e, y);
    EncodedIsAccepted(enc, v, y);
    assert (e + y)[|e|..] == y;
    DecodeUnfolds(enc, e + y, Accept(v, |e|), [v], y);
    Associative(Decode(enc, x), [v], Decode(enc, y));
  }

  // ---------------------------------------------------------------- lines of a file

  /** The line feed `findLineBreak` looks for: `0a` in UTF-8, `0a 00` in UTF-16LE. */
  predicate BreakAt(enc: Encoding, d: seq<Byte>, i: nat) {
    i + Unit(enc) <= |d| && d[i] == 0x0A && (enc.Utf16Le? ==> d[i + 1] == 0x00)
  }

  /** The first line feed on a code unit boundary counted from `from`, or -1. */
  function NextBreak(enc: Encoding, d: seq<Byte>, from: nat): (at: int)
    requires from <= |d|
    ensures at == -1 || (from <= at && BreakAt(enc, d, at))
    decreases |d| - from
  {
    if from + Unit(enc) > |d| then -1
    else if BreakAt(enc, d, from) then from
    else NextBreak(enc, d, from + Unit(enc))
  }

  type Decoder = seq<Byte> -> seq<int>

  /** The file from `from` on, cut after each line feed and decoded; what is behind the last one is a line if it has any byte. */
  function CutAndDecode(enc: Encoding, decode: Decoder, d: seq<Byte>, from: nat): seq<seq<int>>
    requires from <= |d|
    decreases |d| - from
  {
    var at := NextBreak(enc, d, from);
    if at != -1 then [decode(d[from..at + Unit(enc)])] + CutAndDecode(enc, decode, d, at + Unit(enc))
    else if from == |d| then []
    else [decode(d[from..])]
  }

  function DecoderOf(enc: Encoding): Decoder {
    (d: seq<Byte>) => Decode(enc, d)
  }

  /** The lines of a whole file. */
  function Lines(enc: Encoding, file: seq<Byte>): seq<seq<int>> {
    CutAndDecode(enc, DecoderOf(enc), file, 0)
  }

  function Flatten<T>(parts: seq<seq<T>>): seq<T> {
    if parts == [] then [] else parts[0] + Flatten(parts[1..])
  }

  lemma {:induction false} FlattenAppend<T>(parts: seq<seq<T>>, last: seq<T>)
    ensures Flatten(parts + [last]) == Flatten(parts) + last
  {
    if parts == [] {
      assert parts + [last] == [last] && [last][1..] == [];
    } else {
      assert (parts + [last])[1..] == parts[1..] + [last];
      FlattenAppend(parts[1..], last);
    }
  }

  // ---------------------------------------------------------------- properties of the lines

  lemma {:induction false} BreakIsAligned(enc: Encoding, d: seq<Byte>, from: nat)
    requires from <= |d| && NextBreak(enc, d, from) != -1
    ensures Aligned(enc, NextBreak(enc, d, from) - from)
    decreases |d| - from
  {
    if !BreakAt(enc, d, from) {
      BreakIsAligned(enc, d, from + Unit(enc));
    }
  }

  /** When there is no break from `from` to `at`, there is none from any boundary in between. */
  lemma {:induction false} UnbrokenBetween(enc: Encoding, d: seq<Byte>, from: nat, mid: nat, at: nat)
    requires from <= mid <= at <= |d| && Aligned(enc, mid - from) && NextBreak(enc, d, from) == NextBreak(enc, d, at)
    ensures NextBreak(enc, d, mid) == NextBreak(enc, d, at)
    decreases mid - from
  {
    if from < mid {
      UnbrokenBetween(enc, d, from + Unit(enc), mid, at);
    }
  }

  /** Bytes without a line break decode to text without one. */
  lemma {:induction false} UnbrokenHasNoLineFeed(enc: Encoding, d: seq<Byte>, from: nat, at: nat)
    requires from <= at <= |d| && NextBreak(enc, d, from) == NextBreak(enc, d, at)
    ensures LF !in Decode(enc, d[from..at])
    decreases at - from
  {
    var x := d[from..at];
    if |x| >= Unit(enc) {
      var s := StepOf(enc, x);
      if s.Accept? {
        LineFeedIsBreak(enc, d, from, at);
      }
      var next := from + s.length;
      var text := if s.Accept? then [s.scalar] else [];
      UnbrokenBetween(enc, d, from, next, at);
      UnbrokenHasNoLineFeed(enc, d, next, at);
      SliceRest(d, from, s.length, at);
      DecodeUnfolds(enc, x, s, text, d[next..at]);
    }
  }

  lemma SliceRest<T>(d: seq<T>, from: nat, n: nat, at: nat)
    requires from + n <= at <= |d|
    ensures d[from..at][n..] == d[from + n..at]
  {}

  /** Only a line break decodes to a line feed. */
  lemma LineFeedIsBreak(enc: Encoding, d: seq<Byte>, from: nat, at: nat)
    requires from + Unit(enc) <= at <= |d| && StepOf(enc, d[from..at]).Accept?
    ensures StepOf(enc, d[from..at]).scalar == LF ==> BreakAt(enc, d, from)
  {
    var x := d[from..at];
    AcceptedIsEncoded(enc, x);
    if StepOf(enc, x).scalar == LF {
      assert x[..StepOf(enc, x).length][0] == 0x0A;
      if enc.Utf16Le? {
        assert x[..StepOf(enc, x).length][1] == 0x00;
      }
    }
  }

  /** A line ends in its only line feed. */
  predicate Terminated(line: seq<int>) {
    line != [] && line[|line| - 1] == LF && LF !in line[..|line| - 1]
  }

  lemma TextAndLineFeed(text: seq<int>, line: seq<int>)
    requires LF !in text && line == text + [LF]
    ensures Terminated(line)
  {
    assert line[..|line| - 1] == text;
  }

  /** A line break cuts the decode: the line before it ends in its only line feed, the rest decodes on its own. */
  lemma CutAfterBreak(enc: Encoding, d: seq<Byte>, from: nat)
    requires from <= |d| && NextBreak(enc, d, from) != -1
    ensures var n := NextBreak(enc, d, from) + Unit(enc);
      Terminated(Decode(enc, d[from..n])) && Decode(enc, d[from..]) == Decode(enc, d[from..n]) + Decode(enc, d[n..])
  {
    UnbrokenToBreak(enc, d, from, NextBreak(enc, d, from));
    CutAt(enc, d, from, NextBreak(enc, d, from), NextBreak(enc, d, from) + Unit(enc));
  }

  lemma UnbrokenToBreak(enc: Encoding, d: seq<Byte>, from: nat, at: nat)
    requires from <= |d| && at == NextBreak(enc, d, from)
    ensures from <= at && BreakAt(enc, d, at) && Aligned(enc, at - from) && LF !in Decode(enc, d[from..at])
  {
    BreakIsAligned(enc, d, from);
    UnbrokenHasNoLineFeed(enc, d, from, at);
  }

  lemma CutAt(enc: Encoding, d: seq<Byte>, from: nat, at: nat, n: nat)
    requires from <= at && BreakAt(enc, d, at) && n == at + Unit(enc)
    requires Aligned(enc, at - from) && LF !in Decode(enc, d[from..at])
    ensures Terminated(Decode(enc, d[from..n])) && Decode(enc, d[from..]) == Decode(enc, d[from..n]) + Decode(enc, d[n..])
  {
    ThreeParts(enc, d, from, at);
    LineThenRest(enc, d[from..at], d[from..n], d[n..], d[from..]);
  }

  lemma ThreeParts(enc: Encoding, d: seq<Byte>, from: nat, at: nat)
    requires from <= at && BreakAt(enc, d, at)
    ensures var n := at + Unit(enc);
      d[from..n] == d[from..at] + LineFeed(enc) && d[from..] == d[from..at] + LineFeed(enc) + d[n..]
  {}

  function LineFeed(enc: Encoding): seq<Byte> {
    if enc.Utf8? then [0x0A] else [0x0A, 0x00]
  }

  lemma LineThenRest(enc: Encoding, x: seq<Byte>, line: seq<Byte>, rest: seq<Byte>, whole: seq<Byte>)
    requires Aligned(enc, |x|) && LF !in Decode(enc, x)
    requires line == x + LineFeed(enc) && whole == x + LineFeed(enc) + rest
    ensures Terminated(Decode(enc, line)) && Decode(enc, whole) == Decode(enc, line) + Decode(enc, rest)
  {
    AfterLineFeed(enc, x, []);
    AfterLineFeed(enc, x, rest);
    assert x + LineFeed(enc) + [] == line;
    TextAndLineFeed(Decode(enc, x), Decode(enc, line));
  }

  lemma AfterLineFeed(enc: Encoding, x: seq<Byte>, y: seq<Byte>)
    requires Aligned(enc, |x|)
    ensures Decode(enc, x + LineFeed(enc) + y) == Decode(enc, x) + [LF] + Decode(enc, y)
    ensures y == [] ==> Decode(enc, x + LineFeed(enc) + y) == Decode(enc, x) + [LF]
  {
    assert LineFeed(enc) == Encode(enc, LF);
    DecodeCutsAtCharacter(enc, x, LF, y);
    if y == [] {
      assert Decode(enc, y) == [];
    }
  }

  /** What the reader relies on: a line break cuts the decode, and the line before it ends in its only line feed. */
  ghost predicate CutsAtBreaks(enc: Encoding, decode: Decoder) {
    && decode([]) == []
    && (forall d: seq<Byte>, from: nat | from <= |d| :: CutHere(enc, decode, d, from))
  }

  ghost predicate CutHere(enc: Encoding, decode: Decoder, d: seq<Byte>, from: nat)
    requires from <= |d|
  {
    var n := NextBreak(enc, d, from) + Unit(enc);
    if NextBreak(enc, d, from) == -1 then LF !in decode(d[from..])
    else Terminated(decode(d[from..n])) && decode(d[from..]) == decode(d[from..n]) + decode(d[n..])
  }

  lemma DecoderCutsAtBreaks(enc: Encoding)
    ensures CutsAtBreaks(enc, DecoderOf(enc))
  {
    forall d: seq<Byte>, from: nat | from <= |d|
      ensures CutHere(enc, DecoderOf(enc), d, from)
    {
      if NextBreak(enc, d, from) == -1 {
        UnbrokenToEnd(enc, d, from);
      } else {
        CutAfterBreak(enc, d, from);
      }
    }
  }

  lemma UnbrokenToEnd(enc: Encoding, d: seq<Byte>, from: nat)
    requires from <= |d| && NextBreak(enc, d, from) == -1
    ensures LF !in Decode(enc, d[from..])
  {
    UnbrokenHasNoLineFeed(enc, d, from, |d|);
    assert d[from..|d|] == d[from..];
  }

  lemma {:induction false} JoinedFrom(enc: Encoding, decode: Decoder, d: seq<Byte>, from: nat)
    requires CutsAtBreaks(enc, decode) && from <= |d|
    ensures Flatten(CutAndDecode(enc, decode, d, from)) == decode(d[from..])
    decreases |d| - from
  {
    var at := NextBreak(enc, d, from);
    var lines := CutAndDecode(enc, decode, d, from);
    if at != -1 {
      assert CutHere(enc, decode, d, from);
      JoinedFrom(enc, decode, d, at + Unit(enc));
      assert lines[1..] == CutAndDecode(enc, decode, d, at + Unit(enc));
    } else if from < |d| {
      assert lines[1..] == [];
    } else {
      assert d[from..] == [];
    }
  }

  ghost predicate AllButLastTerminated(lines: seq<seq<int>>) {
    forall i | 0 <= i < |lines| :: Terminated(lines[i]) || (i == |lines| - 1 && LF !in lines[i])
  }

  lemma {:induction false} TerminatedFrom(enc: Encoding, decode: Decoder, d: seq<Byte>, from: nat)
    requires CutsAtBreaks(enc, decode) && from <= |d|
    ensures AllButLastTerminated(CutAndDecode(enc, decode, d, from))
    decreases |d| - from
  {
    assert CutHere(enc, decode, d, from);
    if NextBreak(enc, d, from) != -1 {
      TerminatedFrom(enc, decode, d, NextBreak(enc, d, from) + Unit(enc));
    }
  }

  /** The lines joined are the whole-file decode. */
  lemma LinesJoinToDecode(enc: Encoding, file: seq<Byte>)
    ensures Flatten(Lines(enc, file)) == Decode(enc, file)
  {
    DecoderCutsAtBreaks(enc);
    JoinedFrom(enc, DecoderOf(enc), file, 0);
    assert file[0..] == file;
  }

  /** Every line but possibly the last ends in its only line feed, and the last one has no other either. */
  lemma LinesAreTerminated(enc: Encoding, file: seq<Byte>)
    ensures AllButLastTerminated(Lines(enc, file))
  {
    DecoderCutsAtBreaks(enc);
    TerminatedFrom(enc, DecoderOf(enc), file, 0);
  }

  // ---------------------------------------------------------------- the reader

  /** `data` stands in the file at offset `base`. */
  ghost predicate DataAt<T>(file: seq<T>, base: nat, data: seq<T>) {
    base + |data| <= |file| && file[base..base + |data|] == data
  }

  /** Breaks of the bytes at hand are the breaks of the file, shifted. */
  lemma {:induction false} BreaksOfData(enc: Encoding, file: seq<Byte>, base: nat, data: seq<Byte>, i: nat, from: nat, to: nat)
    requires DataAt(file, base, data) && i <= |data| && Aligned(enc, |data| - i)
    requires from == base + i && to == base + |data|
    ensures var at := NextBreak(enc, data, i);
      NextBreak(enc, file, from) == if at != -1 then base + at else NextBreak(enc, file, to)
    decreases |data| - i
  {
    if i < |data| {
      assert forall j | 0 <= j < |data| :: data[j] == file[base + j];
      if !BreakAt(enc, data, i) {
        BreaksOfData(enc, file, base, data, i + Unit(enc), from + Unit(enc), to);
      }
    }
  }

  lemma AlignedBehindBreak(enc: Encoding, size: nat, start: nat, at: nat)
    requires Aligned(enc, size - start) && Aligned(enc, at - start)
    ensures Aligned(enc, size - (at + Unit(enc)))
  {}

  /** A checkpoint that found the signal quiet. */
  function Spend(left: Option<nat>): Option<nat>
    requires left != Some(0)
  {
    if left.Some? then Some(left.value - 1) else left
  }

  /** `findLineBreak` */
  method FindLineBreak(enc: Encoding, data: seq<Byte>, from: nat) returns (at: int)
    requires from <= |data|
    ensures at == NextBreak(enc, data, from)
  {
    var i := from;
    while i + Unit(enc) <= |data|
      invariant from <= i <= |data|
      invariant NextBreak(enc, data, from) == NextBreak(enc, data, i)
    {
      if data[i] == 0x0A && (enc.Utf8? || data[i + 1] == 0x00) {
        return i;
      }
      i := i + Unit(enc);
    }
    return -1;
  }

  /** How many line feeds behind `from` have been completed by the first n bytes. */
  function EndsWithin(enc: Encoding, d: seq<Byte>, from: nat, n: nat): nat
    requires from <= |d|
    decreases |d| - from
  {
    var at := NextBreak(enc, d, from);
    if at == -1 || at + Unit(enc) > n then 0 else 1 + EndsWithin(enc, d, at + Unit(enc), n)
  }

  lemma {:induction false} MoreEnds(enc: Encoding, d: seq<Byte>, from: nat, n: nat, m: nat)
    requires from <= |d| && n <= m
    ensures EndsWithin(enc, d, from, n) <= EndsWithin(enc, d, from, m)
    decreases |d| - from
  {
    var at := NextBreak(enc, d, from);
    if at != -1 && at + Unit(enc) <= n {
      MoreEnds(enc, d, at + Unit(enc), n, m);
    }
  }

  /** So many lines have been put out that `count` line feeds lie before `from`. */
  ghost predicate Counted(enc: Encoding, d: seq<Byte>, count: nat, from: nat) {
    from <= |d| && forall n: nat | from <= n :: CountedBy(enc, d, count, from, n)
  }

  ghost predicate CountedBy(enc: Encoding, d: seq<Byte>, count: nat, from: nat, n: nat)
    requires from <= |d|
  {
    EndsWithin(enc, d, 0, n) == count + EndsWithin(enc, d, from, n)
  }

  lemma OneMoreCounted(enc: Encoding, d: seq<Byte>, count: nat, from: nat, next: nat)
    requires Counted(enc, d, count, from) && NextBreak(enc, d, from) != -1 && next == NextBreak(enc, d, from) + Unit(enc)
    ensures Counted(enc, d, count + 1, next)
  {
    var more := count + 1;
    forall n: nat | next <= n ensures CountedBy(enc, d, more, next, n) {
      assert CountedBy(enc, d, count, from, n);
    }
  }

  /** Nothing ends in the bytes held back, nor with the byte carried over. */
  lemma NothingEnds(enc: Encoding, file: seq<Byte>, pending: seq<seq<Byte>>, from: nat, to: nat, n: nat)
    requires Pending(enc, file, pending, from, to) && n < to + Unit(enc)
    ensures EndsWithin(enc, file, from, n) == 0
  {}

  ghost predicate Decodes(enc: Encoding, decode: Decoder) {
    forall x: seq<Byte> {:trigger Decode(enc, x)} :: decode(x) == Decode(enc, x)
  }

  method DecodeLine(enc: Encoding, data: seq<Byte>, ghost decode: Decoder) returns (text: seq<int>)
    requires Decodes(enc, decode)
    ensures text == decode(data)
  {
    if enc.Utf16Le? {
      text := DecodeUtf16LeIgnore(data);
    } else {
      text := DecodeUtf8Ignore(data);
    }
  }

  /** The bytes held back from `from` on, when the reader has taken everything before `to`. */
  ghost predicate Pending(enc: Encoding, file: seq<Byte>, pending: seq<seq<Byte>>, from: nat, to: nat) {
    from <= to <= |file| && Flatten(pending) == file[from..to] && NextBreak(enc, file, from) == NextBreak(enc, file, to)
  }

  /** The lines put out so far, when the next one begins at `from`. */
  ghost predicate Emitted(enc: Encoding, decode: Decoder, file: seq<Byte>, lines: seq<seq<int>>, from: nat) {
    from <= |file| && CutAndDecode(enc, decode, file, 0) == lines + CutAndDecode(enc, decode, file, from)
  }

  /** A line feed at `at` completes the pending line. */
  lemma LineCompleted(enc: Encoding, decode: Decoder, file: seq<Byte>, lines: seq<seq<int>>, from: nat, n: nat)
    requires Emitted(enc, decode, file, lines, from) && NextBreak(enc, file, from) != -1
    requires n == NextBreak(enc, file, from) + Unit(enc)
    ensures Emitted(enc, decode, file, lines + [decode(file[from..n])], n)
  {}

  lemma PendingGrows(enc: Encoding, file: seq<Byte>, pending: seq<seq<Byte>>, from: nat, to: nat, more: seq<Byte>, end: nat)
    requires from <= to <= end <= |file| && Flatten(pending) == file[from..to] && file[to..end] == more
    ensures Flatten(pending + [more]) == file[from..end]
    ensures more == [] ==> Flatten(pending) == file[from..end]
  {
    FlattenAppend(pending, more);
  }

  lemma PartOfData<T>(file: seq<T>, base: nat, data: seq<T>, start: nat, end: nat, from: nat, to: nat)
    requires DataAt(file, base, data) && start <= end <= |data| && from == base + start && to == base + end
    ensures file[from..to] == data[start..end]
  {
    forall i | 0 <= i < end - start
      ensures file[from..to][i] == data[start..end][i]
    {
      assert file[base..base + |data|][start + i] == data[start + i];
    }
  }

  /** One round of the inner loop: a line feed at `at` completes the pending line. */
  lemma LineRound(enc: Encoding, decode: Decoder, file: seq<Byte>, base: nat, data: seq<Byte>, start: nat, end: nat,
        pending: seq<seq<Byte>>, lines: seq<seq<int>>, from: nat, pos: nat, next: nat)
    requires DataAt(file, base, data) && start <= |data| && Aligned(enc, |data| - start)
    requires Pending(enc, file, pending, from, pos) && Emitted(enc, decode, file, lines, from)
    requires NextBreak(enc, data, start) != -1 && end == NextBreak(enc, data, start) + Unit(enc)
    requires pos == base + start && next == base + end
    ensures Aligned(enc, |data| - end) && Pending(enc, file, [], next, next)
    ensures Emitted(enc, decode, file, lines + [decode(Flatten(pending + [data[start..end]]))], next)
  {
    BreaksOfData(enc, file, base, data, start, pos, base + |data|);
    RoundAligned(enc, data, start, end);
    LineBytes(enc, file, base, data, start, end, pending, from, pos, next);
    LineCompleted(enc, decode, file, lines, from, next);
  }

  lemma RoundAligned(enc: Encoding, data: seq<Byte>, start: nat, end: nat)
    requires start <= |data| && Aligned(enc, |data| - start)
    requires NextBreak(enc, data, start) != -1 && end == NextBreak(enc, data, start) + Unit(enc)
    ensures start <= end <= |data| && Aligned(enc, |data| - end)
  {
    BreakIsAligned(enc, data, start);
    AlignedBehindBreak(enc, |data|, start, NextBreak(enc, data, start));
  }

  /** The bytes of the line that ends at `next`. */
  lemma LineBytes(enc: Encoding, file: seq<Byte>, base: nat, data: seq<Byte>, start: nat, end: nat,
        pending: seq<seq<Byte>>, from: nat, pos: nat, next: nat)
    requires DataAt(file, base, data) && start <= end <= |data|
    requires from <= pos <= |file| && Flatten(pending) == file[from..pos] && pos == base + start && next == base + end
    ensures Flatten(pending + [data[start..end]]) == file[from..next]
    ensures start == end ==> Flatten(pending) == file[from..next]
  {
    PartOfData(file, base, data, start, end, pos, next);
    PendingGrows(enc, file, pending, from, pos, data[start..end], next);
  }

  /** No line feed is left in `data`: what remains of it joins the pending bytes. */
  lemma DataPending(enc: Encoding, file: seq<Byte>, base: nat, data: seq<Byte>, start: nat,
        pending: seq<seq<Byte>>, from: nat, pos: nat, next: nat)
    requires DataAt(file, base, data) && start <= |data| && Aligned(enc, |data| - start)
    requires Pending(enc, file, pending, from, pos) && NextBreak(enc, data, start) == -1
    requires pos == base + start && next == base + |data|
    ensures Pending(enc, file, pending + [data[start..]], from, next)
    ensures start == |data| ==> Pending(enc, file, pending, from, next)
  {
    BreaksOfData(enc, file, base, data, start, pos, next);
    LineBytes(enc, file, base, data, start, |data|, pending, from, pos, next);
    assert data[start..|data|] == data[start..];
  }

  /** The inner loop of the reader: the lines that end in `data`, and what is pending behind the last of them. */
  method YieldLines(enc: Encoding, pending0: seq<seq<Byte>>, data: seq<Byte>, patience: Option<nat>, lines0: seq<seq<int>>,
        ghost decode: Decoder, ghost file: seq<Byte>, ghost from0: nat, ghost base: nat, ghost next: nat)
    returns (pending: seq<seq<Byte>>, left: Option<nat>, stopped: bool, lines: seq<seq<int>>, ghost from: nat)
    requires Decodes(enc, decode) && DataAt(file, base, data) && Aligned(enc, |data|) && next == base + |data|
    requires Pending(enc, file, pending0, from0, base) && Emitted(enc, decode, file, lines0, from0)
    requires Counted(enc, file, |lines0|, from0)
    ensures Emitted(enc, decode, file, lines, from) && Counted(enc, file, |lines|, from) && |lines0| <= |lines|
    ensures !stopped ==> Pending(enc, file, pending, from, next)
    ensures SpentOn(patience, left, |lines| - |lines0|)
    ensures stopped ==> left == Some(0) && from <= next && EndsWithin(enc, file, from, next) > 0
  {
    pending, left, stopped, lines, from := pending0, patience, false, lines0, from0;
    var start := 0;
    ghost var pos := base;
    while true
      invariant SpentOn(patience, left, |lines| - |lines0|) && |lines0| <= |lines|
      invariant start <= |data| && pos == base + start && Aligned(enc, |data| - start)
      invariant Pending(enc, file, pending, from, pos) && Emitted(enc, decode, file, lines, from)
      invariant Counted(enc, file, |lines|, from)
      decreases |data| - start
    {
      var at := FindLineBreak(enc, data, start);
      if at == -1 {
        break;
      }
      ghost var behind := base + at + Unit(enc);
      BreakAhead(enc, file, base, data, start, pending, from, pos, behind);
      if left == Some(0) {
        stopped := true;
        return;
      }
      left := Spend(left);
      var end := at + Unit(enc);
      LineRound(enc, decode, file, base, data, start, end, pending, lines, from, pos, behind);
      OneMoreCounted(enc, file, |lines|, from, behind);
      var text := DecodeLine(enc, Flatten(pending + [data[start..end]]), decode);
      lines := lines + [text];
      pending := [];
      from, pos, start := behind, behind, end;
    }
    DataPending(enc, file, base, data, start, pending, from, pos, next);
    if start < |data| {
      pending := pending + [data[start..]];
    }
  }

  /** So many checkpoints passed between the two. */
  ghost predicate SpentOn(patience: Option<nat>, left: Option<nat>, checks: int) {
    (patience.None? <==> left.None?) && (left.Some? ==> patience.value == left.value + checks)
  }

  /** The line feed found in `data` is the next one of the file. */
  lemma BreakAhead(enc: Encoding, file: seq<Byte>, base: nat, data: seq<Byte>, start: nat,
        pending: seq<seq<Byte>>, from: nat, pos: nat, behind: nat)
    requires DataAt(file, base, data) && start <= |data| && Aligned(enc, |data| - start)
    requires Pending(enc, file, pending, from, pos) && pos == base + start
    requires NextBreak(enc, data, start) != -1 && behind == base + NextBreak(enc, data, start) + Unit(enc)
    ensures NextBreak(enc, file, from) != -1 && behind == NextBreak(enc, file, from) + Unit(enc) <= base + |data|
    ensures EndsWithin(enc, file, from, base + |data|) > 0
  {
    BreaksOfData(enc, file, base, data, start, pos, base + |data|);
    RoundAligned(enc, data, start, NextBreak(enc, data, start) + Unit(enc));
  }

  /** The file from `pos` on is the byte held back and the chunks to come. */
  ghost predicate Ahead<T>(file: seq<T>, pos: nat, carry: seq<T>, chunks: seq<seq<T>>, k: nat) {
    pos <= |file| && k <= |chunks| && file[pos..] == carry + Flatten(chunks[k..])
  }

  lemma ChunkRead<T>(file: seq<T>, pos: nat, carry: seq<T>, chunks: seq<seq<T>>, k: nat, data: seq<T>, held: seq<T>, next: nat)
    requires Ahead(file, pos, carry, chunks, k) && k < |chunks| && data + held == carry + chunks[k]
    requires next == pos + |data|
    ensures DataAt(file, pos, data)
    ensures Ahead(file, next, held, chunks, k + 1)
  {
    var future := Flatten(chunks[k + 1..]);
    assert chunks[k..][1..] == chunks[k + 1..];
    assert file[pos..] == data + (held + future) by {
      assert carry + (chunks[k] + future) == carry + chunks[k] + future == data + (held + future);
    }
    assert file[pos..pos + |data|] == file[pos..][..|data|];
    assert file[pos + |data|..] == file[pos..][|data|..];
  }

  /** A UTF-16LE chunk that ends inside a code unit keeps its last byte for the next one. */
  method TakeChunk(enc: Encoding, carry: seq<Byte>, chunks: seq<seq<Byte>>, k: nat, ghost file: seq<Byte>, ghost pos: nat)
    returns (data: seq<Byte>, held: seq<Byte>, ghost next: nat)
    requires Ahead(file, pos, carry, chunks, k) && k < |chunks|
    ensures DataAt(file, pos, data) && Aligned(enc, |data|) && |held| < Unit(enc)
    ensures next == pos + |data| && Ahead(file, next, held, chunks, k + 1)
  {
    data, held := carry + chunks[k], [];
    if enc.Utf16Le? && |data| % 2 == 1 {
      held := data[|data| - 1..];
      data := data[..|data| - 1];
    }
    next := pos + |data|;
    ChunkRead(file, pos, carry, chunks, k, data, held, next);
  }

  lemma AtTheStart<T>(chunks: seq<seq<T>>)
    ensures Ahead(Flatten(chunks), 0, [], chunks, 0) && Flatten<T>([]) == Flatten(chunks)[0..0]
  {
    assert chunks[0..] == chunks;
  }

  lemma AtTheEnd<T>(file: seq<T>, pos: nat, carry: seq<T>, chunks: seq<seq<T>>)
    requires Ahead(file, pos, carry, chunks, |chunks|)
    ensures file[pos..] == carry
  {}

  /** The last bytes of the file: they are the last line, if there is any. */
  lemma LastLine(enc: Encoding, decode: Decoder, file: seq<Byte>, pending: seq<seq<Byte>>, from: nat, pos: nat, carry: seq<Byte>)
    requires Pending(enc, file, pending, from, pos) && file[pos..] == carry && |carry| < Unit(enc)
    ensures Flatten(pending + [carry]) == file[from..]
    ensures CutAndDecode(enc, decode, file, from) == if file[from..] == [] then [] else [decode(file[from..])]
  {
    FlattenAppend(pending, carry);
    assert file[from..pos] + file[pos..] == file[from..];
  }

  /** What the first k chunks bring of the file. */
  lemma ChunksSoFar<T>(file: seq<T>, pos: nat, carry: seq<T>, chunks: seq<seq<T>>, k: nat)
    requires Ahead(file, pos, carry, chunks, k) && file == Flatten(chunks)
    ensures |Flatten(chunks[..k])| == pos + |carry|
  {
    FlattenJoin(chunks[..k], chunks[k..]);
    assert chunks[..k] + chunks[k..] == chunks;
    assert |file| == pos + |file[pos..]|;
  }

  lemma {:induction false} FlattenJoin<T>(a: seq<seq<T>>, b: seq<seq<T>>)
    ensures Flatten(a + b) == Flatten(a) + Flatten(b)
  {
    if a == [] {
      assert a + b == b;
    } else {
      FlattenJoin(a[1..], b);
      assert (a + b)[1..] == a[1..] + b;
    }
  }

  /** All checkpoints of a reader that is never stopped: one for each chunk, and one for each line feed. */
  function Checkpoints(enc: Encoding, chunks: seq<seq<Byte>>): nat {
    |chunks| + EndsWithin(enc, Flatten(chunks), 0, |Flatten(chunks)|)
  }

  /** The line feeds among the first k chunks. */
  function EndsInChunks(enc: Encoding, chunks: seq<seq<Byte>>, k: nat): nat
    requires k <= |chunks|
  {
    EndsWithin(enc, Flatten(chunks), 0, |Flatten(chunks[..k])|)
  }

  /**
   A reader stopped at its checkpoint number `patience` had put out so many lines: it spent the
   others on chunks, all lines that ended in those but the last of them are out, and none that did
   not end in them.
   */
  ghost predicate StoppedBehind(enc: Encoding, chunks: seq<seq<Byte>>, patience: nat, lines: nat) {
    && lines <= patience && patience - lines <= |chunks|
    && lines <= EndsInChunks(enc, chunks, patience - lines)
    && (patience > lines ==> EndsInChunks(enc, chunks, patience - lines - 1) <= lines)
  }

  /** The line feeds of the chunks read are those before the bytes held back. */
  lemma LinesOfChunks(enc: Encoding, file: seq<Byte>, chunks: seq<seq<Byte>>, k: nat, carry: seq<Byte>,
        pending: seq<seq<Byte>>, from: nat, pos: nat, lines: nat)
    requires file == Flatten(chunks) && Ahead(file, pos, carry, chunks, k) && |carry| < Unit(enc)
    requires Pending(enc, file, pending, from, pos) && Counted(enc, file, lines, from)
    ensures lines == EndsInChunks(enc, chunks, k)
  {
    var n := pos + |carry|;
    ChunksSoFar(file, pos, carry, chunks, k);
    NothingEnds(enc, file, pending, from, pos, n);
    assert CountedBy(enc, file, lines, from, n);
  }

  lemma FewerInFewer(enc: Encoding, chunks: seq<seq<Byte>>, j: nat, k: nat)
    requires j <= k <= |chunks|
    ensures EndsInChunks(enc, chunks, j) <= EndsInChunks(enc, chunks, k)
    ensures EndsInChunks(enc, chunks, |chunks|) == EndsWithin(enc, Flatten(chunks), 0, |Flatten(chunks)|)
  {
    FlattenJoin(chunks[..j], chunks[j..k]);
    assert chunks[..j] + chunks[j..k] == chunks[..k];
    MoreEnds(enc, Flatten(chunks), 0, |Flatten(chunks[..j])|, |Flatten(chunks[..k])|);
    assert chunks[..|chunks|] == chunks;
  }

  /** Stopped in front of a chunk. */
  lemma StoppedAtChunk(enc: Encoding, chunks: seq<seq<Byte>>, k: nat, lines: nat)
    requires k < |chunks| && lines == EndsInChunks(enc, chunks, k)
    ensures StoppedBehind(enc, chunks, k + lines, lines) && k + lines < Checkpoints(enc, chunks)
  {
    FewerInFewer(enc, chunks, k, |chunks|);
    if k > 0 {
      FewerInFewer(enc, chunks, k - 1, k);
    }
  }

  lemma LinesInChunk(enc: Encoding, file: seq<Byte>, chunks: seq<seq<Byte>>, k: nat, lines: nat,
        carry: seq<Byte>, from: nat, next: nat)
    requires file == Flatten(chunks) && Ahead(file, next, carry, chunks, k)
    requires Counted(enc, file, lines, from) && from <= next && EndsWithin(enc, file, from, next) > 0
    ensures lines < EndsInChunks(enc, chunks, k)
  {
    assert CountedBy(enc, file, lines, from, next);
    ChunksSoFar(file, next, carry, chunks, k);
    MoreEnds(enc, file, 0, next, next + |carry|);
  }

  /** Stopped in front of a line that ends in the chunk just read. */
  lemma StoppedInChunk(enc: Encoding, chunks: seq<seq<Byte>>, k: nat, lines: nat)
    requires 0 < k <= |chunks| && EndsInChunks(enc, chunks, k - 1) <= lines < EndsInChunks(enc, chunks, k)
    ensures StoppedBehind(enc, chunks, k + lines, lines) && k + lines < Checkpoints(enc, chunks)
  {
    FewerInFewer(enc, chunks, k, |chunks|);
  }

  /** Where the reader stands between two chunks. */
  ghost predicate Between(enc: Encoding, decode: Decoder, chunks: seq<seq<Byte>>, k: nat, carry: seq<Byte>,
        pending: seq<seq<Byte>>, lines: seq<seq<int>>, from: nat, pos: nat)
  {
    var file := Flatten(chunks);
    && |carry| < Unit(enc) && Ahead(file, pos, carry, chunks, k)
    && Pending(enc, file, pending, from, pos) && Emitted(enc, decode, file, lines, from)
    && Counted(enc, file, |lines|, from)
  }

  /** What a reader that is stopped has done. */
  ghost predicate Halted(enc: Encoding, decode: Decoder, chunks: seq<seq<Byte>>, patience: Option<nat>, lines: seq<seq<int>>) {
    && patience.Some? && patience.value < Checkpoints(enc, chunks)
    && lines <= CutAndDecode(enc, decode, Flatten(chunks), 0) && StoppedBehind(enc, chunks, patience.value, |lines|)
  }

  lemma HaltedBetween(enc: Encoding, decode: Decoder, chunks: seq<seq<Byte>>, k: nat, carry: seq<Byte>,
        pending: seq<seq<Byte>>, lines: seq<seq<int>>, from: nat, pos: nat, patience: Option<nat>)
    requires Between(enc, decode, chunks, k, carry, pending, lines, from, pos) && k < |chunks|
    requires SpentOn(patience, Some(0), k + |lines|)
    ensures Halted(enc, decode, chunks, patience, lines)
  {
    BetweenCounts(enc, decode, chunks, k, carry, pending, lines, from, pos);
    StoppedAtChunk(enc, chunks, k, |lines|);
  }

  lemma NotHalted(enc: Encoding, decode: Decoder, chunks: seq<seq<Byte>>, carry: seq<Byte>,
        pending: seq<seq<Byte>>, lines: seq<seq<int>>, from: nat, pos: nat, patience: Option<nat>, left: Option<nat>)
    requires Between(enc, decode, chunks, |chunks|, carry, pending, lines, from, pos)
    requires SpentOn(patience, left, |chunks| + |lines|)
    ensures !(patience.Some? && patience.value < Checkpoints(enc, chunks))
  {
    BetweenCounts(enc, decode, chunks, |chunks|, carry, pending, lines, from, pos);
    FewerInFewer(enc, chunks, 0, |chunks|);
  }

  lemma BetweenCounts(enc: Encoding, decode: Decoder, chunks: seq<seq<Byte>>, k: nat, carry: seq<Byte>,
        pending: seq<seq<Byte>>, lines: seq<seq<int>>, from: nat, pos: nat)
    requires Between(enc, decode, chunks, k, carry, pending, lines, from, pos)
    ensures k <= |chunks| && lines <= CutAndDecode(enc, decode, Flatten(chunks), 0)
    ensures |lines| == EndsInChunks(enc, chunks, k)
  {
    LinesOfChunks(enc, Flatten(chunks), chunks, k, carry, pending, from, pos, |lines|);
  }

  /** One round of the outer loop, behind its checkpoint. */
  method ReadChunk(enc: Encoding, chunks: seq<seq<Byte>>, k: nat, left0: Option<nat>, carry0: seq<Byte>,
        pending0: seq<seq<Byte>>, lines0: seq<seq<int>>, ghost decode: Decoder, ghost from0: nat, ghost pos0: nat,
        ghost patience: Option<nat>)
    returns (carry: seq<Byte>, pending: seq<seq<Byte>>, left: Option<nat>, stopped: bool, lines: seq<seq<int>>,
             ghost from: nat, ghost pos: nat)
    requires Decodes(enc, decode) && k < |chunks|
    requires Between(enc, decode, chunks, k, carry0, pending0, lines0, from0, pos0)
    requires SpentOn(patience, left0, k + 1 + |lines0|)
    ensures SpentOn(patience, left, k + 1 + |lines|)
    ensures !stopped ==> Between(enc, decode, chunks, k + 1, carry, pending, lines, from, pos)
    ensures stopped ==> Halted(enc, decode, chunks, patience, lines)
  {
    ghost var file := Flatten(chunks);
    BetweenCounts(enc, decode, chunks, k, carry0, pending0, lines0, from0, pos0);
    var data;
    data, carry, pos := TakeChunk(enc, carry0, chunks, k, file, pos0);
    pending, left, stopped, lines, from := YieldLines(enc, pending0, data, left0, lines0, decode, file, from0, pos0, pos);
    if stopped {
      LinesInChunk(enc, file, chunks, k + 1, |lines|, carry, from, pos);
      StoppedInChunk(enc, chunks, k + 1, |lines|);
    }
  }

  /** Behind the last chunk. */
  method ReadTail(enc: Encoding, chunks: seq<seq<Byte>>, carry: seq<Byte>, pending: seq<seq<Byte>>, lines0: seq<seq<int>>,
        ghost decode: Decoder, ghost from: nat, ghost pos: nat)
    returns (lines: seq<seq<int>>)
    requires Decodes(enc, decode) && Between(enc, decode, chunks, |chunks|, carry, pending, lines0, from, pos)
    ensures lines == CutAndDecode(enc, decode, Flatten(chunks), 0)
  {
    ghost var file := Flatten(chunks);
    AtTheEnd(file, pos, carry, chunks);
    LastLine(enc, decode, file, pending, from, pos, carry);
    lines := lines0;
    var tail := Flatten(pending + [carry]);
    if tail != [] {
      var text := DecodeLine(enc, tail, decode);
      lines := lines + [text];
    }
  }

  lemma BetweenAtStart(enc: Encoding, decode: Decoder, chunks: seq<seq<Byte>>)
    ensures Between(enc, decode, chunks, 0, [], [], [], 0, 0)
  {
    AtTheStart(chunks);
    forall n: nat ensures CountedBy(enc, Flatten(chunks), 0, 0, n) {}
  }

  /** The reader for a given encoding and its decoder. */
  method ReadLinesWith(enc: Encoding, chunks: seq<seq<Byte>>, patience: Option<nat>, ghost decode: Decoder)
    returns (lines: seq<seq<int>>, stopped: bool)
    requires Decodes(enc, decode)
    ensures stopped <==> patience.Some? && patience.value < Checkpoints(enc, chunks)
    ensures !stopped ==> lines == CutAndDecode(enc, decode, Flatten(chunks), 0)
    ensures stopped ==> Halted(enc, decode, chunks, patience, lines)
  {
    ghost var from: nat, pos: nat := 0, 0;
    var left := patience;
    var pending: seq<seq<Byte>> := [];
    var carry: seq<Byte> := [];
    lines, stopped := [], false;
    BetweenAtStart(enc, decode, chunks);
    for k := 0 to |chunks|
      invariant SpentOn(patience, left, k + |lines|) && !stopped
      invariant Between(enc, decode, chunks, k, carry, pending, lines, from, pos)
    {
      if left == Some(0) {
        HaltedBetween(enc, decode, chunks, k, carry, pending, lines, from, pos, patience);
        stopped := true;
        return;
      }
      left := Spend(left);
      carry, pending, left, stopped, lines, from, pos := ReadChunk(enc, chunks, k, left, carry, pending, lines, decode, from, pos, patience);
      if stopped {
        return;
      }
    }
    NotHalted(enc, decode, chunks, carry, pending, lines, from, pos, patience, left);
    lines := ReadTail(enc, chunks, carry, pending, lines, decode, from, pos);
  }

  /**
   `_readLinesIgnoreBytes`. `patience` counts the checkpoints that still find the signal quiet.
   The reader is stopped if and only if they are fewer than there are; otherwise it yields all
   lines, and a stopped one those it came to.
   */
  method ReadLines(enc: Encoding, chunks: seq<seq<Byte>>, patience: Option<nat>) returns (lines: seq<seq<int>>, stopped: bool)
    ensures stopped <==> patience.Some? && patience.value < Checkpoints(enc, chunks)
    ensures !stopped ==> lines == Lines(enc, Flatten(chunks))
    ensures stopped ==> lines <= Lines(enc, Flatten(chunks)) && StoppedBehind(enc, chunks, patience.value, |lines|)
  {
    lines, stopped := ReadLinesWith(enc, chunks, patience, DecoderOf(enc));
  }
}
