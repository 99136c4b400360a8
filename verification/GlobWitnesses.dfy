/**
 Names for the chains on which a pattern fails: every segment is given names its own matcher takes.
 A run that is not good gets a trap, a last `**` with too few segments an echo.
 */
module GlobWitnesses {
  import opened Wrappers
  import opened GlobModel
  import opened GlobBounds
  import opened GlobTrees
  import opened GlobRuns
  import opened GlobChains

  // ---------------------------------------------------------------- names that are taken

  ghost function Hit(matches: Matcher, names: iset<Name>, a: Part): (x: Name)
    requires a.Segment? && TakesSome(matches, names, a)
    ensures x in names && matches(a.pattern, x)
  {
    var x :| x in names && matches(a.pattern, x);
    x
  }

  /** A name for every segment. */
  ghost function Hits(matches: Matcher, names: iset<Name>, parts: seq<Part>): (hits: seq<Name>)
    requires Live(matches, names, parts)
    ensures |hits| == Segments(parts) && forall x | x in hits :: x in names
  {
    if parts == [] then []
    else if parts[0].Segment? then [Hit(matches, names, parts[0])] + Hits(matches, names, parts[1..])
    else Hits(matches, names, parts[1..])
  }

  lemma {:induction false} HitsFit(matches: Matcher, names: iset<Name>, parts: seq<Part>, front: seq<Name>, back: seq<Name>)
    requires Live(matches, names, parts)
    ensures Fits(matches, front + Hits(matches, names, parts) + back, |front|, parts)
    decreases |parts|
  {
    if parts != [] {
      var hits := Hits(matches, names, parts[1..]);
      if parts[0].Segment? {
        var x := Hit(matches, names, parts[0]);
        HitsFit(matches, names, parts[1..], front + [x], back);
        assert front + Hits(matches, names, parts) + back == front + [x] + hits + back;
      } else {
        HitsFit(matches, names, parts[1..], front, back);
      }
    }
  }

  lemma {:induction false} HitsOfPlain(matches: Matcher, names: iset<Name>, parts: seq<Part>)
    requires Live(matches, names, parts) && Plain(parts)
    ensures var hits := Hits(matches, names, parts);
      |hits| == |parts| && forall k | 0 <= k < |parts| :: hits[k] == Hit(matches, names, parts[k])
    decreases |parts|
  {
    if parts != [] {
      HitsOfPlain(matches, names, parts[1..]);
    }
  }

  /** The first of the later segments that share a name with the first one. */
  lemma {:induction false} FirstShare(matches: Matcher, names: iset<Name>, parts: seq<Part>, j: nat) returns (i: nat)
    requires parts != [] && parts[0].DoubleStar? && 1 < j <= Length(parts) && Share(matches, names, parts[1], parts[j])
    ensures 1 < i <= j && Share(matches, names, parts[1], parts[i])
    ensures forall k | 1 < k < i :: !Share(matches, names, parts[1], parts[k])
  {
    if k: nat :| 1 < k < j && Share(matches, names, parts[1], parts[k]) {
      i := FirstShare(matches, names, parts, k);
    } else {
      i := j;
    }
  }

  lemma {:induction false} RunFrom(parts: seq<Part>, n: nat)
    requires n <= Run(parts)
    ensures Run(parts[n..]) == Run(parts) - n
  {
    if n > 0 {
      RunFrom(parts[1..], n - 1);
      assert parts[1..][n - 1..] == parts[n..];
    } else {
      assert parts[0..] == parts;
    }
  }

  // ---------------------------------------------------------------- names put together

  ghost predicate IsAt(all: seq<Name>, at: nat, piece: seq<Name>) {
    at + |piece| <= |all| && all[at..at + |piece|] == piece
  }

  /** Pieces one behind the other. */
  lemma Joined(names: iset<Name>, front: seq<Name>, a: seq<Name>, c: Name, b: seq<Name>, end: seq<Name>)
    returns (all: seq<Name>)
    requires c in names && (forall x | x in front :: x in names) && (forall x | x in a :: x in names)
    requires (forall x | x in b :: x in names) && (forall x | x in end :: x in names)
    ensures |all| == |front| + |a| + 1 + |b| + |end| && forall x | x in all :: x in names
    ensures IsAt(all, 0, front) && IsAt(all, |front|, a) && all[|front| + |a|] == c
    ensures IsAt(all, |front| + |a| + 1, b) && IsAt(all, |front| + |a| + 1 + |b|, end)
  {
    all := front + a + [c] + b + end;
  }

  lemma HitsFitAt(matches: Matcher, names: iset<Name>, parts: seq<Part>, all: seq<Name>, at: nat)
    requires Live(matches, names, parts) && IsAt(all, at, Hits(matches, names, parts))
    ensures Fits(matches, all, at, parts)
  {
    var hits := Hits(matches, names, parts);
    var front, back := all[..at], all[at + |hits|..];
    HitsFit(matches, names, parts, front, back);
    assert front + hits + back == all;
  }

  lemma PlainPart(parts: seq<Part>, i: nat, n: nat)
    requires parts != [] && parts[0].DoubleStar? && 0 < i <= n <= Length(parts) + 1
    ensures Plain(parts[i..n]) && Segments(parts[i..n]) == n - i
  {
    var run := parts[i..n];
    forall k | 0 <= k < |run| ensures run[k].Segment? {
      assert run[k] == parts[i + k];
    }
    PlainHasNoStars(run);
  }

  lemma LiveParts(matches: Matcher, names: iset<Name>, parts: seq<Part>, i: nat, n: nat)
    requires Live(matches, names, parts) && i <= n <= |parts|
    ensures Live(matches, names, parts[i..n])
  {}

  /** The hits for the segments from i to n - 1, at a place in the chain. */
  ghost predicate HitsAt(matches: Matcher, names: iset<Name>, parts: seq<Part>, i: nat, n: nat, all: seq<Name>, at: nat)
    requires Live(matches, names, parts) && parts != [] && parts[0].DoubleStar? && 0 < i && n <= Length(parts) + 1
  {
    at + n - i <= |all| && forall k | i <= k < n :: all[at + k - i] == Hit(matches, names, parts[k])
  }

  lemma HitsAreAt(matches: Matcher, names: iset<Name>, parts: seq<Part>, i: nat, n: nat, all: seq<Name>, at: nat)
    requires Live(matches, names, parts) && parts != [] && parts[0].DoubleStar? && 0 < i <= n <= Length(parts) + 1
    requires Live(matches, names, parts[i..n]) && IsAt(all, at, Hits(matches, names, parts[i..n]))
    ensures HitsAt(matches, names, parts, i, n, all, at)
  {
    var run := parts[i..n];
    PlainPart(parts, i, n);
    HitsOfPlain(matches, names, run);
    forall k | i <= k < n ensures all[at + k - i] == Hit(matches, names, parts[k]) {
      assert run[k - i] == parts[k];
      assert Hits(matches, names, run)[k - i] == all[at + (k - i)];
    }
  }

  // ---------------------------------------------------------------- a run that keeps the `**` out

  /** Hits for the segments before j, and a name the first one shares with the one at j. */
  lemma TrapOf(matches: Matcher, names: iset<Name>, d: nat, parts: seq<Part>, j: nat, all: seq<Name>, bound: nat)
    requires parts != [] && parts[0].DoubleStar? && Live(matches, names, parts) && 1 < j < Length(parts)
    requires d + j <= |all| && HitsAt(matches, names, parts, 1, j, all, d)
    requires matches(parts[1].pattern, all[d + j - 1]) && matches(parts[j].pattern, all[d + j - 1])
    requires forall k | 1 < k < j :: !Share(matches, names, parts[1], parts[k])
    requires d + j <= bound
    requires Stops(matches, all, d + j, parts[j + 1..], bound) && Stops(matches, all, d + j, parts[2..], bound)
    ensures Trap(matches, all, d, parts, j, bound)
  {
    forall k | 0 <= k < j ensures parts[1..][k].Segment? && matches(parts[1..][k].pattern, all[d + k]) {
      var n := k + 1;
      assert parts[1..][k] == parts[n];
      assert n < j ==> all[d + n - 1] == Hit(matches, names, parts[n]);
    }
    forall k | d < k < d + j - 1 ensures !matches(parts[1].pattern, all[k]) {
      var n := k - d + 1;
      assert all[d + n - 1] == Hit(matches, names, parts[n]);
      assert !Share(matches, names, parts[1], parts[n]);
    }
  }

  /** What the run stops at behind the trap: the end of the pattern, or a block of names it does not take. */
  lemma BlockStops(matches: Matcher, parts: seq<Part>, j: nat, at: nat, all: seq<Name>,
                   block: seq<Name>, x: Name, k: nat, bound: nat)
    requires parts != [] && parts[0].DoubleStar? && 1 < j < Length(parts) && IsAt(all, at, block)
    requires forall i | 0 <= i < |block| :: block[i] == x
    requires if Length(parts) + 1 == |parts| then bound == at - 1 + Length(parts)
             else j < k <= Length(parts) && |block| == k - 1 && !matches(parts[k].pattern, x)
    ensures Stops(matches, all, at, parts[j + 1..], bound) && Stops(matches, all, at, parts[2..], bound)
  {
    var m := Length(parts);
    assert parts[1..][j..] == parts[j + 1..] && parts[1..][1..] == parts[2..];
    RunFrom(parts[1..], j);
    RunFrom(parts[1..], 1);
    if m + 1 == |parts| {
      PlainStops(matches, all, at, parts[j + 1..], bound);
      PlainStops(matches, all, at, parts[2..], bound);
    } else {
      var first, second := k - j - 1, k - 2;
      assert parts[j + 1..][first] == parts[k] && parts[2..][second] == parts[k];
      assert block[first] == all[at + first] == x && block[second] == all[at + second] == x;
      RefusedStops(matches, all, at, parts[j + 1..], first, bound);
      RefusedStops(matches, all, at, parts[2..], second, bound);
    }
  }

  /** A run that is not good loses a path of some chain. */
  lemma BadRunLoses(matches: Matcher, names: iset<Name>, pre: seq<Part>, parts: seq<Part>) returns (all: seq<Name>)
    requires parts != [] && parts[0].DoubleStar? && Live(matches, names, pre) && Live(matches, names, parts)
    requires !GoodRun(matches, names, parts)
    ensures forall x | x in all :: x in names
    ensures var w := Chain(matches, all);
      && w.Valid() && Listed(w, [], 0, pre + parts, all) && all !in Glob(w, 0, pre + parts, None).out
  {
    var m := Length(parts);
    var bad: nat :| 1 < bad < m && Share(matches, names, parts[1], parts[bad]) && !Swallows(matches, names, parts, bad);
    var j := FirstShare(matches, names, parts, bad);
    var c :| c in names && matches(parts[1].pattern, c) && matches(parts[j].pattern, c);
    var k, x, block := 0, c, [];
    if m + 1 < |parts| {
      k :| bad < k <= m && !TakesAll(matches, names, parts[k]);
      x :| x in names && !matches(parts[k].pattern, x);
      block := seq(k - 1, i => x);
    }
    all := TrapLosesOn(matches, names, pre, parts, j, c, x, k, block);
  }

  lemma TrapLosesOn(matches: Matcher, names: iset<Name>, pre: seq<Part>, parts: seq<Part>, j: nat, c: Name, x: Name, k: nat,
                    block: seq<Name>)
    returns (all: seq<Name>)
    requires parts != [] && parts[0].DoubleStar? && Live(matches, names, pre) && Live(matches, names, parts)
    requires 1 < j < Length(parts) && c in names && matches(parts[1].pattern, c) && matches(parts[j].pattern, c)
    requires forall i | 1 < i < j :: !Share(matches, names, parts[1], parts[i])
    requires x in names && forall i | 0 <= i < |block| :: block[i] == x
    requires if Length(parts) + 1 == |parts| then block == []
             else j < k <= Length(parts) && |block| == k - 1 && !matches(parts[k].pattern, x)
    ensures forall y | y in all :: y in names
    ensures var w := Chain(matches, all);
      && w.Valid() && Listed(w, [], 0, pre + parts, all) && all !in Glob(w, 0, pre + parts, None).out
  {
    all := JoinTrap(matches, names, pre, parts, j, c, block);
    var d := Segments(pre);
    var bound := TrapAt(matches, names, d, parts, j, c, x, k, block, all);
    SegmentsAtLeast(parts);
    TrapLoses(matches, all, pre, parts, j, bound, d + j + |block|);
  }

  /** The names in front, those of the trap, the block, and a hit for every segment. */
  lemma JoinTrap(matches: Matcher, names: iset<Name>, pre: seq<Part>, parts: seq<Part>, j: nat, c: Name, block: seq<Name>)
    returns (all: seq<Name>)
    requires parts != [] && parts[0].DoubleStar? && Live(matches, names, pre) && Live(matches, names, parts)
    requires 1 < j < Length(parts) && c in names && forall y | y in block :: y in names
    ensures forall y | y in all :: y in names
    ensures var d := Segments(pre); var at := d + j;
      && |all| == at + |block| + Segments(parts) && Fits(matches, all, 0, pre) && Fits(matches, all, at + |block|, parts[1..])
      && Live(matches, names, parts[1..j]) && IsAt(all, d, Hits(matches, names, parts[1..j]))
      && all[at - 1] == c && IsAt(all, at, block)
  {
    LiveParts(matches, names, parts, 1, j);
    LiveParts(matches, names, parts, 1, |parts|);
    assert parts[1..|parts|] == parts[1..];
    var front, a, tail := Hits(matches, names, pre), Hits(matches, names, parts[1..j]), Hits(matches, names, parts[1..]);
    PlainPart(parts, 1, j);
    all := Joined(names, front, a, c, block, tail);
    var at := Segments(pre) + j;
    assert |front| + |a| + 1 == at;
    HitsFitAt(matches, names, pre, all, 0);
    HitsFitAt(matches, names, parts[1..], all, at + |block|);
  }

  lemma TrapAt(matches: Matcher, names: iset<Name>, d: nat, parts: seq<Part>, j: nat, c: Name, x: Name, k: nat,
               block: seq<Name>, all: seq<Name>)
    returns (bound: nat)
    requires parts != [] && parts[0].DoubleStar? && Live(matches, names, parts)
    requires 1 < j < Length(parts) && matches(parts[1].pattern, c) && matches(parts[j].pattern, c)
    requires forall i | 1 < i < j :: !Share(matches, names, parts[1], parts[i])
    requires forall i | 0 <= i < |block| :: block[i] == x
    requires if Length(parts) + 1 == |parts| then block == []
             else j < k <= Length(parts) && |block| == k - 1 && !matches(parts[k].pattern, x)
    requires Live(matches, names, parts[1..j]) && IsAt(all, d, Hits(matches, names, parts[1..j]))
    requires d + j + |block| <= |all| && all[d + j - 1] == c && IsAt(all, d + j, block)
    ensures Trap(matches, all, d, parts, j, bound) && bound < d + j + |block| + Length(parts)
  {
    var at := d + j;
    bound := if Length(parts) + 1 == |parts| then at - 1 + Length(parts) else at;
    BlockStops(matches, parts, j, at, all, block, x, k, bound);
    HitsAreAt(matches, names, parts, 1, j, all, d);
    TrapOf(matches, names, d, parts, j, all, bound);
  }

  lemma {:induction false} RunIsSegments(parts: seq<Part>)
    ensures Run(parts) <= Segments(parts)
  {
    if parts != [] && parts[0].Segment? {
      RunIsSegments(parts[1..]);
    }
  }

  lemma SegmentsAtLeast(parts: seq<Part>)
    requires parts != [] && parts[0].DoubleStar?
    ensures Length(parts) <= Segments(parts) == Segments(parts[1..])
  {
    RunIsSegments(parts[1..]);
  }

  // ---------------------------------------------------------------- a last run that is too short

  /** With the run in front of it good, a last `**` with no more than one segment finds a path of some chain twice. */
  lemma LightRepeats(matches: Matcher, names: iset<Name>, pre: seq<Part>, parts: seq<Part>, some: Name) returns (all: seq<Name>)
    requires parts != [] && parts[0].DoubleStar? && Live(matches, names, pre) && Live(matches, names, parts)
    requires GoodRun(matches, names, parts) && Light(parts[Length(parts) + 1..]) && some in names
    ensures forall x | x in all :: x in names
    ensures Chain(matches, all).Valid() && !Distinct(Glob(Chain(matches, all), 0, pre + parts, None).out)
  {
    var m := Length(parts);
    var p, c := m, some;
    if j: nat :| 1 < j <= m && Share(matches, names, parts[1], parts[j]) {
      var i := FirstShare(matches, names, parts, j);
      p := i - 1;
      c :| c in names && matches(parts[1].pattern, c) && matches(parts[i].pattern, c);
    } else if m > 0 {
      c := Hit(matches, names, parts[1]);
    }
    all := EchoNames(matches, names, pre, parts, p, c);
  }

  /** The names of an echo: hits for p segments, a name the first segment takes, and hits for the others. */
  lemma EchoNames(matches: Matcher, names: iset<Name>, pre: seq<Part>, parts: seq<Part>, p: nat, c: Name)
    returns (all: seq<Name>)
    requires parts != [] && parts[0].DoubleStar? && Live(matches, names, pre) && Live(matches, names, parts)
    requires GoodRun(matches, names, parts) && Light(parts[Length(parts) + 1..]) && c in names
    requires p <= Length(parts) && (Length(parts) > 0 ==> 0 < p && matches(parts[1].pattern, c))
    requires 0 < p < Length(parts) ==> matches(parts[p + 1].pattern, c)
    requires forall k | 1 < k <= p :: !Share(matches, names, parts[1], parts[k])
    ensures forall x | x in all :: x in names
    ensures Chain(matches, all).Valid() && !Distinct(Glob(Chain(matches, all), 0, pre + parts, None).out)
  {
    all := JoinEcho(matches, names, pre, parts, p, c);
    var step := EchoAt(matches, names, Segments(pre), parts, p, all);
    EchoIsFoundTwice(matches, all, pre, parts, step);
  }

  /** The names in front, those of the echo, and a hit for the last segment. */
  lemma JoinEcho(matches: Matcher, names: iset<Name>, pre: seq<Part>, parts: seq<Part>, p: nat, c: Name)
    returns (all: seq<Name>)
    requires parts != [] && parts[0].DoubleStar? && Live(matches, names, pre) && Live(matches, names, parts)
    requires Light(parts[Length(parts) + 1..]) && c in names && p <= Length(parts)
    ensures forall x | x in all :: x in names
    ensures var d := Segments(pre); var m := Length(parts);
      && |all| == d + p + (if m == 0 then 1 else m) + |parts[m + 1..]| - 1 && Fits(matches, all, 0, pre) && all[d + p] == c
      && HitsAt(matches, names, parts, 1, p + 1, all, d)
      && (m > 0 ==> HitsAt(matches, names, parts, 2, m + 1, all, d + p + 1))
      && (|parts[m + 1..]| == 2 ==> matches(parts[m + 2].pattern, all[|all| - 1]))
  {
    var b := OtherHits(matches, names, parts);
    var end := EndHit(matches, names, parts);
    all := JoinHits(matches, names, pre, parts, p, c, b, end);
    OtherHitsAre(matches, names, parts, b, all, Segments(pre) + p + 1);
  }

  lemma JoinHits(matches: Matcher, names: iset<Name>, pre: seq<Part>, parts: seq<Part>, p: nat, c: Name,
                 b: seq<Name>, end: seq<Name>)
    returns (all: seq<Name>)
    requires parts != [] && parts[0].DoubleStar? && Live(matches, names, pre) && Live(matches, names, parts)
    requires c in names && p <= Length(parts) && (forall x | x in b :: x in names) && forall x | x in end :: x in names
    ensures forall x | x in all :: x in names
    ensures var d := Segments(pre);
      && |all| == d + p + 1 + |b| + |end| && Fits(matches, all, 0, pre) && all[d + p] == c
      && HitsAt(matches, names, parts, 1, p + 1, all, d) && IsAt(all, d + p + 1, b)
      && (|end| == 1 ==> all[|all| - 1] == end[0])
  {
    LiveParts(matches, names, parts, 1, p + 1);
    PlainPart(parts, 1, p + 1);
    var front, a := Hits(matches, names, pre), Hits(matches, names, parts[1..p + 1]);
    var d := Segments(pre);
    assert |front| == d && |a| == p;
    all := Joined(names, front, a, c, b, end);
    HitsFitAt(matches, names, pre, all, 0);
    HitsAreAt(matches, names, parts, 1, p + 1, all, d);
    assert |end| == 1 ==> end[0] == all[|all| - 1];
  }

  lemma OtherHitsAre(matches: Matcher, names: iset<Name>, parts: seq<Part>, b: seq<Name>, all: seq<Name>, at: nat)
    requires parts != [] && parts[0].DoubleStar? && Live(matches, names, parts) && IsAt(all, at, b)
    requires Length(parts) > 0 ==> Live(matches, names, parts[2..Length(parts) + 1])
                                   && b == Hits(matches, names, parts[2..Length(parts) + 1])
    ensures Length(parts) > 0 ==> HitsAt(matches, names, parts, 2, Length(parts) + 1, all, at)
  {
    if Length(parts) > 0 {
      HitsAreAt(matches, names, parts, 2, Length(parts) + 1, all, at);
    }
  }

  lemma EchoAt(matches: Matcher, names: iset<Name>, d: nat, parts: seq<Part>, p: nat, all: seq<Name>)
    returns (step: nat)
    requires parts != [] && parts[0].DoubleStar? && Live(matches, names, parts) && GoodRun(matches, names, parts)
    requires Light(parts[Length(parts) + 1..]) && d + p < |all| && all[d + p] in names
    requires p <= Length(parts) && (Length(parts) > 0 ==> 0 < p && matches(parts[1].pattern, all[d + p]))
    requires 0 < p < Length(parts) ==> matches(parts[p + 1].pattern, all[d + p])
    requires forall k | 1 < k <= p :: !Share(matches, names, parts[1], parts[k])
    requires |all| == d + p + (if Length(parts) == 0 then 1 else Length(parts)) + |parts[Length(parts) + 1..]| - 1
    requires |parts[Length(parts) + 1..]| == 2 ==> matches(parts[Length(parts) + 2].pattern, all[|all| - 1])
    requires HitsAt(matches, names, parts, 1, p + 1, all, d)
    requires Length(parts) > 0 ==> HitsAt(matches, names, parts, 2, Length(parts) + 1, all, d + p + 1)
    ensures Echo(matches, all, d, parts, step)
  {
    if Length(parts) == 0 {
      step := 1;
      EchoWithout(matches, names, d, parts, all);
    } else {
      step := p;
      EchoOf(matches, names, d, parts, p, all);
    }
  }

  /** Hits for all segments of the run but the first. */
  lemma OtherHits(matches: Matcher, names: iset<Name>, parts: seq<Part>) returns (b: seq<Name>)
    requires parts != [] && parts[0].DoubleStar? && Live(matches, names, parts)
    ensures forall x | x in b :: x in names
    ensures if Length(parts) == 0 then b == []
            else |b| == Length(parts) - 1 && Live(matches, names, parts[2..Length(parts) + 1])
                 && b == Hits(matches, names, parts[2..Length(parts) + 1])
  {
    b := [];
    if Length(parts) > 0 {
      LiveParts(matches, names, parts, 2, Length(parts) + 1);
      PlainPart(parts, 2, Length(parts) + 1);
      b := Hits(matches, names, parts[2..Length(parts) + 1]);
    }
  }

  /** A hit for the segment behind the last `**`, if there is one. */
  lemma EndHit(matches: Matcher, names: iset<Name>, parts: seq<Part>) returns (end: seq<Name>)
    requires parts != [] && parts[0].DoubleStar? && Live(matches, names, parts) && Light(parts[Length(parts) + 1..])
    ensures |end| == |parts[Length(parts) + 1..]| - 1 && forall x | x in end :: x in names
    ensures |end| == 1 ==> matches(parts[Length(parts) + 2].pattern, end[0])
  {
    end := [];
    if |parts[Length(parts) + 1..]| == 2 {
      assert parts[Length(parts) + 1..][1] == parts[Length(parts) + 2];
      end := [Hit(matches, names, parts[Length(parts) + 2])];
    }
  }

  lemma EchoWithout(matches: Matcher, names: iset<Name>, d: nat, parts: seq<Part>, all: seq<Name>)
    requires parts != [] && parts[0].DoubleStar? && Length(parts) == 0 && Light(parts[1..])
    requires |all| == d + |parts[1..]|
    requires |parts[1..]| == 2 ==> matches(parts[2].pattern, all[|all| - 1])
    ensures Echo(matches, all, d, parts, 1)
  {}

  lemma EchoOf(matches: Matcher, names: iset<Name>, d: nat, parts: seq<Part>, p: nat, all: seq<Name>)
    requires parts != [] && parts[0].DoubleStar? && Live(matches, names, parts) && GoodRun(matches, names, parts)
    requires Light(parts[Length(parts) + 1..]) && 0 < p <= Length(parts)
    requires |all| == d + p + Length(parts) + |parts[Length(parts) + 1..]| - 1
    requires |parts[Length(parts) + 1..]| == 2 ==> matches(parts[Length(parts) + 2].pattern, all[|all| - 1])
    requires all[d + p] in names && matches(parts[1].pattern, all[d + p])
    requires p < Length(parts) ==> matches(parts[p + 1].pattern, all[d + p])
    requires forall k | 1 < k <= p :: !Share(matches, names, parts[1], parts[k])
    requires HitsAt(matches, names, parts, 1, p + 1, all, d)
    requires HitsAt(matches, names, parts, 2, Length(parts) + 1, all, d + p + 1)
    ensures Echo(matches, all, d, parts, p)
  {
    TakesTwice(matches, names, d, parts, p, all);
    forall k | d < k < d + p ensures !matches(parts[1].pattern, all[k]) {
      var n := k - d + 1;
      assert all[d + n - 1] == Hit(matches, names, parts[n]);
      assert !Share(matches, names, parts[1], parts[n]);
    }
  }

  lemma TakesTwice(matches: Matcher, names: iset<Name>, d: nat, parts: seq<Part>, p: nat, all: seq<Name>)
    requires parts != [] && parts[0].DoubleStar? && Live(matches, names, parts) && GoodRun(matches, names, parts)
    requires 0 < p <= Length(parts) && d + p + Length(parts) <= |all|
    requires all[d + p] in names && matches(parts[1].pattern, all[d + p])
    requires p < Length(parts) ==> matches(parts[p + 1].pattern, all[d + p])
    requires HitsAt(matches, names, parts, 1, p + 1, all, d)
    requires HitsAt(matches, names, parts, 2, Length(parts) + 1, all, d + p + 1)
    ensures Takes(matches, all, d, parts[1..], Length(parts)) && Takes(matches, all, d + p, parts[1..], Length(parts))
  {
    var m := Length(parts);
    if p + 1 < m {
      assert Share(matches, names, parts[1], parts[p + 1]);
      assert Swallows(matches, names, parts, p + 1);
    }
    forall k | 0 <= k < m
      ensures parts[1..][k].Segment? && matches(parts[1..][k].pattern, all[d + k])
      ensures matches(parts[1..][k].pattern, all[d + p + k])
    {
      var n := k + 1;
      assert parts[1..][k] == parts[n];
      assert k > 0 ==> all[d + p + 1 + n - 2] == Hit(matches, names, parts[n]);
      if k < p {
        assert all[d + n - 1] == Hit(matches, names, parts[n]);
      } else if k > p {
        var i := k - p + 1;
        assert all[d + p + 1 + i - 2] == Hit(matches, names, parts[i]);
        assert TakesAll(matches, names, parts[n]);
      }
    }
  }
}
