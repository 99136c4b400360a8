/**
 What decides whether a pattern is exact: the runs of segments behind its `**`, and which
 segments share a name. `names` are the entry names the file system allows.
 */
module GlobRuns {
  import opened Wrappers
  import opened GlobModel
  import opened GlobTrees

  type Matcher = (string, Name) -> bool

  // ---------------------------------------------------------------- runs

  /** How many segments the pattern begins with. */
  function Run(parts: seq<Part>): (n: nat)
    ensures n <= |parts| && forall k | 0 <= k < n :: parts[k].Segment?
    ensures n < |parts| ==> parts[n].DoubleStar?
  {
    if parts == [] || parts[0].DoubleStar? then 0 else 1 + Run(parts[1..])
  }

  /** How many segments the `**` at the front is followed by. */
  function Length(parts: seq<Part>): (n: nat)
    requires parts != [] && parts[0].DoubleStar?
    ensures n < |parts| && forall k | 1 <= k <= n :: parts[k].Segment?
    ensures n + 1 < |parts| ==> parts[n + 1].DoubleStar?
  {
    assert forall k | 1 <= k < |parts| :: parts[k] == parts[1..][k - 1];
    Run(parts[1..])
  }

  function Stars(parts: seq<Part>): nat {
    if parts == [] then 0 else (if parts[0].DoubleStar? then 1 else 0) + Stars(parts[1..])
  }

  /** How many segments follow the last `**`. */
  function LastRun(parts: seq<Part>): nat {
    if Stars(parts) == 0 then |parts| else LastRun(parts[1..])
  }

  lemma {:induction false} PlainHasNoStars(parts: seq<Part>)
    ensures Stars(parts) == 0 <==> Plain(parts)
    ensures Plain(parts) ==> Run(parts) == |parts| == Segments(parts)
  {
    if parts != [] {
      PlainHasNoStars(parts[1..]);
      assert Plain(parts) <==> parts[0].Segment? && Plain(parts[1..]) by {
        assert forall i | 0 < i < |parts| :: parts[i] == parts[1..][i - 1];
      }
    }
  }

  // ---------------------------------------------------------------- names in common

  /** Some name is taken by both segments. */
  ghost predicate Share(matches: Matcher, names: iset<Name>, a: Part, b: Part)
    requires a.Segment? && b.Segment?
  {
    exists x :: x in names && matches(a.pattern, x) && matches(b.pattern, x)
  }

  ghost predicate TakesAll(matches: Matcher, names: iset<Name>, a: Part)
    requires a.Segment?
  {
    forall x | x in names :: matches(a.pattern, x)
  }

  ghost predicate TakesSome(matches: Matcher, names: iset<Name>, a: Part)
    requires a.Segment?
  {
    exists x :: x in names && matches(a.pattern, x)
  }

  /** Every segment takes some name. */
  ghost predicate Live(matches: Matcher, names: iset<Name>, parts: seq<Part>) {
    forall i | 0 <= i < |parts| && parts[i].Segment? :: TakesSome(matches, names, parts[i])
  }

  /** Behind segment i of the run everything is taken up to the next `**`. */
  ghost predicate Swallows(matches: Matcher, names: iset<Name>, parts: seq<Part>, i: nat)
    requires parts != [] && parts[0].DoubleStar?
  {
    && Length(parts) + 1 < |parts|
    && forall k | i < k <= Length(parts) :: TakesAll(matches, names, parts[k])
  }

  /**
   The first segment behind the `**` has a name in common with a later one only if that is the
   last of the pattern, or everything behind it is taken up to the next `**`.
   */
  ghost predicate GoodRun(matches: Matcher, names: iset<Name>, parts: seq<Part>)
    requires parts != [] && parts[0].DoubleStar?
  {
    forall j: nat | 1 < j < Length(parts) && Share(matches, names, parts[1], parts[j]) ::
      Swallows(matches, names, parts, j)
  }

  ghost predicate GoodRuns(matches: Matcher, names: iset<Name>, parts: seq<Part>) {
    parts != [] ==>
      (parts[0].DoubleStar? ==> GoodRun(matches, names, parts)) && GoodRuns(matches, names, parts[1..])
  }

  /** All runs are good, and with several `**` the last is followed by two segments at least. */
  ghost predicate Orderly(matches: Matcher, names: iset<Name>, parts: seq<Part>) {
    GoodRuns(matches, names, parts) && (Stars(parts) > 1 ==> LastRun(parts) > 1)
  }

  lemma {:induction false} GoodRunsFrom(matches: Matcher, names: iset<Name>, parts: seq<Part>, i: nat)
    requires GoodRuns(matches, names, parts) && i <= |parts|
    ensures GoodRuns(matches, names, parts[i..])
  {
    if i > 0 {
      var less := i - 1;
      GoodRunsFrom(matches, names, parts[1..], less);
      assert parts[1..][less..] == parts[i..];
    } else {
      assert parts[0..] == parts;
    }
  }

  // ---------------------------------------------------------------- the end of a path

  /** The path ends in names that the first i segments behind the `**` take. */
  ghost predicate Ends(matches: Matcher, parts: seq<Part>, q: Path, i: nat)
    requires parts != [] && parts[0].DoubleStar?
  {
    i <= |q| && i <= Length(parts) && forall k | 1 <= k <= i :: matches(parts[k].pattern, q[|q| - i + k - 1])
  }

  lemma EndsLonger(matches: Matcher, parts: seq<Part>, q: Path, i: nat, name: Name)
    requires parts != [] && parts[0].DoubleStar? && i < Length(parts)
    requires Ends(matches, parts, q, i) && matches(parts[i + 1].pattern, name)
    ensures Ends(matches, parts, q + [name], i + 1)
  {
    var longer := q + [name];
    forall k | 1 <= k <= i + 1 ensures matches(parts[k].pattern, longer[|longer| - (i + 1) + k - 1]) {
      if k <= i {
        assert longer[|longer| - (i + 1) + k - 1] == q[|q| - i + k - 1];
      }
    }
  }

  /** In a good run, two beginnings of it that end a path together leave nothing open but what is swallowed. */
  lemma EndsOnce(matches: Matcher, names: iset<Name>, parts: seq<Part>, q: Path, i: nat, j: nat)
    requires parts != [] && parts[0].DoubleStar? && GoodRun(matches, names, parts)
    requires 0 < i < j < Length(parts) && Ends(matches, parts, q, i) && Ends(matches, parts, q, j)
    requires forall x | x in q :: x in names
    ensures Swallows(matches, names, parts, j)
  {
    var first := |q| - i;
    var later := j - i + 1;
    assert q[first] in q && matches(parts[1].pattern, q[first]);
    assert q[first] == q[|q| - j + later - 1] && matches(parts[later].pattern, q[first]);
    assert Share(matches, names, parts[1], parts[later]);
  }

  /** Beginnings of i and of j segments can end one path: where they overlap, each pair of segments shares a name. */
  ghost predicate Overlap(matches: Matcher, names: iset<Name>, parts: seq<Part>, i: nat, j: nat)
    requires parts != [] && parts[0].DoubleStar? && i < j <= Length(parts)
  {
    forall k | 1 <= k <= i :: Share(matches, names, parts[k], parts[j - i + k])
  }

  /** Two beginnings overlap if and only if the first segment shares a name with a later one. */
  lemma OverlapIff(matches: Matcher, names: iset<Name>, parts: seq<Part>)
    requires parts != [] && parts[0].DoubleStar?
    ensures (exists i: nat, j: nat :: 0 < i < j < Length(parts) && Overlap(matches, names, parts, i, j))
       <==> (exists j: nat :: 1 < j < Length(parts) && Share(matches, names, parts[1], parts[j]))
  {
    if i: nat, j: nat :| 0 < i < j < Length(parts) && Overlap(matches, names, parts, i, j) {
      var later := j - i + 1;
      assert Share(matches, names, parts[1], parts[later]);
    }
    if j: nat :| 1 < j < Length(parts) && Share(matches, names, parts[1], parts[j]) {
      assert Overlap(matches, names, parts, 1, j);
    }
  }

  // ---------------------------------------------------------------- what a `**` absorbs

  lemma StarTakesMore(matches: Matcher, parts: seq<Part>, rel: Path, n: nat, target: Target)
    requires parts != [] && parts[0].DoubleStar? && n <= |rel| && PatternMatches(matches, parts, rel[n..], target)
    ensures PatternMatches(matches, parts, rel, target)
  {
    if |parts| > 1 {
      var k :| 0 <= k <= |rel[n..]| && PatternMatches(matches, parts[1..], rel[n..][k..], target);
      assert rel[n..][k..] == rel[n + k..];
    }
  }

  /** Parts in front of a `**` leave it a part of the path, behind a name for each segment. */
  lemma {:induction false} FrontTakes(matches: Matcher, parts: seq<Part>, m: nat, rel: Path, target: Target)
    requires m < |parts| && parts[m].DoubleStar? && PatternMatches(matches, parts, rel, target)
    ensures Segments(parts[..m]) <= |rel|
    ensures PatternMatches(matches, parts[m..], rel[Segments(parts[..m])..], target)
    decreases m
  {
    if m == 0 {
      assert parts[0..] == parts && rel[0..] == rel;
    } else {
      var less := m - 1;
      assert parts[1..][less..] == parts[m..] && parts[1..][..less] == parts[..m][1..];
      var n := Segments(parts[1..][..less]);
      if parts[0].Segment? {
        FrontTakes(matches, parts[1..], less, rel[1..], target);
        assert rel[1..][n..] == rel[n + 1..];
      } else {
        var k :| 0 <= k <= |rel| && PatternMatches(matches, parts[1..], rel[k..], target);
        FrontTakes(matches, parts[1..], less, rel[k..], target);
        assert rel[k..][n..] == rel[n..][k..];
        StarTakesMore(matches, parts[m..], rel[n..], k, target);
      }
    }
  }

  /** A `**` takes whatever the parts in front of it have taken. */
  lemma StarAbsorbs(matches: Matcher, parts: seq<Part>, m: nat, rel: Path, target: Target)
    requires m < |parts| && parts[m].DoubleStar? && PatternMatches(matches, parts, rel, target)
    ensures PatternMatches(matches, parts[m..], rel, target)
  {
    FrontTakes(matches, parts, m, rel, target);
    StarTakesMore(matches, parts[m..], rel, Segments(parts[..m]), target);
  }

  lemma ListedAbsorbs(w: World, base: Path, node: nat, parts: seq<Part>, m: nat, p: Path)
    requires m < |parts| && parts[m].DoubleStar? && Listed(w, base, node, parts, p)
    ensures Listed(w, base, node, parts[m..], p)
  {
    var rel := p[|base|..];
    var target :| Allowed(w, base, node, rel, target) && PatternMatches(w.matches, parts, rel, target);
    StarAbsorbs(w.matches, parts, m, rel, target);
  }

  /** Segments that take all names match as many of them as they are. */
  lemma {:induction false} AllTaken(matches: Matcher, names: iset<Name>, parts: seq<Part>, n: nat, rel: Path, target: Target)
    requires n < |parts| && n <= |rel| && (forall x | x in rel :: x in names)
    requires forall k | 0 <= k < n :: parts[k].Segment? && TakesAll(matches, names, parts[k])
    requires PatternMatches(matches, parts[n..], rel[n..], target)
    ensures PatternMatches(matches, parts, rel, target)
    decreases n
  {
    if n == 0 {
      assert parts[0..] == parts && rel[0..] == rel;
    } else {
      var less := n - 1;
      assert parts[1..][less..] == parts[n..] && rel[1..][less..] == rel[n..];
      assert forall k | 0 <= k < less :: parts[1..][k] == parts[k + 1];
      assert forall x | x in rel[1..] :: x in rel;
      AllTaken(matches, names, parts[1..], less, rel[1..], target);
      assert rel[0] in rel;
    }
  }

  /** What the walk still has to match i segments into the run of the `**`; 0 stands for the `**` itself. */
  function Rest(parts: seq<Part>, i: nat): seq<Part>
    requires parts != [] && i < |parts|
  {
    if i == 0 then parts else parts[i + 1..]
  }

  /** Where the rest of the run takes everything, being further into it loses nothing. */
  lemma SwallowedMatch(
    matches: Matcher, names: iset<Name>, parts: seq<Part>, i: nat, j: nat, rel: Path, target: Target)
    requires parts != [] && parts[0].DoubleStar? && i <= j && 0 < j <= Length(parts) && Swallows(matches, names, parts, j)
    requires (forall x | x in rel :: x in names) && PatternMatches(matches, Rest(parts, i), rel, target)
    ensures PatternMatches(matches, Rest(parts, j), rel, target)
  {
    var here := Rest(parts, i);
    var cut := |here| - (|parts| - 1 - Length(parts));
    assert here[cut..] == parts[Length(parts) + 1..];
    FrontTakes(matches, here, cut, rel, target);
    SegmentsOfRun(parts, i);
    RestTaken(matches, names, parts, j, Length(parts) - i, rel, target);
  }

  lemma RestTaken(matches: Matcher, names: iset<Name>, parts: seq<Part>, j: nat, n: nat, rel: Path, target: Target)
    requires parts != [] && parts[0].DoubleStar? && 0 < j <= Length(parts) && Swallows(matches, names, parts, j)
    requires (forall x | x in rel :: x in names) && Length(parts) - j <= n <= |rel|
    requires PatternMatches(matches, parts[Length(parts) + 1..], rel[n..], target)
    ensures PatternMatches(matches, Rest(parts, j), rel, target)
  {
    var next := parts[Length(parts) + 1..];
    var less := Length(parts) - j;
    assert rel[less..][n - less..] == rel[n..];
    StarTakesMore(matches, next, rel[less..], n - less, target);
    assert Rest(parts, j)[less..] == next;
    forall k | 0 <= k < less ensures Rest(parts, j)[k].Segment? && TakesAll(matches, names, Rest(parts, j)[k]) {
      assert Rest(parts, j)[k] == parts[j + 1 + k];
    }
    AllTaken(matches, names, Rest(parts, j), less, rel, target);
  }

  lemma SegmentsOfRun(parts: seq<Part>, i: nat)
    requires parts != [] && parts[0].DoubleStar? && i <= Length(parts)
    ensures var front := Rest(parts, i)[..|Rest(parts, i)| - (|parts| - 1 - Length(parts))];
            Segments(front) == Length(parts) - i
  {
    var m := Length(parts);
    var front := Rest(parts, i)[..|Rest(parts, i)| - (|parts| - 1 - m)];
    var run := if i == 0 then front[1..] else front;
    assert run == parts[i + 1..m + 1];
    forall k | 0 <= k < |run| ensures run[k].Segment? {
      assert run[k] == parts[i + 1 + k];
    }
    PlainHasNoStars(run);
  }

  // ---------------------------------------------------------------- names on a listed path

  lemma {:induction false} AllowedNames(w: World, names: iset<Name>, base: Path, node: nat, rel: Path, target: Target)
    requires w.NamedFrom(names) && Allowed(w, base, node, rel, target)
    ensures forall x | x in rel :: x in names
    decreases |rel|
  {
    if rel != [] {
      var i :| 0 <= i < |w.List(node)| && AllowedVia(w, base, w.List(node)[i], rel, target);
      var e := w.List(node)[i];
      assert e.name in names;
      if e.target.Directory? {
        AllowedNames(w, names, base + [e.name], e.target.key, rel[1..], target);
      } else {
        assert rel[1..] == [];
      }
      forall x | x in rel ensures x in names {
        assert rel == [rel[0]] + rel[1..];
        assert x == rel[0] || x in rel[1..];
      }
    }
  }

  lemma SwallowedListed(w: World, names: iset<Name>, base: Path, node: nat, parts: seq<Part>, i: nat, j: nat, p: Path)
    requires w.NamedFrom(names) && parts != [] && parts[0].DoubleStar?
    requires i <= j && 0 < j <= Length(parts) && Swallows(w.matches, names, parts, j)
    requires Listed(w, base, node, Rest(parts, i), p)
    ensures Listed(w, base, node, Rest(parts, j), p)
  {
    var rel := p[|base|..];
    var target :| Allowed(w, base, node, rel, target) && PatternMatches(w.matches, Rest(parts, i), rel, target);
    AllowedNames(w, names, base, node, rel, target);
    SwallowedMatch(w.matches, names, parts, i, j, rel, target);
  }

  /** A pattern with a segment that takes no name lists nothing. */
  lemma {:induction false} DeadSegment(matches: Matcher, names: iset<Name>, parts: seq<Part>, i: nat, rel: Path, target: Target)
    requires i < |parts| && parts[i].Segment? && !TakesSome(matches, names, parts[i])
    requires forall x | x in rel :: x in names
    ensures !PatternMatches(matches, parts, rel, target)
    decreases |parts|
  {
    if PatternMatches(matches, parts, rel, target) {
      if parts[0].Segment? {
        assert rel[0] in rel && i > 0;
        assert forall x | x in rel[1..] :: x in rel;
        DeadSegment(matches, names, parts[1..], i - 1, rel[1..], target);
      } else {
        var k :| 0 <= k <= |rel| && PatternMatches(matches, parts[1..], rel[k..], target);
        assert forall x | x in rel[k..] :: x in rel;
        DeadSegment(matches, names, parts[1..], i - 1, rel[k..], target);
      }
    }
  }

  lemma DeadPattern(w: World, names: iset<Name>, base: Path, node: nat, parts: seq<Part>, p: Path)
    requires w.NamedFrom(names) && !Live(w.matches, names, parts)
    ensures !Listed(w, base, node, parts, p)
  {
    if Listed(w, base, node, parts, p) {
      var rel := p[|base|..];
      var target :| Allowed(w, base, node, rel, target) && PatternMatches(w.matches, parts, rel, target);
      AllowedNames(w, names, base, node, rel, target);
      var i: nat :| i < |parts| && parts[i].Segment? && !TakesSome(w.matches, names, parts[i]);
      DeadSegment(w.matches, names, parts, i, rel, target);
    }
  }
}
