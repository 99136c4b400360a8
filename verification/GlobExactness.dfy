/**
 For which patterns the walk is exact on every plain tree. A pattern is read by one matcher, and
 the entries of all trees have names the file system allows; which names the segments behind a
 `**` have in common then decides.
 */
module GlobExactness {
  import opened Wrappers
  import opened GlobModel
  import opened GlobBounds
  import opened GlobTrees
  import opened GlobRuns
  import opened GlobFinds
  import opened GlobOnce
  import opened GlobChains
  import opened GlobWitnesses

  /** A plain tree the pattern may be walked on. */
  ghost predicate Walkable(w: World, t: Tree, matches: Matcher, names: iset<Name>) {
    w.Valid() && IsTree(w, t) && w.matches == matches && w.NamedFrom(names)
  }

  ghost predicate ExactOn(w: World, t: Tree, parts: seq<Part>)
    requires w.Valid()
  {
    ListsExactly(w, t.key, parts, Glob(w, t.key, parts, None).out)
  }

  /** Exact on every plain tree. */
  ghost predicate AlwaysExact(matches: Matcher, names: iset<Name>, parts: seq<Part>) {
    forall w: World, t: Tree | Walkable(w, t, matches, names) :: ExactOn(w, t, parts)
  }

  // ---------------------------------------------------------------- orderly patterns are exact

  lemma OrderlyIsExact(w: World, t: Tree, names: iset<Name>, parts: seq<Part>)
    requires w.Valid() && IsTree(w, t) && w.NamedFrom(names) && Orderly(w.matches, names, parts)
    ensures ExactOn(w, t, parts)
  {
    var out := Glob(w, t.key, parts, None).out;
    EverythingFound(w, names, t, parts);
    NothingTwice(w, t, parts);
    forall p | p in out ensures Listed(w, [], t.key, parts, p) {
      GlobSound(w, t.key, parts, None, p);
    }
  }

  /** Wherever the walk of an orderly pattern starts on an untouched subtree, it adds every listed path, once, and no other. */
  lemma ExactWalk(w: World, names: iset<Name>, base: Path, t: Tree, parts: seq<Part>, visited: set<nat>, st: Walk)
    requires Context(w, names, base, t, parts, visited, st) && Fresh(st, t) && Orderly(w.matches, names, parts)
    ensures var after := GlobWalk(w, base, t.key, parts, visited, st);
      AddsOnce(st, after) && forall p :: Added(st, after, p) <==> Listed(w, base, t.key, parts, p)
  {
    var after := GlobWalk(w, base, t.key, parts, visited, st);
    var bare := st.(out := []);
    assert forall k: nat :: bare.Count(k) == st.Count(k);
    FreshIsStartable(w, names, base, t, parts, bare);
    WalkFinds(w, names, base, t, parts, visited, bare);
    WalkOnce(w, base, t, parts, visited, st);
    WalkAppends(w, base, t.key, parts, visited, bare, st.out);
    assert After(st.out, bare) == st;
    forall p ensures Added(st, after, p) <==> Listed(w, base, t.key, parts, p) {
      if Added(st, after, p) {
        AddedIsListed(w, base, t, parts, visited, st, p);
      }
      if Listed(w, base, t.key, parts, p) {
        var found := GlobWalk(w, base, t.key, parts, visited, bare).out;
        var i :| 0 <= i < |found| && found[i] == p;
        assert after.out[|st.out| + i] == p;
      }
    }
  }

  /** A pattern with a segment that takes no name lists nothing, and the walk finds nothing. */
  lemma DeadIsExact(w: World, t: Tree, names: iset<Name>, parts: seq<Part>)
    requires w.Valid() && w.NamedFrom(names) && !Live(w.matches, names, parts)
    ensures ExactOn(w, t, parts)
  {
    var out := Glob(w, t.key, parts, None).out;
    forall p ensures !Listed(w, [], t.key, parts, p) && p !in out {
      DeadPattern(w, names, [], t.key, parts, p);
      if p in out {
        GlobSound(w, t.key, parts, None, p);
      }
    }
    if out != [] {
      var p := Member(out);
      assert false;
    }
  }

  lemma Member(out: seq<Path>) returns (p: Path)
    requires out != []
    ensures p in out
  {
    p := out[0];
  }

  // ---------------------------------------------------------------- all other patterns fail

  lemma {:induction false} FindBadRun(matches: Matcher, names: iset<Name>, parts: seq<Part>) returns (i: nat)
    requires !GoodRuns(matches, names, parts)
    ensures i < |parts| && parts[i..][0].DoubleStar? && !GoodRun(matches, names, parts[i..])
  {
    if parts[0].DoubleStar? && !GoodRun(matches, names, parts) {
      i := 0;
      assert parts[0..] == parts;
    } else {
      var k := FindBadRun(matches, names, parts[1..]);
      i := k + 1;
      assert parts[1..][k..] == parts[i..];
    }
  }

  /** The last but one `**`. */
  lemma {:induction false} FindLight(parts: seq<Part>) returns (i: nat)
    requires Stars(parts) > 1 && LastRun(parts) <= 1
    ensures i < |parts| && parts[i..][0].DoubleStar? && Light(parts[i..][Length(parts[i..]) + 1..])
  {
    if Stars(parts[1..]) > 1 {
      var k := FindLight(parts[1..]);
      i := k + 1;
      assert parts[1..][k..] == parts[i..];
    } else {
      i := 0;
      assert parts[0..] == parts;
      OneStarLeft(parts[1..]);
      assert parts[1..][Length(parts)..] == parts[Length(parts) + 1..];
    }
  }

  lemma {:induction false} OneStarLeft(parts: seq<Part>)
    requires Stars(parts) == 1 && LastRun(parts) <= 1
    ensures Light(parts[Run(parts)..])
  {
    if parts[0].Segment? {
      OneStarLeft(parts[1..]);
      assert parts[1..][Run(parts[1..])..] == parts[Run(parts)..];
    } else {
      PlainHasNoStars(parts[1..]);
      assert parts[0..] == parts && LastRun(parts) == |parts[1..]|;
      assert |parts| == 2 ==> parts[1..][0] == parts[1];
    }
  }

  /** A chain of directories on which the walk is not exact. */
  lemma DisorderFails(matches: Matcher, names: iset<Name>, parts: seq<Part>, some: Name) returns (w: World, t: Tree)
    requires some in names && Live(matches, names, parts) && !Orderly(matches, names, parts)
    ensures Walkable(w, t, matches, names) && !ExactOn(w, t, parts)
  {
    var i: nat;
    var all: seq<Name>;
    if !GoodRuns(matches, names, parts) {
      i := FindBadRun(matches, names, parts);
      LiveSplit(matches, names, parts, i);
      all := BadRunLoses(matches, names, parts[..i], parts[i..]);
    } else {
      i := FindLight(parts);
      LiveSplit(matches, names, parts, i);
      GoodRunsFrom(matches, names, parts, i);
      all := LightRepeats(matches, names, parts[..i], parts[i..], some);
    }
    assert parts[..i] + parts[i..] == parts;
    w, t := Chain(matches, all), ChainTree(0, |all|);
    ChainIsTree(matches, all, 0);
    ChainNamedFrom(matches, all, names);
  }

  lemma LiveSplit(matches: Matcher, names: iset<Name>, parts: seq<Part>, i: nat)
    requires Live(matches, names, parts) && i <= |parts|
    ensures Live(matches, names, parts[..i]) && Live(matches, names, parts[i..])
  {
    LiveParts(matches, names, parts, 0, i);
    LiveParts(matches, names, parts, i, |parts|);
    assert parts[0..i] == parts[..i] && parts[i..|parts|] == parts[i..];
  }

  // ---------------------------------------------------------------- the condition

  /**
   For every pattern, matcher and stock of names: the walk lists exactly the allowed matching
   paths of every plain tree, each once, if and only if the pattern is orderly, or has a segment
   that takes no name at all.
   */
  lemma GlobExactIff(matches: Matcher, names: iset<Name>, parts: seq<Part>)
    requires exists x :: x in names
    ensures AlwaysExact(matches, names, parts) <==> Orderly(matches, names, parts) || !Live(matches, names, parts)
  {
    if Orderly(matches, names, parts) || !Live(matches, names, parts) {
      forall w: World, t: Tree | Walkable(w, t, matches, names) ensures ExactOn(w, t, parts) {
        if Live(matches, names, parts) {
          OrderlyIsExact(w, t, names, parts);
        } else {
          DeadIsExact(w, t, names, parts);
        }
      }
    } else {
      var some :| some in names;
      var w, t := DisorderFails(matches, names, parts, some);
      assert Walkable(w, t, matches, names);
    }
  }

  /** One `**` and a run of segments: no later one but the last may share a name with the first. */
  lemma OneStarExactIff(matches: Matcher, names: iset<Name>, run: seq<Part>)
    requires (exists x :: x in names) && Plain(run) && Live(matches, names, run)
    ensures AlwaysExact(matches, names, [DoubleStar] + run)
       <==> forall j | 0 < j < |run| - 1 :: !Share(matches, names, run[0], run[j])
  {
    var parts := [DoubleStar] + run;
    GlobExactIff(matches, names, parts);
    PlainHasNoStars(run);
    assert parts[1..] == run && Length(parts) == |run| && Stars(parts) == 1;
    assert Live(matches, names, parts);
    PlainIsGood(matches, names, run);
    if GoodRun(matches, names, parts) {
      forall j | 0 < j < |run| - 1 ensures !Share(matches, names, run[0], run[j]) {
        assert run[0] == parts[1] && run[j] == parts[j + 1];
      }
    } else {
      var j: nat :| 1 < j < |run| && Share(matches, names, parts[1], parts[j]);
      assert Share(matches, names, run[0], run[j - 1]);
    }
  }

  lemma {:induction false} PlainIsGood(matches: Matcher, names: iset<Name>, parts: seq<Part>)
    requires Plain(parts)
    ensures GoodRuns(matches, names, parts)
  {
    if parts != [] {
      PlainIsGood(matches, names, parts[1..]);
    }
  }

  function Literals(words: seq<Name>): seq<Part> {
    seq(|words|, i requires 0 <= i < |words| => Segment(words[i]))
  }

  /** `**` and literal names, each a segment that takes itself alone: the first may not recur before the last. */
  lemma LiteralsExactIff(matches: Matcher, names: iset<Name>, words: seq<Name>)
    requires (exists x :: x in names) && forall i | 0 <= i < |words| :: words[i] in names
    requires forall i, x | 0 <= i < |words| && x in names :: matches(words[i], x) <==> x == words[i]
    ensures AlwaysExact(matches, names, [DoubleStar] + Literals(words))
       <==> forall j | 0 < j < |words| - 1 :: words[j] != words[0]
  {
    var run := Literals(words);
    forall i | 0 <= i < |run| ensures TakesSome(matches, names, run[i]) {
      assert matches(words[i], words[i]);
    }
    OneStarExactIff(matches, names, run);
    forall j | 0 < j < |words| - 1 ensures Share(matches, names, run[0], run[j]) <==> words[j] == words[0] {
      if words[j] == words[0] {
        assert matches(run[0].pattern, words[0]) && matches(run[j].pattern, words[0]);
      }
    }
  }

  /** `**` and n wildcards, the case the remark in the source speaks of: exact if and only if n is at most two. */
  lemma WildcardsExactIff(matches: Matcher, names: iset<Name>, n: nat)
    requires (exists x :: x in names) && forall x | x in names :: matches("*", x)
    ensures AlwaysExact(matches, names, [DoubleStar] + seq(n, i => Segment("*"))) <==> n <= 2
  {
    var run := seq(n, i => Segment("*"));
    assert forall i | 0 <= i < n :: run[i] == Segment("*");
    var x :| x in names;
    OneStarExactIff(matches, names, run);
    if n > 2 {
      assert Share(matches, names, run[0], run[1]);
    }
  }

  // ---------------------------------------------------------------- whatever the segments match

  /** No run behind a `**` is longer than two segments, and with several `**` the last has two. */
  predicate Tidy(parts: seq<Part>) {
    ShortRuns(parts) && (Stars(parts) > 1 ==> LastRun(parts) > 1)
  }

  predicate ShortRuns(parts: seq<Part>) {
    parts != [] ==> (parts[0].DoubleStar? ==> Length(parts) <= 2) && ShortRuns(parts[1..])
  }

  lemma {:induction false} ShortIsGood(matches: Matcher, names: iset<Name>, parts: seq<Part>)
    requires ShortRuns(parts)
    ensures GoodRuns(matches, names, parts)
  {
    if parts != [] {
      ShortIsGood(matches, names, parts[1..]);
    }
  }

  /** Tidy patterns are exact on every plain tree, whatever their segments match. */
  lemma GlobExactOnTrees(w: World, t: Tree, parts: seq<Part>)
    requires w.Valid() && IsTree(w, t) && Tidy(parts)
    ensures ExactOn(w, t, parts)
  {
    var names := iset d, i | d in w.listing && 0 <= i < |w.listing[d]| :: w.listing[d][i].name;
    ShortIsGood(w.matches, names, parts);
    OrderlyIsExact(w, t, names, parts);
  }
}
