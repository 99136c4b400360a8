/**
 Chains of directories on which the bound of two entries per directory shows: a run that has
 entered a directory twice keeps the `**` out of it and loses paths; a second `**` with no more
 than one segment behind it finds a path twice.
 */
module GlobChains {
  import opened Wrappers
  import opened GlobModel
  import opened GlobBounds
  import opened GlobTrees
  import opened GlobRuns

  // ---------------------------------------------------------------- chains

  /** Directories 0, 1, ..., each with the next as its only entry. */
  function Chain(matches: Matcher, names: seq<Name>): World {
    World(UpTo(|names|), map k: nat | k < |names| :: [Entry(names[k], Directory(k + 1))],
          matches, {}, (p: Path) => true, (p: Path) => true)
  }

  function UpTo(d: nat): set<nat> {
    if d == 0 then {0} else UpTo(d - 1) + {d}
  }

  lemma {:induction false} UpToHas(d: nat)
    ensures forall k: nat :: k in UpTo(d) <==> k <= d
  {
    if d > 0 {
      UpToHas(d - 1);
    }
  }

  function ChainTree(first: nat, last: nat): Tree
    requires first <= last
    decreases last - first
  {
    Tree(first, if first == last then [] else [Some(ChainTree(first + 1, last))])
  }

  lemma {:induction false} ChainIsTree(matches: Matcher, names: seq<Name>, first: nat)
    requires first <= |names|
    ensures Chain(matches, names).Valid()
    ensures IsTree(Chain(matches, names), ChainTree(first, |names|)) && ChainTree(first, |names|).key == first
    ensures forall k | k in Keys(ChainTree(first, |names|)) :: first <= k
    decreases |names| - first
  {
    UpToHas(|names|);
    if first < |names| {
      ChainIsTree(matches, names, first + 1);
    }
  }

  lemma ChainNamedFrom(matches: Matcher, names: seq<Name>, all: iset<Name>)
    requires forall x | x in names :: x in all
    ensures Chain(matches, names).NamedFrom(all)
  {
    var w := Chain(matches, names);
    forall d, i | d in w.listing && 0 <= i < |w.listing[d]| ensures w.listing[d][i].name in all {
      assert names[d] in names;
    }
  }

  /** The walk on the chain from directory d on. */
  function WalkChain(matches: Matcher, names: seq<Name>, d: nat, parts: seq<Part>, visited: set<nat>, st: Walk): Walk
    requires d <= |names| && Chain(matches, names).Valid()
  {
    GlobWalk(Chain(matches, names), names[..d], d, parts, visited, st)
  }

  /** The only round at directory d. */
  function Round(matches: Matcher, names: seq<Name>, d: nat, parts: seq<Part>, visited: set<nat>, st: Walk): Walk
    requires d < |names| && Chain(matches, names).Valid() && parts != []
    requires Chain(matches, names).KnownTargets([Entry(names[d], Directory(d + 1))])
  {
    VisitEntry(Chain(matches, names), names[..d], parts, visited, Entry(names[d], Directory(d + 1)), st)
  }

  lemma ChainValid(matches: Matcher, names: seq<Name>)
    ensures Chain(matches, names).Valid() && Chain(matches, names).List(|names|) == []
  {
    ChainIsTree(matches, names, 0);
  }

  /** The only entry of directory d. */
  lemma ChainEntry(matches: Matcher, names: seq<Name>, d: nat)
    requires d < |names|
    ensures Chain(matches, names).Valid() && Chain(matches, names).List(d) == [Entry(names[d], Directory(d + 1))]
    ensures Chain(matches, names).KnownTargets([Entry(names[d], Directory(d + 1))])
    ensures names[..d] + [names[d]] == names[..d + 1]
  {
    ChainValid(matches, names);
    assert Chain(matches, names).KnownTargets(Chain(matches, names).List(d));
  }

  /** With one entry, the loop is one round. */
  lemma OneRound(w: World, base: Path, parts: seq<Part>, visited: set<nat>, e: Entry, st: Walk)
    requires w.Valid() && w.KnownTargets([e]) && parts != [] && st.left.None?
    ensures WalkEntries(w, base, parts, visited, [e], st) == VisitEntry(w, base, parts, visited, e, st)
    ensures VisitEntry(w, base, parts, visited, e, st).left.None?
  {
    VisitCountsGrow(w, base, parts, visited, e, st);
    assert [e][1..] == [];
  }

  lemma SegmentIsRound(matches: Matcher, names: seq<Name>, d: nat, parts: seq<Part>, visited: set<nat>, st: Walk)
    requires d < |names| && parts != [] && parts[0].Segment? && st.left.None?
    ensures Chain(matches, names).Valid() && Chain(matches, names).KnownTargets([Entry(names[d], Directory(d + 1))])
    ensures WalkChain(matches, names, d, parts, visited, st) == Round(matches, names, d, parts, visited, st.Read())
  {
    ChainEntry(matches, names, d);
    OneRound(Chain(matches, names), names[..d], parts, visited, Entry(names[d], Directory(d + 1)), st.Read());
  }

  /** The walk with a pattern that starts with `**`: first without it, then one round. */
  lemma StarIsRound(matches: Matcher, names: seq<Name>, d: nat, parts: seq<Part>, visited: set<nat>, st: Walk, zero: Walk)
    requires d < |names| && parts != [] && parts[0].DoubleStar? && st.left.None? && Chain(matches, names).Valid()
    requires zero == if |parts| > 1 then WalkChain(matches, names, d, parts[1..], visited, st) else st.Yield(names[..d])
    ensures Grown(st, zero) && Chain(matches, names).KnownTargets([Entry(names[d], Directory(d + 1))])
    ensures WalkChain(matches, names, d, parts, visited, st) == Round(matches, names, d, parts, visited, zero.Read())
  {
    ChainEntry(matches, names, d);
    CountsGrow(Chain(matches, names), names[..d], d, parts[1..], visited, st);
    OneRound(Chain(matches, names), names[..d], parts, visited, Entry(names[d], Directory(d + 1)), zero.Read());
  }

  /** At the end of the chain there is no round. */
  lemma NoRound(matches: Matcher, names: seq<Name>, parts: seq<Part>, visited: set<nat>, st: Walk, zero: Walk)
    requires parts != [] && st.left.None? && Chain(matches, names).Valid()
    requires zero == if parts[0].Segment? then st
                     else if |parts| > 1 then WalkChain(matches, names, |names|, parts[1..], visited, st)
                     else st.Yield(names[..|names|])
    ensures Grown(st, zero) && WalkChain(matches, names, |names|, parts, visited, st) == zero.Read()
  {
    ChainValid(matches, names);
    CountsGrow(Chain(matches, names), names[..|names|], |names|, parts[1..], visited, st);
    assert WalkEntries(Chain(matches, names), names[..|names|], parts, visited, [], zero.Read()) == zero.Read();
  }

  /** A round that goes down. */
  lemma RoundDescends(matches: Matcher, names: seq<Name>, d: nat, parts: seq<Part>, visited: set<nat>, st: Walk)
    requires d < |names| && Descends(parts) && d + 1 !in visited && !Spent(st, d + 1)
    requires parts[0].Segment? ==> matches(parts[0].pattern, names[d])
    ensures Chain(matches, names).Valid() && Chain(matches, names).KnownTargets([Entry(names[d], Directory(d + 1))])
    ensures Round(matches, names, d, parts, visited, st)
         == WalkChain(matches, names, d + 1, Below(parts), visited + {d + 1}, st.Enter(d + 1))
  {
    ChainEntry(matches, names, d);
  }

  /** A walk from d on leaves d and what is above it alone. */
  lemma ChainFramed(matches: Matcher, names: seq<Name>, d: nat, parts: seq<Part>, visited: set<nat>, st: Walk)
    requires d <= |names| && st.left.None?
    ensures Chain(matches, names).Valid()
    ensures var after := WalkChain(matches, names, d, parts, visited, st);
      Grown(st, after) && forall k: nat | k <= d :: after.Count(k) == st.Count(k)
  {
    ChainIsTree(matches, names, d);
    var t := ChainTree(d, |names|);
    CountsGrow(Chain(matches, names), names[..d], d, parts, visited, st);
    WalkFramed(Chain(matches, names), names[..d], t, parts, visited, st);
    forall k | k in KeysBelow(t) ensures k > d {
      assert k in Keys(t) && t.key !in KeysBelow(t);
    }
  }

  // ---------------------------------------------------------------- going down

  /** A walk further down the chain, on its way there having entered each directory once more. */
  ghost predicate Deeper(d: nat, x: nat, visited: set<nat>, st: Walk, v: set<nat>, s: Walk) {
    && s.left.None? && s.out == st.out
    && (forall k: nat :: s.Count(k) == st.Count(k) + if d < k <= x then 1 else 0)
    && (forall k: nat | k > x :: k in v <==> k in visited)
  }

  lemma DeeperChain(d: nat, m: nat, x: nat, visited: set<nat>, st: Walk, v: set<nat>, s: Walk, vv: set<nat>, ss: Walk)
    requires d <= m <= x && Deeper(d, m, visited, st, v, s) && Deeper(m, x, v, s, vv, ss)
    ensures Deeper(d, x, visited, st, vv, ss)
  {
    forall k: nat ensures ss.Count(k) == st.Count(k) + if d < k <= x then 1 else 0 {
      assert s.Count(k) == st.Count(k) + if d < k <= m then 1 else 0;
    }
  }

  /** From d to x there are entries left. */
  ghost predicate Open(d: nat, x: nat, visited: set<nat>, st: Walk) {
    st.left.None? && forall k: nat | d < k <= x :: k !in visited && !Spent(st, k)
  }

  /** The first n parts are segments that take the names from d on. */
  ghost predicate Takes(matches: Matcher, names: seq<Name>, d: nat, parts: seq<Part>, n: nat) {
    d + n <= |names| && n <= |parts| && forall k | 0 <= k < n :: parts[k].Segment? && matches(parts[k].pattern, names[d + k])
  }

  /** Segments that take the names lead the walk down. */
  lemma {:induction false} GoesDown(
    matches: Matcher, names: seq<Name>, d: nat, n: nat, parts: seq<Part>, visited: set<nat>, st: Walk)
    returns (v: set<nat>, s: Walk)
    requires Takes(matches, names, d, parts, n) && n < |parts| && Open(d, d + n, visited, st)
    ensures Chain(matches, names).Valid() && Deeper(d, d + n, visited, st, v, s)
    ensures WalkChain(matches, names, d, parts, visited, st) == WalkChain(matches, names, d + n, parts[n..], v, s)
    decreases n
  {
    ChainValid(matches, names);
    if n == 0 {
      assert parts[0..] == parts;
      v, s := visited, st;
    } else {
      var next, less := d + 1, n - 1;
      var entered := OneDown(matches, names, d, n, parts, visited, st);
      v, s := GoesDown(matches, names, next, less, parts[1..], visited + {next}, entered);
      DeeperChain(d, next, d + n, visited, st, visited + {next}, entered, v, s);
      assert parts[1..][less..] == parts[n..];
    }
  }

  lemma OneDown(matches: Matcher, names: seq<Name>, d: nat, n: nat, parts: seq<Part>, visited: set<nat>, st: Walk)
    returns (entered: Walk)
    requires Takes(matches, names, d, parts, n) && 0 < n < |parts| && Open(d, d + n, visited, st)
    ensures Chain(matches, names).Valid() && Deeper(d, d + 1, visited, st, visited + {d + 1}, entered)
    ensures WalkChain(matches, names, d, parts, visited, st)
         == WalkChain(matches, names, d + 1, parts[1..], visited + {d + 1}, entered)
    ensures Takes(matches, names, d + 1, parts[1..], n - 1) && Open(d + 1, d + n, visited + {d + 1}, entered)
  {
    var next := d + 1;
    entered := st.Read().Enter(next);
    SegmentIsRound(matches, names, d, parts, visited, st);
    assert parts[0].Segment? && matches(parts[0].pattern, names[d + 0]);
    RoundDescends(matches, names, d, parts, visited, st.Read());
    EnteredDeeper(d, visited, st, entered);
    forall k | 0 <= k < n - 1 ensures parts[1..][k].Segment? && matches(parts[1..][k].pattern, names[next + k]) {
      assert parts[1..][k] == parts[k + 1] && names[next + k] == names[d + (k + 1)];
    }
    forall k: nat | next < k <= d + n ensures k !in visited + {next} && !Spent(entered, k) {
      assert entered.Count(k) == st.Count(k);
    }
  }

  lemma EnteredDeeper(d: nat, visited: set<nat>, st: Walk, entered: Walk)
    requires st.left.None? && entered == st.Read().Enter(d + 1)
    ensures Deeper(d, d + 1, visited, st, visited + {d + 1}, entered)
  {}

  /** Where the first segment of its run takes no name, the `**` goes down as if it were alone. */
  lemma {:induction false} StarGoesDown(
    matches: Matcher, names: seq<Name>, d: nat, n: nat, parts: seq<Part>, visited: set<nat>, st: Walk)
    returns (v: set<nat>, s: Walk)
    requires d + n <= |names| && |parts| > 1 && parts[0].DoubleStar? && (n > 0 ==> parts[1].Segment?)
    requires Open(d, d + n, visited, st) && forall k | d <= k < d + n :: !matches(parts[1].pattern, names[k])
    ensures Chain(matches, names).Valid() && Deeper(d, d + n, visited, st, v, s)
    ensures WalkChain(matches, names, d, parts, visited, st) == WalkChain(matches, names, d + n, parts, v, s)
    decreases n
  {
    ChainValid(matches, names);
    if n == 0 {
      v, s := visited, st;
    } else {
      var next, less := d + 1, n - 1;
      SegmentIsRound(matches, names, d, parts[1..], visited, st);
      var zero := WalkChain(matches, names, d, parts[1..], visited, st);
      assert zero == st.Read();
      StarIsRound(matches, names, d, parts, visited, st, zero);
      RoundDescends(matches, names, d, parts, visited, zero.Read());
      var entered := zero.Read().Enter(next);
      assert Deeper(d, next, visited, st, visited + {next}, entered);
      v, s := StarGoesDown(matches, names, next, less, parts, visited + {next}, entered);
      DeeperChain(d, next, d + n, visited, st, visited + {next}, entered, v, s);
    }
  }

  // ---------------------------------------------------------------- behind a directory without entries

  /** What the walk added is no longer than `bound`. */
  ghost predicate Short(bound: nat, st: Walk, after: Walk) {
    Grown(st, after) && forall i | |st.out| <= i < |after.out| :: |after.out[i]| <= bound
  }

  lemma ShortChain(bound: nat, st: Walk, mid: Walk, after: Walk)
    requires Short(bound, st, mid) && Short(bound, mid, after)
    ensures Short(bound, st, after)
  {
    forall i | |st.out| <= i < |after.out| ensures |after.out[i]| <= bound {
      if i < |mid.out| {
        assert after.out[i] == mid.out[i];
      }
    }
  }

  /** A directory that has no entry left hides everything below it. */
  lemma {:induction false} CutWalk(
    matches: Matcher, names: seq<Name>, d: nat, parts: seq<Part>, visited: set<nat>, st: Walk, x: nat)
    requires d < x <= |names| && st.left.None? && Spent(st, x)
    ensures Chain(matches, names).Valid() && Short(x, st, WalkChain(matches, names, d, parts, visited, st))
    decreases |names| - d, |parts|, 1
  {
    ChainEntry(matches, names, d);
    if parts != [] {
      if parts[0].Segment? {
        SegmentIsRound(matches, names, d, parts, visited, st);
        CutRound(matches, names, d, parts, visited, st.Read(), x);
      } else {
        var zero := st.Yield(names[..d]);
        if |parts| > 1 {
          CutWalk(matches, names, d, parts[1..], visited, st, x);
          zero := WalkChain(matches, names, d, parts[1..], visited, st);
        }
        StarIsRound(matches, names, d, parts, visited, st, zero);
        CutRound(matches, names, d, parts, visited, zero.Read(), x);
        ShortChain(x, st, zero, WalkChain(matches, names, d, parts, visited, st));
      }
    }
  }

  lemma {:induction false} CutRound(
    matches: Matcher, names: seq<Name>, d: nat, parts: seq<Part>, visited: set<nat>, st: Walk, x: nat)
    requires d < x <= |names| && st.left.None? && Spent(st, x) && parts != []
    ensures Chain(matches, names).Valid() && Chain(matches, names).KnownTargets([Entry(names[d], Directory(d + 1))])
    ensures Short(x, st, Round(matches, names, d, parts, visited, st))
    decreases |names| - d, |parts|, 0
  {
    var next := d + 1;
    ChainEntry(matches, names, d);
    VisitCountsGrow(Chain(matches, names), names[..d], parts, visited, Entry(names[d], Directory(next)), st);
    if next < x && next !in visited && st.MayEnter(next) {
      CutWalk(matches, names, next, Below(parts), visited + {next}, st.Enter(next), x);
    }
  }

  // ---------------------------------------------------------------- a run that ends in between

  /** From d on the segments stop at a name they do not take, or with the pattern, no further than at `bound`. */
  ghost predicate Stops(matches: Matcher, names: seq<Name>, d: nat, parts: seq<Part>, bound: nat)
    decreases |parts|
  {
    && parts != [] && parts[0].Segment?
    && (d < |names| && matches(parts[0].pattern, names[d]) ==>
          if |parts| == 1 then d < bound else Stops(matches, names, d + 1, parts[1..], bound))
  }

  lemma {:induction false} StopsShort(
    matches: Matcher, names: seq<Name>, d: nat, parts: seq<Part>, bound: nat, visited: set<nat>, st: Walk)
    requires d <= |names| && Stops(matches, names, d, parts, bound) && st.left.None?
    ensures Chain(matches, names).Valid() && Short(bound, st, WalkChain(matches, names, d, parts, visited, st))
    decreases |parts|
  {
    ChainFramed(matches, names, d, parts, visited, st);
    ChainValid(matches, names);
    if d < |names| {
      var next := d + 1;
      var read := st.Read();
      SegmentIsRound(matches, names, d, parts, visited, st);
      if |parts| > 1 && matches(parts[0].pattern, names[d]) && next !in visited && !Spent(read, next) {
        RoundDescends(matches, names, d, parts, visited, read);
        StopsShort(matches, names, next, parts[1..], bound, visited + {next}, read.Enter(next));
      }
    } else {
      NoRound(matches, names, parts, visited, st, st);
    }
  }

  /** A name the segment at that place does not take stops the run. */
  lemma {:induction false} RefusedStops(matches: Matcher, names: seq<Name>, d: nat, parts: seq<Part>, i: nat, bound: nat)
    requires i < Run(parts) && d + i < |names| && !matches(parts[i].pattern, names[d + i])
    ensures Stops(matches, names, d, parts, bound)
    decreases i
  {
    if i > 0 {
      var less := i - 1;
      assert parts[1..][less] == parts[i];
      RefusedStops(matches, names, d + 1, parts[1..], less, bound);
    }
  }

  lemma {:induction false} PlainStops(matches: Matcher, names: seq<Name>, d: nat, parts: seq<Part>, bound: nat)
    requires parts != [] && Run(parts) == |parts| && d + |parts| <= bound
    ensures Stops(matches, names, d, parts, bound)
    decreases |parts|
  {
    if |parts| > 1 {
      PlainStops(matches, names, d + 1, parts[1..], bound);
    }
  }

  // ---------------------------------------------------------------- keeping a `**` out

  ghost predicate Unvisited(d: nat, visited: set<nat>, st: Walk) {
    st.left.None? && forall k: nat | k > d :: st.Count(k) == 0 && k !in visited
  }

  /**
   The names behind directory d: j of them as the run behind the `**` takes them, the last as its
   first segment takes it too, and the run stops behind them, from either beginning.
   */
  ghost predicate Trap(matches: Matcher, names: seq<Name>, d: nat, parts: seq<Part>, j: nat, bound: nat) {
    && parts != [] && parts[0].DoubleStar? && 1 < j < Length(parts) && d + j <= |names| && d + j <= bound
    && Takes(matches, names, d, parts[1..], j)
    && matches(parts[1].pattern, names[d + j - 1])
    && (forall k | d < k < d + j - 1 :: !matches(parts[1].pattern, names[k]))
    && Stops(matches, names, d + j, parts[j + 1..], bound) && Stops(matches, names, d + j, parts[2..], bound)
  }

  /** The run from d enters every directory down to d + j, and stops. */
  lemma RunTrapped(
    matches: Matcher, names: seq<Name>, d: nat, parts: seq<Part>, j: nat, bound: nat, visited: set<nat>, st: Walk)
    requires Trap(matches, names, d, parts, j, bound) && Unvisited(d, visited, st)
    ensures Chain(matches, names).Valid()
    ensures var zero := WalkChain(matches, names, d, parts[1..], visited, st);
      Short(bound, st, zero) && forall k: nat | d < k <= d + j :: zero.Count(k) == 1
  {
    var v, s := GoesDown(matches, names, d, j, parts[1..], visited, st);
    assert parts[1..][j..] == parts[j + 1..];
    StopsShort(matches, names, d + j, parts[j + 1..], bound, v, s);
    ChainFramed(matches, names, d + j, parts[j + 1..], v, s);
    var zero := WalkChain(matches, names, d, parts[1..], visited, st);
    assert zero == WalkChain(matches, names, d + j, parts[j + 1..], v, s);
    forall k: nat | d < k <= d + j ensures zero.Count(k) == 1 {
      assert st.Count(k) == 0 && s.Count(k) == 1;
    }
    CountsGrow(Chain(matches, names), names[..d], d, parts[1..], visited, st);
    assert Short(bound, st, zero);
  }

  /** One level above the end of the trap the run enters the last directory again: none is left for the `**`. */
  lemma StarRefused(
    matches: Matcher, names: seq<Name>, d: nat, parts: seq<Part>, j: nat, bound: nat, visited: set<nat>, st: Walk)
    requires Trap(matches, names, d, parts, j, bound) && st.left.None? && d + j !in visited && st.Count(d + j) == 1
    ensures Chain(matches, names).Valid()
    ensures var after := WalkChain(matches, names, d + j - 1, parts, visited, st);
      Short(bound, st, after) && Spent(after, d + j)
  {
    var last, end := d + j - 1, d + j;
    var run := parts[1..];
    var read := st.Read();
    var entered := read.Enter(end);
    ChainEntry(matches, names, last);
    SegmentIsRound(matches, names, last, run, visited, st);
    RoundDescends(matches, names, last, run, visited, read);
    assert run[1..] == parts[2..];
    StopsShort(matches, names, end, run[1..], bound, visited + {end}, entered);
    ChainFramed(matches, names, end, run[1..], visited + {end}, entered);
    var zero := WalkChain(matches, names, last, run, visited, st);
    assert zero == WalkChain(matches, names, end, run[1..], visited + {end}, entered);
    assert Spent(zero, end);
    StarIsRound(matches, names, last, parts, visited, st, zero);
    assert WalkChain(matches, names, last, parts, visited, st) == zero.Read();
  }

  lemma StarTrapped(
    matches: Matcher, names: seq<Name>, d: nat, parts: seq<Part>, j: nat, bound: nat, visited: set<nat>, st: Walk)
    requires Trap(matches, names, d, parts, j, bound) && Unvisited(d, visited, st)
    ensures Chain(matches, names).Valid()
    ensures var after := WalkChain(matches, names, d, parts, visited, st);
      Short(bound, st, after) && Spent(after, d + j)
  {
    var next := d + 1;
    ChainEntry(matches, names, d);
    RunTrapped(matches, names, d, parts, j, bound, visited, st);
    var zero := WalkChain(matches, names, d, parts[1..], visited, st);
    StarIsRound(matches, names, d, parts, visited, st, zero);
    RoundDescends(matches, names, d, parts, visited, zero.Read());
    var entered := zero.Read().Enter(next);
    assert Deeper(d, next, visited, zero, visited + {next}, entered);
    var v, s := StarGoesDown(matches, names, next, j - 2, parts, visited + {next}, entered);
    DeeperChain(d, next, d + j - 1, visited, zero, visited + {next}, entered, v, s);
    assert zero.Count(d + j) == 1;
    StarRefused(matches, names, d, parts, j, bound, v, s);
    ShortFrom(bound, st, zero, s, WalkChain(matches, names, d, parts, visited, st));
  }

  lemma ShortFrom(bound: nat, st: Walk, zero: Walk, s: Walk, after: Walk)
    requires Short(bound, st, zero) && s.out == zero.out && (forall k: nat :: zero.Count(k) <= s.Count(k))
    requires Short(bound, s, after)
    ensures Short(bound, st, after)
  {
    forall i | |st.out| <= i < |after.out| ensures |after.out[i]| <= bound {
      if i < |zero.out| {
        assert after.out[i] == zero.out[i];
      }
    }
  }

  // ---------------------------------------------------------------- whatever stands in front

  /** The segments take the names from d on; a `**` takes none. */
  ghost predicate Fits(matches: Matcher, names: seq<Name>, d: nat, parts: seq<Part>)
    decreases |parts|
  {
    parts != [] ==>
      if parts[0].Segment? then d < |names| && matches(parts[0].pattern, names[d]) && Fits(matches, names, d + 1, parts[1..])
      else Fits(matches, names, d, parts[1..])
  }

  /** What becomes of a call further up, given a call it makes further down. */
  ghost predicate Contains(e: nat, last: nat, inner: Walk, all: Walk) {
    && Grown(inner, all)
    && forall x: nat | e < x <= last && Spent(inner, x) :: Short(x, inner, all)
  }

  /** The walk first arrives at the rest of the pattern where the parts in front have taken their names. */
  lemma {:induction false} Arrives(
    matches: Matcher, names: seq<Name>, d: nat, e: nat, pre: seq<Part>, rest: seq<Part>, visited: set<nat>, st: Walk)
    returns (v: set<nat>, s: Walk)
    requires e == d + Segments(pre) <= |names| && Fits(matches, names, d, pre) && Unvisited(d, visited, st) && rest != []
    ensures Chain(matches, names).Valid() && Unvisited(e, v, s) && s.out == st.out
    ensures Contains(e, |names|, WalkChain(matches, names, e, rest, v, s),
                     WalkChain(matches, names, d, pre + rest, visited, st))
    decreases |pre|
  {
    var all := pre + rest;
    ChainValid(matches, names);
    if pre == [] {
      assert all == rest;
      v, s := visited, st;
      ChainFramed(matches, names, d, rest, visited, st);
    } else {
      assert all[1..] == pre[1..] + rest;
      if pre[0].Segment? {
        var next := d + 1;
        var entered := st.Read().Enter(next);
        assert st.Count(next) == 0;
        SegmentIsRound(matches, names, d, all, visited, st);
        RoundDescends(matches, names, d, all, visited, st.Read());
        assert forall k: nat | k > next :: entered.Count(k) == st.Count(k);
        v, s := Arrives(matches, names, next, e, pre[1..], rest, visited + {next}, entered);
      } else {
        v, s := Arrives(matches, names, d, e, pre[1..], rest, visited, st);
        StarContains(matches, names, d, e, all, visited, st, WalkChain(matches, names, e, rest, v, s));
      }
    }
  }

  lemma StarContains(
    matches: Matcher, names: seq<Name>, d: nat, e: nat, parts: seq<Part>, visited: set<nat>, st: Walk, inner: Walk)
    requires d <= e <= |names| && |parts| > 1 && parts[0].DoubleStar? && st.left.None? && Chain(matches, names).Valid()
    requires Contains(e, |names|, inner, WalkChain(matches, names, d, parts[1..], visited, st))
    ensures Contains(e, |names|, inner, WalkChain(matches, names, d, parts, visited, st))
  {
    var zero := WalkChain(matches, names, d, parts[1..], visited, st);
    var after := WalkChain(matches, names, d, parts, visited, st);
    ChainValid(matches, names);
    if d < |names| {
      StarIsRound(matches, names, d, parts, visited, st, zero);
      VisitCountsGrow(Chain(matches, names), names[..d], parts, visited, Entry(names[d], Directory(d + 1)), zero.Read());
      forall x: nat | e < x <= |names| && Spent(inner, x) ensures Short(x, inner, after) {
        CutRound(matches, names, d, parts, visited, zero.Read(), x);
        assert Short(x, zero, after);
        ShortChain(x, inner, zero, after);
      }
    } else {
      NoRound(matches, names, parts, visited, st, zero);
      assert forall k: nat :: after.Count(k) == zero.Count(k);
    }
  }

  // ---------------------------------------------------------------- what ought to be listed

  lemma {:induction false} FitsMatch(
    matches: Matcher, names: seq<Name>, d: nat, parts: seq<Part>, target: Target)
    requires parts != [] && d + Segments(parts) == |names| && target.Directory? && Fits(matches, names, d, parts)
    ensures PatternMatches(matches, parts, names[d..], target)
    decreases |parts|
  {
    var rel := names[d..];
    if parts[0].Segment? {
      assert rel[1..] == names[d + 1..];
    } else {
      assert rel[0..] == rel;
    }
    if |parts| > 1 {
      FitsMatch(matches, names, if parts[0].Segment? then d + 1 else d, parts[1..], target);
    } else {
      assert parts[1..] == [];
    }
  }

  lemma {:induction false} FrontMatches(
    matches: Matcher, names: seq<Name>, d: nat, pre: seq<Part>, rest: seq<Part>, target: Target)
    requires rest != [] && d + Segments(pre) <= |names| && Fits(matches, names, d, pre)
    requires PatternMatches(matches, rest, names[d + Segments(pre)..], target)
    ensures PatternMatches(matches, pre + rest, names[d..], target)
    decreases |pre|
  {
    var all := pre + rest;
    if pre == [] {
      assert all == rest;
    } else {
      assert all[1..] == pre[1..] + rest;
      var rel := names[d..];
      if pre[0].Segment? {
        FrontMatches(matches, names, d + 1, pre[1..], rest, target);
        assert rel[1..] == names[d + 1..];
      } else {
        FrontMatches(matches, names, d, pre[1..], rest, target);
        assert rel[0..] == rel;
      }
    }
  }

  lemma {:induction false} ChainAllowed(matches: Matcher, names: seq<Name>, d: nat)
    requires d <= |names|
    ensures Allowed(Chain(matches, names), names[..d], d, names[d..], Directory(|names|))
    decreases |names| - d
  {
    var w := Chain(matches, names);
    if d < |names| {
      var next := d + 1;
      ChainEntry(matches, names, d);
      ChainAllowed(matches, names, next);
      assert names[d..][1..] == names[next..];
      assert AllowedVia(w, names[..d], w.List(d)[0], names[d..], Directory(|names|));
    }
  }

  lemma WholeChainAllowed(matches: Matcher, names: seq<Name>)
    ensures Allowed(Chain(matches, names), [], 0, names, Directory(|names|))
  {
    ChainAllowed(matches, names, 0);
    assert names[0..] == names && names[..0] == [];
  }

  lemma StarMatches(matches: Matcher, names: seq<Name>, e: nat, parts: seq<Part>, x: nat, target: Target)
    requires |parts| > 1 && parts[0].DoubleStar? && e <= x <= |names|
    requires PatternMatches(matches, parts[1..], names[x..], target)
    ensures PatternMatches(matches, parts, names[e..], target)
  {
    var skip := x - e;
    assert names[e..][skip..] == names[x..];
  }

  /** With the parts in front and those behind taking their names, and the `**` what is between, the chain is listed. */
  lemma ChainListed(matches: Matcher, names: seq<Name>, pre: seq<Part>, parts: seq<Part>, x: nat)
    requires |parts| > 1 && parts[0].DoubleStar? && Segments(pre) <= x && x + Segments(parts) == |names|
    requires Fits(matches, names, 0, pre) && Fits(matches, names, x, parts[1..])
    ensures Listed(Chain(matches, names), [], 0, pre + parts, names)
  {
    var e := Segments(pre);
    var target := Directory(|names|);
    FitsMatch(matches, names, x, parts[1..], target);
    StarMatches(matches, names, e, parts, x, target);
    FrontMatches(matches, names, 0, pre, parts, target);
    WholeChainAllowed(matches, names);
    assert names[0..] == names;
  }

  /** A trap behind the parts in front: the whole chain is listed, and not found. */
  lemma TrapLoses(matches: Matcher, names: seq<Name>, pre: seq<Part>, parts: seq<Part>, j: nat, bound: nat, x: nat)
    requires Fits(matches, names, 0, pre) && Trap(matches, names, Segments(pre), parts, j, bound)
    requires Segments(pre) <= x && x + Segments(parts) == |names| && bound < |names| && Fits(matches, names, x, parts[1..])
    ensures var w := Chain(matches, names);
      && w.Valid() && Listed(w, [], 0, pre + parts, names) && names !in Glob(w, 0, pre + parts, None).out
  {
    var e := Segments(pre);
    var start := Walk(map[0 := 1], None, 0, []);
    assert |parts| > 1;
    ChainListed(matches, names, pre, parts, x);
    assert names[..0] == [];
    var v, s := Arrives(matches, names, 0, e, pre, parts, {0}, start);
    StarTrapped(matches, names, e, parts, j, bound, v, s);
    var inner := WalkChain(matches, names, e, parts, v, s);
    var all := WalkChain(matches, names, 0, pre + parts, {0}, start);
    assert Short(e + j, inner, all);
    assert all == Glob(Chain(matches, names), 0, pre + parts, None);
    forall i | 0 <= i < |all.out| ensures |all.out[i]| <= bound {
      if i < |inner.out| {
        assert all.out[i] == inner.out[i];
      }
    }
  }

  // ---------------------------------------------------------------- a second `**` repeats

  /** The last `**`, with no more than one segment behind it, and its one entry per directory. */
  predicate Light(rest: seq<Part>) {
    0 < |rest| <= 2 && rest[0].DoubleStar? && (|rest| == 2 ==> rest[1].Segment?)
  }

  ghost predicate Finds(names: seq<Name>, st: Walk, after: Walk) {
    exists i :: |st.out| <= i < |after.out| && after.out[i] == names
  }

  lemma FindsLater(names: seq<Name>, st: Walk, mid: Walk, after: Walk)
    requires |st.out| <= |mid.out| && Finds(names, mid, after)
    ensures Finds(names, st, after)
  {
    var i :| |mid.out| <= i < |after.out| && after.out[i] == names;
  }

  lemma StillFinds(names: seq<Name>, st: Walk, mid: Walk, after: Walk)
    requires mid.out <= after.out && Finds(names, st, mid)
    ensures Finds(names, st, after)
  {
    var i :| |st.out| <= i < |mid.out| && mid.out[i] == names;
    assert after.out[i] == names;
  }

  /** It finds the whole chain from wherever there are entries left. */
  lemma {:induction false} LightFinds(
    matches: Matcher, names: seq<Name>, d: nat, x: nat, rest: seq<Part>, visited: set<nat>, st: Walk)
    requires Light(rest) && d <= x && x + |rest| == |names| + 1 && Open(d, x, visited, st)
    requires |rest| == 2 ==> matches(rest[1].pattern, names[x])
    ensures Chain(matches, names).Valid()
    ensures var after := WalkChain(matches, names, d, rest, visited, st);
      && Grown(st, after) && Finds(names, st, after)
      && forall k: nat | d < k <= x :: after.Count(k) == st.Count(k) + 1
    decreases x - d
  {
    ChainFramed(matches, names, d, rest, visited, st);
    ChainValid(matches, names);
    var zero := LightZero(matches, names, d, rest, visited, st);
    var after := WalkChain(matches, names, d, rest, visited, st);
    if d == x {
      assert zero.out[|st.out|] == names by {
        assert names[..|names|] == names;
      }
      if d < |names| {
        StarIsRound(matches, names, d, rest, visited, st, zero);
        VisitCountsGrow(Chain(matches, names), names[..d], rest, visited, Entry(names[d], Directory(d + 1)), zero.Read());
      } else {
        NoRound(matches, names, rest, visited, st, zero);
      }
      assert Finds(names, st, zero);
      StillFinds(names, st, zero, after);
    } else {
      var next := d + 1;
      StarIsRound(matches, names, d, rest, visited, st, zero);
      var entered := zero.Read().Enter(next);
      RoundDescends(matches, names, d, rest, visited, zero.Read());
      assert forall k: nat :: entered.Count(k) == st.Count(k) + if k == next then 1 else 0;
      forall k: nat | next < k <= x ensures k !in visited + {next} && !Spent(entered, k) {
        assert entered.Count(k) == st.Count(k);
      }
      LightFinds(matches, names, next, x, rest, visited + {next}, entered);
      ChainFramed(matches, names, next, rest, visited + {next}, entered);
      FindsLater(names, st, entered, after);
    }
  }

  /** Before it goes down it enters nothing, and yields the nearest directory if its segment takes that name. */
  lemma LightZero(matches: Matcher, names: seq<Name>, d: nat, rest: seq<Part>, visited: set<nat>, st: Walk) returns (zero: Walk)
    requires Light(rest) && d + |rest| <= |names| + 1 && st.left.None? && Chain(matches, names).Valid()
    ensures zero == if |rest| > 1 then WalkChain(matches, names, d, rest[1..], visited, st) else st.Yield(names[..d])
    ensures Grown(st, zero) && zero.entries == st.entries
    ensures |rest| == 1 || matches(rest[1].pattern, names[d]) ==>
              |zero.out| > |st.out| && zero.out[|st.out|] == names[..d + |rest| - 1]
  {
    if |rest| == 1 {
      zero := st.Yield(names[..d]);
    } else {
      zero := WalkChain(matches, names, d, rest[1..], visited, st);
      SegmentIsRound(matches, names, d, rest[1..], visited, st);
      ChainEntry(matches, names, d);
    }
  }

  /** The names behind directory d: the run takes them from there, and again p directories further down, not in between. */
  ghost predicate Echo(matches: Matcher, names: seq<Name>, d: nat, parts: seq<Part>, p: nat) {
    && parts != [] && parts[0].DoubleStar? && 0 < p && (Length(parts) == 0 ==> p == 1) && (Length(parts) > 0 ==> p <= Length(parts))
    && Light(parts[Length(parts) + 1..])
    && |names| == d + p + Length(parts) + |parts[Length(parts) + 1..]| - 1
    && Takes(matches, names, d, parts[1..], Length(parts)) && Takes(matches, names, d + p, parts[1..], Length(parts))
    && (|parts[Length(parts) + 1..]| == 2 ==> matches(parts[Length(parts) + 2].pattern, names[|names| - 1]))
    && forall k | d < k < d + p :: !matches(parts[1].pattern, names[k])
  }

  /** Through the run, the last `**` finds the whole chain. */
  lemma RunLight(matches: Matcher, names: seq<Name>, d: nat, x: nat, parts: seq<Part>, visited: set<nat>, st: Walk)
    requires parts != [] && parts[0].DoubleStar?
    requires var rest := parts[Length(parts) + 1..];
      && Light(rest) && x + |rest| == |names| + 1 && d + Length(parts) <= x
      && (|rest| == 2 ==> matches(rest[1].pattern, names[x]))
    requires Takes(matches, names, d, parts[1..], Length(parts)) && Open(d, x, visited, st)
    ensures Chain(matches, names).Valid() && |parts| > 1
    ensures var after := WalkChain(matches, names, d, parts[1..], visited, st);
      && Grown(st, after) && Finds(names, st, after)
      && forall k: nat | d < k <= x :: after.Count(k) == st.Count(k) + 1
  {
    var m := Length(parts);
    var v, s := GoesDown(matches, names, d, m, parts[1..], visited, st);
    assert parts[1..][m..] == parts[m + 1..];
    forall k: nat | d + m < k <= x ensures k !in v && !Spent(s, k) {
      assert s.Count(k) == st.Count(k);
    }
    LightFinds(matches, names, d + m, x, parts[m + 1..], v, s);
    ChainFramed(matches, names, d + m, parts[m + 1..], v, s);
    ChainFramed(matches, names, d, parts[1..], visited, st);
  }

  /** Where there was one entry each, there is one left where the walk has not come since. */
  lemma OpenBelow(d: nat, m: nat, to: nat, x: nat, visited: set<nat>, st: Walk, v: set<nat>, s: Walk)
    requires d <= m && to <= x && Deeper(d, m, visited, st, v, s)
    requires forall k: nat | d < k <= x :: st.Count(k) == 1 && k !in visited
    ensures Open(m, to, v, s)
  {
    forall k: nat | m < k <= to ensures k !in v && !Spent(s, k) {
      assert s.Count(k) == st.Count(k);
    }
  }

  lemma EchoRepeats(matches: Matcher, names: seq<Name>, d: nat, p: nat, parts: seq<Part>, visited: set<nat>, st: Walk)
    requires Echo(matches, names, d, parts, p) && Unvisited(d, visited, st)
    ensures Chain(matches, names).Valid() && !Distinct(WalkChain(matches, names, d, parts, visited, st).out)
  {
    var x := d + p + Length(parts);
    RunLight(matches, names, d, x, parts, visited, st);
    var zero := WalkChain(matches, names, d, parts[1..], visited, st);
    var after := WalkChain(matches, names, d, parts, visited, st);
    forall k: nat | d < k <= x ensures zero.Count(k) == 1 && k !in visited {
      assert st.Count(k) == 0;
    }
    EchoAgain(matches, names, d, p, parts, visited, st, zero);
    var first: nat :| first < |zero.out| && zero.out[first] == names;
    var second: nat :| |zero.out| <= second < |after.out| && after.out[second] == names;
    assert after.out[first] == names && first < second;
  }

  /** What the run has led to once, it leads to again, from p directories further down. */
  lemma EchoAgain(
    matches: Matcher, names: seq<Name>, d: nat, p: nat, parts: seq<Part>, visited: set<nat>, st: Walk, zero: Walk)
    requires Echo(matches, names, d, parts, p) && st.left.None? && Chain(matches, names).Valid() && |parts| > 1
    requires zero == WalkChain(matches, names, d, parts[1..], visited, st)
    requires forall k: nat | d < k <= d + p + Length(parts) :: zero.Count(k) == 1 && k !in visited
    ensures var after := WalkChain(matches, names, d, parts, visited, st);
      zero.out <= after.out && Finds(names, zero, after)
  {
    var x, next := d + p + Length(parts), d + 1;
    ChainEntry(matches, names, d);
    StarIsRound(matches, names, d, parts, visited, st, zero);
    RoundDescends(matches, names, d, parts, visited, zero.Read());
    var entered := zero.Read().Enter(next);
    EnteredDeeper(d, visited, zero, entered);
    OpenBelow(d, next, next + p - 1, x, visited, zero, visited + {next}, entered);
    var v, s := StarGoesDown(matches, names, next, p - 1, parts, visited + {next}, entered);
    DeeperChain(d, next, d + p, visited, zero, visited + {next}, entered, v, s);
    OpenBelow(d, d + p, x, x, visited, zero, v, s);
    FoundAgain(matches, names, d + p, parts, v, s);
    FindsLater(names, zero, s, WalkChain(matches, names, d + p, parts, v, s));
  }

  lemma FoundAgain(matches: Matcher, names: seq<Name>, d: nat, parts: seq<Part>, visited: set<nat>, st: Walk)
    requires parts != [] && parts[0].DoubleStar? && Light(parts[Length(parts) + 1..])
    requires |names| == d + Length(parts) + |parts[Length(parts) + 1..]| - 1
    requires Takes(matches, names, d, parts[1..], Length(parts)) && Open(d, d + Length(parts), visited, st)
    requires |parts[Length(parts) + 1..]| == 2 ==> matches(parts[Length(parts) + 2].pattern, names[|names| - 1])
    ensures Chain(matches, names).Valid()
    ensures var after := WalkChain(matches, names, d, parts, visited, st);
      st.out <= after.out && Finds(names, st, after)
  {
    var x := d + Length(parts);
    RunLight(matches, names, d, x, parts, visited, st);
    var zero := WalkChain(matches, names, d, parts[1..], visited, st);
    var after := WalkChain(matches, names, d, parts, visited, st);
    ChainValid(matches, names);
    if d < |names| {
      StarIsRound(matches, names, d, parts, visited, st, zero);
      VisitCountsGrow(Chain(matches, names), names[..d], parts, visited, Entry(names[d], Directory(d + 1)), zero.Read());
    } else {
      NoRound(matches, names, parts, visited, st, zero);
    }
    StillFinds(names, st, zero, after);
  }

  /** An echo behind the parts in front: a path is found twice. */
  lemma EchoIsFoundTwice(matches: Matcher, names: seq<Name>, pre: seq<Part>, parts: seq<Part>, p: nat)
    requires Fits(matches, names, 0, pre) && Echo(matches, names, Segments(pre), parts, p)
    ensures Chain(matches, names).Valid() && !Distinct(Glob(Chain(matches, names), 0, pre + parts, None).out)
  {
    var e := Segments(pre);
    var start := Walk(map[0 := 1], None, 0, []);
    assert names[..0] == [];
    var v, s := Arrives(matches, names, 0, e, pre, parts, {0}, start);
    EchoRepeats(matches, names, e, p, parts, v, s);
    var inner := WalkChain(matches, names, e, parts, v, s);
    var all := Glob(Chain(matches, names), 0, pre + parts, None);
    assert all == WalkChain(matches, names, 0, pre + parts, {0}, start);
    var a, b :| 0 <= a < b < |inner.out| && inner.out[a] == inner.out[b];
    assert all.out[a] == all.out[b];
  }
}
