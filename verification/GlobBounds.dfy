/** What the walk costs and yields on any directory graph, symbolic-link cycles included. */
module GlobBounds {
  import opened Wrappers
  import opened GlobModel

  // ---------------------------------------------------------------- work

  ghost predicate WithinBudget(st: Walk) {
    forall k | k in st.entries :: st.entries[k] <= MAX_PHYSICAL_REVISITS
  }

  /** How many more entries the directories `dirs` allow. */
  ghost function Spare(st: Walk, dirs: set<nat>): nat
    requires WithinBudget(st)
  {
    if dirs == {} then 0
    else
      var d :| d in dirs;
      MAX_PHYSICAL_REVISITS - st.Count(d) + Spare(st, dirs - {d})
  }

  lemma {:induction false} SpareTakes(st: Walk, dirs: set<nat>, d: nat)
    requires WithinBudget(st) && d in dirs
    ensures Spare(st, dirs) == MAX_PHYSICAL_REVISITS - st.Count(d) + Spare(st, dirs - {d})
  {
    var c :| c in dirs && Spare(st, dirs) == MAX_PHYSICAL_REVISITS - st.Count(c) + Spare(st, dirs - {c});
    if c != d {
      SpareTakes(st, dirs - {c}, d);
      SpareTakes(st, dirs - {d}, c);
      assert dirs - {c} - {d} == dirs - {d} - {c};
    }
  }

  lemma {:induction false} SpareDepends(st: Walk, other: Walk, dirs: set<nat>)
    requires WithinBudget(st) && WithinBudget(other)
    requires forall d | d in dirs :: st.Count(d) == other.Count(d)
    ensures Spare(st, dirs) == Spare(other, dirs)
  {
    if dirs != {} {
      var d :| d in dirs;
      SpareTakes(st, dirs, d);
      SpareTakes(other, dirs, d);
      SpareDepends(st, other, dirs - {d});
    }
  }

  lemma EnterSpends(st: Walk, dirs: set<nat>, key: nat)
    requires WithinBudget(st) && key in dirs && st.MayEnter(key)
    ensures WithinBudget(st.Enter(key))
    ensures Spare(st.Enter(key), dirs) == Spare(st, dirs) - 1
  {
    var after := st.Enter(key);
    SpareTakes(st, dirs, key);
    SpareTakes(after, dirs, key);
    SpareDepends(st, after, dirs - {key});
  }

  lemma {:induction false} SpareOfFresh(st: Walk, dirs: set<nat>)
    requires WithinBudget(st) && forall d | d in dirs :: st.Count(d) == 0
    ensures Spare(st, dirs) == 2 * |dirs|
  {
    if dirs != {} {
      var d :| d in dirs;
      SpareTakes(st, dirs, d);
      SpareOfFresh(st, dirs - {d});
    }
  }

  /** Directory reads done plus the reads the remaining entries can still cause, for patterns of at most n parts. */
  ghost function Cost(st: Walk, dirs: set<nat>, n: nat): nat
    requires WithinBudget(st)
  {
    st.listings + n * Spare(st, dirs)
  }

  lemma EnterCosts(st: Walk, dirs: set<nat>, key: nat, n: nat)
    requires WithinBudget(st) && key in dirs && st.MayEnter(key)
    ensures WithinBudget(st.Enter(key)) && Cost(st.Enter(key), dirs, n) + n == Cost(st, dirs, n)
  {
    EnterSpends(st, dirs, key);
    var s := Spare(st, dirs);
    assert n * (s - 1) == n * s - n;
  }

  lemma SpareIgnoresRest(st: Walk, other: Walk, dirs: set<nat>)
    requires WithinBudget(st) && other.entries == st.entries
    ensures WithinBudget(other) && Spare(st, dirs) == Spare(other, dirs)
  {
    SpareDepends(st, other, dirs);
  }

  /** One call reads at most one directory per pattern part, beyond what its descents pay for with their entries. */
  lemma {:induction false} WalkCost(w: World, base: Path, node: nat, parts: seq<Part>, visited: set<nat>, st: Walk, n: nat)
    requires w.Valid() && WithinBudget(st) && |parts| <= n
    ensures var after := GlobWalk(w, base, node, parts, visited, st);
            WithinBudget(after) && Cost(after, w.dirs, n) <= Cost(st, w.dirs, n) + |parts|
    decreases |w.dirs - visited|, |parts|, 1, 0
  {
    if !st.Aborted() {
      var here := st.Checked();
      SpareIgnoresRest(st, here, w.dirs);
      if w.physical(base) && parts != [] {
        var before := here;
        if parts[0].DoubleStar? && |parts| > 1 {
          WalkCost(w, base, node, parts[1..], visited, here, n);
          before := GlobWalk(w, base, node, parts[1..], visited, here);
        } else if parts[0].DoubleStar? {
          before := here.Yield(base);
          SpareIgnoresRest(here, before, w.dirs);
        }
        if !before.Aborted() {
          var read := before.Checked().Read();
          SpareIgnoresRest(before, read, w.dirs);
          EntriesCost(w, base, parts, visited, w.List(node), read, n);
        }
      }
    }
  }

  lemma {:induction false} EntriesCost(
    w: World, base: Path, parts: seq<Part>, visited: set<nat>, es: seq<Entry>, st: Walk, n: nat)
    requires w.Valid() && w.KnownTargets(es) && parts != [] && WithinBudget(st) && |parts| <= n
    ensures var after := WalkEntries(w, base, parts, visited, es, st);
            WithinBudget(after) && Cost(after, w.dirs, n) <= Cost(st, w.dirs, n)
    decreases |w.dirs - visited|, |parts|, 0, |es|
  {
    if es != [] && !st.Aborted() {
      var here := st.Checked();
      SpareIgnoresRest(st, here, w.dirs);
      VisitCost(w, base, parts, visited, es[0], here, n);
      EntriesCost(w, base, parts, visited, es[1..], VisitEntry(w, base, parts, visited, es[0], here), n);
    }
  }

  lemma {:induction false} VisitCost(
    w: World, base: Path, parts: seq<Part>, visited: set<nat>, e: Entry, st: Walk, n: nat)
    requires w.Valid() && w.KnownTargets([e]) && parts != [] && WithinBudget(st) && |parts| <= n
    ensures var after := VisitEntry(w, base, parts, visited, e, st);
            WithinBudget(after) && Cost(after, w.dirs, n) <= Cost(st, w.dirs, n)
    decreases |w.dirs - visited|, |parts|, 0, 0
  {
    var after := VisitEntry(w, base, parts, visited, e, st);
    if after.entries == st.entries && after.listings == st.listings {
      SpareIgnoresRest(st, after, w.dirs);
    } else {
      var key := e.target.key;
      assert [e][0] == e;
      VisitedShrinks(w.dirs, visited, key);
      EnterCosts(st, w.dirs, key, n);
      WalkCost(w, base + [e.name], key, Below(parts), visited + {key}, st.Enter(key), n);
    }
  }

  /** The root counts as entered once, so a walk starts with all other entries to spare. */
  lemma StartCost(start: Walk, dirs: set<nat>, root: nat, n: nat)
    requires root in dirs && start.entries == map[root := 1] && start.listings == 0
    ensures WithinBudget(start) && Cost(start, dirs, n) + n == 2 * |dirs| * n
  {
    SpareTakes(start, dirs, root);
    var unused := start.(entries := map[]);
    SpareOfFresh(unused, dirs - {root});
    SpareDepends(start, unused, dirs - {root});
    var d := |dirs|;
    assert |dirs - {root}| == d - 1;
    assert n * (2 * d - 1) + n == 2 * d * n;
  }

  /**
   However the links are laid: every directory is entered at most twice (the root counts
   as entered once), and N directories under a pattern of P parts are read at most 2*N*P times.
   */
  lemma GlobWork(w: World, root: nat, parts: seq<Part>, left: Option<nat>)
    requires w.Valid() && root in w.dirs && parts != []
    ensures var after := Glob(w, root, parts, left);
      && (forall k :: after.Count(k) <= MAX_PHYSICAL_REVISITS)
      && after.listings <= 2 * |w.dirs| * |parts|
  {
    var start := Walk(map[root := 1], left, 0, []);
    var n := |parts|;
    StartCost(start, w.dirs, root, n);
    if !start.Aborted() {
      SpareIgnoresRest(start, start.Checked(), w.dirs);
      WalkCost(w, [], root, parts, {root}, start.Checked(), n);
    }
  }

  // ---------------------------------------------------------------- cancellation

  lemma {:induction false} OutputGrows(w: World, base: Path, node: nat, parts: seq<Part>, visited: set<nat>, st: Walk)
    requires w.Valid()
    ensures st.out <= GlobWalk(w, base, node, parts, visited, st).out
    ensures st.left.None? ==> GlobWalk(w, base, node, parts, visited, st).left.None?
    decreases |w.dirs - visited|, |parts|, 1, 0
  {
    if !st.Aborted() && w.physical(base) && parts != [] {
      var before := st.Checked();
      if parts[0].DoubleStar? && |parts| > 1 {
        OutputGrows(w, base, node, parts[1..], visited, before);
        before := GlobWalk(w, base, node, parts[1..], visited, before);
      } else if parts[0].DoubleStar? {
        before := before.Yield(base);
      }
      if !before.Aborted() {
        EntriesOutputGrows(w, base, parts, visited, w.List(node), before.Checked().Read());
      }
    }
  }

  lemma {:induction false} EntriesOutputGrows(
    w: World, base: Path, parts: seq<Part>, visited: set<nat>, es: seq<Entry>, st: Walk)
    requires w.Valid() && w.KnownTargets(es) && parts != []
    ensures st.out <= WalkEntries(w, base, parts, visited, es, st).out
    ensures st.left.None? ==> WalkEntries(w, base, parts, visited, es, st).left.None?
    decreases |w.dirs - visited|, |parts|, 0, |es|
  {
    if es != [] && !st.Aborted() {
      VisitOutputGrows(w, base, parts, visited, es[0], st.Checked());
      EntriesOutputGrows(w, base, parts, visited, es[1..], VisitEntry(w, base, parts, visited, es[0], st.Checked()));
    }
  }

  lemma {:induction false} VisitOutputGrows(
    w: World, base: Path, parts: seq<Part>, visited: set<nat>, e: Entry, st: Walk)
    requires w.Valid() && w.KnownTargets([e]) && parts != []
    ensures st.out <= VisitEntry(w, base, parts, visited, e, st).out
    ensures st.left.None? ==> VisitEntry(w, base, parts, visited, e, st).left.None?
    decreases |w.dirs - visited|, |parts|, 0, 0
  {
    if e.target.Directory? && e.target.key !in visited {
      assert [e][0] == e;
      VisitedShrinks(w.dirs, visited, e.target.key);
      OutputGrows(w, base + [e.name], e.target.key, Below(parts), visited + {e.target.key}, st.Enter(e.target.key));
    }
  }

  /** `a` ran under a signal, `b` without one: still the same, or `a` has stopped somewhere on the way of `b`. */
  ghost predicate Behind(a: Walk, b: Walk) {
    b.left.None? && (a.(left := None) == b || (a.Aborted() && a.out <= b.out))
  }

  lemma {:induction false} WalkBehind(
    w: World, base: Path, node: nat, parts: seq<Part>, visited: set<nat>, a: Walk, b: Walk)
    requires w.Valid() && Behind(a, b)
    ensures Behind(GlobWalk(w, base, node, parts, visited, a), GlobWalk(w, base, node, parts, visited, b))
    decreases |w.dirs - visited|, |parts|, 1, 0
  {
    if a.Aborted() {
      OutputGrows(w, base, node, parts, visited, b);
    } else if w.physical(base) && parts != [] {
      var a1, b1 := a.Checked(), b.Checked();
      if parts[0].DoubleStar? && |parts| > 1 {
        WalkBehind(w, base, node, parts[1..], visited, a1, b1);
        a1, b1 := GlobWalk(w, base, node, parts[1..], visited, a1), GlobWalk(w, base, node, parts[1..], visited, b1);
      } else if parts[0].DoubleStar? {
        a1, b1 := a1.Yield(base), b1.Yield(base);
      }
      if a1.Aborted() {
        EntriesOutputGrows(w, base, parts, visited, w.List(node), b1.Checked().Read());
      } else {
        EntriesBehind(w, base, parts, visited, w.List(node), a1.Checked().Read(), b1.Checked().Read());
      }
    }
  }

  lemma {:induction false} EntriesBehind(
    w: World, base: Path, parts: seq<Part>, visited: set<nat>, es: seq<Entry>, a: Walk, b: Walk)
    requires w.Valid() && w.KnownTargets(es) && parts != [] && Behind(a, b)
    ensures Behind(WalkEntries(w, base, parts, visited, es, a), WalkEntries(w, base, parts, visited, es, b))
    decreases |w.dirs - visited|, |parts|, 0, |es|
  {
    if es != [] {
      if a.Aborted() {
        EntriesOutputGrows(w, base, parts, visited, es, b);
      } else {
        var a1 := VisitEntry(w, base, parts, visited, es[0], a.Checked());
        var b1 := VisitEntry(w, base, parts, visited, es[0], b.Checked());
        VisitBehind(w, base, parts, visited, es[0], a.Checked(), b.Checked());
        EntriesBehind(w, base, parts, visited, es[1..], a1, b1);
      }
    }
  }

  lemma {:induction false} VisitBehind(
    w: World, base: Path, parts: seq<Part>, visited: set<nat>, e: Entry, a: Walk, b: Walk)
    requires w.Valid() && w.KnownTargets([e]) && parts != [] && a.(left := None) == b
    ensures Behind(VisitEntry(w, base, parts, visited, e, a), VisitEntry(w, base, parts, visited, e, b))
    decreases |w.dirs - visited|, |parts|, 0, 0
  {
    if e.target.Directory? && e.target.key !in visited {
      var key := e.target.key;
      assert [e][0] == e;
      VisitedShrinks(w.dirs, visited, key);
      WalkBehind(w, base + [e.name], key, Below(parts), visited + {key}, a.Enter(key), b.Enter(key));
    }
  }

  /** Whenever the signal fires, the paths yielded until then are a prefix of the full walk's. */
  lemma AbortedGlobIsPrefix(w: World, root: nat, parts: seq<Part>, left: Option<nat>)
    requires w.Valid()
    ensures Glob(w, root, parts, left).out <= Glob(w, root, parts, None).out
    ensures !Glob(w, root, parts, left).Aborted() ==> Glob(w, root, parts, left).out == Glob(w, root, parts, None).out
  {
    var a := Walk(map[root := 1], left, 0, []);
    if !a.Aborted() {
      WalkBehind(w, [], root, parts, {root}, a.Checked(), a.(left := None).Checked());
    }
  }

  // ---------------------------------------------------------------- soundness

  /** Everything the walk adds to the output satisfies the declarative relation. */
  ghost predicate AddsListed(w: World, base: Path, node: nat, parts: seq<Part>, st: Walk, after: Walk) {
    && st.out <= after.out
    && forall i | |st.out| <= i < |after.out| :: Listed(w, base, node, parts, after.out[i])
  }

  lemma AddsListedChain(w: World, base: Path, node: nat, parts: seq<Part>, st: Walk, mid: Walk, after: Walk)
    requires AddsListed(w, base, node, parts, st, mid) && AddsListed(w, base, node, parts, mid, after)
    ensures AddsListed(w, base, node, parts, st, after)
  {
    forall i | |st.out| <= i < |after.out| ensures Listed(w, base, node, parts, after.out[i]) {
      if i < |mid.out| { assert after.out[i] == mid.out[i]; }
    }
  }

  /** A path listed below an entry is listed from the directory of the entry. */
  lemma ListedThroughEntry(w: World, base: Path, node: nat, parts: seq<Part>, i: nat, p: Path)
    requires parts != [] && i < |w.List(node)| && w.List(node)[i].target.Directory?
    requires w.physical(base) && w.List(node)[i].name !in w.excluded && w.lexical(base + [w.List(node)[i].name])
    requires parts[0].Segment? ==> |parts| > 1 && w.matches(parts[0].pattern, w.List(node)[i].name)
    requires Listed(w, base + [w.List(node)[i].name], w.List(node)[i].target.key, Below(parts), p)
    ensures Listed(w, base, node, parts, p)
  {
    var e := w.List(node)[i];
    var full := base + [e.name];
    var deep := p[|full|..];
    var rel := p[|base|..];
    var target :| Allowed(w, full, e.target.key, deep, target) && PatternMatches(w.matches, Below(parts), deep, target);
    assert p == full + deep;
    assert rel == [e.name] + deep && rel[1..] == deep;
    assert AllowedVia(w, base, w.List(node)[i], rel, target);
    assert Allowed(w, base, node, rel, target);
    if parts[0].DoubleStar? {
      DoubleStarTakesOneMore(w.matches, parts, rel, target);
    }
    assert base <= p;
  }

  lemma DoubleStarTakesOneMore(matches: (string, Name) -> bool, parts: seq<Part>, rel: Path, target: Target)
    requires parts != [] && parts[0].DoubleStar? && rel != []
    requires PatternMatches(matches, parts, rel[1..], target)
    ensures PatternMatches(matches, parts, rel, target)
  {
    if |parts| > 1 {
      var k :| 0 <= k <= |rel[1..]| && PatternMatches(matches, parts[1..], rel[1..][k..], target);
      assert rel[1..][k..] == rel[k + 1..];
    }
  }

  lemma ListedHere(w: World, base: Path, node: nat, parts: seq<Part>)
    requires w.physical(base) && parts == [DoubleStar]
    ensures Listed(w, base, node, parts, base)
  {
    assert base[|base|..] == [];
    assert Allowed(w, base, node, [], Directory(node));
  }

  /** An entry yielded by name or as a file below a final `**`. */
  lemma ListedEntry(w: World, base: Path, node: nat, parts: seq<Part>, i: nat)
    requires |parts| == 1 && i < |w.List(node)|
    requires var e := w.List(node)[i];
      && w.physical(base) && e.name !in w.excluded && w.lexical(base + [e.name]) && w.physical(base + [e.name])
      && match parts[0] case Segment(p) => w.matches(p, e.name) case DoubleStar => e.target.File?
    ensures Listed(w, base, node, parts, base + [w.List(node)[i].name])
  {
    var e := w.List(node)[i];
    var rel := [e.name];
    var p := base + rel;
    assert p[|base|..] == rel && rel[1..] == [];
    assert AllowedVia(w, base, w.List(node)[i], rel, e.target) by {
      if e.target.Directory? {
        assert Allowed(w, base + [e.name], e.target.key, [], e.target);
      }
    }
    assert Allowed(w, base, node, rel, e.target);
    assert PatternMatches(w.matches, parts, rel, e.target);
  }

  lemma {:induction false} WalkSound(w: World, base: Path, node: nat, parts: seq<Part>, visited: set<nat>, st: Walk)
    requires w.Valid()
    ensures AddsListed(w, base, node, parts, st, GlobWalk(w, base, node, parts, visited, st))
    decreases |w.dirs - visited|, |parts|, 1, 0
  {
    if !st.Aborted() && w.physical(base) && parts != [] {
      var before := st.Checked();
      if parts[0].DoubleStar? && |parts| > 1 {
        WalkSound(w, base, node, parts[1..], visited, before);
        before := GlobWalk(w, base, node, parts[1..], visited, before);
        forall i | |st.out| <= i < |before.out| ensures Listed(w, base, node, parts, before.out[i]) {
          DoubleStarTakesNone(w, base, node, parts, before.out[i]);
        }
      } else if parts[0].DoubleStar? {
        before := before.Yield(base);
        ListedHere(w, base, node, parts);
      }
      if !before.Aborted() {
        var read := before.Checked().Read();
        EntriesSound(w, base, node, parts, visited, 0, read);
        assert w.List(node)[0..] == w.List(node);
        AddsListedChain(w, base, node, parts, st, read, WalkEntries(w, base, parts, visited, w.List(node), read));
      }
    }
  }

  lemma DoubleStarTakesNone(w: World, base: Path, node: nat, parts: seq<Part>, p: Path)
    requires |parts| > 1 && parts[0].DoubleStar? && Listed(w, base, node, parts[1..], p)
    ensures Listed(w, base, node, parts, p)
  {
    var rel := p[|base|..];
    var target :| Allowed(w, base, node, rel, target) && PatternMatches(w.matches, parts[1..], rel, target);
    assert rel[0..] == rel;
    assert PatternMatches(w.matches, parts, rel, target);
  }

  lemma {:induction false} EntriesSound(
    w: World, base: Path, node: nat, parts: seq<Part>, visited: set<nat>, i: nat, st: Walk)
    requires w.Valid() && parts != [] && w.physical(base) && i <= |w.List(node)|
    ensures AddsListed(w, base, node, parts, st, WalkEntries(w, base, parts, visited, w.List(node)[i..], st))
    decreases |w.dirs - visited|, |parts|, 0, |w.List(node)| - i
  {
    var es := w.List(node);
    if i < |es| && !st.Aborted() {
      assert es[i..][0] == es[i] && es[i..][1..] == es[i + 1..];
      var mid := VisitEntry(w, base, parts, visited, es[i], st.Checked());
      VisitSound(w, base, node, parts, visited, i, st.Checked());
      EntriesSound(w, base, node, parts, visited, i + 1, mid);
      AddsListedChain(w, base, node, parts, st, mid, WalkEntries(w, base, parts, visited, es[i + 1..], mid));
    }
  }

  lemma {:induction false} VisitSound(
    w: World, base: Path, node: nat, parts: seq<Part>, visited: set<nat>, i: nat, st: Walk)
    requires w.Valid() && parts != [] && w.physical(base) && i < |w.List(node)|
    ensures AddsListed(w, base, node, parts, st, VisitEntry(w, base, parts, visited, w.List(node)[i], st))
    decreases |w.dirs - visited|, |parts|, 0, 0
  {
    var e := w.List(node)[i];
    var after := VisitEntry(w, base, parts, visited, e, st);
    if after.out != st.out {
      if |parts| == 1 && (parts[0].Segment? || e.target.File?) {
        ListedEntry(w, base, node, parts, i);
      } else {
        var key := e.target.key;
        var full := base + [e.name];
        assert [e][0] == e;
        VisitedShrinks(w.dirs, visited, key);
        WalkSound(w, full, key, Below(parts), visited + {key}, st.Enter(key));
        forall k | |st.out| <= k < |after.out| ensures Listed(w, base, node, parts, after.out[k]) {
          ListedThroughEntry(w, base, node, parts, i, after.out[k]);
        }
      }
    } else {
      assert AddsListed(w, base, node, parts, st, after);
    }
  }

  /** On any graph, under any signal, every yielded path is allowed and matches the pattern. */
  lemma GlobSound(w: World, root: nat, parts: seq<Part>, left: Option<nat>, p: Path)
    requires w.Valid() && p in Glob(w, root, parts, left).out
    ensures Listed(w, [], root, parts, p)
  {
    var start := Walk(map[root := 1], left, 0, []);
    WalkSound(w, [], root, parts, {root}, start.Checked());
  }
}
