/** Plain directory trees: what a walk does to them entry by entry, and what a pattern lists in them. */
module GlobTrees {
  import opened Wrappers
  import opened GlobModel
  import opened GlobBounds

  // ---------------------------------------------------------------- trees

  /** A directory and, entry by entry, the subtree below it (`None` for what is no directory). */
  datatype Tree = Tree(key: nat, kids: seq<Option<Tree>>)

  ghost function Keys(t: Tree): set<nat>
    decreases t, 1
  {
    {t.key} + KeysBelow(t)
  }

  ghost function KeysBelow(t: Tree): set<nat>
    decreases t, 0
  {
    set i, k | 0 <= i < |t.kids| && t.kids[i].Some? && k in Keys(t.kids[i].value) :: k
  }

  /** `t` is the part of the graph below its root, with one path to every directory and distinct names in each. */
  ghost predicate IsTree(w: World, t: Tree) {
    var es := w.List(t.key);
    && |es| == |t.kids| && t.key !in KeysBelow(t)
    && (forall i | 0 <= i < |es| :: es[i].target.Directory? <==> t.kids[i].Some?)
    && (forall i | 0 <= i < |es| && t.kids[i].Some? ::
          es[i].target.key == t.kids[i].value.key && IsTree(w, t.kids[i].value))
    && (forall i, j | 0 <= i < j < |es| :: es[i].name != es[j].name)
    && (forall i, j | 0 <= i < j < |es| && t.kids[i].Some? && t.kids[j].Some? ::
          Keys(t.kids[i].value) !! Keys(t.kids[j].value))
  }

  lemma KidBelow(t: Tree, i: nat)
    requires i < |t.kids| && t.kids[i].Some?
    ensures Keys(t.kids[i].value) <= KeysBelow(t)
  {}

  ghost predicate DirKid(t: Tree, j: nat) {
    j < |t.kids| && t.kids[j].Some?
  }

  lemma KidIsTree(w: World, t: Tree, visited: set<nat>, i: nat)
    requires IsTree(w, t) && DirKid(t, i) && visited !! KeysBelow(t)
    ensures var kid := t.kids[i].value;
      && IsTree(w, kid) && w.List(t.key)[i].target == Directory(kid.key)
      && kid.key !in visited && visited + {kid.key} !! KeysBelow(kid) && t.key !in Keys(kid)
  {
    var kid := t.kids[i].value;
    KidBelow(t, i);
    assert IsTree(w, kid);
    assert kid.key in Keys(kid) && kid.key !in KeysBelow(kid) && KeysBelow(kid) <= Keys(kid);
  }

  /** Nothing strictly below `t` has been entered yet. */
  ghost predicate Fresh(st: Walk, t: Tree) {
    forall k | k in KeysBelow(t) :: st.Count(k) == 0
  }

  ghost predicate Distinct(paths: seq<Path>) {
    forall i, j | 0 <= i < j < |paths| :: paths[i] != paths[j]
  }

  /** The walk lists exactly the allowed paths that match, each once. */
  ghost predicate ListsExactly(w: World, root: nat, parts: seq<Part>, out: seq<Path>) {
    && Distinct(out)
    && forall p :: p in out <==> Listed(w, [], root, parts, p)
  }

  // ---------------------------------------------------------------- counts and outputs

  /** Counts and output only ever grow. */
  ghost predicate Grown(st: Walk, after: Walk) {
    after.left.None? && st.out <= after.out && forall k: nat :: st.Count(k) <= after.Count(k)
  }

  lemma {:induction false} CountsGrow(w: World, base: Path, node: nat, parts: seq<Part>, visited: set<nat>, st: Walk)
    requires w.Valid() && st.left.None?
    ensures Grown(st, GlobWalk(w, base, node, parts, visited, st))
    decreases |w.dirs - visited|, |parts|, 1, 0
  {
    if w.physical(base) && parts != [] {
      var before := st;
      if parts[0].DoubleStar? && |parts| > 1 {
        CountsGrow(w, base, node, parts[1..], visited, st);
        before := GlobWalk(w, base, node, parts[1..], visited, st);
      } else if parts[0].DoubleStar? {
        before := st.Yield(base);
      }
      EntriesCountsGrow(w, base, parts, visited, w.List(node), before.Read());
    }
  }

  lemma {:induction false} EntriesCountsGrow(
    w: World, base: Path, parts: seq<Part>, visited: set<nat>, es: seq<Entry>, st: Walk)
    requires w.Valid() && w.KnownTargets(es) && parts != [] && st.left.None?
    ensures Grown(st, WalkEntries(w, base, parts, visited, es, st))
    decreases |w.dirs - visited|, |parts|, 0, |es|
  {
    if es != [] {
      VisitCountsGrow(w, base, parts, visited, es[0], st);
      EntriesCountsGrow(w, base, parts, visited, es[1..], VisitEntry(w, base, parts, visited, es[0], st));
    }
  }

  lemma {:induction false} VisitCountsGrow(w: World, base: Path, parts: seq<Part>, visited: set<nat>, e: Entry, st: Walk)
    requires w.Valid() && w.KnownTargets([e]) && parts != [] && st.left.None?
    ensures Grown(st, VisitEntry(w, base, parts, visited, e, st))
    decreases |w.dirs - visited|, |parts|, 0, 0
  {
    if e.target.Directory? && e.target.key !in visited {
      var key := e.target.key;
      assert [e][0] == e;
      VisitedShrinks(w.dirs, visited, key);
      CountsGrow(w, base + [e.name], key, Below(parts), visited + {key}, st.Enter(key));
    }
  }

  // ---------------------------------------------------------------- what was yielded before does not matter

  function After(front: seq<Path>, st: Walk): Walk {
    st.(out := front + st.out)
  }

  lemma {:induction false} WalkAppends(
    w: World, base: Path, node: nat, parts: seq<Part>, visited: set<nat>, st: Walk, front: seq<Path>)
    requires w.Valid()
    ensures GlobWalk(w, base, node, parts, visited, After(front, st))
         == After(front, GlobWalk(w, base, node, parts, visited, st))
    decreases |w.dirs - visited|, |parts|, 1, 0
  {
    if !st.Aborted() && w.physical(base) && parts != [] {
      var before := st.Checked();
      if parts[0].DoubleStar? && |parts| > 1 {
        WalkAppends(w, base, node, parts[1..], visited, before, front);
        before := GlobWalk(w, base, node, parts[1..], visited, before);
      } else if parts[0].DoubleStar? {
        YieldAppends(before, base, front);
        before := before.Yield(base);
      }
      if !before.Aborted() {
        EntriesAppend(w, base, parts, visited, w.List(node), before.Checked().Read(), front);
      }
    }
  }

  lemma YieldAppends(st: Walk, path: Path, front: seq<Path>)
    ensures After(front, st).Yield(path) == After(front, st.Yield(path))
  {
    assert front + st.out + [path] == front + (st.out + [path]);
  }

  lemma {:induction false} EntriesAppend(
    w: World, base: Path, parts: seq<Part>, visited: set<nat>, es: seq<Entry>, st: Walk, front: seq<Path>)
    requires w.Valid() && w.KnownTargets(es) && parts != []
    ensures WalkEntries(w, base, parts, visited, es, After(front, st))
         == After(front, WalkEntries(w, base, parts, visited, es, st))
    decreases |w.dirs - visited|, |parts|, 0, |es|
  {
    if es != [] && !st.Aborted() {
      VisitAppends(w, base, parts, visited, es[0], st.Checked(), front);
      EntriesAppend(w, base, parts, visited, es[1..], VisitEntry(w, base, parts, visited, es[0], st.Checked()), front);
    }
  }

  lemma {:induction false} VisitAppends(
    w: World, base: Path, parts: seq<Part>, visited: set<nat>, e: Entry, st: Walk, front: seq<Path>)
    requires w.Valid() && w.KnownTargets([e]) && parts != []
    ensures VisitEntry(w, base, parts, visited, e, After(front, st))
         == After(front, VisitEntry(w, base, parts, visited, e, st))
    decreases |w.dirs - visited|, |parts|, 0, 0
  {
    YieldAppends(st, base + [e.name], front);
    if e.target.Directory? && e.target.key !in visited {
      var key := e.target.key;
      assert [e][0] == e;
      VisitedShrinks(w.dirs, visited, key);
      WalkAppends(w, base + [e.name], key, Below(parts), visited + {key}, st.Enter(key), front);
    }
  }

  // ---------------------------------------------------------------- what a walk leaves alone

  /** Walking a tree only enters directories strictly below its root. */
  ghost predicate Framed(keys: set<nat>, st: Walk, after: Walk) {
    forall k: nat | k !in keys :: after.Count(k) == st.Count(k)
  }

  lemma {:induction false} WalkFramed(w: World, base: Path, t: Tree, parts: seq<Part>, visited: set<nat>, st: Walk)
    requires w.Valid() && IsTree(w, t) && st.left.None?
    ensures Framed(KeysBelow(t), st, GlobWalk(w, base, t.key, parts, visited, st))
    decreases t, |parts|, 2, 0
  {
    if w.physical(base) && parts != [] {
      var before := st;
      if parts[0].DoubleStar? && |parts| > 1 {
        WalkFramed(w, base, t, parts[1..], visited, st);
        CountsGrow(w, base, t.key, parts[1..], visited, st);
        before := GlobWalk(w, base, t.key, parts[1..], visited, st);
      } else if parts[0].DoubleStar? {
        before := st.Yield(base);
      }
      assert w.List(t.key)[0..] == w.List(t.key);
      EntriesFramed(w, base, t, parts, visited, 0, before.Read());
    }
  }

  lemma {:induction false} EntriesFramed(
    w: World, base: Path, t: Tree, parts: seq<Part>, visited: set<nat>, i: nat, st: Walk)
    requires w.Valid() && IsTree(w, t) && parts != [] && st.left.None? && i <= |t.kids|
    ensures Framed(KeysBelow(t), st, WalkEntries(w, base, parts, visited, w.List(t.key)[i..], st))
    decreases t, |parts|, 1, |t.kids| - i
  {
    var es := w.List(t.key);
    if i < |t.kids| {
      assert es[i..][0] == es[i] && es[i..][1..] == es[i + 1..];
      var mid := VisitEntry(w, base, parts, visited, es[i], st);
      VisitCountsGrow(w, base, parts, visited, es[i], st);
      VisitFramed(w, base, t, parts, visited, i, st);
      if t.kids[i].Some? {
        KidBelow(t, i);
      }
      EntriesFramed(w, base, t, parts, visited, i + 1, mid);
    }
  }

  lemma {:induction false} VisitFramed(
    w: World, base: Path, t: Tree, parts: seq<Part>, visited: set<nat>, i: nat, st: Walk)
    requires w.Valid() && IsTree(w, t) && parts != [] && st.left.None? && i < |t.kids|
    ensures Framed(if t.kids[i].Some? then Keys(t.kids[i].value) else {}, st,
                   VisitEntry(w, base, parts, visited, w.List(t.key)[i], st))
    decreases t, |parts|, 0, 0
  {
    var e := w.List(t.key)[i];
    var after := VisitEntry(w, base, parts, visited, e, st);
    if after.entries != st.entries {
      var kid := t.kids[i].value;
      WalkFramed(w, base + [e.name], kid, Below(parts), visited + {kid.key}, st.Enter(kid.key));
    }
  }

  // ---------------------------------------------------------------- one round

  function Full(base: Path, e: Entry): Path {
    base + [e.name]
  }

  /** A walk with that pattern goes on through the entry when it is a directory. */
  predicate Passes(w: World, base: Path, parts: seq<Part>, e: Entry)
    requires parts != []
  {
    && e.name !in w.excluded && w.lexical(Full(base, e))
    && (parts[0].Segment? ==> w.matches(parts[0].pattern, e.name))
  }

  ghost predicate Spent(st: Walk, key: nat) { st.Count(key) >= MAX_PHYSICAL_REVISITS }

  /** The rounds that descend: all but those of a last segment. */
  predicate Descends(parts: seq<Part>) {
    parts != [] && (|parts| > 1 || parts[0].DoubleStar?)
  }

  /** A round that enters a directory is a walk of the subtree. */
  lemma VisitIsWalk(w: World, base: Path, t: Tree, parts: seq<Part>, visited: set<nat>, i: nat, st: Walk)
    requires w.Valid() && IsTree(w, t) && Descends(parts) && DirKid(t, i) && visited !! KeysBelow(t)
    requires Passes(w, base, parts, w.List(t.key)[i]) && !Spent(st, t.kids[i].value.key)
    ensures VisitEntry(w, base, parts, visited, w.List(t.key)[i], st)
         == GlobWalk(w, Full(base, w.List(t.key)[i]), t.kids[i].value.key, Below(parts),
                     visited + {t.kids[i].value.key}, st.Enter(t.kids[i].value.key))
  {
    var e := w.List(t.key)[i];
    KidIsTree(w, t, visited, i);
    EntryIsKnown(w, t.key, i);
    VisitUnfolds(w, base, parts, visited, e, st);
  }

  lemma EntryIsKnown(w: World, node: nat, i: nat)
    requires w.Valid() && i < |w.List(node)|
    ensures w.KnownTargets([w.List(node)[i]])
  {
    assert w.KnownTargets(w.List(node));
  }

  lemma VisitUnfolds(w: World, base: Path, parts: seq<Part>, visited: set<nat>, e: Entry, st: Walk)
    requires w.Valid() && w.KnownTargets([e]) && Descends(parts) && Passes(w, base, parts, e)
    requires e.target.Directory? && e.target.key !in visited && !Spent(st, e.target.key)
    ensures VisitEntry(w, base, parts, visited, e, st)
         == GlobWalk(w, Full(base, e), e.target.key, Below(parts), visited + {e.target.key}, st.Enter(e.target.key))
  {}

  /** A round that enters nothing changes no count. */
  lemma VisitIsIdle(w: World, base: Path, t: Tree, parts: seq<Part>, visited: set<nat>, i: nat, st: Walk)
    requires w.Valid() && IsTree(w, t) && parts != [] && i < |t.kids|
    requires !Descends(parts) || !DirKid(t, i) || !Passes(w, base, parts, w.List(t.key)[i]) || Spent(st, t.kids[i].value.key)
    ensures var after := VisitEntry(w, base, parts, visited, w.List(t.key)[i], st);
      && after.entries == st.entries && (|parts| > 1 ==> after == st)
  {}

  // ---------------------------------------------------------------- how many names a match has

  predicate Plain(parts: seq<Part>) {
    forall i | 0 <= i < |parts| :: parts[i].Segment?
  }

  function Segments(parts: seq<Part>): nat {
    if parts == [] then 0 else (if parts[0].Segment? then 1 else 0) + Segments(parts[1..])
  }

  /** A match has at least one name per segment, and exactly as many when there is no `**`. */
  lemma {:induction false} MatchLength(matches: (string, Name) -> bool, parts: seq<Part>, rel: Path, target: Target)
    requires PatternMatches(matches, parts, rel, target)
    ensures Segments(parts) <= |rel|
    ensures Plain(parts) ==> Segments(parts) == |rel|
    decreases |parts|
  {
    if |parts| > 1 {
      if parts[0].Segment? {
        MatchLength(matches, parts[1..], rel[1..], target);
        assert Plain(parts) ==> Plain(parts[1..]);
      } else {
        var k :| 0 <= k <= |rel| && PatternMatches(matches, parts[1..], rel[k..], target);
        MatchLength(matches, parts[1..], rel[k..], target);
      }
    } else {
      assert parts[1..] == [];
    }
  }

  lemma ListedLength(w: World, base: Path, node: nat, parts: seq<Part>, p: Path)
    requires Listed(w, base, node, parts, p)
    ensures |base| + Segments(parts) <= |p|
    ensures Plain(parts) ==> |base| + Segments(parts) == |p|
  {
    var target :| Allowed(w, base, node, p[|base|..], target) && PatternMatches(w.matches, parts, p[|base|..], target);
    MatchLength(w.matches, parts, p[|base|..], target);
  }

  /** Only a directory is matched without a name. */
  lemma {:induction false} EmptyMatch(matches: (string, Name) -> bool, parts: seq<Part>, target: Target)
    requires PatternMatches(matches, parts, [], target)
    ensures target.Directory?
    decreases |parts|
  {
    if |parts| > 1 {
      var k :| 0 <= k <= 0 && PatternMatches(matches, parts[1..], [][k..], target);
      EmptyMatch(matches, parts[1..], target);
    }
  }

  // ---------------------------------------------------------------- how a listed path goes on

  /** The path goes on through entry j, and ends there or is listed below. */
  ghost predicate Through(w: World, base: Path, t: Tree, parts: seq<Part>, j: nat, p: Path)
    requires parts != []
  {
    && j < |w.List(t.key)| && Passes(w, base, parts, w.List(t.key)[j])
    && var full := Full(base, w.List(t.key)[j]);
       if Descends(parts) && DirKid(t, j) then Listed(w, full, t.kids[j].value.key, Below(parts), p)
       else |parts| == 1 && p == full && w.physical(full) && (parts[0].DoubleStar? ==> w.List(t.key)[j].target.File?)
  }

  /** The path needs no entry for the `**` it begins with. */
  ghost predicate TakesNone(w: World, base: Path, t: Tree, parts: seq<Part>, p: Path)
    requires parts != []
  {
    parts[0].DoubleStar? && if |parts| == 1 then p == base else Listed(w, base, t.key, parts[1..], p)
  }

  lemma ListedStep(w: World, base: Path, t: Tree, parts: seq<Part>, p: Path)
    requires IsTree(w, t) && parts != [] && Listed(w, base, t.key, parts, p)
    ensures TakesNone(w, base, t, parts, p) || exists j: nat :: j < |t.kids| && Through(w, base, t, parts, j, p)
  {
    var rel := p[|base|..];
    var target :| Allowed(w, base, t.key, rel, target) && PatternMatches(w.matches, parts, rel, target);
    assert p == base + rel;
    if !TakesNone(w, base, t, parts, p) {
      assert parts[0].DoubleStar? && |parts| > 1 ==> rel[0..] == rel && !PatternMatches(w.matches, parts[1..], rel, target);
      var j :| 0 <= j < |w.List(t.key)| && AllowedVia(w, base, w.List(t.key)[j], rel, target);
      StepThrough(w, base, t, parts, j, p, target);
    }
  }

  lemma StepThrough(w: World, base: Path, t: Tree, parts: seq<Part>, j: nat, p: Path, target: Target)
    requires IsTree(w, t) && parts != [] && base < p && j < |w.List(t.key)|
    requires var rel := p[|base|..]; AllowedVia(w, base, w.List(t.key)[j], rel, target) && PatternMatches(w.matches, parts, rel, target)
    requires parts[0].DoubleStar? && |parts| > 1 ==> !PatternMatches(w.matches, parts[1..], p[|base|..], target)
    ensures Through(w, base, t, parts, j, p)
  {
    var e := w.List(t.key)[j];
    var rel := p[|base|..];
    var full := Full(base, e);
    assert p == base + rel && rel == [e.name] + rel[1..];
    assert full <= p && p[|full|..] == rel[1..];
    if Descends(parts) {
      BelowMatches(w.matches, parts, rel, target);
      if !DirKid(t, j) {
        assert rel[1..] == [];
        if |parts| > 1 {
          EmptyMatch(w.matches, Below(parts), target);
        }
      }
    } else {
      assert rel[1..] == [];
    }
  }

  lemma BelowMatches(matches: (string, Name) -> bool, parts: seq<Part>, rel: Path, target: Target)
    requires Descends(parts) && rel != [] && PatternMatches(matches, parts, rel, target)
    requires parts[0].DoubleStar? && |parts| > 1 ==> !PatternMatches(matches, parts[1..], rel, target)
    ensures |parts| > 1 || |rel| > 1 || target.Directory? ==> PatternMatches(matches, Below(parts), rel[1..], target)
  {
    if parts[0].DoubleStar? && |parts| > 1 {
      var k :| 0 <= k <= |rel| && PatternMatches(matches, parts[1..], rel[k..], target);
      assert rel[0..] == rel;
      var less := k - 1;
      assert rel[1..][less..] == rel[k..];
    }
  }
}
