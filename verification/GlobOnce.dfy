/**
 Nothing is yielded twice on a plain tree, whatever was entered before: by the lengths of the
 paths when the pattern has one `**`, and otherwise because a path is found through a directory
 that has no entry left afterwards. That directory is the one its last run of segments enters
 first, so the run has to have two segments at least.
 */
module GlobOnce {
  import opened Wrappers
  import opened GlobModel
  import opened GlobBounds
  import opened GlobTrees
  import opened GlobRuns

  // ---------------------------------------------------------------- what a call adds

  ghost predicate Added(st: Walk, after: Walk, p: Path) {
    exists x :: |st.out| <= x < |after.out| && after.out[x] == p
  }

  /** What the call adds it adds once. */
  ghost predicate AddsOnce(st: Walk, after: Walk) {
    && st.out <= after.out
    && forall x, y | |st.out| <= x < y < |after.out| :: after.out[x] != after.out[y]
  }

  lemma AddsOnceChain(st: Walk, mid: Walk, after: Walk)
    requires AddsOnce(st, mid) && AddsOnce(mid, after)
    requires forall p :: !(Added(st, mid, p) && Added(mid, after, p))
    ensures AddsOnce(st, after)
  {
    forall x, y | |st.out| <= x < y < |after.out| ensures after.out[x] != after.out[y] {
      if x < |mid.out| <= y {
        assert after.out[x] == mid.out[x];
        assert Added(st, mid, after.out[x]) && Added(mid, after, after.out[y]);
      } else if y < |mid.out| {
        assert after.out[x] == mid.out[x] && after.out[y] == mid.out[y];
      }
    }
  }

  lemma AddedEither(st: Walk, mid: Walk, after: Walk, p: Path)
    requires st.out <= mid.out <= after.out && Added(st, after, p)
    ensures Added(st, mid, p) || Added(mid, after, p)
  {
    var x :| |st.out| <= x < |after.out| && after.out[x] == p;
    if x < |mid.out| {
      assert mid.out[x] == p;
    }
  }

  lemma AddedIsListed(w: World, base: Path, t: Tree, parts: seq<Part>, visited: set<nat>, st: Walk, p: Path)
    requires w.Valid() && Added(st, GlobWalk(w, base, t.key, parts, visited, st), p)
    ensures Listed(w, base, t.key, parts, p)
  {
    WalkSound(w, base, t.key, parts, visited, st);
  }

  // ---------------------------------------------------------------- places

  /** The directory at a list of names below the root of the tree. */
  ghost function Place(w: World, t: Tree, rel: Path): Option<nat>
    decreases |rel|
  {
    if rel == [] then Some(t.key)
    else if j: nat :| DirKid(t, j) && j < |w.List(t.key)| && w.List(t.key)[j].name == rel[0] then
      Place(w, t.kids[j].value, rel[1..])
    else None
  }

  lemma PlaceOfKid(w: World, t: Tree, j: nat, rel: Path)
    requires IsTree(w, t) && DirKid(t, j) && rel != [] && rel[0] == w.List(t.key)[j].name
    ensures Place(w, t, rel) == Place(w, t.kids[j].value, rel[1..])
  {
    assert forall i: nat | DirKid(t, i) && w.List(t.key)[i].name == rel[0] :: i == j;
  }

  /** The directory the last n names of the path were found through has no entry left. */
  ghost predicate Closed(w: World, base: Path, t: Tree, n: nat, p: Path, st: Walk)
    requires 0 < n
  {
    && |base| + n <= |p| && base <= p
    && var place := Place(w, t, p[|base|..|p| - n + 1]);
       place.Some? && Spent(st, place.value)
  }

  lemma ClosedBelow(w: World, base: Path, t: Tree, j: nat, n: nat, p: Path, st: Walk)
    requires IsTree(w, t) && DirKid(t, j) && 0 < n && |base| + 1 + n <= |p| && Full(base, w.List(t.key)[j]) <= p
    ensures Closed(w, base, t, n, p, st) <==> Closed(w, Full(base, w.List(t.key)[j]), t.kids[j].value, n, p, st)
  {
    var e := w.List(t.key)[j];
    var full := Full(base, e);
    var rel := p[|base|..|p| - n + 1];
    assert p[|base|] == full[|base|] == e.name;
    assert rel[0] == e.name && rel[1..] == p[|full|..|p| - n + 1];
    PlaceOfKid(w, t, j, rel);
  }

  lemma ClosedStays(w: World, base: Path, t: Tree, n: nat, p: Path, st: Walk, after: Walk)
    requires 0 < n && Closed(w, base, t, n, p, st) && Grown(st, after)
    ensures Closed(w, base, t, n, p, after)
  {}

  // ---------------------------------------------------------------- every loop enters

  /** The loop enters every directory it goes on through once more, as long as that has an entry left. */
  ghost predicate EnteredFrom(w: World, base: Path, t: Tree, parts: seq<Part>, i: nat, st: Walk, after: Walk)
    requires parts != []
  {
    forall j: nat | i <= j && DirKid(t, j) && j < |w.List(t.key)| && Passes(w, base, parts, w.List(t.key)[j]) ::
      var key := t.kids[j].value.key;
      Spent(after, key) || after.Count(key) > st.Count(key)
  }

  lemma {:induction false} LoopEnters(
    w: World, base: Path, t: Tree, parts: seq<Part>, visited: set<nat>, i: nat, st: Walk)
    requires w.Valid() && IsTree(w, t) && st.left.None? && Descends(parts) && i <= |t.kids| && visited !! KeysBelow(t)
    ensures EnteredFrom(w, base, t, parts, i, st, WalkEntries(w, base, parts, visited, w.List(t.key)[i..], st))
    decreases |t.kids| - i
  {
    var es := w.List(t.key);
    if i < |t.kids| {
      assert es[i..][0] == es[i] && es[i..][1..] == es[i + 1..];
      var mid := VisitEntry(w, base, parts, visited, es[i], st);
      VisitCountsGrow(w, base, parts, visited, es[i], st);
      EntriesCountsGrow(w, base, parts, visited, es[i + 1..], mid);
      LoopEnters(w, base, t, parts, visited, i + 1, mid);
      if DirKid(t, i) && Passes(w, base, parts, es[i]) {
        VisitEnters(w, base, t, parts, visited, i, st);
      }
    }
  }

  lemma VisitEnters(w: World, base: Path, t: Tree, parts: seq<Part>, visited: set<nat>, i: nat, st: Walk)
    requires w.Valid() && IsTree(w, t) && st.left.None? && Descends(parts) && visited !! KeysBelow(t)
    requires DirKid(t, i) && Passes(w, base, parts, w.List(t.key)[i])
    ensures var after := VisitEntry(w, base, parts, visited, w.List(t.key)[i], st); var key := t.kids[i].value.key;
            Spent(after, key) || after.Count(key) > st.Count(key)
  {
    var e := w.List(t.key)[i];
    var kid := t.kids[i].value;
    if Spent(st, kid.key) {
      VisitIsIdle(w, base, t, parts, visited, i, st);
    } else {
      var entered := st.Enter(kid.key);
      VisitIsWalk(w, base, t, parts, visited, i, st);
      CountsGrow(w, Full(base, e), kid.key, Below(parts), visited + {kid.key}, entered);
      assert entered.Count(kid.key) > st.Count(kid.key);
    }
  }

  // ---------------------------------------------------------------- rounds

  /** The path goes through entry j; if that has to be entered for it, an entry was left. */
  ghost predicate Via(w: World, base: Path, t: Tree, parts: seq<Part>, j: nat, p: Path, st: Walk)
    requires parts != []
  {
    && j < |w.List(t.key)| && Full(base, w.List(t.key)[j]) <= p && Passes(w, base, parts, w.List(t.key)[j])
    && (|parts| > 1 ==> DirKid(t, j) && !Spent(st, t.kids[j].value.key))
    && (parts[0].DoubleStar? ==> |p| > |base| + Segments(parts))
  }

  ghost predicate AddsVia(w: World, base: Path, t: Tree, parts: seq<Part>, i: nat, st: Walk, after: Walk)
    requires parts != []
  {
    forall p | Added(st, after, p) :: exists j: nat :: i <= j && Via(w, base, t, parts, j, p, st)
  }

  /** With several `**`, or a last run of two: what is added goes through a directory that had an entry left and now has none. */
  ghost predicate Closes(w: World, base: Path, t: Tree, parts: seq<Part>, st: Walk, after: Walk) {
    Stars(parts) > 0 && LastRun(parts) > 1 ==>
      forall p | Added(st, after, p) ::
        !Closed(w, base, t, LastRun(parts), p, st) && Closed(w, base, t, LastRun(parts), p, after)
  }

  lemma ClosesChain(w: World, base: Path, t: Tree, parts: seq<Part>, st: Walk, mid: Walk, after: Walk)
    requires Grown(st, mid) && Grown(mid, after)
    requires Closes(w, base, t, parts, st, mid) && Closes(w, base, t, parts, mid, after)
    ensures Closes(w, base, t, parts, st, after)
  {
    var n := LastRun(parts);
    if Stars(parts) > 0 && n > 1 {
      forall p | Added(st, after, p) ensures !Closed(w, base, t, n, p, st) && Closed(w, base, t, n, p, after) {
        AddedEither(st, mid, after, p);
        if Closed(w, base, t, n, p, st) {
          ClosedStays(w, base, t, n, p, st, mid);
        }
        if Closed(w, base, t, n, p, mid) {
          ClosedStays(w, base, t, n, p, mid, after);
        }
      }
    }
  }

  /** One `**` at most, or two segments behind the last. */
  predicate Repeatable(parts: seq<Part>) {
    Stars(parts) > 1 ==> LastRun(parts) > 1
  }

  lemma {:induction false} LastRunShort(parts: seq<Part>)
    ensures LastRun(parts) <= Segments(parts)
  {
    if Stars(parts) == 0 {
      PlainHasNoStars(parts);
    } else {
      LastRunShort(parts[1..]);
    }
  }

  lemma {:induction false} EntriesOnce(
    w: World, base: Path, t: Tree, parts: seq<Part>, visited: set<nat>, i: nat, st: Walk)
    requires w.Valid() && IsTree(w, t) && st.left.None? && visited !! KeysBelow(t) && Repeatable(parts)
    requires parts != [] && i <= |t.kids|
    ensures var after := WalkEntries(w, base, parts, visited, w.List(t.key)[i..], st);
      AddsOnce(st, after) && Closes(w, base, t, parts, st, after) && AddsVia(w, base, t, parts, i, st, after)
    decreases t, |parts|, 1, |t.kids| - i
  {
    var es := w.List(t.key);
    if i < |t.kids| {
      assert es[i..][0] == es[i] && es[i..][1..] == es[i + 1..];
      var mid := VisitEntry(w, base, parts, visited, es[i], st);
      var after := WalkEntries(w, base, parts, visited, es[i + 1..], mid);
      EntryIsKnown(w, t.key, i);
      VisitCountsGrow(w, base, parts, visited, es[i], st);
      EntriesCountsGrow(w, base, parts, visited, es[i + 1..], mid);
      VisitOnce(w, base, t, parts, visited, i, st);
      EntriesOnce(w, base, t, parts, visited, i + 1, mid);
      ClosesChain(w, base, t, parts, st, mid, after);
      RoundsChain(w, base, t, parts, i, st, mid, after);
    }
  }

  /** Entries of a directory have names of their own. */
  lemma OneEntry(w: World, base: Path, t: Tree, i: nat, j: nat, p: Path)
    requires IsTree(w, t) && i < j < |w.List(t.key)|
    ensures !(Full(base, w.List(t.key)[i]) <= p && Full(base, w.List(t.key)[j]) <= p)
  {
    var a, b := Full(base, w.List(t.key)[i]), Full(base, w.List(t.key)[j]);
    assert a[|base|] == w.List(t.key)[i].name != w.List(t.key)[j].name == b[|base|];
  }

  lemma RoundsChain(w: World, base: Path, t: Tree, parts: seq<Part>, i: nat, st: Walk, mid: Walk, after: Walk)
    requires IsTree(w, t) && parts != [] && Grown(st, mid) && AddsOnce(st, mid) && AddsOnce(mid, after)
    requires forall p | Added(st, mid, p) :: Via(w, base, t, parts, i, p, st)
    requires AddsVia(w, base, t, parts, i + 1, mid, after)
    ensures AddsOnce(st, after) && AddsVia(w, base, t, parts, i, st, after)
  {
    forall p | Added(mid, after, p)
      ensures !Added(st, mid, p) && exists j: nat :: i < j && Via(w, base, t, parts, j, p, st)
    {
      var j: nat :| i + 1 <= j && Via(w, base, t, parts, j, p, mid);
      assert Via(w, base, t, parts, j, p, st);
      OneEntry(w, base, t, i, j, p);
    }
    AddsOnceChain(st, mid, after);
    forall p | Added(st, after, p) ensures exists j: nat :: i <= j && Via(w, base, t, parts, j, p, st) {
      AddedEither(st, mid, after, p);
    }
  }

  lemma {:induction false} VisitOnce(
    w: World, base: Path, t: Tree, parts: seq<Part>, visited: set<nat>, i: nat, st: Walk)
    requires w.Valid() && IsTree(w, t) && st.left.None? && visited !! KeysBelow(t) && Repeatable(parts)
    requires parts != [] && i < |t.kids|
    ensures var after := VisitEntry(w, base, parts, visited, w.List(t.key)[i], st);
      && AddsOnce(st, after) && Closes(w, base, t, parts, st, after)
      && forall p | Added(st, after, p) :: Via(w, base, t, parts, i, p, st)
    decreases t, |parts|, 0, 0
  {
    var e := w.List(t.key)[i];
    var full := Full(base, e);
    var after := VisitEntry(w, base, parts, visited, e, st);
    if Descends(parts) && DirKid(t, i) && Passes(w, base, parts, e) && !Spent(st, t.kids[i].value.key) {
      var kid := t.kids[i].value;
      var entered := st.Enter(kid.key);
      VisitIsWalk(w, base, t, parts, visited, i, st);
      KidIsTree(w, t, visited, i);
      WalkOnce(w, full, kid, Below(parts), visited + {kid.key}, entered);
      RoundCloses(w, base, t, parts, visited, i, st);
    } else {
      VisitIsIdle(w, base, t, parts, visited, i, st);
      assert after == st || (|parts| == 1 && after == st.Yield(full));
      assert |parts| == 1 ==> parts[1..] == [] && (parts[0].DoubleStar? ==> LastRun(parts) == 0 && Segments(parts) == 0);
    }
  }

  lemma RoundCloses(w: World, base: Path, t: Tree, parts: seq<Part>, visited: set<nat>, i: nat, st: Walk)
    requires w.Valid() && IsTree(w, t) && st.left.None? && visited !! KeysBelow(t)
    requires Descends(parts) && DirKid(t, i) && Passes(w, base, parts, w.List(t.key)[i]) && !Spent(st, t.kids[i].value.key)
    requires var kid := t.kids[i].value; var entered := st.Enter(kid.key); var full := Full(base, w.List(t.key)[i]);
             Closes(w, full, kid, Below(parts), entered,
                    GlobWalk(w, full, kid.key, Below(parts), visited + {kid.key}, entered))
    ensures var kid := t.kids[i].value; var full := Full(base, w.List(t.key)[i]);
            var after := GlobWalk(w, full, kid.key, Below(parts), visited + {kid.key}, st.Enter(kid.key));
      && Closes(w, base, t, parts, st, after)
      && forall p | Added(st, after, p) :: Via(w, base, t, parts, i, p, st)
  {
    var kid := t.kids[i].value;
    var full := Full(base, w.List(t.key)[i]);
    var entered := st.Enter(kid.key);
    var after := GlobWalk(w, full, kid.key, Below(parts), visited + {kid.key}, entered);
    var n := LastRun(parts);
    LastRunShort(parts);
    forall p | Added(st, after, p)
      ensures Via(w, base, t, parts, i, p, st)
      ensures Stars(parts) > 0 && n > 1 ==> !Closed(w, base, t, n, p, st) && Closed(w, base, t, n, p, after)
    {
      assert Added(entered, after, p);
      AddedIsListed(w, full, kid, Below(parts), visited + {kid.key}, entered, p);
      ListedLength(w, full, kid.key, Below(parts), p);
      if Stars(parts) > 0 && n > 1 {
        ClosedBelow(w, base, t, i, n, p, st);
        ClosedBelow(w, base, t, i, n, p, after);
        if Closed(w, full, kid, n, p, st) {
          ClosedStays(w, full, kid, n, p, st, entered);
        }
      }
    }
  }

  // ---------------------------------------------------------------- a whole call

  lemma {:induction false} WalkOnce(w: World, base: Path, t: Tree, parts: seq<Part>, visited: set<nat>, st: Walk)
    requires w.Valid() && IsTree(w, t) && st.left.None? && visited !! KeysBelow(t) && Repeatable(parts)
    ensures var after := GlobWalk(w, base, t.key, parts, visited, st);
      AddsOnce(st, after) && Closes(w, base, t, parts, st, after)
    decreases t, |parts|, 2, 0
  {
    if w.physical(base) && parts != [] {
      var es := w.List(t.key);
      assert es[0..] == es;
      if parts[0].Segment? {
        EntriesOnce(w, base, t, parts, visited, 0, st.Read());
        ReadAdds(w, base, t, parts, st, GlobWalk(w, base, t.key, parts, visited, st));
      } else if |parts| == 1 {
        EntriesOnce(w, base, t, parts, visited, 0, st.Yield(base).Read());
        LastStarOnce(w, base, t, parts, st, GlobWalk(w, base, t.key, parts, visited, st));
      } else {
        var before := GlobWalk(w, base, t.key, parts[1..], visited, st);
        WalkOnce(w, base, t, parts[1..], visited, st);
        CountsGrow(w, base, t.key, parts[1..], visited, st);
        EntriesOnce(w, base, t, parts, visited, 0, before.Read());
        EntriesCountsGrow(w, base, parts, visited, es, before.Read());
        if Stars(parts) > 1 {
          StarsOnce(w, base, t, parts, st, before, GlobWalk(w, base, t.key, parts, visited, st));
        } else {
          EntriesOnce(w, base, t, parts[1..], visited, 0, st.Read());
          OneStarOnce(w, base, t, parts, visited, st, before, GlobWalk(w, base, t.key, parts, visited, st));
        }
      }
    }
  }

  /** Reading a directory changes no count and yields nothing. */
  lemma ReadAdds(w: World, base: Path, t: Tree, parts: seq<Part>, st: Walk, after: Walk)
    ensures AddsOnce(st.Read(), after) <==> AddsOnce(st, after)
    ensures forall p :: Added(st.Read(), after, p) <==> Added(st, after, p)
    ensures Closes(w, base, t, parts, st.Read(), after) <==> Closes(w, base, t, parts, st, after)
  {
    assert st.Read().out == st.out;
    assert forall k: nat :: st.Read().Count(k) == st.Count(k);
    if LastRun(parts) > 0 {
      assert forall p :: Closed(w, base, t, LastRun(parts), p, st.Read()) <==> Closed(w, base, t, LastRun(parts), p, st);
    }
  }

  lemma LastStarOnce(w: World, base: Path, t: Tree, parts: seq<Part>, st: Walk, after: Walk)
    requires parts == [DoubleStar]
    requires var read := st.Yield(base).Read(); AddsOnce(read, after) && AddsVia(w, base, t, parts, 0, read, after)
    ensures AddsOnce(st, after) && Closes(w, base, t, parts, st, after)
  {
    var yielded := st.Yield(base);
    ReadAdds(w, base, t, parts, yielded, after);
    assert parts[1..] == [] && LastRun(parts) == 0;
    assert forall p | Added(st, yielded, p) :: p == base;
    AddsOnceChain(st, yielded, after);
  }

  /** A second `**` has closed what it found, so the first cannot find it again. */
  lemma StarsOnce(w: World, base: Path, t: Tree, parts: seq<Part>, st: Walk, before: Walk, after: Walk)
    requires |parts| > 1 && parts[0].DoubleStar? && Stars(parts) > 1 && Repeatable(parts)
    requires Grown(st, before) && Grown(before, after)
    requires AddsOnce(st, before) && Closes(w, base, t, parts[1..], st, before)
    requires AddsOnce(before.Read(), after) && Closes(w, base, t, parts, before.Read(), after)
    ensures AddsOnce(st, after) && Closes(w, base, t, parts, st, after)
  {
    ReadAdds(w, base, t, parts, before, after);
    AddsOnceChain(st, before, after);
    ClosesChain(w, base, t, parts, st, before, after);
  }

  /** The run finds the shortest paths, the `**` the longer ones; and both enter what the run finds paths through. */
  lemma OneStarOnce(
    w: World, base: Path, t: Tree, parts: seq<Part>, visited: set<nat>, st: Walk, before: Walk, after: Walk)
    requires w.Valid() && IsTree(w, t) && st.left.None? && visited !! KeysBelow(t) && w.physical(base)
    requires |parts| > 1 && parts[0].DoubleStar? && Stars(parts) == 1
    requires before == GlobWalk(w, base, t.key, parts[1..], visited, st) && Grown(st, before)
    requires after == WalkEntries(w, base, parts, visited, w.List(t.key), before.Read()) && Grown(before, after)
    requires AddsOnce(st, before) && AddsVia(w, base, t, parts[1..], 0, st.Read(), before)
    requires AddsOnce(before.Read(), after) && Closes(w, base, t, parts, before.Read(), after)
    requires AddsVia(w, base, t, parts, 0, before.Read(), after)
    ensures AddsOnce(st, after) && Closes(w, base, t, parts, st, after)
  {
    var run := parts[1..];
    var n := LastRun(parts);
    PlainHasNoStars(run);
    assert n == LastRun(run) == |run| == Segments(parts);
    ReadAdds(w, base, t, run, st, before);
    ReadAdds(w, base, t, parts, before, after);
    forall p | Added(st, before, p)
      ensures |p| == |base| + Segments(parts)
    {
      AddedIsListed(w, base, t, run, visited, st, p);
      ListedLength(w, base, t.key, run, p);
    }
    AddsOnceChain(st, before, after);
    if n > 1 {
      forall p | Added(st, before, p) ensures !Closed(w, base, t, n, p, st) && Closed(w, base, t, n, p, after) {
        var j: nat :| Via(w, base, t, run, j, p, st.Read());
        RunCloses(w, base, t, parts, visited, j, st, p);
      }
      forall p | Added(st, after, p) ensures !Closed(w, base, t, n, p, st) && Closed(w, base, t, n, p, after) {
        AddedEither(st, before, after, p);
        if Closed(w, base, t, n, p, st) {
          ClosedStays(w, base, t, n, p, st, before);
        }
      }
    }
  }

  lemma RunCloses(w: World, base: Path, t: Tree, parts: seq<Part>, visited: set<nat>, j: nat, st: Walk, p: Path)
    requires w.Valid() && IsTree(w, t) && st.left.None? && visited !! KeysBelow(t) && w.physical(base)
    requires |parts| > 2 && parts[0].DoubleStar? && Stars(parts) == 1 && LastRun(parts) == |parts| - 1
    requires Via(w, base, t, parts[1..], j, p, st.Read()) && |p| == |base| + |parts| - 1
    ensures !Closed(w, base, t, LastRun(parts), p, st)
    ensures Closed(w, base, t, LastRun(parts), p, GlobWalk(w, base, t.key, parts, visited, st))
  {
    var es := w.List(t.key);
    var run := parts[1..];
    var key := t.kids[j].value.key;
    var before := GlobWalk(w, base, t.key, run, visited, st);
    assert es[0..] == es && run[0].Segment?;
    LoopEnters(w, base, t, run, visited, 0, st.Read());
    CountsGrow(w, base, t.key, run, visited, st);
    LoopEnters(w, base, t, parts, visited, 0, before.Read());
    EntriesCountsGrow(w, base, parts, visited, es, before.Read());
    var rel := p[|base|..|p| - LastRun(parts) + 1];
    assert rel == [es[j].name] && base <= p;
    PlaceOfKid(w, t, j, rel);
    assert Place(w, t, rel) == Some(key);
  }

  /** The walk yields nothing twice. */
  lemma NothingTwice(w: World, t: Tree, parts: seq<Part>)
    requires w.Valid() && IsTree(w, t) && Repeatable(parts)
    ensures Distinct(Glob(w, t.key, parts, None).out)
  {
    var start := Walk(map[t.key := 1], None, 0, []);
    if w.physical([]) {
      WalkOnce(w, [], t, parts, {t.key}, start);
    }
  }
}
