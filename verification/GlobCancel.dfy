/** What a signal that fires allows a walk to do: each directory read and each path costs a quiet checkpoint of its own. */
module GlobCancel {
  import opened Wrappers
  import opened GlobModel

  /**
   From `st` to `after` the walk has passed one checkpoint for each directory it read and
   each path it yielded, and two for each directory.
   */
  ghost predicate PaidFor(st: Walk, after: Walk) {
    && st.listings <= after.listings && |st.out| <= |after.out|
    && (st.left.None? ==> after.left.None?)
    && (st.left.Some? ==>
          && after.left.Some? && after.left.value <= st.left.value
          && (after.listings - st.listings) + (|after.out| - |st.out|) <= st.left.value - after.left.value
          && 2 * (after.listings - st.listings) <= st.left.value - after.left.value)
  }

  /** What is left of the checkpoint of a call pays for the path it yields itself, and with the one in front of the read for the directory. */
  lemma ReadPays(st: Walk, before: Walk, after: Walk)
    requires !st.Aborted() && !before.Aborted() && PaidFor(before.Checked().Read(), after)
    requires PaidFor(st.Checked(), before)
      || (before.left == st.Checked().left && before.listings == st.listings && |before.out| == |st.out| + 1)
    ensures PaidFor(st, after)
  {}

  lemma {:induction false} WalkPays(w: World, base: Path, node: nat, parts: seq<Part>, visited: set<nat>, st: Walk)
    requires w.Valid()
    ensures PaidFor(st, GlobWalk(w, base, node, parts, visited, st))
    decreases |w.dirs - visited|, |parts|, 1, 0
  {
    if !st.Aborted() && w.physical(base) && parts != [] {
      var before := st.Checked();
      if parts[0].DoubleStar? && |parts| > 1 {
        WalkPays(w, base, node, parts[1..], visited, before);
        before := GlobWalk(w, base, node, parts[1..], visited, before);
      } else if parts[0].DoubleStar? {
        before := before.Yield(base);
      }
      if !before.Aborted() {
        var read := before.Checked().Read();
        EntriesPay(w, base, parts, visited, w.List(node), read);
        ReadPays(st, before, WalkEntries(w, base, parts, visited, w.List(node), read));
      }
    }
  }

  lemma {:induction false} EntriesPay(
    w: World, base: Path, parts: seq<Part>, visited: set<nat>, es: seq<Entry>, st: Walk)
    requires w.Valid() && w.KnownTargets(es) && parts != []
    ensures PaidFor(st, WalkEntries(w, base, parts, visited, es, st))
    decreases |w.dirs - visited|, |parts|, 0, |es|
  {
    if es != [] && !st.Aborted() {
      var after := VisitEntry(w, base, parts, visited, es[0], st.Checked());
      VisitPays(w, base, parts, visited, es[0], st.Checked());
      EntriesPay(w, base, parts, visited, es[1..], after);
    }
  }

  /** An entry's own path is paid for with the checkpoint in front of the entry. */
  lemma {:induction false} VisitPays(w: World, base: Path, parts: seq<Part>, visited: set<nat>, e: Entry, st: Walk)
    requires w.Valid() && w.KnownTargets([e]) && parts != []
    ensures var after := VisitEntry(w, base, parts, visited, e, st);
            PaidFor(st, after) || (after.left == st.left && after.listings == st.listings && |after.out| == |st.out| + 1)
    decreases |w.dirs - visited|, |parts|, 0, 0
  {
    if e.target.Directory? && e.target.key !in visited {
      var key := e.target.key;
      assert [e][0] == e;
      VisitedShrinks(w.dirs, visited, key);
      WalkPays(w, base + [e.name], key, Below(parts), visited + {key}, st.Enter(key));
    }
  }

  /** Every call that gets as far as its own directory reads it and counts that: the counter misses no call the signal lets through. */
  lemma EachCallReads(w: World, base: Path, node: nat, parts: seq<Part>, visited: set<nat>, st: Walk)
    requires w.Valid() && w.physical(base) && parts != []
    ensures var after := GlobWalk(w, base, node, parts, visited, st); after.Aborted() || after.listings > st.listings
  {
    if !st.Aborted() {
      var before := st.Checked();
      if parts[0].DoubleStar? && |parts| > 1 {
        WalkPays(w, base, node, parts[1..], visited, before);
        before := GlobWalk(w, base, node, parts[1..], visited, before);
      } else if parts[0].DoubleStar? {
        before := before.Yield(base);
      }
      if !before.Aborted() {
        EntriesPay(w, base, parts, visited, w.List(node), before.Checked().Read());
      }
    }
  }

  /**
   When the signal fires after n quiet checkpoints, the whole call has read and yielded no
   more than that, and n checkpoints are no more than half as many directories; a signal
   that has fired before the call lets it neither read nor yield anything.
   */
  lemma SignalBoundsWork(w: World, root: nat, parts: seq<Part>, n: nat)
    requires w.Valid()
    ensures var g := Glob(w, root, parts, Some(n));
      && g.listings + |g.out| <= n && 2 * g.listings <= n
      && (n == 0 ==> g.listings == 0 && g.out == [] && g.entries == map[root := 1])
  {
    var start := Walk(map[root := 1], Some(n), 0, []);
    if n > 0 && w.physical([]) {
      WalkPays(w, [], root, parts, {root}, start.Checked());
    }
  }

  /** A frame that goes on after the signal has fired does nothing at all any more. */
  lemma FiredSignalStops(
    w: World, base: Path, node: nat, parts: seq<Part>, visited: set<nat>, es: seq<Entry>, st: Walk)
    requires w.Valid() && w.KnownTargets(es) && parts != [] && st.Aborted()
    ensures GlobWalk(w, base, node, parts, visited, st) == st
    ensures WalkEntries(w, base, parts, visited, es, st) == st
  {}
}
