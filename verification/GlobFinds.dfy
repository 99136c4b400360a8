/**
 Completeness of the walk on plain trees. A directory below a `**` has at most one entry from
 the run of the `**` when the `**` itself gets there, unless all there is to find below has been
 found: the bound of two entries then costs nothing.
 */
module GlobFinds {
  import opened Wrappers
  import opened GlobModel
  import opened GlobBounds
  import opened GlobTrees
  import opened GlobRuns

  // ---------------------------------------------------------------- what is found

  /** Everything the pattern lists below the directory has been yielded. */
  ghost predicate Found(w: World, base: Path, node: nat, parts: seq<Part>, out: seq<Path>) {
    forall p | Listed(w, base, node, parts, p) :: p in out
  }

  /** The same for each of the first r stages of the run, and for the `**`. */
  ghost predicate FoundUpTo(w: World, base: Path, node: nat, parts: seq<Part>, r: nat, out: seq<Path>)
    requires parts != [] && parts[0].DoubleStar? && r < |parts|
  {
    forall i: nat | i <= r :: Found(w, base, node, Rest(parts, i), out)
  }

  /** The run has come by more than r segments into it, with something left to take. */
  ghost predicate Claimed(w: World, names: iset<Name>, full: Path, parts: seq<Part>, r: nat)
    requires parts != [] && parts[0].DoubleStar?
  {
    exists i :: r < i < Length(parts) && Ends(w.matches, parts, full, i) && !Swallows(w.matches, names, parts, i)
  }

  /**
   Every directory r levels and more below the one the `**` is walking is either found out, as
   far as the `**` can still come there, or entered once at most, by a run from further up.
   */
  ghost predicate ReadyBelow(w: World, names: iset<Name>, base: Path, t: Tree, parts: seq<Part>, r: nat, st: Walk)
    requires parts != [] && parts[0].DoubleStar?
    decreases t
  {
    forall j: nat | DirKid(t, j) && j < |w.List(t.key)| ::
      || FoundOut(w, base, t, j, parts, r, st)
      || (Waiting(w, names, base, t, j, parts, r, st)
          && ReadyBelow(w, names, Full(base, w.List(t.key)[j]), t.kids[j].value, parts, r + 1, st))
  }

  ghost predicate FoundOut(w: World, base: Path, t: Tree, j: nat, parts: seq<Part>, r: nat, st: Walk)
    requires parts != [] && parts[0].DoubleStar? && DirKid(t, j) && j < |w.List(t.key)|
  {
    r < Length(parts) && FoundUpTo(w, Full(base, w.List(t.key)[j]), t.kids[j].value.key, parts, r, st.out)
  }

  ghost predicate Waiting(w: World, names: iset<Name>, base: Path, t: Tree, j: nat, parts: seq<Part>, r: nat, st: Walk)
    requires parts != [] && parts[0].DoubleStar? && DirKid(t, j) && j < |w.List(t.key)|
  {
    var count := st.Count(t.kids[j].value.key);
    count == 0 || (count == 1 && Claimed(w, names, Full(base, w.List(t.key)[j]), parts, r))
  }

  ghost predicate ReadyKid(w: World, names: iset<Name>, base: Path, t: Tree, parts: seq<Part>, r: nat, j: nat, st: Walk)
    requires parts != [] && parts[0].DoubleStar? && DirKid(t, j) && j < |w.List(t.key)|
  {
    || FoundOut(w, base, t, j, parts, r, st)
    || (Waiting(w, names, base, t, j, parts, r, st)
        && ReadyBelow(w, names, Full(base, w.List(t.key)[j]), t.kids[j].value, parts, r + 1, st))
  }

  lemma {:induction false} ReadyBelowStays(
    w: World, names: iset<Name>, base: Path, t: Tree, parts: seq<Part>, r: nat, st: Walk, after: Walk)
    requires parts != [] && parts[0].DoubleStar? && ReadyBelow(w, names, base, t, parts, r, st)
    requires st.out <= after.out && forall k | k in KeysBelow(t) :: after.Count(k) == st.Count(k)
    ensures ReadyBelow(w, names, base, t, parts, r, after)
    decreases t, 1
  {
    forall j: nat | DirKid(t, j) && j < |w.List(t.key)| ensures ReadyKid(w, names, base, t, parts, r, j, after) {
      assert ReadyKid(w, names, base, t, parts, r, j, st);
      KidBelow(t, j);
      ReadyStays(w, names, base, t, j, parts, r, st, after);
    }
  }

  lemma {:induction false} ReadyStays(
    w: World, names: iset<Name>, base: Path, t: Tree, j: nat, parts: seq<Part>, r: nat, st: Walk, after: Walk)
    requires parts != [] && parts[0].DoubleStar? && DirKid(t, j) && j < |w.List(t.key)|
    requires ReadyKid(w, names, base, t, parts, r, j, st)
    requires st.out <= after.out && forall k | k in Keys(t.kids[j].value) :: after.Count(k) == st.Count(k)
    ensures ReadyKid(w, names, base, t, parts, r, j, after)
    decreases t, 0
  {
    var kid := t.kids[j].value;
    if FoundOut(w, base, t, j, parts, r, st) {
      FoundStays(w, Full(base, w.List(t.key)[j]), kid.key, parts, r, st.out, after.out);
    } else {
      assert kid.key in Keys(kid) && KeysBelow(kid) <= Keys(kid);
      ReadyBelowStays(w, names, Full(base, w.List(t.key)[j]), kid, parts, r + 1, st, after);
    }
  }

  lemma FoundStays(w: World, base: Path, node: nat, parts: seq<Part>, r: nat, out: seq<Path>, more: seq<Path>)
    requires parts != [] && parts[0].DoubleStar? && r < |parts|
    requires FoundUpTo(w, base, node, parts, r, out) && out <= more
    ensures FoundUpTo(w, base, node, parts, r, more)
  {}

  /** One stage of the run done: less is still to come. */
  lemma {:induction false} ReadyBelowLater(
    w: World, names: iset<Name>, base: Path, t: Tree, parts: seq<Part>, r: nat, st: Walk)
    requires parts != [] && parts[0].DoubleStar? && ReadyBelow(w, names, base, t, parts, r + 1, st)
    ensures ReadyBelow(w, names, base, t, parts, r, st)
    decreases t, 1
  {
    forall j: nat | DirKid(t, j) && j < |w.List(t.key)| ensures ReadyKid(w, names, base, t, parts, r, j, st) {
      assert ReadyKid(w, names, base, t, parts, r + 1, j, st);
      ReadyLater(w, names, base, t, j, parts, r, st);
    }
  }

  lemma {:induction false} ReadyLater(
    w: World, names: iset<Name>, base: Path, t: Tree, j: nat, parts: seq<Part>, r: nat, st: Walk)
    requires parts != [] && parts[0].DoubleStar? && DirKid(t, j) && j < |w.List(t.key)|
    requires ReadyKid(w, names, base, t, parts, r + 1, j, st)
    ensures ReadyKid(w, names, base, t, parts, r, j, st)
    decreases t, 0
  {
    if FoundOut(w, base, t, j, parts, r + 1, st) {
      assert FoundUpTo(w, Full(base, w.List(t.key)[j]), t.kids[j].value.key, parts, r, st.out);
    } else {
      ReadyBelowLater(w, names, Full(base, w.List(t.key)[j]), t.kids[j].value, parts, r + 1, st);
    }
  }

  lemma {:induction false} FreshIsReady(w: World, names: iset<Name>, base: Path, t: Tree, parts: seq<Part>, r: nat, st: Walk)
    requires parts != [] && parts[0].DoubleStar? && Fresh(st, t)
    ensures ReadyBelow(w, names, base, t, parts, r, st)
    decreases t
  {
    FreshKids(t, st);
    forall j: nat | DirKid(t, j) && j < |w.List(t.key)| ensures ReadyKid(w, names, base, t, parts, r, j, st) {
      assert FreshKid(t, j, st);
      FreshIsReady(w, names, Full(base, w.List(t.key)[j]), t.kids[j].value, parts, r + 1, st);
    }
  }

  /** Beyond the length of the run nothing has been entered. */
  lemma {:induction false} ReadyIsFresh(w: World, names: iset<Name>, base: Path, t: Tree, parts: seq<Part>, r: nat, st: Walk)
    requires IsTree(w, t) && parts != [] && parts[0].DoubleStar? && r >= Length(parts)
    requires ReadyBelow(w, names, base, t, parts, r, st)
    ensures Fresh(st, t)
    decreases t, 1
  {
    forall j: nat | DirKid(t, j) ensures FreshKid(t, j, st) {
      assert ReadyKid(w, names, base, t, parts, r, j, st);
      ReadyKidIsFresh(w, names, base, t, j, parts, r, st);
    }
    FreshKids(t, st);
  }

  lemma {:induction false} ReadyKidIsFresh(
    w: World, names: iset<Name>, base: Path, t: Tree, j: nat, parts: seq<Part>, r: nat, st: Walk)
    requires IsTree(w, t) && DirKid(t, j) && parts != [] && parts[0].DoubleStar? && r >= Length(parts)
    requires ReadyKid(w, names, base, t, parts, r, j, st)
    ensures FreshKid(t, j, st)
    decreases t, 0
  {
    assert IsTree(w, t.kids[j].value);
    ReadyIsFresh(w, names, Full(base, w.List(t.key)[j]), t.kids[j].value, parts, r + 1, st);
  }

  ghost predicate FreshKid(t: Tree, j: nat, st: Walk)
    requires DirKid(t, j)
  {
    st.Count(t.kids[j].value.key) == 0 && Fresh(st, t.kids[j].value)
  }

  lemma FreshKids(t: Tree, st: Walk)
    ensures Fresh(st, t) <==> forall j: nat | DirKid(t, j) :: FreshKid(t, j, st)
  {
    if Fresh(st, t) {
      forall j: nat | DirKid(t, j) ensures FreshKid(t, j, st) {
        KidBelow(t, j);
        assert t.kids[j].value.key in Keys(t.kids[j].value) && KeysBelow(t.kids[j].value) <= Keys(t.kids[j].value);
      }
    } else {
      var k :| k in KeysBelow(t) && st.Count(k) != 0;
      var j: nat :| DirKid(t, j) && k in Keys(t.kids[j].value);
      assert !FreshKid(t, j, st);
    }
  }

  // ---------------------------------------------------------------- the walk

  /** Everything that goes on through entry j has been yielded. */
  ghost predicate FoundThrough(w: World, base: Path, t: Tree, parts: seq<Part>, j: nat, out: seq<Path>)
    requires parts != []
  {
    forall p | Through(w, base, t, parts, j, p) :: p in out
  }

  ghost predicate FoundFrom(w: World, base: Path, t: Tree, parts: seq<Part>, i: nat, out: seq<Path>)
    requires parts != []
  {
    forall j: nat | i <= j < |t.kids| :: FoundThrough(w, base, t, parts, j, out)
  }

  lemma FoundNext(w: World, base: Path, t: Tree, parts: seq<Part>, i: nat, out: seq<Path>, more: seq<Path>)
    requires parts != [] && out <= more
    requires FoundThrough(w, base, t, parts, i, out) && FoundFrom(w, base, t, parts, i + 1, more)
    ensures FoundFrom(w, base, t, parts, i, more)
  {
    assert FoundThrough(w, base, t, parts, i, more);
  }

  lemma FoundListed(w: World, base: Path, t: Tree, parts: seq<Part>, before: seq<Path>, out: seq<Path>)
    requires IsTree(w, t) && parts != [] && FoundFrom(w, base, t, parts, 0, out) && before <= out
    requires forall p | TakesNone(w, base, t, parts, p) :: p in before
    ensures Found(w, base, t.key, parts, out)
  {
    forall p | Listed(w, base, t.key, parts, p) ensures p in out {
      ListedStep(w, base, t, parts, p);
      if !TakesNone(w, base, t, parts, p) {
        var j: nat :| j < |t.kids| && Through(w, base, t, parts, j, p);
        assert FoundThrough(w, base, t, parts, j, out);
      }
    }
  }

  ghost predicate Named(names: iset<Name>, base: Path) {
    forall x | x in base :: x in names
  }

  lemma NamedFull(w: World, names: iset<Name>, base: Path, t: Tree, j: nat)
    requires w.NamedFrom(names) && Named(names, base) && j < |w.List(t.key)|
    ensures Named(names, Full(base, w.List(t.key)[j]))
  {
    assert w.List(t.key)[j].name in names;
  }

  /** What the walk with that pattern may start from. */
  ghost predicate Startable(w: World, names: iset<Name>, base: Path, t: Tree, parts: seq<Part>, st: Walk) {
    if parts != [] && parts[0].DoubleStar? then ReadyBelow(w, names, base, t, parts, 1, st) else Fresh(st, t)
  }

  lemma FreshIsStartable(w: World, names: iset<Name>, base: Path, t: Tree, parts: seq<Part>, st: Walk)
    requires Fresh(st, t)
    ensures Startable(w, names, base, t, parts, st)
  {
    if parts != [] && parts[0].DoubleStar? {
      FreshIsReady(w, names, base, t, parts, 1, st);
    }
  }

  ghost predicate Context(w: World, names: iset<Name>, base: Path, t: Tree, parts: seq<Part>, visited: set<nat>, st: Walk) {
    && w.Valid() && w.NamedFrom(names) && IsTree(w, t) && st.left.None? && visited !! KeysBelow(t)
    && Named(names, base) && GoodRuns(w.matches, names, parts)
  }

  lemma {:induction false} WalkFinds(
    w: World, names: iset<Name>, base: Path, t: Tree, parts: seq<Part>, visited: set<nat>, st: Walk)
    requires Context(w, names, base, t, parts, visited, st) && Startable(w, names, base, t, parts, st)
    ensures Found(w, base, t.key, parts, GlobWalk(w, base, t.key, parts, visited, st).out)
    decreases t, |parts|, 3, 0
  {
    if w.physical(base) && parts != [] {
      var before := st;
      if parts[0].DoubleStar? {
        before := if |parts| > 1 then GlobWalk(w, base, t.key, parts[1..], visited, st) else st.Yield(base);
        StarFinds(w, names, base, t, parts, visited, st);
      }
      EntriesCountsGrow(w, base, parts, visited, w.List(t.key), before.Read());
      if !(parts[0].DoubleStar? && |parts| > 1 && Length(parts) == 0) {
        LoopFinds(w, names, base, t, parts, visited, before);
        FoundListed(w, base, t, parts, before.out, GlobWalk(w, base, t.key, parts, visited, st).out);
      }
    }
  }

  /** What a `**` does before its own loop finds all that needs no entry for the `**` itself. */
  lemma {:induction false} StarFinds(
    w: World, names: iset<Name>, base: Path, t: Tree, parts: seq<Part>, visited: set<nat>, st: Walk)
    requires Context(w, names, base, t, parts, visited, st) && Startable(w, names, base, t, parts, st)
    requires w.physical(base) && parts != [] && parts[0].DoubleStar?
    ensures var before := if |parts| > 1 then GlobWalk(w, base, t.key, parts[1..], visited, st) else st.Yield(base);
      && Grown(st, before)
      && (forall p | TakesNone(w, base, t, parts, p) :: p in before.out)
      && (if |parts| > 1 && Length(parts) == 0 then Found(w, base, t.key, parts, before.out)
          else ReadyBelow(w, names, base, t, parts, 0, before))
    decreases t, |parts|, 2, 0
  {
    if |parts| == 1 {
      var before := st.Yield(base);
      assert before.out[|st.out|] == base;
      ReadyBelowLater(w, names, base, t, parts, 0, st);
      ReadyBelowStays(w, names, base, t, parts, 0, st, before);
    } else {
      CountsGrow(w, base, t.key, parts[1..], visited, st);
      GoodRunsFrom(w.matches, names, parts, 1);
      if Length(parts) == 0 {
        ReadyIsFresh(w, names, base, t, parts, 1, st);
        FreshIsStartable(w, names, base, t, parts[1..], st);
        WalkFinds(w, names, base, t, parts[1..], visited, st);
        forall p | Listed(w, base, t.key, parts, p) ensures Listed(w, base, t.key, parts[1..], p) {
          ListedAbsorbs(w, base, t.key, parts, 1, p);
        }
      } else {
        RunFinds(w, names, base, t, parts, 0, visited, st);
      }
    }
  }

  // ---------------------------------------------------------------- the loop of a `**`, or of a segment in front of all `**`

  ghost predicate KidStartable(w: World, names: iset<Name>, base: Path, t: Tree, parts: seq<Part>, j: nat, st: Walk)
    requires parts != [] && DirKid(t, j) && j < |w.List(t.key)|
  {
    if parts[0].DoubleStar? then ReadyKid(w, names, base, t, parts, 0, j, st)
    else FreshKid(t, j, st)
  }

  ghost predicate KidsStartable(w: World, names: iset<Name>, base: Path, t: Tree, parts: seq<Part>, i: nat, st: Walk)
    requires parts != []
  {
    forall j: nat | i <= j && DirKid(t, j) && j < |w.List(t.key)| :: KidStartable(w, names, base, t, parts, j, st)
  }

  lemma LoopFinds(w: World, names: iset<Name>, base: Path, t: Tree, parts: seq<Part>, visited: set<nat>, st: Walk)
    requires Context(w, names, base, t, parts, visited, st) && w.physical(base) && parts != []
    requires if parts[0].DoubleStar? then ReadyBelow(w, names, base, t, parts, 0, st) else Fresh(st, t)
    ensures FoundFrom(w, base, t, parts, 0, WalkEntries(w, base, parts, visited, w.List(t.key), st.Read()).out)
    decreases t, |parts|, 2, 0
  {
    var read := st.Read();
    assert KidsStartable(w, names, base, t, parts, 0, read) by {
      AllStartable(w, names, base, t, parts, st, read);
    }
    assert w.List(t.key)[0..] == w.List(t.key);
    EntriesFind(w, names, base, t, parts, visited, 0, read);
  }

  lemma AllStartable(w: World, names: iset<Name>, base: Path, t: Tree, parts: seq<Part>, st: Walk, read: Walk)
    requires parts != [] && read.entries == st.entries && read.out == st.out
    requires if parts[0].DoubleStar? then ReadyBelow(w, names, base, t, parts, 0, st) else Fresh(st, t)
    ensures KidsStartable(w, names, base, t, parts, 0, read)
  {
    if parts[0].DoubleStar? {
      ReadyBelowStays(w, names, base, t, parts, 0, st, read);
      forall j: nat | DirKid(t, j) && j < |w.List(t.key)| ensures ReadyKid(w, names, base, t, parts, 0, j, read) {}
    } else {
      assert Fresh(read, t);
      FreshKids(t, read);
    }
  }

  lemma {:induction false} EntriesFind(
    w: World, names: iset<Name>, base: Path, t: Tree, parts: seq<Part>, visited: set<nat>, i: nat, st: Walk)
    requires Context(w, names, base, t, parts, visited, st) && w.physical(base) && parts != []
    requires i <= |t.kids| && KidsStartable(w, names, base, t, parts, i, st)
    ensures FoundFrom(w, base, t, parts, i, WalkEntries(w, base, parts, visited, w.List(t.key)[i..], st).out)
    decreases t, |parts|, 1, |t.kids| - i
  {
    var es := w.List(t.key);
    if i < |t.kids| {
      assert es[i..][0] == es[i] && es[i..][1..] == es[i + 1..];
      var mid := VisitEntry(w, base, parts, visited, es[i], st);
      EntryIsKnown(w, t.key, i);
      VisitCountsGrow(w, base, parts, visited, es[i], st);
      VisitFramed(w, base, t, parts, visited, i, st);
      VisitFinds(w, names, base, t, parts, visited, i, st);
      KidsStay(w, names, base, t, parts, i, st, mid);
      EntriesFind(w, names, base, t, parts, visited, i + 1, mid);
      EntriesCountsGrow(w, base, parts, visited, es[i + 1..], mid);
      FoundNext(w, base, t, parts, i, mid.out, WalkEntries(w, base, parts, visited, es[i + 1..], mid).out);
    }
  }

  lemma KidsStay(w: World, names: iset<Name>, base: Path, t: Tree, parts: seq<Part>, i: nat, st: Walk, mid: Walk)
    requires IsTree(w, t) && parts != [] && i < |t.kids| && KidsStartable(w, names, base, t, parts, i, st)
    requires st.out <= mid.out && Framed(if t.kids[i].Some? then Keys(t.kids[i].value) else {}, st, mid)
    ensures KidsStartable(w, names, base, t, parts, i + 1, mid)
  {
    forall j: nat | i + 1 <= j && DirKid(t, j) && j < |w.List(t.key)| ensures KidStartable(w, names, base, t, parts, j, mid) {
      assert KidStartable(w, names, base, t, parts, j, st);
      OthersUntouched(t, w, i, j, st, mid);
      if parts[0].DoubleStar? {
        ReadyStays(w, names, base, t, j, parts, 0, st, mid);
      }
    }
  }

  /** A round leaves the other subtrees as they are. */
  lemma OthersUntouched(t: Tree, w: World, i: nat, j: nat, st: Walk, after: Walk)
    requires IsTree(w, t) && i < |t.kids| && i != j && DirKid(t, j)
    requires Framed(if t.kids[i].Some? then Keys(t.kids[i].value) else {}, st, after)
    ensures forall k | k in Keys(t.kids[j].value) :: after.Count(k) == st.Count(k)
    ensures after.Count(t.kids[j].value.key) == st.Count(t.kids[j].value.key)
    ensures Fresh(st, t.kids[j].value) ==> Fresh(after, t.kids[j].value)
  {
    assert t.kids[i].Some? ==> Keys(t.kids[i].value) !! Keys(t.kids[j].value);
    assert t.kids[j].value.key in Keys(t.kids[j].value) && KeysBelow(t.kids[j].value) <= Keys(t.kids[j].value);
  }

  lemma {:induction false} VisitFinds(
    w: World, names: iset<Name>, base: Path, t: Tree, parts: seq<Part>, visited: set<nat>, i: nat, st: Walk)
    requires Context(w, names, base, t, parts, visited, st) && w.physical(base) && parts != [] && i < |t.kids|
    requires DirKid(t, i) ==> KidStartable(w, names, base, t, parts, i, st)
    ensures FoundThrough(w, base, t, parts, i, VisitEntry(w, base, parts, visited, w.List(t.key)[i], st).out)
    decreases t, |parts|, 0, 0
  {
    var e := w.List(t.key)[i];
    var after := VisitEntry(w, base, parts, visited, e, st);
    EntryIsKnown(w, t.key, i);
    VisitCountsGrow(w, base, parts, visited, e, st);
    if Passes(w, base, parts, e) && Descends(parts) && DirKid(t, i) {
      var kid := t.kids[i].value;
      var full := Full(base, e);
      if parts[0].DoubleStar? && 0 < Length(parts) && FoundUpTo(w, full, kid.key, parts, 0, st.out) {
        assert Rest(parts, 0) == Below(parts);
      } else {
        var entered := st.Enter(kid.key);
        EnteredStartable(w, names, base, t, parts, i, st);
        VisitIsWalk(w, base, t, parts, visited, i, st);
        KidIsTree(w, t, visited, i);
        NamedFull(w, names, base, t, i);
        WalkFinds(w, names, full, kid, Below(parts), visited + {kid.key}, entered);
      }
    } else {
      forall p | Through(w, base, t, parts, i, p) ensures p in after.out {
        assert after == st.Yield(Full(base, e));
        assert after.out[|st.out|] == p;
      }
    }
  }

  lemma EnteredStartable(w: World, names: iset<Name>, base: Path, t: Tree, parts: seq<Part>, i: nat, st: Walk)
    requires IsTree(w, t) && parts != [] && DirKid(t, i) && KidStartable(w, names, base, t, parts, i, st)
    requires GoodRuns(w.matches, names, parts)
    requires !(parts[0].DoubleStar? && 0 < Length(parts)
               && FoundUpTo(w, Full(base, w.List(t.key)[i]), t.kids[i].value.key, parts, 0, st.out))
    ensures var kid := t.kids[i].value; var full := Full(base, w.List(t.key)[i]);
      && !Spent(st, kid.key) && Startable(w, names, full, kid, Below(parts), st.Enter(kid.key))
      && GoodRuns(w.matches, names, Below(parts))
  {
    var kid := t.kids[i].value;
    var full := Full(base, w.List(t.key)[i]);
    var entered := st.Enter(kid.key);
    assert IsTree(w, kid);
    if parts[0].DoubleStar? {
      ReadyBelowStays(w, names, full, kid, parts, 1, st, entered);
    } else {
      FreshIsStartable(w, names, full, kid, parts[1..], entered);
    }
  }

  // ---------------------------------------------------------------- the run behind a `**`

  lemma {:induction false} RunFinds(
    w: World, names: iset<Name>, base: Path, t: Tree, parts: seq<Part>, i: nat, visited: set<nat>, st: Walk)
    requires Context(w, names, base, t, parts, visited, st) && parts != [] && parts[0].DoubleStar? && i < Length(parts)
    requires Ends(w.matches, parts, base, i) && ReadyBelow(w, names, base, t, parts, i + 1, st)
    ensures var after := GlobWalk(w, base, t.key, parts[i + 1..], visited, st);
      && Found(w, base, t.key, parts[i + 1..], after.out) && ReadyBelow(w, names, base, t, parts, i, after)
    decreases t, |parts|, 1, |t.kids| + 2
  {
    var run := parts[i + 1..];
    var after := GlobWalk(w, base, t.key, run, visited, st);
    if w.physical(base) {
      var read := st.Read();
      ReadyBelowStays(w, names, base, t, parts, i + 1, st, read);
      assert w.List(t.key)[0..] == w.List(t.key);
      StagesBegin(w, names, base, t, parts, i, read);
      RunEntries(w, names, base, t, parts, i, visited, 0, read);
      StagesEnd(w, names, base, t, parts, i, after);
      EntriesCountsGrow(w, base, run, visited, w.List(t.key), read);
      FoundListed(w, base, t, run, st.out, after.out);
    } else {
      ReadyBelowLater(w, names, base, t, parts, i, st);
    }
  }

  /** Before round j the subtrees already dealt with are one stage further. */
  ghost predicate Stages(w: World, names: iset<Name>, base: Path, t: Tree, parts: seq<Part>, i: nat, j: nat, st: Walk)
    requires parts != [] && parts[0].DoubleStar?
  {
    forall h: nat | DirKid(t, h) && h < |w.List(t.key)| ::
      ReadyKid(w, names, base, t, parts, if h < j then i else i + 1, h, st)
  }

  lemma StagesBegin(w: World, names: iset<Name>, base: Path, t: Tree, parts: seq<Part>, i: nat, st: Walk)
    requires parts != [] && parts[0].DoubleStar? && ReadyBelow(w, names, base, t, parts, i + 1, st)
    ensures Stages(w, names, base, t, parts, i, 0, st)
  {}

  lemma StagesEnd(w: World, names: iset<Name>, base: Path, t: Tree, parts: seq<Part>, i: nat, st: Walk)
    requires parts != [] && parts[0].DoubleStar? && Stages(w, names, base, t, parts, i, |t.kids|, st)
    ensures ReadyBelow(w, names, base, t, parts, i, st)
  {
    forall j: nat | DirKid(t, j) && j < |w.List(t.key)| ensures ReadyKid(w, names, base, t, parts, i, j, st) {
      assert j < |t.kids|;
    }
  }

  lemma StagesMove(w: World, names: iset<Name>, base: Path, t: Tree, parts: seq<Part>, i: nat, j: nat, st: Walk, mid: Walk)
    requires IsTree(w, t) && parts != [] && parts[0].DoubleStar? && j < |t.kids|
    requires Stages(w, names, base, t, parts, i, j, st) && st.out <= mid.out
    requires Framed(if t.kids[j].Some? then Keys(t.kids[j].value) else {}, st, mid)
    requires DirKid(t, j) ==> ReadyKid(w, names, base, t, parts, i, j, mid)
    ensures Stages(w, names, base, t, parts, i, j + 1, mid)
  {
    forall h: nat | DirKid(t, h) && h < |w.List(t.key)|
      ensures ReadyKid(w, names, base, t, parts, if h < j + 1 then i else i + 1, h, mid)
    {
      var r := if h < j then i else i + 1;
      assert ReadyKid(w, names, base, t, parts, r, h, st);
      if h != j {
        OthersUntouched(t, w, j, h, st, mid);
        ReadyStays(w, names, base, t, h, parts, r, st, mid);
      }
    }
  }

  lemma {:induction false} RunEntries(
    w: World, names: iset<Name>, base: Path, t: Tree, parts: seq<Part>, i: nat, visited: set<nat>, j: nat, st: Walk)
    requires Context(w, names, base, t, parts, visited, st) && parts != [] && parts[0].DoubleStar? && i < Length(parts)
    requires w.physical(base) && Ends(w.matches, parts, base, i) && j <= |t.kids| && Stages(w, names, base, t, parts, i, j, st)
    ensures var after := WalkEntries(w, base, parts[i + 1..], visited, w.List(t.key)[j..], st);
      && Stages(w, names, base, t, parts, i, |t.kids|, after)
      && FoundFrom(w, base, t, parts[i + 1..], j, after.out)
    decreases t, |parts|, 1, |t.kids| - j
  {
    var es := w.List(t.key);
    var run := parts[i + 1..];
    if j < |t.kids| {
      assert es[j..][0] == es[j] && es[j..][1..] == es[j + 1..];
      var mid := VisitEntry(w, base, run, visited, es[j], st);
      EntryIsKnown(w, t.key, j);
      VisitCountsGrow(w, base, run, visited, es[j], st);
      VisitFramed(w, base, t, run, visited, j, st);
      assert DirKid(t, j) ==> ReadyKid(w, names, base, t, parts, i + 1, j, st);
      RunVisit(w, names, base, t, parts, i, visited, j, st);
      StagesMove(w, names, base, t, parts, i, j, st, mid);
      RunEntries(w, names, base, t, parts, i, visited, j + 1, mid);
      EntriesCountsGrow(w, base, run, visited, es[j + 1..], mid);
      FoundNext(w, base, t, run, j, mid.out, WalkEntries(w, base, run, visited, es[j + 1..], mid).out);
    }
  }

  lemma {:induction false} RunVisit(
    w: World, names: iset<Name>, base: Path, t: Tree, parts: seq<Part>, i: nat, visited: set<nat>, j: nat, st: Walk)
    requires Context(w, names, base, t, parts, visited, st) && parts != [] && parts[0].DoubleStar? && i < Length(parts)
    requires w.physical(base) && Ends(w.matches, parts, base, i) && j < |t.kids|
    requires DirKid(t, j) ==> ReadyKid(w, names, base, t, parts, i + 1, j, st)
    ensures var after := VisitEntry(w, base, parts[i + 1..], visited, w.List(t.key)[j], st);
      && (DirKid(t, j) ==> ReadyKid(w, names, base, t, parts, i, j, after))
      && FoundThrough(w, base, t, parts[i + 1..], j, after.out)
    decreases t, |parts|, 0, 1
  {
    var e := w.List(t.key)[j];
    var run := parts[i + 1..];
    var after := VisitEntry(w, base, run, visited, e, st);
    EntryIsKnown(w, t.key, j);
    VisitCountsGrow(w, base, run, visited, e, st);
    if DirKid(t, j) {
      ReadyLater(w, names, base, t, j, parts, i, st);
    }
    if Descends(run) && DirKid(t, j) && Passes(w, base, run, e) {
      RunDescends(w, names, base, t, parts, i, visited, j, st);
    } else {
      VisitIsIdle(w, base, t, run, visited, j, st);
      if DirKid(t, j) {
        ReadyStays(w, names, base, t, j, parts, i, st, after);
      }
      forall p | Through(w, base, t, run, j, p) ensures p in after.out {
        assert after == st.Yield(Full(base, e));
        assert after.out[|st.out|] == p;
      }
    }
  }

  lemma {:induction false} RunDescends(
    w: World, names: iset<Name>, base: Path, t: Tree, parts: seq<Part>, i: nat, visited: set<nat>, j: nat, st: Walk)
    requires Context(w, names, base, t, parts, visited, st) && parts != [] && parts[0].DoubleStar? && i < Length(parts)
    requires w.physical(base) && Ends(w.matches, parts, base, i)
    requires DirKid(t, j) && ReadyKid(w, names, base, t, parts, i + 1, j, st)
    requires Descends(parts[i + 1..]) && Passes(w, base, parts[i + 1..], w.List(t.key)[j])
    ensures var after := VisitEntry(w, base, parts[i + 1..], visited, w.List(t.key)[j], st);
      && ReadyKid(w, names, base, t, parts, i, j, after)
      && FoundThrough(w, base, t, parts[i + 1..], j, after.out)
    decreases t, |parts|, 0, 0
  {
    var e := w.List(t.key)[j];
    var run := parts[i + 1..];
    var kid := t.kids[j].value;
    var full := Full(base, e);
    var r := i + 1;
    var after := VisitEntry(w, base, run, visited, e, st);
    EntryIsKnown(w, t.key, j);
    VisitCountsGrow(w, base, run, visited, e, st);
    assert run[1..] == Rest(parts, r) == Below(run);
    EndsLonger(w.matches, parts, base, i, e.name);
    NamedFull(w, names, base, t, j);
    if FoundOut(w, base, t, j, parts, r, st) {
      FoundStays(w, full, kid.key, parts, r, st.out, after.out);
      assert FoundUpTo(w, full, kid.key, parts, i, after.out);
      assert Found(w, full, kid.key, Below(run), after.out);
    } else {
      NotClaimed(w, names, full, parts, r);
      var entered := st.Enter(kid.key);
      VisitIsWalk(w, base, t, run, visited, j, st);
      KidIsTree(w, t, visited, j);
      WalkFramed(w, full, kid, Below(run), visited + {kid.key}, entered);
      ReadyBelowStays(w, names, full, kid, parts, r + 1, st, entered);
      if r < Length(parts) {
        RunFinds(w, names, full, kid, parts, r, visited + {kid.key}, entered);
        StageDone(w, names, base, t, j, parts, i, after);
      } else {
        RunEnds(w, names, full, kid, parts, visited + {kid.key}, entered);
      }
    }
  }

  /** A directory the run comes to has not been claimed further into it, unless all is swallowed there. */
  lemma NotClaimed(w: World, names: iset<Name>, full: Path, parts: seq<Part>, r: nat)
    requires parts != [] && parts[0].DoubleStar? && GoodRun(w.matches, names, parts) && Named(names, full)
    requires 0 < r && Ends(w.matches, parts, full, r)
    ensures !Claimed(w, names, full, parts, r)
  {
    forall i | r < i < Length(parts) && Ends(w.matches, parts, full, i) ensures Swallows(w.matches, names, parts, i) {
      EndsOnce(w.matches, names, parts, full, r, i);
    }
  }

  /** The run went on below: the directory counts as claimed, or everything has been found there. */
  lemma StageDone(w: World, names: iset<Name>, base: Path, t: Tree, j: nat, parts: seq<Part>, i: nat, st: Walk)
    requires w.NamedFrom(names) && parts != [] && parts[0].DoubleStar? && i + 1 < Length(parts)
    requires DirKid(t, j) && j < |w.List(t.key)| && st.Count(t.kids[j].value.key) == 1
    requires var full := Full(base, w.List(t.key)[j]); var kid := t.kids[j].value;
      && Ends(w.matches, parts, full, i + 1) && Found(w, full, kid.key, parts[i + 2..], st.out)
      && ReadyBelow(w, names, full, kid, parts, i + 1, st)
    ensures ReadyKid(w, names, base, t, parts, i, j, st)
  {
    var r := i + 1;
    var full := Full(base, w.List(t.key)[j]);
    var kid := t.kids[j].value;
    if Swallows(w.matches, names, parts, r) {
      forall h: nat, p | h <= i && Listed(w, full, kid.key, Rest(parts, h), p) ensures p in st.out {
        SwallowedListed(w, names, full, kid.key, parts, h, r, p);
      }
      assert FoundUpTo(w, full, kid.key, parts, i, st.out);
    } else {
      assert Claimed(w, names, full, parts, i);
    }
  }

  /** The run got to the next `**`, which finds everything below. */
  lemma {:induction false} RunEnds(
    w: World, names: iset<Name>, full: Path, kid: Tree, parts: seq<Part>, visited: set<nat>, st: Walk)
    requires Context(w, names, full, kid, parts, visited, st) && parts != [] && parts[0].DoubleStar?
    requires 0 < Length(parts) < |parts| - 1 && ReadyBelow(w, names, full, kid, parts, Length(parts) + 1, st)
    ensures var next := parts[Length(parts) + 1..]; var after := GlobWalk(w, full, kid.key, next, visited, st);
      && Found(w, full, kid.key, next, after.out)
      && FoundUpTo(w, full, kid.key, parts, Length(parts) - 1, after.out)
    decreases kid, |parts|, 4, 0
  {
    var m := Length(parts);
    var next := parts[m + 1..];
    GoodRunsFrom(w.matches, names, parts, m + 1);
    ReadyIsFresh(w, names, full, kid, parts, m + 1, st);
    FreshIsStartable(w, names, full, kid, next, st);
    WalkFinds(w, names, full, kid, next, visited, st);
    var after := GlobWalk(w, full, kid.key, next, visited, st);
    forall h: nat, p | h < m && Listed(w, full, kid.key, Rest(parts, h), p) ensures p in after.out {
      var cut := |Rest(parts, h)| - |next|;
      assert Rest(parts, h)[cut..] == next;
      ListedAbsorbs(w, full, kid.key, Rest(parts, h), cut, p);
    }
  }

  /** From an untouched root everything the pattern lists is found. */
  lemma EverythingFound(w: World, names: iset<Name>, t: Tree, parts: seq<Part>)
    requires w.Valid() && w.NamedFrom(names) && IsTree(w, t) && GoodRuns(w.matches, names, parts)
    ensures Found(w, [], t.key, parts, Glob(w, t.key, parts, None).out)
  {
    var start := Walk(map[t.key := 1], None, 0, []);
    if w.physical([]) {
      FreshIsStartable(w, names, [], t, parts, start);
      WalkFinds(w, names, [], t, parts, {t.key}, start);
    }
  }
}
