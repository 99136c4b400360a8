/**
 Whose lineage a merged memo carries: every memo of the group and everything their own
 lineages name, each identity with the entry that names it first.
 */
module ConsolidationLineage {
  import opened Consolidation
  import opened ConsolidationApply

  /** The entry at i is in the list, and no earlier one has its identity. */
  ghost predicate FirstAt(sources: seq<Source>, i: nat, s: Source) {
    i < |sources| && sources[i] == s && forall e | 0 <= e < i :: sources[e].id != s.id
  }

  ghost predicate FirstIn(sources: seq<Source>, s: Source) {
    exists i: nat :: FirstAt(sources, i, s)
  }

  /** The memo or its own lineage names the identity. */
  ghost predicate Names(m: Memo, id: Id) {
    m.id == id || Knows(m.distilledFrom, id)
  }

  /** What the memo itself says of an identity: itself first, then its lineage in its order. */
  ghost predicate Says(m: Memo, s: Source) {
    if s.id == m.id then s.at == m.recordedAt && s.title == (if |m.userNeed| <= 80 then m.userNeed else m.userNeed[..80])
    else FirstIn(m.distilledFrom, s)
  }

  /** The first memo of the group that names the identity says so of it. */
  ghost predicate FirstSaidBy(memos: seq<Memo>, k: nat, s: Source) {
    k < |memos| && Says(memos[k], s) && forall e | 0 <= e < k :: !Names(memos[e], s.id)
  }

  ghost predicate FirstSaid(memos: seq<Memo>, s: Source) {
    exists k: nat :: FirstSaidBy(memos, k, s)
  }

  // ---------------------------------------------------------------- lists of sources

  lemma FirstInCons(first: Source, more: seq<Source>, s: Source)
    ensures FirstIn([first] + more, s) <==> if s.id == first.id then s == first else FirstIn(more, s)
  {
    var all := [first] + more;
    if s == first {
      assert FirstAt(all, 0, s);
    }
    if s.id != first.id {
      forall i: nat
        ensures FirstAt(all, i + 1, s) <==> FirstAt(more, i, s)
      {
        assert forall e | 0 <= e < |more| :: all[e + 1] == more[e];
        if FirstAt(all, i + 1, s) {
          forall e | 0 <= e < i ensures more[e].id != s.id {
            assert all[e + 1] == more[e];
          }
        }
      }
      if FirstIn(all, s) {
        var i: nat :| FirstAt(all, i, s);
        assert i > 0;
        assert FirstAt(more, i - 1, s);
      }
      if FirstIn(more, s) {
        var i: nat :| FirstAt(more, i, s);
        assert FirstAt(all, i + 1, s);
      }
    } else if FirstIn(all, s) {
      var i: nat :| FirstAt(all, i, s);
      assert all[0] == first && i == 0;
    }
  }

  lemma KnowsCons(first: Source, more: seq<Source>, id: Id)
    ensures Knows([first] + more, id) <==> first.id == id || Knows(more, id)
  {
    var all := [first] + more;
    assert all[0] == first && forall k | 0 <= k < |more| :: all[k + 1] == more[k];
    if Knows(more, id) {
      var k :| 0 <= k < |more| && more[k].id == id;
      assert all[k + 1].id == id;
    }
  }

  lemma {:induction false} FirstInConcat(a: seq<Source>, b: seq<Source>, s: Source)
    ensures FirstIn(a + b, s) <==> FirstIn(a, s) || (!Knows(a, s.id) && FirstIn(b, s))
    ensures Knows(a + b, s.id) <==> Knows(a, s.id) || Knows(b, s.id)
  {
    if a == [] {
      assert a + b == b;
    } else {
      assert a + b == [a[0]] + (a[1..] + b) && a == [a[0]] + a[1..];
      FirstInConcat(a[1..], b, s);
      FirstInCons(a[0], a[1..] + b, s);
      FirstInCons(a[0], a[1..], s);
      KnowsCons(a[0], a[1..] + b, s.id);
      KnowsCons(a[0], a[1..], s.id);
    }
  }

  /** Noting a list adds the first entry of each identity that was not there. */
  lemma {:induction false} NotedAreFirst(seen: seq<Source>, sources: seq<Source>, s: Source)
    ensures s in NoteAll(seen, sources) <==> s in seen || (!Knows(seen, s.id) && FirstIn(sources, s))
    decreases |sources|
  {
    if sources != [] {
      var first, more := sources[0], sources[1..];
      assert sources == [first] + more;
      FirstInCons(first, more, s);
      NotedAreFirst(Note(seen, first), more, s);
      if !Knows(seen, first.id) {
        var next := seen + [first];
        assert next[|seen|] == first && forall k | 0 <= k < |seen| :: next[k] == seen[k];
      }
    }
  }

  // ---------------------------------------------------------------- the group

  lemma {:induction false} AncestryIsSaid(memos: seq<Memo>, s: Source)
    ensures FirstIn(Ancestry(memos), s) <==> FirstSaid(memos, s)
  {
    if memos != [] {
      var m, rest := memos[0], memos[1..];
      var own := [AsSource(m)] + m.distilledFrom;
      AncestryIsSaid(rest, s);
      FirstInConcat(own, Ancestry(rest), s);
      FirstInCons(AsSource(m), m.distilledFrom, s);
      KnowsCons(AsSource(m), m.distilledFrom, s.id);
      if Says(m, s) {
        assert FirstSaidBy(memos, 0, s);
      } else {
        RestSays(memos, s);
      }
    }
  }

  lemma RestSays(memos: seq<Memo>, s: Source)
    requires memos != [] && !Says(memos[0], s)
    ensures FirstSaid(memos, s) <==> !Names(memos[0], s.id) && FirstSaid(memos[1..], s)
  {
    var rest := memos[1..];
    if FirstSaid(memos, s) {
      var k: nat :| FirstSaidBy(memos, k, s);
      assert k > 0 && rest[k - 1] == memos[k];
      assert forall e | 0 <= e < k - 1 :: rest[e] == memos[e + 1];
      assert FirstSaidBy(rest, k - 1, s);
    }
    if !Names(memos[0], s.id) && FirstSaid(rest, s) {
      var k: nat :| FirstSaidBy(rest, k, s);
      var next := k + 1;
      assert forall e | 0 < e < next :: memos[e] == rest[e - 1];
      assert FirstSaidBy(memos, next, s);
    }
  }

  lemma {:induction false} NamedInAncestry(memos: seq<Memo>, k: nat, id: Id)
    requires k < |memos| && Names(memos[k], id)
    ensures exists s :: s in Ancestry(memos) && s.id == id
  {
    var own := [AsSource(memos[0])] + memos[0].distilledFrom;
    assert Ancestry(memos) == own + Ancestry(memos[1..]);
    if k > 0 {
      NamedInAncestry(memos[1..], k - 1, id);
      var s :| s in Ancestry(memos[1..]) && s.id == id;
      assert s in Ancestry(memos);
    } else if memos[0].id == id {
      assert own[0].id == id && own[0] in Ancestry(memos);
    } else {
      var d :| 0 <= d < |memos[0].distilledFrom| && memos[0].distilledFrom[d].id == id;
      assert own[d + 1].id == id && own[d + 1] in Ancestry(memos);
    }
  }

  /** Sorting keeps the noted entries, and they are the first ones. */
  lemma ListedAreFirst(memos: seq<Memo>, s: Source)
    ensures s in SortByTime(NoteAll([], Ancestry(memos))) <==> FirstSaid(memos, s)
  {
    NoteAllDistinct([], Ancestry(memos));
    SortSorts(NoteAll([], Ancestry(memos)));
    NotedAreFirst([], Ancestry(memos), s);
    AncestryIsSaid(memos, s);
  }

  lemma NamedIsKnown(memos: seq<Memo>, k: nat, id: Id)
    requires k < |memos| && Names(memos[k], id)
    ensures Knows(SortByTime(NoteAll([], Ancestry(memos))), id)
  {
    var noted := NoteAll([], Ancestry(memos));
    NoteAllDistinct([], Ancestry(memos));
    SortSorts(noted);
    NamedInAncestry(memos, k, id);
    assert Knows(noted, id);
    var n :| 0 <= n < |noted| && noted[n].id == id;
    assert noted[n] in SortByTime(noted);
  }

  lemma SaidIsNamed(memos: seq<Memo>, s: Source)
    requires FirstSaid(memos, s)
    ensures exists k :: 0 <= k < |memos| && Names(memos[k], s.id)
  {
    var k: nat :| FirstSaidBy(memos, k, s);
    assert Names(memos[k], s.id);
  }

  /**
   The list a lineage is cut from holds an entry exactly when some memo of the group or some
   entry of its own lineage says it, and it is what the first of them says of that identity.
   So it names every memo of the group and all their earlier ancestry, and nothing else.
   */
  lemma LineageNames(memos: seq<Memo>, id: Id)
    ensures var all := SortByTime(NoteAll([], Ancestry(memos)));
      && (forall s :: s in all <==> FirstSaid(memos, s))
      && (Knows(all, id) <==> exists k :: 0 <= k < |memos| && Names(memos[k], id))
  {
    var all := SortByTime(NoteAll([], Ancestry(memos)));
    forall s
      ensures s in all <==> FirstSaid(memos, s)
    {
      ListedAreFirst(memos, s);
    }
    if Knows(all, id) {
      var n :| 0 <= n < |all| && all[n].id == id;
      assert all[n] in all;
      SaidIsNamed(memos, all[n]);
    }
    if k: nat :| k < |memos| && Names(memos[k], id) {
      NamedIsKnown(memos, k, id);
    }
  }
}
