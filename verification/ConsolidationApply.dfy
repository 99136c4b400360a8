/**
 Applying a consolidation plan: the writes in their order, what a crash between any two of
 them leaves behind, and the lineage a merged memo records.
 */
module ConsolidationApply {
  import opened Consolidation
  import opened StableSort
  import opened Whitespace
  import opened Wrappers

  // ---------------------------------------------------------------- lineage

  function Clip(text: string, length: nat): string {
    if |text| <= length then text else text[..length]
  }

  function AsSource(m: Memo): Source {
    Source(m.id, Clip(m.userNeed, 80), m.recordedAt)
  }

  predicate Knows(seen: seq<Source>, id: Id) {
    exists k :: 0 <= k < |seen| && seen[k].id == id
  }

  /** `seen.set` unless the key is there: a `Map` keeps the order of first insertion. */
  function Note(seen: seq<Source>, s: Source): seq<Source> {
    if Knows(seen, s.id) then seen else seen + [s]
  }

  function NoteAll(seen: seq<Source>, sources: seq<Source>): seq<Source>
    decreases |sources|
  {
    if sources == [] then seen else NoteAll(Note(seen, sources[0]), sources[1..])
  }

  /** Every memo with its own lineage right behind it. */
  function Ancestry(memos: seq<Memo>): seq<Source> {
    if memos == [] then [] else [AsSource(memos[0])] + memos[0].distilledFrom + Ancestry(memos[1..])
  }

  predicate DistinctSources(s: seq<Source>) {
    forall i, j | 0 <= i < j < |s| :: s[i].id != s[j].id
  }

  function TimeOf(s: Source): int { s.at }

  /** `toSorted` by time. */
  function SortByTime(s: seq<Source>): seq<Source> {
    SortBy(s, TimeOf)
  }

  function Last100(s: seq<Source>): seq<Source> {
    if |s| <= 100 then s else s[|s| - 100..]
  }

  /** `collectLineage` */
  method CollectLineage(memos: seq<Memo>) returns (lineage: seq<Source>)
    ensures lineage == Last100(SortByTime(NoteAll([], Ancestry(memos))))
  {
    var seen: seq<Source> := [];
    for i := 0 to |memos|
      invariant NoteAll(seen, Ancestry(memos[i..])) == NoteAll([], Ancestry(memos))
    {
      assert memos[i..][0] == memos[i] && memos[i..][1..] == memos[i + 1..];
      var memo := memos[i];
      ghost var rest := Ancestry(memos[i + 1..]);
      if !Knows(seen, memo.id) {
        seen := seen + [AsSource(memo)];
      }
      NoteFirst(AsSource(memo), memo.distilledFrom, rest);
      for k := 0 to |memo.distilledFrom|
        invariant NoteAll(seen, memo.distilledFrom[k..] + rest) == NoteAll([], Ancestry(memos))
      {
        var source := memo.distilledFrom[k];
        NoteNext(memo.distilledFrom, k, rest);
        if !Knows(seen, source.id) {
          seen := seen + [source];
        }
      }
      assert memo.distilledFrom[|memo.distilledFrom|..] + rest == rest;
    }
    lineage := Last100(SortByTime(seen));
  }

  lemma NoteFirst(first: Source, more: seq<Source>, rest: seq<Source>)
    ensures ([first] + more + rest)[0] == first && ([first] + more + rest)[1..] == more[0..] + rest
  {}

  lemma NoteNext(sources: seq<Source>, k: nat, rest: seq<Source>)
    requires k < |sources|
    ensures (sources[k..] + rest)[0] == sources[k] && (sources[k..] + rest)[1..] == sources[k + 1..] + rest
  {}

  // ---------------------------------------------------------------- what the lineage is

  lemma {:induction false} NoteAllDistinct(seen: seq<Source>, sources: seq<Source>)
    requires DistinctSources(seen)
    ensures DistinctSources(NoteAll(seen, sources)) && seen <= NoteAll(seen, sources)
    ensures forall s | s in NoteAll(seen, sources) :: s in seen || s in sources
    ensures forall s | s in sources :: Knows(NoteAll(seen, sources), s.id)
    decreases |sources|
  {
    if sources != [] {
      var next := Note(seen, sources[0]);
      NoteAllDistinct(next, sources[1..]);
      var all := NoteAll(seen, sources);
      assert Knows(next, sources[0].id) by {
        if !Knows(seen, sources[0].id) {
          assert next[|seen|] == sources[0];
        }
      }
      var k :| 0 <= k < |next| && next[k].id == sources[0].id;
      assert all[k] == next[k];
    }
  }

  /** Sorting entries with distinct identities keeps exactly those entries. */
  lemma SortSorts(s: seq<Source>)
    requires DistinctSources(s)
    ensures Ascending(SortByTime(s), TimeOf) && DistinctSources(SortByTime(s)) && |SortByTime(s)| == |s|
    ensures forall x :: x in SortByTime(s) <==> x in s
  {
    var sorted := SortByTime(s);
    SortRearranges(s, TimeOf);
    forall i, j | 0 <= i < j < |sorted| ensures sorted[i].id != sorted[j].id {
      assert sorted[i] in s && sorted[j] in s;
      assert sorted[i] != sorted[j];
    }
  }

  /** The last hundred of a sorted list: what is cut off is older. */
  lemma CutIsOlder(all: seq<Source>)
    requires Ascending(all, TimeOf) && DistinctSources(all)
    ensures |Last100(all)| <= 100 && Ascending(Last100(all), TimeOf) && DistinctSources(Last100(all))
    ensures forall s, d | s in Last100(all) && d in all && d !in Last100(all) :: d.at <= s.at
  {
    if |all| > 100 {
      var cut := |all| - 100;
      forall s, d | s in all[cut..] && d in all && d !in all[cut..] ensures d.at <= s.at {
        var i :| cut <= i < |all| && all[i] == s;
        var j :| 0 <= j < |all| && all[j] == d;
        assert forall n | cut <= n < |all| :: all[n] in all[cut..];
      }
    }
  }

  lemma MemoNoted(memos: seq<Memo>, all: seq<Source>, k: nat)
    requires k < |memos|
    requires forall x :: x in all <==> x in NoteAll([], Ancestry(memos))
    ensures Knows(all, memos[k].id)
  {
    var noted := NoteAll([], Ancestry(memos));
    NoteAllDistinct([], Ancestry(memos));
    MemoInAncestry(memos, k);
    assert Knows(noted, AsSource(memos[k]).id);
    var n :| 0 <= n < |noted| && noted[n].id == memos[k].id;
    assert noted[n] in all;
  }

  /**
   A lineage has at most 100 entries, no identity twice, oldest first. It is cut from a list
   that names every memo of the group, and what is cut off is not newer than what stays.
   */
  lemma LineageShape(memos: seq<Memo>)
    ensures var all := SortByTime(NoteAll([], Ancestry(memos)));
      var lineage := Last100(all);
      && |lineage| <= 100 && DistinctSources(lineage) && Ascending(lineage, TimeOf)
      && (forall k | 0 <= k < |memos| :: Knows(all, memos[k].id))
      && (forall s, d | s in lineage && d in all && d !in lineage :: d.at <= s.at)
  {
    var noted := NoteAll([], Ancestry(memos));
    var all := SortByTime(noted);
    NoteAllDistinct([], Ancestry(memos));
    SortSorts(noted);
    forall k | 0 <= k < |memos| ensures Knows(all, memos[k].id) {
      MemoNoted(memos, all, k);
    }
    CutIsOlder(all);
  }

  lemma {:induction false} MemoInAncestry(memos: seq<Memo>, k: nat)
    requires k < |memos|
    ensures AsSource(memos[k]) in Ancestry(memos)
  {
    if k == 0 {
      assert Ancestry(memos)[0] == AsSource(memos[0]);
    } else {
      MemoInAncestry(memos[1..], k - 1);
    }
  }

  // ---------------------------------------------------------------- applying a plan

  /** A group as the plan holds it; `distilled` is what the model has written for it by now. */
  datatype Group = Group(memos: seq<Memo>, merged: Merged)

  datatype Merged = Merged(userNeed: string, approach: string, outcome: string, whatFailed: string, whatWorked: string,
                           distilled: string)

  datatype Plan = Plan(groups: seq<Group>, resolved: seq<Memo>, stale: seq<Memo>)

  datatype Write = Append(memo: Memo) | Delete(id: Id)

  type Table = map<Id, Memo>

  /** One write; an identity that is taken is refused. */
  function Apply(t: Table, w: Write): Table {
    match w
    case Append(memo) => if memo.id in t then t else t[memo.id := memo]
    case Delete(id) => t - {id}
  }

  function ApplyAll(t: Table, writes: seq<Write>): Table {
    if writes == [] then t else Apply(ApplyAll(t, writes[..|writes| - 1]), writes[|writes| - 1])
  }

  /** A group with a rule in it is skipped as long as nobody has written a conclusion for it. */
  predicate Mergeable(g: Group) {
    Trim(g.merged.distilled) != "" || forall k | 0 <= k < |g.memos| :: !DistilledRule(g.memos[k])
  }

  function MergedMemo(g: Group, id: Id, now: int): Memo {
    Memo(id, now, g.merged.userNeed, g.merged.approach, g.merged.outcome, g.merged.whatFailed, g.merged.whatWorked,
         Dream, Trim(g.merged.distilled), Last100(SortByTime(NoteAll([], Ancestry(g.memos)))))
  }

  /** The experience of resolved or stale memos, kept when there is any. */
  function Archive(memos: seq<Memo>, need: string, approach: string, outcome: string, id: Id, now: int): seq<Write> {
    var worked := Join(memos, (m: Memo) => m.whatWorked);
    var failed := Join(memos, (m: Memo) => m.whatFailed);
    if memos == [] || (worked == "" && failed == "") then []
    else
      [Append(Memo(id, now, need, approach, outcome, if failed == "" then "none" else failed,
                   if worked == "" then "none" else worked, Session, "", []))]
  }

  /** The non-empty texts with `"; "` between them. */
  function Join(memos: seq<Memo>, text: Memo -> string): string {
    if memos == [] then ""
    else
      var rest := Join(memos[1..], text);
      if text(memos[0]) == "" then rest else if rest == "" then text(memos[0]) else text(memos[0]) + "; " + rest
  }

  /** Identities for the new memos: one for each archive, one for each group. */
  datatype NewIds = NewIds(resolved: Id, stale: Id, merged: nat -> Id)

  function Merges(groups: seq<Group>, ids: NewIds, now: int): seq<Write> {
    if groups == [] then []
    else
      var last := |groups| - 1;
      Merges(groups[..last], ids, now)
        + if Mergeable(groups[last]) then [Append(MergedMemo(groups[last], ids.merged(last), now))] else []
  }

  function Removals(memos: seq<Memo>): seq<Write> {
    if memos == [] then [] else Removals(memos[..|memos| - 1]) + [Delete(memos[|memos| - 1].id)]
  }

  function GroupRemovals(groups: seq<Group>): seq<Write> {
    if groups == [] then []
    else
      var last := |groups| - 1;
      GroupRemovals(groups[..last]) + if Mergeable(groups[last]) then Removals(groups[last].memos) else []
  }

  function Additions(plan: Plan, ids: NewIds, now: int): seq<Write> {
    Archive(plan.resolved, "已解决任务的经验归档（dream 整理）", "多次尝试后解决", "已完成", ids.resolved, now)
      + Archive(plan.stale, "过期记忆的经验归档（dream 整理）", "距今超过30天未使用", "已归档", ids.stale, now)
      + Merges(plan.groups, ids, now)
  }

  function AllRemovals(plan: Plan): seq<Write> {
    GroupRemovals(plan.groups) + Removals(plan.resolved) + Removals(plan.stale)
  }

  /** `applyConsolidation`: every write it makes, in order. */
  method ApplyConsolidation(plan: Plan, ids: NewIds, now: int) returns (writes: seq<Write>)
    ensures writes == Additions(plan, ids, now) + AllRemovals(plan)
  {
    writes := Archive(plan.resolved, "已解决任务的经验归档（dream 整理）", "多次尝试后解决", "已完成", ids.resolved, now);
    writes := writes + Archive(plan.stale, "过期记忆的经验归档（dream 整理）", "距今超过30天未使用", "已归档", ids.stale, now);
    writes := StoreMerges(plan.groups, ids, now, writes);
    ghost var added := writes;
    writes := DeleteGroups(plan.groups, writes);
    writes := DeleteMemos(plan.resolved, writes);
    writes := DeleteMemos(plan.stale, writes);
    assert writes == added + AllRemovals(plan);
  }

  lemma OneMoreMerge(groups: seq<Group>, g: nat, ids: NewIds, now: int)
    requires g < |groups|
    ensures Merges(groups[..g + 1], ids, now) == Merges(groups[..g], ids, now)
              + if Mergeable(groups[g]) then [Append(MergedMemo(groups[g], ids.merged(g), now))] else []
  {
    assert groups[..g + 1][..g] == groups[..g];
  }

  /** The loop that stores the merged memos. */
  method StoreMerges(groups: seq<Group>, ids: NewIds, now: int, before: seq<Write>) returns (writes: seq<Write>)
    ensures writes == before + Merges(groups, ids, now)
  {
    writes := before;
    for g := 0 to |groups|
      invariant writes == before + Merges(groups[..g], ids, now)
    {
      OneMoreMerge(groups, g, ids, now);
      if Mergeable(groups[g]) {
        writes := writes + [Append(MergedMemo(groups[g], ids.merged(g), now))];
      }
    }
    assert groups[..|groups|] == groups;
  }

  lemma OneMoreGroup(groups: seq<Group>, g: nat)
    requires g < |groups|
    ensures GroupRemovals(groups[..g + 1])
         == GroupRemovals(groups[..g]) + if Mergeable(groups[g]) then Removals(groups[g].memos) else []
  {
    assert groups[..g + 1][..g] == groups[..g];
  }

  /** The loop that deletes what the merged memos replace. */
  method DeleteGroups(groups: seq<Group>, before: seq<Write>) returns (writes: seq<Write>)
    ensures writes == before + GroupRemovals(groups)
  {
    writes := before;
    for g := 0 to |groups|
      invariant writes == before + GroupRemovals(groups[..g])
    {
      OneMoreGroup(groups, g);
      if Mergeable(groups[g]) {
        writes := DeleteMemos(groups[g].memos, writes);
      }
    }
    assert groups[..|groups|] == groups;
  }

  /** One loop of deletions. */
  method DeleteMemos(memos: seq<Memo>, before: seq<Write>) returns (writes: seq<Write>)
    ensures writes == before + Removals(memos)
  {
    writes := before;
    for k := 0 to |memos|
      invariant writes == before + Removals(memos[..k])
    {
      assert memos[..k + 1][..k] == memos[..k];
      writes := writes + [Delete(memos[k].id)];
    }
    assert memos[..|memos|] == memos;
  }
}
