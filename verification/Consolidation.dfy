/**
 Consolidating the memory store: which memos a plan groups, and the order in which applying
 it writes. Everything that replaces memos is stored before anything is deleted, so a crash
 at any point loses no rule.
 */
module Consolidation {
  import opened Whitespace
  import opened Wrappers

  type Id = string

  datatype Origin = Session | Dream | User

  datatype Source = Source(id: Id, title: string, at: int)

  datatype Memo = Memo(
    id: Id,
    recordedAt: int,
    userNeed: string,
    approach: string,
    outcome: string,
    whatFailed: string,
    whatWorked: string,
    origin: Origin,
    distilled: string,
    distilledFrom: seq<Source>)

  /** `isDistilledRule` */
  predicate DistilledRule(m: Memo) {
    m.origin.Dream? || m.origin.User? || Trim(m.distilled) != ""
  }

  // ---------------------------------------------------------------- planning

  /**
   `similar(candidate, member)` is the keyword similarity at its threshold, `completed` and
   `blocked` the checks on an outcome text, and `now` the clock when the plan is made.
   */
  datatype Judge = Judge(similar: (Memo, Memo) -> bool, completed: string -> bool, blocked: string -> bool, now: int)

  const WEEK_MS := 7 * 24 * 60 * 60 * 1000
  const STALE_MS := 30 * 24 * 60 * 60 * 1000

  predicate Resolved(judge: Judge, m: Memo) {
    !DistilledRule(m) && judge.completed(m.outcome) && judge.now - m.recordedAt > WEEK_MS
  }

  predicate Stale(judge: Judge, m: Memo) {
    !DistilledRule(m) && m.recordedAt < judge.now - STALE_MS && !judge.completed(m.outcome) && !judge.blocked(m.outcome)
  }

  function Filter(keep: Memo -> bool, memos: seq<Memo>): (kept: seq<Memo>)
    ensures forall m :: m in kept <==> m in memos && keep(m)
  {
    if memos == [] then [] else (if keep(memos[0]) then [memos[0]] else []) + Filter(keep, memos[1..])
  }

  predicate SimilarToAny(judge: Judge, candidate: Memo, cluster: seq<Memo>) {
    exists k :: 0 <= k < |cluster| && judge.similar(candidate, cluster[k])
  }

  /** The cluster after the candidates from j on have been looked at. */
  function Extend(judge: Judge, memos: seq<Memo>, j: nat, used: set<Id>, cluster: seq<Memo>): seq<Memo>
    requires j <= |memos|
    decreases |memos| - j
  {
    if j == |memos| then cluster
    else if memos[j].id !in used && SimilarToAny(judge, memos[j], cluster) then
      Extend(judge, memos, j + 1, used, cluster + [memos[j]])
    else Extend(judge, memos, j + 1, used, cluster)
  }

  function Ids(memos: seq<Memo>): set<Id> {
    set k | 0 <= k < |memos| :: memos[k].id
  }

  /** The duplicate groups from memo i on. */
  function Groups(judge: Judge, memos: seq<Memo>, i: nat, used: set<Id>): seq<seq<Memo>>
    requires i <= |memos|
    decreases |memos| - i
  {
    if i == |memos| then []
    else if memos[i].id in used then Groups(judge, memos, i + 1, used)
    else
      var cluster := Extend(judge, memos, i + 1, used, [memos[i]]);
      if |cluster| > 1 then [cluster] + Groups(judge, memos, i + 1, used + Ids(cluster))
      else Groups(judge, memos, i + 1, used)
  }

  /** `findDuplicateGroups` */
  method FindDuplicateGroups(judge: Judge, memos: seq<Memo>) returns (groups: seq<seq<Memo>>)
    ensures groups == Groups(judge, memos, 0, {})
  {
    groups := [];
    var used: set<Id> := {};
    for i := 0 to |memos|
      invariant groups + Groups(judge, memos, i, used) == Groups(judge, memos, 0, {})
    {
      if memos[i].id in used {
        continue;
      }
      var cluster := [memos[i]];
      for j := i + 1 to |memos|
        invariant Extend(judge, memos, j, used, cluster) == Extend(judge, memos, i + 1, used, [memos[i]])
      {
        var candidate := memos[j];
        if candidate.id !in used && SimilarToAny(judge, candidate, cluster) {
          cluster := cluster + [candidate];
        }
      }
      if |cluster| > 1 {
        GroupsUnfold(judge, memos, i, used, cluster, groups);
        used := used + Ids(cluster);
        groups := groups + [cluster];
      }
    }
  }

  lemma GroupsUnfold(judge: Judge, memos: seq<Memo>, i: nat, used: set<Id>, cluster: seq<Memo>, groups: seq<seq<Memo>>)
    requires i < |memos| && memos[i].id !in used && |cluster| > 1
    requires cluster == Extend(judge, memos, i + 1, used, [memos[i]])
    ensures groups + Groups(judge, memos, i, used)
         == groups + [cluster] + Groups(judge, memos, i + 1, used + Ids(cluster))
  {
    var rest := Groups(judge, memos, i + 1, used + Ids(cluster));
    assert groups + ([cluster] + rest) == groups + [cluster] + rest;
  }

  // ---------------------------------------------------------------- what the groups are

  ghost predicate DistinctIds(memos: seq<Memo>) {
    forall a, b | 0 <= a < b < |memos| :: memos[a].id != memos[b].id
  }

  /** Every member but the first is similar to one before it. */
  ghost predicate Chained(judge: Judge, cluster: seq<Memo>) {
    forall b | 0 < b < |cluster| :: SimilarToAny(judge, cluster[b], cluster[..b])
  }

  ghost predicate AllFrom(memos: seq<Memo>, cluster: seq<Memo>) {
    forall k | 0 <= k < |cluster| :: cluster[k] in memos
  }

  ghost predicate NoneUsed(used: set<Id>, cluster: seq<Memo>) {
    forall k | 0 <= k < |cluster| :: cluster[k].id !in used
  }

  lemma ChainGrows(judge: Judge, cluster: seq<Memo>, candidate: Memo)
    requires Chained(judge, cluster) && SimilarToAny(judge, candidate, cluster)
    ensures Chained(judge, cluster + [candidate])
  {
    var longer := cluster + [candidate];
    forall b | 0 < b < |longer| ensures SimilarToAny(judge, longer[b], longer[..b]) {
      if b < |cluster| {
        assert longer[..b] == cluster[..b] && longer[b] == cluster[b];
      } else {
        assert longer[..b] == cluster;
      }
    }
  }

  lemma {:induction false} ExtendKeeps(judge: Judge, memos: seq<Memo>, j: nat, used: set<Id>, cluster: seq<Memo>)
    requires j <= |memos|
    ensures cluster <= Extend(judge, memos, j, used, cluster)
    decreases |memos| - j
  {
    if j < |memos| {
      ExtendKeeps(judge, memos, j + 1, used, cluster);
      ExtendKeeps(judge, memos, j + 1, used, cluster + [memos[j]]);
    }
  }

  lemma {:induction false} ExtendChains(judge: Judge, memos: seq<Memo>, j: nat, used: set<Id>, cluster: seq<Memo>)
    requires j <= |memos| && Chained(judge, cluster)
    ensures Chained(judge, Extend(judge, memos, j, used, cluster))
    decreases |memos| - j
  {
    if j < |memos| {
      if memos[j].id !in used && SimilarToAny(judge, memos[j], cluster) {
        ChainGrows(judge, cluster, memos[j]);
        ExtendChains(judge, memos, j + 1, used, cluster + [memos[j]]);
      } else {
        ExtendChains(judge, memos, j + 1, used, cluster);
      }
    }
  }

  /** The members' identities are those of memos before j, unused and distinct. */
  ghost predicate DrawnBefore(memos: seq<Memo>, j: nat, used: set<Id>, cluster: seq<Memo>)
    requires j <= |memos|
  {
    && AllFrom(memos, cluster) && NoneUsed(used, cluster) && DistinctIds(cluster)
    && (forall k, n | 0 <= k < |cluster| && j <= n < |memos| :: cluster[k].id != memos[n].id)
  }

  lemma {:induction false} ExtendDraws(judge: Judge, memos: seq<Memo>, j: nat, used: set<Id>, cluster: seq<Memo>)
    requires j <= |memos| && DistinctIds(memos) && DrawnBefore(memos, j, used, cluster)
    ensures DrawnBefore(memos, |memos|, used, Extend(judge, memos, j, used, cluster))
    decreases |memos| - j
  {
    if j < |memos| {
      if memos[j].id !in used && SimilarToAny(judge, memos[j], cluster) {
        ExtendDraws(judge, memos, j + 1, used, cluster + [memos[j]]);
      } else {
        ExtendDraws(judge, memos, j + 1, used, cluster);
      }
    }
  }

  /** An unused memo behind j that is similar to a member joins the cluster. */
  lemma {:induction false} SimilarJoins(judge: Judge, memos: seq<Memo>, j: nat, used: set<Id>, cluster: seq<Memo>,
                                        n: nat, k: nat)
    requires j <= n < |memos| && k < |cluster| && memos[n].id !in used
    requires judge.similar(memos[n], cluster[k])
    ensures memos[n] in Extend(judge, memos, j, used, cluster)
    decreases |memos| - j
  {
    if n == j {
      var longer := cluster + [memos[j]];
      ExtendKeeps(judge, memos, j + 1, used, longer);
      assert longer[|cluster|] == memos[j];
    } else if memos[j].id !in used && SimilarToAny(judge, memos[j], cluster) {
      SimilarJoins(judge, memos, j + 1, used, cluster + [memos[j]], n, k);
    } else {
      SimilarJoins(judge, memos, j + 1, used, cluster, n, k);
    }
  }

  /** A group: at least two memos of the store, none twice or used before, each later one similar to an earlier. */
  ghost predicate GoodGroup(judge: Judge, memos: seq<Memo>, used: set<Id>, group: seq<Memo>) {
    |group| > 1 && AllFrom(memos, group) && NoneUsed(used, group) && DistinctIds(group) && Chained(judge, group)
  }

  lemma ClusterIsGood(judge: Judge, memos: seq<Memo>, i: nat, used: set<Id>, cluster: seq<Memo>)
    requires i < |memos| && DistinctIds(memos) && memos[i].id !in used
    requires cluster == Extend(judge, memos, i + 1, used, [memos[i]])
    ensures |cluster| > 1 ==> GoodGroup(judge, memos, used, cluster)
    ensures |cluster| > 0 && cluster[0] == memos[i]
  {
    ExtendKeeps(judge, memos, i + 1, used, [memos[i]]);
    ExtendChains(judge, memos, i + 1, used, [memos[i]]);
    ExtendDraws(judge, memos, i + 1, used, [memos[i]]);
  }

  ghost predicate AllGood(judge: Judge, memos: seq<Memo>, used: set<Id>, groups: seq<seq<Memo>>) {
    forall g | 0 <= g < |groups| :: GoodGroup(judge, memos, used, groups[g])
  }

  ghost predicate DisjointGroups(groups: seq<seq<Memo>>) {
    forall g, h | 0 <= g < h < |groups| :: Ids(groups[g]) !! Ids(groups[h])
  }

  lemma GoodAfterMoreUsed(judge: Judge, memos: seq<Memo>, used: set<Id>, more: set<Id>, group: seq<Memo>)
    requires GoodGroup(judge, memos, used + more, group)
    ensures GoodGroup(judge, memos, used, group) && more !! Ids(group)
  {}

  lemma {:induction false} GroupsAreGood(judge: Judge, memos: seq<Memo>, i: nat, used: set<Id>)
    requires i <= |memos| && DistinctIds(memos)
    ensures AllGood(judge, memos, used, Groups(judge, memos, i, used))
    ensures DisjointGroups(Groups(judge, memos, i, used))
    decreases |memos| - i
  {
    if i < |memos| {
      var cluster := Extend(judge, memos, i + 1, used, [memos[i]]);
      if memos[i].id in used || |cluster| <= 1 {
        GroupsAreGood(judge, memos, i + 1, used);
      } else {
        var taken := Ids(cluster);
        var rest := Groups(judge, memos, i + 1, used + taken);
        ClusterIsGood(judge, memos, i, used, cluster);
        GroupsAreGood(judge, memos, i + 1, used + taken);
        forall g | 0 <= g < |rest|
          ensures GoodGroup(judge, memos, used, rest[g]) && taken !! Ids(rest[g])
        {
          GoodAfterMoreUsed(judge, memos, used, taken, rest[g]);
        }
      }
    }
  }

  predicate Grouped(groups: seq<seq<Memo>>, id: Id) {
    exists g :: 0 <= g < |groups| && id in Ids(groups[g])
  }

  lemma GroupedLater(first: seq<Memo>, rest: seq<seq<Memo>>, id: Id)
    ensures Grouped([first] + rest, id) <==> id in Ids(first) || Grouped(rest, id)
  {
    var groups := [first] + rest;
    if id in Ids(first) {
      assert groups[0] == first;
    }
    if g :| 0 <= g < |rest| && id in Ids(rest[g]) {
      assert groups[g + 1] == rest[g];
    }
  }

  /** Two memos that end up in no group are not similar. */
  lemma {:induction false} UngroupedAreDifferent(judge: Judge, memos: seq<Memo>, i: nat, used: set<Id>, a: nat, b: nat)
    requires DistinctIds(memos) && i <= a < b < |memos| && memos[a].id !in used && memos[b].id !in used
    requires !Grouped(Groups(judge, memos, i, used), memos[a].id)
    requires !Grouped(Groups(judge, memos, i, used), memos[b].id)
    ensures !judge.similar(memos[b], memos[a])
    decreases |memos| - i
  {
    var cluster := Extend(judge, memos, i + 1, used, [memos[i]]);
    if memos[i].id in used {
      UngroupedAreDifferent(judge, memos, i + 1, used, a, b);
    } else {
      ClusterIsGood(judge, memos, i, used, cluster);
      if |cluster| > 1 {
        var rest := Groups(judge, memos, i + 1, used + Ids(cluster));
        GroupedLater(cluster, rest, memos[a].id);
        GroupedLater(cluster, rest, memos[b].id);
        assert memos[i].id in Ids(cluster);
        UngroupedAreDifferent(judge, memos, i + 1, used + Ids(cluster), a, b);
      } else if i == a {
        AloneIsDifferent(judge, memos, i, used, b);
      } else {
        UngroupedAreDifferent(judge, memos, i + 1, used, a, b);
      }
    }
  }

  lemma AloneIsDifferent(judge: Judge, memos: seq<Memo>, i: nat, used: set<Id>, b: nat)
    requires DistinctIds(memos) && i < b < |memos| && memos[b].id !in used
    requires |Extend(judge, memos, i + 1, used, [memos[i]])| <= 1
    ensures !judge.similar(memos[b], memos[i])
  {
    ExtendKeeps(judge, memos, i + 1, used, [memos[i]]);
    assert memos[b].id != memos[i].id;
    if judge.similar(memos[b], memos[i]) {
      SimilarJoins(judge, memos, i + 1, used, [memos[i]], b, 0);
    }
  }
}
