/**
 No rule is lost: at every crash point of applying a plan, each distilled rule of the store
 is still there, or the merged memo of its group is, and that one has a conclusion.
 */
module ConsolidationSafety {
  import opened Consolidation
  import opened ConsolidationApply
  import opened Whitespace
  import opened Wrappers

  /** The plan comes from these memos; conclusions may have been written into it since. */
  ghost predicate BuiltFrom(plan: Plan, judge: Judge, memos: seq<Memo>) {
    var groups := Groups(judge, memos, 0, {});
    && |plan.groups| == |groups| && (forall g | 0 <= g < |groups| :: plan.groups[g].memos == groups[g])
    && plan.resolved == Filter((m: Memo) => Resolved(judge, m), memos)
    && plan.stale == Filter((m: Memo) => Stale(judge, m), memos)
  }

  /** New memos get identities nobody has. */
  ghost predicate FreshIds(t: Table, plan: Plan, ids: NewIds) {
    && ids.resolved !in t && ids.stale !in t && ids.resolved != ids.stale
    && (forall g: nat | g < |plan.groups| :: ids.merged(g) !in t && ids.merged(g) != ids.resolved && ids.merged(g) != ids.stale)
    && OwnIds(plan.groups, ids)
  }

  // ---------------------------------------------------------------- single rows

  /** A row that no write deletes stays as it is. */
  lemma {:induction false} RowStays(t: Table, writes: seq<Write>, id: Id)
    requires id in t && Delete(id) !in writes
    ensures id in ApplyAll(t, writes) && ApplyAll(t, writes)[id] == t[id]
  {
    if writes != [] {
      assert forall w | w in writes[..|writes| - 1] :: w in writes;
      RowStays(t, writes[..|writes| - 1], id);
    }
  }

  ghost predicate AddsAtMostOnce(writes: seq<Write>, id: Id) {
    forall i, j | 0 <= i < j < |writes| && writes[i].Append? && writes[j].Append? && writes[i].memo.id == id ::
      writes[j].memo.id != id
  }

  lemma {:induction false} NotThereYet(t: Table, writes: seq<Write>, id: Id)
    requires id !in t && forall w | w in writes :: w.Append? ==> w.memo.id != id
    ensures id !in ApplyAll(t, writes)
  {
    if writes != [] {
      assert forall w | w in writes[..|writes| - 1] :: w in writes;
      assert writes[|writes| - 1] in writes;
      NotThereYet(t, writes[..|writes| - 1], id);
    }
  }

  /** A memo appended under an identity of its own, and never deleted, is stored. */
  lemma {:induction false} AppendedIsStored(t: Table, writes: seq<Write>, memo: Memo)
    requires Append(memo) in writes && memo.id !in t
    requires AddsAtMostOnce(writes, memo.id) && Delete(memo.id) !in writes
    ensures memo.id in ApplyAll(t, writes) && ApplyAll(t, writes)[memo.id] == memo
  {
    var front, last := writes[..|writes| - 1], writes[|writes| - 1];
    assert forall w | w in front :: w in writes;
    if last == Append(memo) {
      forall w | w in front ensures w.Append? ==> w.memo.id != memo.id {
        var i :| 0 <= i < |front| && front[i] == w;
        assert writes[i] == w;
      }
      NotThereYet(t, front, memo.id);
    } else {
      assert writes == front + [last];
      AppendedIsStored(t, front, memo);
    }
  }

  // ---------------------------------------------------------------- the writes of a plan

  lemma {:induction false} RemovalsOnlyNamed(memos: seq<Memo>)
    ensures forall w | w in Removals(memos) :: w.Delete? && exists k :: 0 <= k < |memos| && memos[k].id == w.id
  {
    if memos != [] {
      var front := memos[..|memos| - 1];
      RemovalsOnlyNamed(front);
      forall w | w in Removals(memos) ensures w.Delete? && exists k :: 0 <= k < |memos| && memos[k].id == w.id {
        if w in Removals(front) {
          var k :| 0 <= k < |front| && front[k].id == w.id;
          assert memos[k].id == w.id;
        }
      }
    }
  }

  ghost predicate NamedIn(memos: seq<Memo>, id: Id) {
    exists k :: 0 <= k < |memos| && memos[k].id == id
  }

  lemma {:induction false} NamedIsRemoved(memos: seq<Memo>, id: Id)
    requires NamedIn(memos, id)
    ensures Delete(id) in Removals(memos)
  {
    var k :| 0 <= k < |memos| && memos[k].id == id;
    var n := |memos| - 1;
    if k < n {
      assert memos[..n][k].id == id;
      NamedIsRemoved(memos[..n], id);
    }
  }

  /** A group that is deleted is mergeable and has the deleted memo in it. */
  ghost predicate DeletedWithGroup(groups: seq<Group>, id: Id) {
    exists g, k :: 0 <= g < |groups| && Mergeable(groups[g]) && 0 <= k < |groups[g].memos| && groups[g].memos[k].id == id
  }

  lemma {:induction false} GroupRemovalsOnlyNamed(groups: seq<Group>)
    ensures forall w | w in GroupRemovals(groups) :: w.Delete? && DeletedWithGroup(groups, w.id)
  {
    if groups != [] {
      var front, last := groups[..|groups| - 1], groups[|groups| - 1];
      GroupRemovalsOnlyNamed(front);
      RemovalsOnlyNamed(last.memos);
      forall w | w in GroupRemovals(groups) ensures w.Delete? && DeletedWithGroup(groups, w.id) {
        if w in GroupRemovals(front) {
          var g, k :| 0 <= g < |front| && Mergeable(front[g]) && 0 <= k < |front[g].memos| && front[g].memos[k].id == w.id;
          assert groups[g] == front[g];
        } else {
          var k :| 0 <= k < |last.memos| && last.memos[k].id == w.id;
          assert groups[|groups| - 1].memos[k].id == w.id;
        }
      }
    }
  }

  lemma {:induction false} GroupNamedIsRemoved(groups: seq<Group>, id: Id)
    requires DeletedWithGroup(groups, id)
    ensures Delete(id) in GroupRemovals(groups)
  {
    var g, k :| 0 <= g < |groups| && Mergeable(groups[g]) && 0 <= k < |groups[g].memos| && groups[g].memos[k].id == id;
    var n := |groups| - 1;
    if g < n {
      assert groups[..n][g].memos[k].id == id;
      GroupNamedIsRemoved(groups[..n], id);
    } else {
      assert NamedIn(groups[n].memos, id);
      NamedIsRemoved(groups[n].memos, id);
    }
  }

  /** Applying the plan deletes that identity. */
  ghost predicate Doomed(plan: Plan, id: Id) {
    NamedIn(plan.resolved, id) || NamedIn(plan.stale, id) || DeletedWithGroup(plan.groups, id)
  }

  lemma RemovedIffDoomed(plan: Plan)
    ensures forall w | w in AllRemovals(plan) :: w.Delete? && Doomed(plan, w.id)
    ensures forall id | Doomed(plan, id) :: Delete(id) in AllRemovals(plan)
  {
    RemovalsOnlyNamed(plan.resolved);
    RemovalsOnlyNamed(plan.stale);
    GroupRemovalsOnlyNamed(plan.groups);
    forall id | Doomed(plan, id) ensures Delete(id) in AllRemovals(plan) {
      if NamedIn(plan.resolved, id) {
        NamedIsRemoved(plan.resolved, id);
      } else if NamedIn(plan.stale, id) {
        NamedIsRemoved(plan.stale, id);
      } else {
        GroupNamedIsRemoved(plan.groups, id);
      }
    }
  }

  /** What is deleted, and never added, is gone in the end. */
  lemma {:induction false} DeletedIsGone(t: Table, writes: seq<Write>, id: Id)
    requires Delete(id) in writes && forall w | w in writes :: w.Append? ==> w.memo.id != id
    ensures id !in ApplyAll(t, writes)
  {
    var n := |writes| - 1;
    var front, last := writes[..n], writes[n];
    assert last in writes && forall w | w in front :: w in writes;
    if last != Delete(id) {
      assert writes == front + [last];
      DeletedIsGone(t, front, id);
    }
  }

  /** The merged memos, in group order: each under its own identity. */
  lemma {:induction false} MergesShape(groups: seq<Group>, ids: NewIds, now: int)
    ensures forall w | w in Merges(groups, ids, now) :: MergedOfSome(groups, ids, now, w)
    ensures forall g: nat | g < |groups| && Mergeable(groups[g]) ::
      Append(MergedMemo(groups[g], ids.merged(g), now)) in Merges(groups, ids, now)
  {
    if groups != [] {
      var n := |groups| - 1;
      var front := groups[..n];
      MergesShape(front, ids, now);
      forall w | w in Merges(groups, ids, now) ensures MergedOfSome(groups, ids, now, w) {
        if w in Merges(front, ids, now) {
          MergedOfLonger(groups, n, ids, now, w);
        } else {
          assert w == Append(MergedMemo(groups[n], ids.merged(n), now));
        }
      }
      forall g: nat | g < |groups| && Mergeable(groups[g])
        ensures Append(MergedMemo(groups[g], ids.merged(g), now)) in Merges(groups, ids, now)
      {
        if g < n {
          assert front[g] == groups[g];
        }
      }
    }
  }

  ghost predicate MergedOfSome(groups: seq<Group>, ids: NewIds, now: int, w: Write) {
    w.Append? && exists g: nat :: g < |groups| && w.memo == MergedMemo(groups[g], ids.merged(g), now)
  }

  lemma MergedOfLonger(groups: seq<Group>, n: nat, ids: NewIds, now: int, w: Write)
    requires n <= |groups| && MergedOfSome(groups[..n], ids, now, w)
    ensures MergedOfSome(groups, ids, now, w)
  {
    var g: nat :| g < n && w.memo == MergedMemo(groups[..n][g], ids.merged(g), now);
    assert groups[g] == groups[..n][g];
  }

  lemma OneMoreAdded(writes: seq<Write>, last: Write, id: Id)
    requires AddsAtMostOnce(writes, id) && last.Append?
    requires last.memo.id == id ==> forall w | w in writes :: w.Append? ==> w.memo.id != id
    ensures AddsAtMostOnce(writes + [last], id)
  {
    var all := writes + [last];
    forall i, j | 0 <= i < j < |all| && all[i].Append? && all[j].Append? && all[i].memo.id == id
      ensures all[j].memo.id != id
    {
      assert all[i] == writes[i] && writes[i] in writes;
    }
  }

  /** No two groups share the identity of their merged memo. */
  ghost predicate OwnIds(groups: seq<Group>, ids: NewIds) {
    forall f: nat, g: nat | f < g < |groups| :: ids.merged(f) != ids.merged(g)
  }

  lemma {:induction false} MergesAddOnce(groups: seq<Group>, ids: NewIds, now: int, id: Id)
    requires OwnIds(groups, ids)
    ensures AddsAtMostOnce(Merges(groups, ids, now), id)
    decreases |groups|
  {
    if groups != [] {
      var n := |groups| - 1;
      var front := groups[..n];
      MergesAddOnce(front, ids, now, id);
      if Mergeable(groups[n]) {
        NotAmongEarlier(groups, ids, now, n);
        OneMoreAdded(Merges(front, ids, now), Append(MergedMemo(groups[n], ids.merged(n), now)), id);
      } else {
        assert Merges(front, ids, now) + [] == Merges(front, ids, now);
      }
    }
  }

  lemma NotAmongEarlier(groups: seq<Group>, ids: NewIds, now: int, n: nat)
    requires OwnIds(groups, ids) && n < |groups|
    ensures forall w | w in Merges(groups[..n], ids, now) :: w.Append? && w.memo.id != ids.merged(n)
  {
    MergesShape(groups[..n], ids, now);
  }

  lemma ArchiveShape(memos: seq<Memo>, need: string, approach: string, outcome: string, id: Id, now: int)
    ensures var writes := Archive(memos, need, approach, outcome, id, now);
      |writes| <= 1 && forall w | w in writes :: w.Append? && w.memo.id == id
  {}

  /** Everything is added before anything is deleted, and under identities of its own. */
  lemma AdditionsShape(t: Table, plan: Plan, ids: NewIds, now: int)
    requires FreshIds(t, plan, ids)
    ensures forall w | w in Additions(plan, ids, now) :: w.Append? && w.memo.id !in t
    ensures forall g: nat | g < |plan.groups| && Mergeable(plan.groups[g]) ::
      && Append(MergedMemo(plan.groups[g], ids.merged(g), now)) in Additions(plan, ids, now)
      && AddsAtMostOnce(Additions(plan, ids, now), ids.merged(g))
  {
    var first := Archive(plan.resolved, "已解决任务的经验归档（dream 整理）", "多次尝试后解决", "已完成", ids.resolved, now);
    var second := Archive(plan.stale, "过期记忆的经验归档（dream 整理）", "距今超过30天未使用", "已归档", ids.stale, now);
    ArchiveShape(plan.resolved, "已解决任务的经验归档（dream 整理）", "多次尝试后解决", "已完成", ids.resolved, now);
    ArchiveShape(plan.stale, "过期记忆的经验归档（dream 整理）", "距今超过30天未使用", "已归档", ids.stale, now);
    MergesShape(plan.groups, ids, now);
    forall g: nat | g < |plan.groups| && Mergeable(plan.groups[g])
      ensures AddsAtMostOnce(Additions(plan, ids, now), ids.merged(g))
    {
      MergesAddOnce(plan.groups, ids, now, ids.merged(g));
      AddedBehind(first + second, Merges(plan.groups, ids, now), ids.merged(g));
    }
  }

  lemma AddedBehind(others: seq<Write>, merges: seq<Write>, id: Id)
    requires AddsAtMostOnce(merges, id) && forall w | w in others :: w.Append? && w.memo.id != id
    ensures AddsAtMostOnce(others + merges, id)
  {
    var all := others + merges;
    assert forall k | 0 <= k < |others| :: all[k] == others[k] && all[k] in others;
    forall i, j | 0 <= i < j < |all| && all[i].Append? && all[j].Append? && all[i].memo.id == id
      ensures all[j].memo.id != id
    {
    }
  }

  // ---------------------------------------------------------------- main result

  /** The rule itself, or the merged memo of a group it was in, whose conclusion is not empty. */
  ghost predicate Survives(now: Table, rule: Memo, plan: Plan, ids: NewIds, time: int) {
    || (rule.id in now && now[rule.id] == rule)
    || exists g: nat :: g < |plan.groups| && SurvivesIn(now, rule, plan.groups[g], ids.merged(g), time)
  }

  ghost predicate SurvivesIn(now: Table, rule: Memo, group: Group, id: Id, time: int) {
    && rule in group.memos && id in now && now[id] == MergedMemo(group, id, time)
    && now[id].distilled != "" && DistilledRule(now[id])
  }

  /** The memo is, as it stands, in a group that a conclusion has been written for. */
  ghost predicate Concluded(plan: Plan, memo: Memo) {
    exists g: nat :: g < |plan.groups| && memo in plan.groups[g].memos && Trim(plan.groups[g].merged.distilled) != ""
  }

  /** The new identities are in no list of the plan either. */
  ghost predicate UnknownToPlan(plan: Plan, ids: NewIds) {
    forall g: nat | g < |plan.groups| :: !Doomed(plan, ids.merged(g))
  }

  lemma SparedSurvives(t: Table, plan: Plan, ids: NewIds, time: int, rule: Memo, n: nat)
    requires FreshIds(t, plan, ids) && UnknownToPlan(plan, ids)
    requires rule.id in t && t[rule.id] == rule && (!Doomed(plan, rule.id) || Concluded(plan, rule))
    requires n <= |Additions(plan, ids, time) + AllRemovals(plan)|
    ensures Survives(ApplyAll(t, (Additions(plan, ids, time) + AllRemovals(plan))[..n]), rule, plan, ids, time)
  {
    var added, removed := Additions(plan, ids, time), AllRemovals(plan);
    var done := (added + removed)[..n];
    AdditionsShape(t, plan, ids, time);
    RemovedIffDoomed(plan);
    if Delete(rule.id) !in done {
      RowStays(t, done, rule.id);
    } else {
      DoneDeletesFollow(added, removed, n, rule.id);
      var deleted := removed[..n - |added|];
      var g: nat :| g < |plan.groups| && rule in plan.groups[g].memos && Trim(plan.groups[g].merged.distilled) != "";
      assert forall w | w in deleted :: w in removed;
      ConclusionIsStored(t, plan, ids, time, added, deleted, g);
      assert SurvivesIn(ApplyAll(t, done), rule, plan.groups[g], ids.merged(g), time);
    }
  }

  /** Behind all additions, whatever deletions follow, the merged memo of a concluded group is stored. */
  lemma ConclusionIsStored(t: Table, plan: Plan, ids: NewIds, time: int, added: seq<Write>, deleted: seq<Write>, g: nat)
    requires FreshIds(t, plan, ids) && UnknownToPlan(plan, ids) && added == Additions(plan, ids, time)
    requires forall w | w in deleted :: w.Delete? && Doomed(plan, w.id)
    requires g < |plan.groups| && Trim(plan.groups[g].merged.distilled) != ""
    ensures var after := ApplyAll(t, added + deleted); var id := ids.merged(g);
      && id in after && after[id] == MergedMemo(plan.groups[g], id, time)
      && after[id].distilled != "" && DistilledRule(after[id])
  {
    AdditionsShape(t, plan, ids, time);
    var merged := MergedMemo(plan.groups[g], ids.merged(g), time);
    StoredBehind(t, added, deleted, merged);
    TrimTwice(plan.groups[g].merged.distilled);
  }

  /** What is named and in no concluded group is lost when all is written. */
  lemma UnsparedIsLost(t: Table, plan: Plan, ids: NewIds, time: int, rule: Memo)
    requires FreshIds(t, plan, ids) && rule.id in t && Doomed(plan, rule.id) && !Concluded(plan, rule)
    ensures !Survives(ApplyAll(t, Additions(plan, ids, time) + AllRemovals(plan)), rule, plan, ids, time)
  {
    var added, removed := Additions(plan, ids, time), AllRemovals(plan);
    var all := added + removed;
    AdditionsShape(t, plan, ids, time);
    RemovedIffDoomed(plan);
    assert Delete(rule.id) in all;
    DeletedIsGone(t, all, rule.id);
    forall g: nat | g < |plan.groups| && rule in plan.groups[g].memos
      ensures !SurvivesIn(ApplyAll(t, all), rule, plan.groups[g], ids.merged(g), time)
    {
    }
  }

  /**
   Whatever the plan and however the store has changed since it was made: a memo of the store
   survives every crash point of applying the plan if and only if the plan does not name it
   for deletion, or has it unchanged in a group with a conclusion.
   */
  lemma SurvivesCrashIff(t: Table, plan: Plan, ids: NewIds, time: int, rule: Memo)
    requires FreshIds(t, plan, ids) && UnknownToPlan(plan, ids) && rule.id in t && t[rule.id] == rule
    ensures var writes := Additions(plan, ids, time) + AllRemovals(plan);
      (forall n: nat | n <= |writes| :: Survives(ApplyAll(t, writes[..n]), rule, plan, ids, time))
      <==> !Doomed(plan, rule.id) || Concluded(plan, rule)
  {
    var writes := Additions(plan, ids, time) + AllRemovals(plan);
    if !Doomed(plan, rule.id) || Concluded(plan, rule) {
      forall n: nat | n <= |writes| ensures Survives(ApplyAll(t, writes[..n]), rule, plan, ids, time) {
        SparedSurvives(t, plan, ids, time, rule, n);
      }
    } else {
      UnsparedIsLost(t, plan, ids, time, rule);
      var n := |writes|;
      assert writes[..n] == writes;
      assert !Survives(ApplyAll(t, writes[..n]), rule, plan, ids, time);
    }
  }

  /** The rule is as the plan saw it, or the plan did not see it at all. */
  ghost predicate AsPlanned(memos: seq<Memo>, rule: Memo) {
    forall k | 0 <= k < |memos| && memos[k].id == rule.id :: memos[k] == rule
  }

  /** A plan names an unchanged rule only as a member of a group. */
  lemma PlannedRuleIsSpared(judge: Judge, memos: seq<Memo>, plan: Plan, rule: Memo)
    requires DistinctIds(memos) && BuiltFrom(plan, judge, memos) && AsPlanned(memos, rule) && DistilledRule(rule)
    ensures !Doomed(plan, rule.id) || Concluded(plan, rule)
  {
    forall k | 0 <= k < |plan.resolved| ensures plan.resolved[k].id != rule.id {
      assert plan.resolved[k] in plan.resolved;
    }
    forall k | 0 <= k < |plan.stale| ensures plan.stale[k].id != rule.id {
      assert plan.stale[k] in plan.stale;
    }
    if DeletedWithGroup(plan.groups, rule.id) {
      GroupsAreGood(judge, memos, 0, {});
      var g, k :| 0 <= g < |plan.groups| && Mergeable(plan.groups[g]) && 0 <= k < |plan.groups[g].memos|
                  && plan.groups[g].memos[k].id == rule.id;
      var group := Groups(judge, memos, 0, {})[g];
      assert GoodGroup(judge, memos, {}, group);
      assert group[k] in memos;
      assert plan.groups[g].memos[k] == rule;
    }
  }

  /** So every rule that has not been touched since the plan was made survives every crash point. */
  lemma RulesSurviveCrash(t: Table, judge: Judge, memos: seq<Memo>, plan: Plan, ids: NewIds, time: int, rule: Memo, n: nat)
    requires DistinctIds(memos) && BuiltFrom(plan, judge, memos) && FreshIds(t, plan, ids) && UnknownToPlan(plan, ids)
    requires rule.id in t && t[rule.id] == rule && DistilledRule(rule) && AsPlanned(memos, rule)
    requires n <= |Additions(plan, ids, time) + AllRemovals(plan)|
    ensures Survives(ApplyAll(t, (Additions(plan, ids, time) + AllRemovals(plan))[..n]), rule, plan, ids, time)
  {
    PlannedRuleIsSpared(judge, memos, plan, rule);
    SparedSurvives(t, plan, ids, time, rule, n);
  }

  /** A stale memo that its user has adopted since the plan was made is deleted all the same. */
  lemma LateRuleIsLost(ids: NewIds, time: int)
    returns (judge: Judge, memo: Memo, rule: Memo, plan: Plan)
    requires ids.resolved != "old" && ids.stale != "old" && ids.resolved != ids.stale
    ensures BuiltFrom(plan, judge, [memo]) && !DistilledRule(memo) && rule == memo.(origin := User) && DistilledRule(rule)
    ensures FreshIds(map[rule.id := rule], plan, ids) && UnknownToPlan(plan, ids)
    ensures !Survives(ApplyAll(map[rule.id := rule], Additions(plan, ids, time) + AllRemovals(plan)), rule, plan, ids, time)
  {
    judge := Judge((a: Memo, b: Memo) => false, (s: string) => false, (s: string) => false, STALE_MS + 1);
    memo := Memo("old", 0, "", "", "", "", "", Session, "", []);
    rule := memo.(origin := User);
    plan := Plan([], [], [memo]);
    assert Trim(memo.distilled) == "";
    assert Stale(judge, memo) && !Resolved(judge, memo);
    assert [memo][1..] == [];
    assert Filter((m: Memo) => Stale(judge, m), [memo]) == [memo];
    assert Filter((m: Memo) => Resolved(judge, m), [memo]) == [];
    assert Extend(judge, [memo], 1, {}, [memo]) == [memo];
    assert Groups(judge, [memo], 0, {}) == [];
    assert plan.stale[0].id == rule.id;
    UnsparedIsLost(map[rule.id := rule], plan, ids, time, rule);
  }

  lemma DoneDeletesFollow(added: seq<Write>, removed: seq<Write>, n: nat, id: Id)
    requires n <= |added + removed| && Delete(id) in (added + removed)[..n] && forall w | w in added :: w.Append?
    ensures |added| <= n && (added + removed)[..n] == added + removed[..n - |added|]
    ensures Delete(id) in removed
  {
    var all := added + removed;
    assert forall k | 0 <= k < |added| :: all[k] == added[k] && added[k] in added;
    var i :| 0 <= i < n && all[i] == Delete(id);
    assert removed[i - |added|] == Delete(id);
  }

  lemma StoredBehind(t: Table, added: seq<Write>, deleted: seq<Write>, memo: Memo)
    requires Append(memo) in added && memo.id !in t && AddsAtMostOnce(added, memo.id)
    requires (forall w | w in added :: w.Append?) && forall w | w in deleted :: w.Delete? && w.id != memo.id
    ensures var after := ApplyAll(t, added + deleted); memo.id in after && after[memo.id] == memo
  {
    var all := added + deleted;
    assert forall k | |added| <= k < |all| :: all[k] == deleted[k - |added|] && all[k] in deleted;
    forall i, j | 0 <= i < j < |all| && all[i].Append? && all[j].Append? && all[i].memo.id == memo.id
      ensures all[j].memo.id != memo.id
    {
    }
    AppendedIsStored(t, all, memo);
  }

  /** A conclusion stays one when it is stored trimmed. */
  lemma TrimTwice(s: string)
    requires Trim(s) != ""
    ensures Trim(Trim(s)) != ""
  {
    TrimmedEmpty(s);
    StartTrimmed(s);
    EndKeeps(TrimStart(s));
    TrimmedEmpty(Trim(s));
  }

  lemma {:induction false} EndKeeps(s: string)
    requires !AllBlank(s)
    ensures !AllBlank(TrimEnd(s))
    decreases |s|
  {
    if s != "" && Blank(s[|s| - 1]) {
      assert forall i | 0 <= i < |s| - 1 :: s[i] == s[..|s| - 1][i];
      EndKeeps(s[..|s| - 1]);
    }
  }
}
