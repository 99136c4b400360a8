/**
 What applying a plan keeps and what it takes: which memos are due for deletion, by age and
 outcome, and that the experience of resolved and stale memos is on record before they go.
 */
module ConsolidationKept {
  import opened Consolidation
  import opened ConsolidationApply
  import opened ConsolidationSafety
  import opened Whitespace
  import opened Wrappers

  // ---------------------------------------------------------------- what goes

  /** No rule, its outcome reads as completed, and it is more than seven days old. */
  ghost predicate DoneForAWeek(judge: Judge, m: Memo) {
    !DistilledRule(m) && judge.completed(m.outcome) && m.recordedAt < judge.now - 604_800_000
  }

  /** No rule, its outcome reads neither as completed nor as blocked, and it is more than thirty days old. */
  ghost predicate IdleForAMonth(judge: Judge, m: Memo) {
    !DistilledRule(m) && !judge.completed(m.outcome) && !judge.blocked(m.outcome) && m.recordedAt < judge.now - 2_592_000_000
  }

  /** The memo is one of a group that is merged. */
  ghost predicate MergedAway(plan: Plan, m: Memo) {
    exists g: nat :: g < |plan.groups| && Mergeable(plan.groups[g]) && m in plan.groups[g].memos
  }

  lemma OnlyOne(memos: seq<Memo>, m: Memo, n: Memo)
    requires DistinctIds(memos) && m in memos && n in memos && m.id == n.id
    ensures m == n
  {
    var a :| 0 <= a < |memos| && memos[a] == m;
    var b :| 0 <= b < |memos| && memos[b] == n;
    assert !(a < b) && !(b < a);
  }

  lemma NamedByFilter(memos: seq<Memo>, keep: Memo -> bool, m: Memo)
    requires DistinctIds(memos) && m in memos
    ensures NamedIn(Filter(keep, memos), m.id) <==> keep(m)
  {
    var kept := Filter(keep, memos);
    if NamedIn(kept, m.id) {
      var k :| 0 <= k < |kept| && kept[k].id == m.id;
      assert kept[k] in kept;
      OnlyOne(memos, m, kept[k]);
    }
    if keep(m) {
      var k :| 0 <= k < |kept| && kept[k] == m;
      assert kept[k].id == m.id;
    }
  }

  lemma GroupMember(judge: Judge, memos: seq<Memo>, plan: Plan, g: nat, k: nat)
    requires DistinctIds(memos) && BuiltFrom(plan, judge, memos) && g < |plan.groups| && k < |plan.groups[g].memos|
    ensures plan.groups[g].memos[k] in memos
  {
    var groups := Groups(judge, memos, 0, {});
    GroupsAreGood(judge, memos, 0, {});
    assert GoodGroup(judge, memos, {}, groups[g]);
    assert plan.groups[g].memos == groups[g];
  }

  lemma MergedIff(judge: Judge, memos: seq<Memo>, plan: Plan, m: Memo)
    requires DistinctIds(memos) && BuiltFrom(plan, judge, memos) && m in memos
    ensures DeletedWithGroup(plan.groups, m.id) <==> MergedAway(plan, m)
  {
    if DeletedWithGroup(plan.groups, m.id) {
      var g: nat, k: nat :| g < |plan.groups| && Mergeable(plan.groups[g]) && k < |plan.groups[g].memos|
        && plan.groups[g].memos[k].id == m.id;
      GroupMember(judge, memos, plan, g, k);
      OnlyOne(memos, m, plan.groups[g].memos[k]);
      assert m in plan.groups[g].memos;
    }
    if MergedAway(plan, m) {
      var g: nat :| g < |plan.groups| && Mergeable(plan.groups[g]) && m in plan.groups[g].memos;
      var k :| 0 <= k < |plan.groups[g].memos| && plan.groups[g].memos[k] == m;
      assert plan.groups[g].memos[k].id == m.id;
    }
  }

  /** A plan names a memo of its store for deletion exactly when it is long done, long idle, or merged. */
  lemma DoomedIff(judge: Judge, memos: seq<Memo>, plan: Plan, m: Memo)
    requires DistinctIds(memos) && BuiltFrom(plan, judge, memos) && m in memos
    ensures Doomed(plan, m.id) <==> DoneForAWeek(judge, m) || IdleForAMonth(judge, m) || MergedAway(plan, m)
  {
    NamedByFilter(memos, (x: Memo) => Resolved(judge, x), m);
    NamedByFilter(memos, (x: Memo) => Stale(judge, x), m);
    MergedIff(judge, memos, plan, m);
  }

  /**
   When all writes are done a memo is in the store, as it was, exactly when it is none of
   these: so nothing younger than a week goes unless it is merged, no rule goes unless it is
   merged, and nothing that reads as blocked does.
   */
  lemma MemoStaysIff(t: Table, judge: Judge, memos: seq<Memo>, plan: Plan, ids: NewIds, time: int, m: Memo)
    requires DistinctIds(memos) && BuiltFrom(plan, judge, memos) && FreshIds(t, plan, ids)
    requires m in memos && m.id in t && t[m.id] == m
    ensures var after := ApplyAll(t, Additions(plan, ids, time) + AllRemovals(plan));
      && (m.id in after <==> !DoneForAWeek(judge, m) && !IdleForAMonth(judge, m) && !MergedAway(plan, m))
      && (m.id in after ==> after[m.id] == m)
  {
    var added, removed := Additions(plan, ids, time), AllRemovals(plan);
    DoomedIff(judge, memos, plan, m);
    AdditionsShape(t, plan, ids, time);
    RemovedIffDoomed(plan);
    forall w: Write | w in added + removed
      ensures w.Append? ==> w.memo.id != m.id
    {
      assert w in added || w in removed;
    }
    if Doomed(plan, m.id) {
      assert Delete(m.id) in removed && Delete(m.id) in added + removed;
      DeletedIsGone(t, added + removed, m.id);
    } else {
      assert Delete(m.id) !in added + removed;
      RowStays(t, added + removed, m.id);
    }
  }

  // ---------------------------------------------------------------- what is on record

  /** The text stands somewhere in the other. */
  ghost predicate Holds(s: string, part: string) {
    exists i: nat :: StandsAt(s, part, i)
  }

  ghost predicate StandsAt(s: string, part: string, i: nat) {
    i + |part| <= |s| && s[i..i + |part|] == part
  }

  lemma HoldsBehind(front: string, s: string, part: string)
    requires Holds(s, part)
    ensures Holds(front + s, part)
  {
    var i: nat :| StandsAt(s, part, i);
    var j := |front| + i;
    assert (front + s)[j..j + |part|] == s[i..i + |part|];
    assert StandsAt(front + s, part, j);
  }

  lemma HoldsFront(part: string, rest: string)
    ensures Holds(part + rest, part)
  {
    assert StandsAt(part + rest, part, 0);
  }

  lemma {:induction false} JoinHolds(memos: seq<Memo>, text: Memo -> string, k: nat)
    requires k < |memos|
    ensures Holds(Join(memos, text), text(memos[k]))
  {
    var first, rest := text(memos[0]), Join(memos[1..], text);
    assert rest + "" == rest && first + "" == first;
    if k == 0 {
      if first == "" {
        HoldsFront("", Join(memos, text));
        assert "" + Join(memos, text) == Join(memos, text);
      } else if rest == "" {
        HoldsFront(first, "");
      } else {
        HoldsFront(first, "; " + rest);
        assert first + ("; " + rest) == first + "; " + rest;
      }
    } else {
      JoinHolds(memos[1..], text, k - 1);
      assert memos[1..][k - 1] == memos[k];
      if rest == "" {
        HoldsNothing(text(memos[k]));
        HoldsFront("", Join(memos, text));
        assert "" + Join(memos, text) == Join(memos, text);
      } else if first != "" {
        HoldsBehind(first + "; ", rest, text(memos[k]));
      }
    }
  }

  lemma HoldsNothing(part: string)
    requires Holds("", part)
    ensures part == ""
  {}

  /** The non-empty texts, in their order. */
  function Texts(memos: seq<Memo>, text: Memo -> string): seq<string> {
    if memos == [] then []
    else
      var last := text(memos[|memos| - 1]);
      Texts(memos[..|memos| - 1], text) + if last == "" then [] else [last]
  }

  function Separated(texts: seq<string>): string {
    if texts == [] then ""
    else if |texts| == 1 then texts[0]
    else Separated(texts[..|texts| - 1]) + "; " + texts[|texts| - 1]
  }

  lemma {:induction false} TextsSplit(first: Memo, rest: seq<Memo>, text: Memo -> string)
    ensures Texts([first] + rest, text) == (if text(first) == "" then [] else [text(first)]) + Texts(rest, text)
  {
    var all := [first] + rest;
    if rest == [] {
      assert all[..0] == [] && all[0] == first;
      assert Texts(all, text) == Texts([], text) + if text(first) == "" then [] else [text(first)];
    } else {
      var n := |rest| - 1;
      assert all[..|all| - 1] == [first] + rest[..n] && all[|all| - 1] == rest[n];
      TextsSplit(first, rest[..n], text);
    }
  }

  lemma {:induction false} SeparatedSplit(first: string, rest: seq<string>)
    requires rest != []
    ensures Separated([first] + rest) == first + "; " + Separated(rest)
  {
    var all, n := [first] + rest, |rest| - 1;
    assert all[..|all| - 1] == [first] + rest[..n] && all[|all| - 1] == rest[n];
    if n == 0 {
      assert [first] + rest[..n] == [first] && Separated([first]) == first;
    } else {
      SeparatedSplit(first, rest[..n]);
      var front := Separated(rest[..n]);
      assert first + "; " + front + "; " + rest[n] == first + "; " + (front + "; " + rest[n]);
    }
  }

  lemma {:induction false} SeparatedIsText(texts: seq<string>)
    requires texts != [] && forall i | 0 <= i < |texts| :: texts[i] != ""
    ensures Separated(texts) != ""
  {
    if |texts| > 1 {
      SeparatedIsText(texts[..|texts| - 1]);
    }
  }

  lemma {:induction false} TextsAreTexts(memos: seq<Memo>, text: Memo -> string)
    ensures forall i | 0 <= i < |Texts(memos, text)| :: Texts(memos, text)[i] != ""
  {
    if memos != [] {
      TextsAreTexts(memos[..|memos| - 1], text);
    }
  }

  /** The joined text is the non-empty texts in order, with a semicolon and a blank between two of them and nothing else. */
  lemma {:induction false} JoinIsSeparated(memos: seq<Memo>, text: Memo -> string)
    ensures Join(memos, text) == Separated(Texts(memos, text))
  {
    if memos != [] {
      var first, rest := memos[0], memos[1..];
      assert memos == [first] + rest;
      JoinIsSeparated(rest, text);
      TextsSplit(first, rest, text);
      TextsAreTexts(rest, text);
      var texts := Texts(rest, text);
      if texts == [] {
        assert [text(first)] + texts == [text(first)] && [] + texts == texts;
      } else {
        SeparatedIsText(texts);
        assert [] + texts == texts;
        if text(first) != "" {
          SeparatedSplit(text(first), texts);
        }
      }
    }
  }

  /** The archive of a list: what worked and what failed for any of its memos is in it, and nothing is archived for nothing. */
  ghost predicate OnRecord(archived: Memo, m: Memo) {
    && (m.whatWorked != "" ==> Holds(archived.whatWorked, m.whatWorked))
    && (m.whatFailed != "" ==> Holds(archived.whatFailed, m.whatFailed))
  }

  ghost predicate HasExperience(m: Memo) {
    m.whatWorked != "" || m.whatFailed != ""
  }

  /** A memo is archived exactly when some memo of the list has experience to keep, and the archive has it all, in order. */
  lemma ArchiveIff(memos: seq<Memo>, need: string, approach: string, outcome: string, id: Id, now: int)
    ensures var writes := Archive(memos, need, approach, outcome, id, now);
      var worked, failed := Texts(memos, (m: Memo) => m.whatWorked), Texts(memos, (m: Memo) => m.whatFailed);
      if exists k :: 0 <= k < |memos| && HasExperience(memos[k]) then
        && writes == [Append(Memo(id, now, need, approach, outcome, if failed == [] then "none" else Separated(failed),
                                  if worked == [] then "none" else Separated(worked), Session, "", []))]
        && forall k | 0 <= k < |memos| :: OnRecord(writes[0].memo, memos[k])
      else writes == []
  {
    var worked, failed := (m: Memo) => m.whatWorked, (m: Memo) => m.whatFailed;
    EmptyTextsIff(memos, worked);
    EmptyTextsIff(memos, failed);
    forall k | 0 <= k < |memos|
      ensures Holds(Join(memos, worked), memos[k].whatWorked) && Holds(Join(memos, failed), memos[k].whatFailed)
    {
      JoinHolds(memos, worked, k);
      JoinHolds(memos, failed, k);
    }
  }

  lemma EmptyTextsIff(memos: seq<Memo>, text: Memo -> string)
    ensures Join(memos, text) == Separated(Texts(memos, text))
    ensures Join(memos, text) == "" <==> Texts(memos, text) == []
    ensures Texts(memos, text) == [] <==> forall k | 0 <= k < |memos| :: text(memos[k]) == ""
  {
    JoinIsSeparated(memos, text);
    TextsAreTexts(memos, text);
    if Texts(memos, text) != [] {
      SeparatedIsText(Texts(memos, text));
    }
    NoTextsIff(memos, text);
  }

  lemma {:induction false} NoTextsIff(memos: seq<Memo>, text: Memo -> string)
    ensures Texts(memos, text) == [] <==> forall k | 0 <= k < |memos| :: text(memos[k]) == ""
  {
    if memos != [] {
      var front, n := memos[..|memos| - 1], |memos| - 1;
      NoTextsIff(front, text);
      assert forall k | 0 <= k < n :: front[k] == memos[k];
    }
  }

  function ResolvedArchive(plan: Plan, ids: NewIds, now: int): seq<Write> {
    Archive(plan.resolved, "已解决任务的经验归档（dream 整理）", "多次尝试后解决", "已完成", ids.resolved, now)
  }

  function StaleArchive(plan: Plan, ids: NewIds, now: int): seq<Write> {
    Archive(plan.stale, "过期记忆的经验归档（dream 整理）", "距今超过30天未使用", "已归档", ids.stale, now)
  }

  lemma AddedOnceAmong(before: seq<Write>, one: seq<Write>, behind: seq<Write>, id: Id)
    requires |one| <= 1
    requires forall w: Write | w in before || w in behind :: w.Append? && w.memo.id != id
    ensures AddsAtMostOnce(before + one + behind, id)
  {
    var all := before + one + behind;
    var from := |before| + |one|;
    assert forall k | 0 <= k < |before| :: all[k] == before[k] && before[k] in before;
    assert forall k | from <= k < |all| :: all[k] == behind[k - from] && behind[k - from] in behind;
  }

  lemma MergedUnder(groups: seq<Group>, ids: NewIds, now: int, id: Id)
    requires forall g: nat | g < |groups| :: ids.merged(g) != id
    ensures forall w | w in Merges(groups, ids, now) :: w.Append? && w.memo.id != id
  {
    MergesShape(groups, ids, now);
  }

  ghost predicate AllUnder(writes: seq<Write>, id: Id) {
    forall w: Write | w in writes :: w.Append? && w.memo.id == id
  }

  ghost predicate NoneUnder(writes: seq<Write>, id: Id) {
    forall w: Write | w in writes :: w.Append? && w.memo.id != id
  }

  lemma EachOnce(a: seq<Write>, b: seq<Write>, c: seq<Write>, first: Id, second: Id)
    requires |a| <= 1 && |b| <= 1 && first != second && AllUnder(a, first) && AllUnder(b, second)
    requires NoneUnder(c, first) && NoneUnder(c, second)
    ensures AddsAtMostOnce(a + b + c, first) && AddsAtMostOnce(a + b + c, second)
  {
    AddedOnceAmong([], a, b + c, first);
    AddedOnceAmong(a, b, c, second);
    assert [] + a + (b + c) == a + b + c;
  }

  /** Both archives are added once. */
  lemma ArchivesAddedOnce(t: Table, plan: Plan, ids: NewIds, now: int)
    requires FreshIds(t, plan, ids)
    ensures Additions(plan, ids, now) == ResolvedArchive(plan, ids, now) + StaleArchive(plan, ids, now) + Merges(plan.groups, ids, now)
    ensures AddsAtMostOnce(Additions(plan, ids, now), ids.resolved) && AddsAtMostOnce(Additions(plan, ids, now), ids.stale)
  {
    var a, b, merges := ResolvedArchive(plan, ids, now), StaleArchive(plan, ids, now), Merges(plan.groups, ids, now);
    assert |a| <= 1 && AllUnder(a, ids.resolved);
    assert |b| <= 1 && AllUnder(b, ids.stale);
    MergedUnder(plan.groups, ids, now, ids.resolved);
    MergedUnder(plan.groups, ids, now, ids.stale);
    EachOnce(a, b, merges, ids.resolved, ids.stale);
  }

  /** The memo is stored as it was, or what worked and what failed for it is on record under that identity. */
  ghost predicate Remembered(now: Table, m: Memo, id: Id) {
    (m.id in now && now[m.id] == m) || (HasExperience(m) ==> id in now && OnRecord(now[id], m))
  }

  lemma RememberedAt(t: Table, added: seq<Write>, removed: seq<Write>, m: Memo, archived: Memo, n: nat)
    requires n <= |added + removed| && m.id in t && t[m.id] == m
    requires forall w | w in added :: w.Append? && w.memo.id !in t
    requires forall w | w in removed :: w.Delete? && w.id != archived.id
    requires HasExperience(m) ==>
      OnRecord(archived, m) && Append(archived) in added && AddsAtMostOnce(added, archived.id)
    ensures Remembered(ApplyAll(t, (added + removed)[..n]), m, archived.id)
  {
    var done := (added + removed)[..n];
    if Delete(m.id) !in done {
      RowStays(t, done, m.id);
    } else if HasExperience(m) {
      DoneDeletesFollow(added, removed, n, m.id);
      StoredBehind(t, added, removed[..n - |added|], archived);
    }
  }

  /** Wherever the writes break off, what a resolved or a stale memo has to teach is in the store, in itself or in its archive. */
  lemma ExperienceSurvivesCrash(t: Table, plan: Plan, ids: NewIds, time: int, m: Memo, n: nat)
    requires FreshIds(t, plan, ids) && !Doomed(plan, ids.resolved) && !Doomed(plan, ids.stale)
    requires m.id in t && t[m.id] == m && n <= |Additions(plan, ids, time) + AllRemovals(plan)|
    ensures var now := ApplyAll(t, (Additions(plan, ids, time) + AllRemovals(plan))[..n]);
      (m in plan.resolved ==> Remembered(now, m, ids.resolved)) && (m in plan.stale ==> Remembered(now, m, ids.stale))
  {
    var added, removed := Additions(plan, ids, time), AllRemovals(plan);
    var a, b := ResolvedArchive(plan, ids, time), StaleArchive(plan, ids, time);
    assert added == a + b + Merges(plan.groups, ids, time);
    AdditionsShape(t, plan, ids, time);
    RemovedIffDoomed(plan);
    ArchivesAddedOnce(t, plan, ids, time);
    if m in plan.resolved {
      var archived := RecordOf(plan.resolved, a, m, "已解决任务的经验归档（dream 整理）", "多次尝试后解决", "已完成", ids.resolved, time);
      RememberedAt(t, added, removed, m, archived, n);
    }
    if m in plan.stale {
      var archived := RecordOf(plan.stale, b, m, "过期记忆的经验归档（dream 整理）", "距今超过30天未使用", "已归档", ids.stale, time);
      RememberedAt(t, added, removed, m, archived, n);
    }
  }

  lemma RecordOf(memos: seq<Memo>, writes: seq<Write>, m: Memo, need: string, approach: string, outcome: string, id: Id, now: int)
    returns (archived: Memo)
    requires m in memos && writes == Archive(memos, need, approach, outcome, id, now)
    ensures archived.id == id && (HasExperience(m) ==> Append(archived) in writes && OnRecord(archived, m))
  {
    ArchiveIff(memos, need, approach, outcome, id, now);
    var k :| 0 <= k < |memos| && memos[k] == m;
    if HasExperience(m) {
      assert HasExperience(memos[k]);
      archived := writes[0].memo;
    } else {
      archived := m.(id := id);
    }
  }

  /** When all writes are done, each group that is merged has its memo in the store, with the texts written for it, the time and the lineage. */
  lemma MergedIsStored(t: Table, plan: Plan, ids: NewIds, time: int, g: nat)
    requires FreshIds(t, plan, ids) && UnknownToPlan(plan, ids) && g < |plan.groups| && Mergeable(plan.groups[g])
    ensures var after := ApplyAll(t, Additions(plan, ids, time) + AllRemovals(plan));
      var group := plan.groups[g];
      && ids.merged(g) in after
      && var m := after[ids.merged(g)];
      && m.id == ids.merged(g) && m.recordedAt == time && m.origin == Dream && m.distilled == Trim(group.merged.distilled)
      && m.userNeed == group.merged.userNeed && m.approach == group.merged.approach && m.outcome == group.merged.outcome
      && m.whatFailed == group.merged.whatFailed && m.whatWorked == group.merged.whatWorked
      && m.distilledFrom == Last100(SortByTime(NoteAll([], Ancestry(group.memos))))
  {
    AdditionsShape(t, plan, ids, time);
    RemovedIffDoomed(plan);
    StoredBehind(t, Additions(plan, ids, time), AllRemovals(plan), MergedMemo(plan.groups[g], ids.merged(g), time));
  }
}
