/**
 The `memos` table of the memory store and the writes that change it. Row identities
 matter: a new row takes the largest one plus one, and so does an updated row.
 */
module MemoTable {
  import opened Wrappers
  import opened RowIds

  /** `body` stands for the columns that neither the cursor nor the filter looks at. */
  datatype Memo = Memo(id: string, recordedAt: int, projectDir: string, body: string)

  type Table = map<nat, Memo>

  /** A patch as `update` takes it: absent fields stay. */
  datatype Patch = Patch(recordedAt: Option<int>, projectDir: Option<string>, body: Option<string>)

  datatype Write = Append(memo: Memo) | Update(id: string, patch: Patch) | Delete(id: string)

  /** `id` is the table's primary key. */
  ghost predicate UniqueIds(t: Table) {
    forall r, q | r in t && q in t && t[r].id == t[q].id :: r == q
  }

  /** `COALESCE(MAX(rowid), 0) + 1`, which is also what SQLite gives a new row. */
  function NextRowId(t: Table): (next: nat)
    ensures next > 0 && forall r | r in t :: r < next
  {
    NextAfter(t.Keys)
  }

  function Rows(t: Table, id: string): set<nat> {
    set r | r in t && t[r].id == id
  }

  function Patched(m: Memo, p: Patch): Memo {
    Memo(m.id, if p.recordedAt.Some? then p.recordedAt.value else m.recordedAt,
         if p.projectDir.Some? then p.projectDir.value else m.projectDir,
         if p.body.Some? then p.body.value else m.body)
  }

  /** A write and the table after it; a write that fails or finds no row changes nothing. */
  function Apply(t: Table, w: Write): Table {
    match w
    case Append(memo) => if Rows(t, memo.id) == {} then t[NextRowId(t) := memo] else t
    case Update(id, patch) =>
      if Rows(t, id) == {} then t
      else
        var r := LargestOf(Rows(t, id));
        (t - {r})[NextRowId(t) := Patched(t[r], patch)]
    case Delete(id) => t - Rows(t, id)
  }

  function ApplyAll(t: Table, writes: seq<Write>): Table
    decreases |writes|
  {
    if writes == [] then t else ApplyAll(Apply(t, writes[0]), writes[1..])
  }

  lemma TheRow(t: Table, id: string, r: nat)
    requires UniqueIds(t) && r in t && t[r].id == id
    ensures Rows(t, id) == {r} && LargestOf(Rows(t, id)) == r
  {
    assert r in Rows(t, id);
    forall q | q in Rows(t, id) ensures q == r {}
    assert LargestOf({r}) == r;
  }

  lemma ApplyKeepsUniqueIds(t: Table, w: Write)
    requires UniqueIds(t)
    ensures UniqueIds(Apply(t, w))
  {
    match w
    case Append(memo) =>
      if Rows(t, memo.id) == {} {
        forall r | r in t ensures t[r].id != memo.id {
          assert r !in Rows(t, memo.id);
        }
      }
    case Update(id, patch) =>
      if r :| r in t && t[r].id == id {
        TheRow(t, id, r);
      }
    case Delete(_) =>
  }

  // ---------------------------------------------------------------- the table by identity

  ghost predicate Holds(t: Table, m: Memo) {
    exists r :: r in t && t[r] == m
  }

  /** `m` has the patched columns of `p` and all other columns of `was`. */
  ghost predicate Updates(was: Memo, p: Patch, m: Memo) {
    && m.id == was.id
    && (forall at :: p.recordedAt == Some(at) ==> m.recordedAt == at)
    && (p.recordedAt.None? ==> m.recordedAt == was.recordedAt)
    && (forall dir :: p.projectDir == Some(dir) ==> m.projectDir == dir)
    && (p.projectDir.None? ==> m.projectDir == was.projectDir)
    && (forall text :: p.body == Some(text) ==> m.body == text)
    && (p.body.None? ==> m.body == was.body)
  }

  /**
   An update puts the patched columns into the one memo with the identity and leaves its
   other columns and all other memos alone; an identity the table does not have changes nothing.
   */
  lemma UpdateIsPatch(t: Table, id: string, patch: Patch, m: Memo)
    requires UniqueIds(t)
    ensures Holds(Apply(t, Update(id, patch)), m) <==>
      if m.id != id then Holds(t, m) else exists was :: Holds(t, was) && was.id == id && Updates(was, patch, m)
  {
    if r :| r in t && t[r].id == id {
      TheRow(t, id, r);
      var after := Apply(t, Update(id, patch));
      assert after == (t - {r})[NextRowId(t) := Patched(t[r], patch)];
      assert Updates(t[r], patch, Patched(t[r], patch)) && Holds(t, t[r]);
      assert NextRowId(t) in after;
      forall was | Holds(t, was) && was.id == id
        ensures was == t[r]
      {}
      if m.id != id && Holds(t, m) {
        var q :| q in t && t[q] == m;
        assert q in after && after[q] == m;
      }
    } else {
      assert Rows(t, id) == {};
    }
  }

  /** A new memo is stored as it is unless its identity is taken, and a deletion takes out one identity's memo. */
  lemma AppendAndDelete(t: Table, memo: Memo, id: string, m: Memo)
    ensures Holds(Apply(t, Append(memo)), m) <==>
      Holds(t, m) || (m == memo && forall r | r in t :: t[r].id != memo.id)
    ensures Holds(Apply(t, Delete(id)), m) <==> Holds(t, m) && m.id != id
  {
    var added := Apply(t, Append(memo));
    if r :| r in t && t[r].id == memo.id {
      assert r in Rows(t, memo.id);
    } else {
      assert Rows(t, memo.id) == {};
      assert NextRowId(t) in added;
      if Holds(t, m) {
        var q :| q in t && t[q] == m;
        assert q in added && added[q] == m;
      }
    }
    var kept := Apply(t, Delete(id));
    if Holds(t, m) && m.id != id {
      var q :| q in t && t[q] == m;
      assert q in kept && kept[q] == m;
    }
  }
}
