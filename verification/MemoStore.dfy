/**
 The memory store as an object: statements that change its table, and the generator that
 reads it page by page while other callers write.
 */
module MemoStore {
  import opened RowIds
  import opened Wrappers
  import opened MemoTable
  import opened KeysetPaging

  /** The pages read so far and those still to come, when the next is asked for. */
  ghost predicate OnTheWay(batch: BatchSize, whole: seq<Row>, ends: bool, yielded: seq<Row>, t: Table,
                           dir: Option<string>, cursor: Option<Cursor>, ahead: seq<seq<Write>>) {
    whole == yielded + Read(batch, t, dir, cursor, ahead) && (ends <==> Terminates(batch, t, dir, cursor, ahead))
  }

  lemma LastRound(batch: BatchSize, whole: seq<Row>, ends: bool, yielded: seq<Row>, t: Table, dir: Option<string>,
                  cursor: Option<Cursor>, ahead: seq<seq<Write>>, rows: seq<Row>)
    requires OnTheWay(batch, whole, ends, yielded, t, dir, cursor, ahead)
    requires rows == Page(t, dir, cursor, batch) && (|rows| < batch || ahead == [])
    ensures whole == yielded + rows && (ends <==> |rows| < batch)
  {}

  lemma MiddleRound(batch: BatchSize, whole: seq<Row>, ends: bool, yielded: seq<Row>, t: Table, dir: Option<string>,
                    cursor: Option<Cursor>, ahead: seq<seq<Write>>, rows: seq<Row>, next: Option<Cursor>, after: Table)
    requires OnTheWay(batch, whole, ends, yielded, t, dir, cursor, ahead)
    requires rows == Page(t, dir, cursor, batch) && |rows| == batch && ahead != []
    requires next == Some(LastPos(rows)) && after == ApplyAll(t, ahead[0])
    ensures OnTheWay(batch, whole, ends, yielded + rows, after, dir, next, ahead[1..])
  {
    var last, afterwards, rest := ReadUnfolds(batch, t, dir, cursor, ahead, rows);
    Reassociate(yielded, rows, rest);
  }

  lemma Reassociate(a: seq<Row>, b: seq<Row>, c: seq<Row>)
    ensures a + (b + c) == a + b + c
  {}

  class Store {
    var memos: Table

    ghost predicate Valid()
      reads this
    {
      UniqueIds(memos)
    }

    constructor ()
      ensures Valid() && memos == map[]
    {
      memos := map[];
    }

    /** `SELECT rowid FROM memos WHERE id = ?` */
    function RowOf(id: string): (row: Option<nat>)
      reads this
      ensures row.None? <==> Rows(memos, id) == {}
      ensures row.Some? ==> row.value in memos && row.value == LargestOf(Rows(memos, id))
    {
      if Rows(memos, id) == {} then None else Some(LargestOf(Rows(memos, id)))
    }

    /** `appendInternal`: the insert, or the primary key's refusal and a rollback. */
    method AppendMemo(memo: Memo) returns (stored: bool)
      requires Valid()
      modifies this
      ensures Valid() && memos == Apply(old(memos), Append(memo))
      ensures stored <==> forall r | r in old(memos) :: old(memos)[r].id != memo.id
    {
      ApplyKeepsUniqueIds(memos, Append(memo));
      stored := RowOf(memo.id).None?;
      if stored {
        forall r | r in memos ensures memos[r].id != memo.id {
          assert r !in Rows(memos, memo.id);
        }
        memos := memos[NextRowId(memos) := memo];
      }
    }

    /** `updateInternal`: the row gets the patched columns and moves to a new identity. */
    method UpdateMemo(id: string, patch: Patch) returns (found: bool)
      requires Valid()
      modifies this
      ensures Valid() && memos == Apply(old(memos), Update(id, patch))
      ensures found <==> exists r :: r in old(memos) && old(memos)[r].id == id
    {
      ApplyKeepsUniqueIds(memos, Update(id, patch));
      var row := RowOf(id);
      found := row.Some?;
      if found {
        var updated := Patched(memos[row.value], patch);
        var next := NextRowId(memos);
        memos := (memos - {row.value})[next := updated];
      } else {
        forall r | r in memos ensures memos[r].id != id {
          assert r !in Rows(memos, id);
        }
      }
    }

    /** `deleteInternal` */
    method DeleteMemo(id: string)
      requires Valid()
      modifies this
      ensures Valid() && memos == Apply(old(memos), Delete(id))
      ensures forall r | r in memos :: memos[r].id != id
    {
      ApplyKeepsUniqueIds(memos, Delete(id));
      var row := RowOf(id);
      if row.Some? {
        TheRow(memos, id, row.value);
        memos := memos - {row.value};
      }
      forall r | r in memos ensures memos[r].id != id {
        assert r in old(memos);
        assert r !in Rows(old(memos), id);
      }
    }

    /** What other callers do between two pages. */
    method Write(writes: seq<Write>)
      requires Valid()
      modifies this
      ensures Valid() && memos == ApplyAll(old(memos), writes)
    {
      for i := 0 to |writes|
        invariant Valid() && ApplyAll(memos, writes[i..]) == ApplyAll(old(memos), writes)
      {
        assert writes[i..][0] == writes[i] && writes[i..][1..] == writes[i + 1..];
        match writes[i]
        case Append(memo) => var _ := AppendMemo(memo);
        case Update(id, patch) => var _ := UpdateMemo(id, patch);
        case Delete(id) => DeleteMemo(id);
      }
    }

    /** `read`, with the writes that others make between its pages. */
    method ReadMemos(batch: BatchSize, dir: Option<string>, others: seq<seq<Write>>)
      returns (yielded: seq<Row>, finished: bool)
      requires Valid()
      modifies this
      ensures yielded == Read(batch, old(memos), dir, None, others)
      ensures finished <==> Terminates(batch, old(memos), dir, None, others)
    {
      ghost var whole := Read(batch, memos, dir, None, others);
      ghost var ends := Terminates(batch, memos, dir, None, others);
      yielded := [];
      var cursor: Option<Cursor> := None;
      var ahead := others;
      while true
        invariant Valid() && OnTheWay(batch, whole, ends, yielded, memos, dir, cursor, ahead)
        decreases |ahead|
      {
        var rows := Page(memos, dir, cursor, batch);
        if |rows| < batch || ahead == [] {
          LastRound(batch, whole, ends, yielded, memos, dir, cursor, ahead, rows);
          return yielded + rows, |rows| < batch;
        }
        var next := Some(LastPos(rows));
        ghost var after := ApplyAll(memos, ahead[0]);
        MiddleRound(batch, whole, ends, yielded, memos, dir, cursor, ahead, rows, next, after);
        Write(ahead[0]);
        yielded, cursor, ahead := yielded + rows, next, ahead[1..];
      }
    }
  }
}
