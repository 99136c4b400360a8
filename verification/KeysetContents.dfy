/** What a read returns, told from the table: rows of the project that stood in the store, and on a quiet store all of them. */
module KeysetContents {
  import opened Wrappers
  import opened MemoTable
  import opened KeysetPaging

  /** The store when page k is read. */
  function TableAt(t: Table, between: seq<seq<Write>>, k: nat): Table
    requires k <= |between|
    decreases k
  {
    if k == 0 then t else TableAt(ApplyAll(t, between[0]), between[1..], k - 1)
  }

  predicate StoodIn(t: Table, row: Row) {
    row.rowId in t && t[row.rowId] == row.memo
  }

  /** A project's memos are its own and those without a project; without a project all are asked for. */
  predicate AskedFor(row: Row, dir: Option<string>) {
    dir == None || dir == Some(row.memo.projectDir) || row.memo.projectDir == []
  }

  ghost predicate StoodOnce(t: Table, between: seq<seq<Write>>, row: Row) {
    exists k: nat :: k <= |between| && StoodIn(TableAt(t, between, k), row)
  }

  lemma StoodLater(t: Table, between: seq<seq<Write>>, row: Row)
    requires between != [] && StoodOnce(ApplyAll(t, between[0]), between[1..], row)
    ensures StoodOnce(t, between, row)
  {
    var after, later := ApplyAll(t, between[0]), between[1..];
    var k: nat :| k <= |later| && StoodIn(TableAt(after, later, k), row);
    var next := k + 1;
    assert TableAt(t, between, next) == TableAt(after, later, k);
  }

  /** Whatever is written between the pages: every row that is read was asked for and stood in the store, as it is read. */
  lemma {:induction false} RowsWereThere(
    batch: BatchSize, t: Table, dir: Option<string>, cursor: Option<Cursor>, between: seq<seq<Write>>, i: nat)
    requires i < |Read(batch, t, dir, cursor, between)|
    ensures var row := Read(batch, t, dir, cursor, between)[i]; AskedFor(row, dir) && StoodOnce(t, between, row)
    decreases |between|
  {
    var page := Page(t, dir, cursor, batch);
    PageDescends(t, dir, cursor, batch);
    if i < |page| {
      assert page[i] in Matching(t, dir, cursor);
      assert Read(batch, t, dir, cursor, between)[i] == page[i];
      assert StoodIn(TableAt(t, between, 0), page[i]);
    } else {
      var last, after, rest := ReadUnfolds(batch, t, dir, cursor, between, page);
      SuffixRows(page, rest, i);
      RowsWereThere(batch, after, dir, Some(last), between[1..], i - |page|);
      StoodLater(t, between, rest[i - |page|]);
    }
  }

  /** On a quiet store a read that ends has returned exactly the rows asked for. */
  lemma QuietReadIsExact(batch: BatchSize, t: Table, dir: Option<string>, between: seq<seq<Write>>, row: Row)
    requires Quiet(between) && UniqueIds(t) && Terminates(batch, t, dir, None, between)
    ensures row in Read(batch, t, dir, None, between) <==> StoodIn(t, row) && AskedFor(row, dir)
  {
    var out := Read(batch, t, dir, None, between);
    if row in out {
      var i :| 0 <= i < |out| && out[i] == row;
      RowsWereThere(batch, t, dir, None, between, i);
      var k: nat :| k <= |between| && StoodIn(TableAt(t, between, k), row);
      QuietTable(t, between, k);
    }
    if StoodIn(t, row) && AskedFor(row, dir) {
      assert row in Matching(t, dir, None) by {
        assert row == Row(row.rowId, t[row.rowId]);
      }
      UntouchedReadOnce(batch, t, dir, between, row);
    }
  }

  lemma {:induction false} QuietTable(t: Table, between: seq<seq<Write>>, k: nat)
    requires Quiet(between) && k <= |between|
    ensures TableAt(t, between, k) == t
    decreases k
  {
    if k > 0 {
      assert between[0] == [];
      QuietTable(t, between[1..], k - 1);
    }
  }
}
