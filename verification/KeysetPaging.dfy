/**
 `read` of the memory store: pages of 500 rows behind a (recorded_at, rowid) cursor, with
 any writes at all between two pages.
 */
module KeysetPaging {
  import opened RowIds
  import opened Wrappers
  import opened MemoTable

  /** The page size; the store reads 500 rows at a time, and nothing depends on the number. */
  type BatchSize = n: nat | n > 0 witness 1

  datatype Cursor = Cursor(recordedAt: int, rowId: nat)

  /** `recorded_at < ?1 OR (recorded_at = ?1 AND rowid < ?2)` */
  predicate Before(a: Cursor, b: Cursor) {
    a.recordedAt < b.recordedAt || (a.recordedAt == b.recordedAt && a.rowId < b.rowId)
  }

  predicate Below(k: Cursor, cursor: Option<Cursor>) {
    cursor.None? || Before(k, cursor.value)
  }

  /** A project's rows are its own and those without a project. */
  predicate Wanted(m: Memo, dir: Option<string>) {
    dir.None? || m.projectDir == dir.value || m.projectDir == ""
  }

  /** A row as the query returns it. */
  datatype Row = Row(rowId: nat, memo: Memo) {
    function Pos(): Cursor { Cursor(memo.recordedAt, rowId) }
  }

  /** The rows the query ranges over. */
  function Matching(t: Table, dir: Option<string>, cursor: Option<Cursor>): set<Row> {
    set r | r in t && Wanted(t[r], dir) && Below(Cursor(t[r].recordedAt, r), cursor) :: Row(r, t[r])
  }

  predicate IsTop(rows: set<Row>, top: Row) {
    top in rows && forall r | r in rows :: r == top || Before(r.Pos(), top.Pos())
  }

  ghost predicate DistinctRowIds(rows: set<Row>) {
    forall r, q | r in rows && q in rows && r.rowId == q.rowId :: r == q
  }

  lemma {:induction false} HasTop(rows: set<Row>)
    requires rows != {} && DistinctRowIds(rows)
    ensures exists top :: IsTop(rows, top)
    decreases |rows|
  {
    var r :| r in rows;
    var rest := rows - {r};
    assert rows == rest + {r};
    if rest == {} {
      assert IsTop(rows, r);
    } else {
      HasTop(rest);
      var q :| IsTop(rest, q);
      assert IsTop(rows, if Before(q.Pos(), r.Pos()) then r else q);
    }
  }

  /** The first row in the order `recorded_at DESC, rowid DESC`. */
  function Top(rows: set<Row>): (top: Row)
    requires rows != {} && DistinctRowIds(rows)
    ensures IsTop(rows, top)
  {
    HasTop(rows);
    var top :| IsTop(rows, top);
    top
  }

  /** One page: the first `limit` matching rows below the cursor. */
  function Page(t: Table, dir: Option<string>, cursor: Option<Cursor>, limit: nat): (page: seq<Row>)
    ensures |page| <= limit
    decreases limit
  {
    var rows := Matching(t, dir, cursor);
    if limit == 0 || rows == {} then []
    else [Top(rows)] + Page(t, dir, Some(Top(rows).Pos()), limit - 1)
  }

  /**
   What a reader gets when the writes `between[i]` happen between its pages i and i + 1;
   it stops after a short page, or after as many pages as `between` leaves room for.
   */
  function Read(batch: BatchSize, t: Table, dir: Option<string>, cursor: Option<Cursor>, between: seq<seq<Write>>): seq<Row>
    decreases |between|
  {
    var page := Page(t, dir, cursor, batch);
    if |page| < batch || between == [] then page
    else page + Read(batch, ApplyAll(t, between[0]), dir, Some(page[|page| - 1].Pos()), between[1..])
  }

  /** The last of those pages was short, so the reader is done. */
  predicate Terminates(batch: BatchSize, t: Table, dir: Option<string>, cursor: Option<Cursor>, between: seq<seq<Write>>)
    decreases |between|
  {
    var page := Page(t, dir, cursor, batch);
    if |page| < batch then true
    else between != [] && Terminates(batch, ApplyAll(t, between[0]), dir, Some(page[|page| - 1].Pos()), between[1..])
  }

  // ---------------------------------------------------------------- one page

  /** Strictly descending, from below the cursor on. */
  ghost predicate Descending(rows: seq<Row>, cursor: Option<Cursor>) {
    && (forall i | 0 <= i < |rows| :: Below(rows[i].Pos(), cursor))
    && (forall i, j | 0 <= i < j < |rows| :: Before(rows[j].Pos(), rows[i].Pos()))
  }

  lemma {:induction false} PageDescends(t: Table, dir: Option<string>, cursor: Option<Cursor>, limit: nat)
    ensures Descending(Page(t, dir, cursor, limit), cursor)
    ensures forall i | 0 <= i < |Page(t, dir, cursor, limit)| :: Page(t, dir, cursor, limit)[i] in Matching(t, dir, cursor)
    decreases limit
  {
    var rows := Matching(t, dir, cursor);
    if limit > 0 && rows != {} {
      PageDescends(t, dir, Some(Top(rows).Pos()), limit - 1);
    }
  }

  /** A matching row is on the page, unless the page is full and ends above it. */
  lemma {:induction false} PageComplete(t: Table, dir: Option<string>, cursor: Option<Cursor>, limit: nat, row: Row)
    requires row in Matching(t, dir, cursor)
    ensures var page := Page(t, dir, cursor, limit);
      row in page || (|page| == limit && (page != [] ==> Before(row.Pos(), page[|page| - 1].Pos())))
    decreases limit
  {
    if limit > 0 {
      var top := Top(Matching(t, dir, cursor));
      var next, less := Some(top.Pos()), limit - 1;
      var rest := Page(t, dir, next, less);
      assert Page(t, dir, cursor, limit) == [top] + rest;
      if row != top {
        assert row in Matching(t, dir, next);
        PageComplete(t, dir, next, less, row);
        assert row in rest ==> row in [top] + rest;
      }
    }
  }

  // ---------------------------------------------------------------- the whole read

  /** Whatever is written in between, the rows come in strictly descending order. */
  lemma {:induction false} ReadDescends(batch: BatchSize, t: Table, dir: Option<string>, cursor: Option<Cursor>, between: seq<seq<Write>>)
    ensures Descending(Read(batch, t, dir, cursor, between), cursor)
    decreases |between|
  {
    var page := Page(t, dir, cursor, batch);
    PageDescends(t, dir, cursor, batch);
    if |page| == batch && between != [] {
      var last := page[|page| - 1].Pos();
      ReadDescends(batch, ApplyAll(t, between[0]), dir, Some(last), between[1..]);
    }
  }

  predicate Names(w: Write, id: string) {
    match w
    case Append(memo) => memo.id == id
    case Update(other, _) => other == id
    case Delete(other) => other == id
  }

  ghost predicate NoneNames(writes: seq<Write>, id: string) {
    forall i | 0 <= i < |writes| :: !Names(writes[i], id)
  }

  ghost predicate Untouched(between: seq<seq<Write>>, id: string) {
    forall i | 0 <= i < |between| :: NoneNames(between[i], id)
  }

  ghost predicate NeverDeleted(between: seq<seq<Write>>, id: string) {
    forall i, k | 0 <= i < |between| && 0 <= k < |between[i]| :: between[i][k] != Delete(id)
  }

  lemma {:induction false} UntouchedRowStays(t: Table, writes: seq<Write>, r: nat)
    requires r in t && NoneNames(writes, t[r].id)
    ensures r in ApplyAll(t, writes) && ApplyAll(t, writes)[r] == t[r]
    decreases |writes|
  {
    if writes != [] {
      var after := Apply(t, writes[0]);
      assert r in after && after[r] == t[r] by {
        if writes[0].Update? && Rows(t, writes[0].id) != {} {
          assert LargestOf(Rows(t, writes[0].id)) != r;
        }
      }
      UntouchedRowStays(after, writes[1..], r);
    }
  }

  /** A matching row that no write names is read. */
  lemma {:induction false} UntouchedRowIsRead(batch: BatchSize, t: Table, dir: Option<string>, cursor: Option<Cursor>,
                                              between: seq<seq<Write>>, row: Row)
    requires row in Matching(t, dir, cursor) && Untouched(between, row.memo.id)
    requires Terminates(batch, t, dir, cursor, between)
    ensures row in Read(batch, t, dir, cursor, between)
    decreases |between|
  {
    var page := Page(t, dir, cursor, batch);
    PageComplete(t, dir, cursor, batch, row);
    if row !in page {
      var last := page[|page| - 1].Pos();
      assert NoneNames(between[0], row.memo.id);
      UntouchedRowStays(t, between[0], row.rowId);
      var after := ApplyAll(t, between[0]);
      assert row in Matching(after, dir, Some(last));
      UntouchedRowIsRead(batch, after, dir, Some(last), between[1..], row);
    }
  }

  // ---------------------------------------------------------------- rows that are updated

  /** The row of a memo is at least where it was: updates only move it up. */
  ghost predicate RowAtLeast(t: Table, id: string, r: nat) {
    exists q :: q in t && t[q].id == id && r <= q
  }

  lemma RowMovesUp(t: Table, w: Write, id: string, r: nat)
    requires UniqueIds(t) && RowAtLeast(t, id, r) && w != Delete(id)
    ensures RowAtLeast(Apply(t, w), id, r)
  {
    var q :| q in t && t[q].id == id && r <= q;
    TheRow(t, id, q);
    var after := Apply(t, w);
    match w
    case Append(_) =>
      assert q in after && after[q].id == id;
    case Update(other, _) =>
      if other == id {
        assert NextRowId(t) in after && after[NextRowId(t)].id == id;
      } else {
        assert q in after && after[q].id == id by {
          if Rows(t, other) != {} {
            assert LargestOf(Rows(t, other)) != q;
          }
        }
      }
    case Delete(_) =>
      assert q in after && after[q].id == id;
  }

  lemma {:induction false} RowMovesUpThrough(t: Table, writes: seq<Write>, id: string, r: nat)
    requires UniqueIds(t) && RowAtLeast(t, id, r)
    requires forall k | 0 <= k < |writes| :: writes[k] != Delete(id)
    ensures UniqueIds(ApplyAll(t, writes)) && RowAtLeast(ApplyAll(t, writes), id, r)
    decreases |writes|
  {
    if writes != [] {
      RowMovesUp(t, writes[0], id, r);
      ApplyKeepsUniqueIds(t, writes[0]);
      RowMovesUpThrough(Apply(t, writes[0]), writes[1..], id, r);
    }
  }

  lemma {:induction false} ApplyAllKeepsUniqueIds(t: Table, writes: seq<Write>)
    requires UniqueIds(t)
    ensures UniqueIds(ApplyAll(t, writes))
    decreases |writes|
  {
    if writes != [] {
      ApplyKeepsUniqueIds(t, writes[0]);
      ApplyAllKeepsUniqueIds(Apply(t, writes[0]), writes[1..]);
    }
  }

  /** A memo that is not deleted is read at no smaller row identity than it has now. */
  lemma {:induction false} LaterReadsAreHigher(batch: BatchSize, t: Table, dir: Option<string>, cursor: Option<Cursor>,
                                               between: seq<seq<Write>>, id: string, r: nat, i: nat)
    requires UniqueIds(t) && RowAtLeast(t, id, r) && NeverDeleted(between, id)
    requires i < |Read(batch, t, dir, cursor, between)| && Read(batch, t, dir, cursor, between)[i].memo.id == id
    ensures r <= Read(batch, t, dir, cursor, between)[i].rowId
    decreases |between|
  {
    var page := Page(t, dir, cursor, batch);
    if i < |page| {
      PageDescends(t, dir, cursor, batch);
      var row := page[i];
      var q :| q in t && t[q].id == id && r <= q;
      assert row.rowId in t && t[row.rowId].id == id;
    } else {
      var last, after, rest := ReadUnfolds(batch, t, dir, cursor, between, page);
      SuffixRows(page, rest, i);
      NeverDeletedLater(between, id);
      RowMovesUpThrough(t, between[0], id, r);
      LaterReadsAreHigher(batch, after, dir, Some(last), between[1..], id, r, i - |page|);
    }
  }

  lemma {:induction false} RereadFrom(batch: BatchSize, t: Table, dir: Option<string>, cursor: Option<Cursor>,
                                      between: seq<seq<Write>>, out: seq<Row>, id: string, i: nat, j: nat)
    requires UniqueIds(t) && out == Read(batch, t, dir, cursor, between) && NeverDeleted(between, id)
    requires i < j < |out| && out[i].memo.id == id && out[j].memo.id == id
    ensures out[j].memo.recordedAt < out[i].memo.recordedAt
    decreases |between|
  {
    if i < |Page(t, dir, cursor, batch)| {
      RereadOfFirstPage(batch, t, dir, cursor, between, out, i, j);
    } else {
      var last, after, later, rest, first, second := BehindFirstPage(batch, t, dir, cursor, between, out, i, j);
      NeverDeletedLater(between, id);
      RereadFrom(batch, after, dir, Some(last), later, rest, id, first, second);
    }
  }

  lemma BehindFirstPage(batch: BatchSize, t: Table, dir: Option<string>, cursor: Option<Cursor>,
                        between: seq<seq<Write>>, out: seq<Row>, i: nat, j: nat)
    returns (last: Cursor, after: Table, later: seq<seq<Write>>, rest: seq<Row>, first: nat, second: nat)
    requires UniqueIds(t) && out == Read(batch, t, dir, cursor, between)
    requires |Page(t, dir, cursor, batch)| <= i < j < |out|
    ensures between != [] && later == between[1..] && UniqueIds(after)
    ensures rest == Read(batch, after, dir, Some(last), later)
    ensures first < second < |rest| && rest[first] == out[i] && rest[second] == out[j]
  {
    GoesOn(batch, t, dir, cursor, between);
    var page := Page(t, dir, cursor, batch);
    last, after, rest := ReadUnfolds(batch, t, dir, cursor, between, page);
    later := between[1..];
    ApplyAllKeepsUniqueIds(t, between[0]);
    first, second := Shifted(page, rest, out, i, j);
  }

  lemma Shifted(page: seq<Row>, rest: seq<Row>, out: seq<Row>, i: nat, j: nat) returns (first: nat, second: nat)
    requires out == page + rest && |page| <= i < j < |out|
    ensures first < second < |rest| && rest[first] == out[i] && rest[second] == out[j]
  {
    first, second := i - |page|, j - |page|;
  }

  /** A read with more rows than the first page has asked for another. */
  lemma GoesOn(batch: BatchSize, t: Table, dir: Option<string>, cursor: Option<Cursor>, between: seq<seq<Write>>)
    requires |Page(t, dir, cursor, batch)| < |Read(batch, t, dir, cursor, between)|
    ensures |Page(t, dir, cursor, batch)| == batch && between != []
  {}

  lemma NeverDeletedLater(between: seq<seq<Write>>, id: string)
    requires between != [] && NeverDeleted(between, id)
    ensures NeverDeleted(between[1..], id)
  {}

  /**
   A memo is read a second time only when an update has made it older: one whose updates
   keep `recorded_at` is not.
   */
  lemma RereadOnlyWhenOlder(batch: BatchSize, t: Table, dir: Option<string>, between: seq<seq<Write>>, i: nat, j: nat)
    requires UniqueIds(t) && i < j < |Read(batch, t, dir, None, between)|
    requires Read(batch, t, dir, None, between)[i].memo.id == Read(batch, t, dir, None, between)[j].memo.id
    requires NeverDeleted(between, Read(batch, t, dir, None, between)[i].memo.id)
    ensures Read(batch, t, dir, None, between)[j].memo.recordedAt
          < Read(batch, t, dir, None, between)[i].memo.recordedAt
  {
    var out := Read(batch, t, dir, None, between);
    RereadFrom(batch, t, dir, None, between, out, out[i].memo.id, i, j);
  }

  lemma SuffixRows(page: seq<Row>, rest: seq<Row>, i: nat)
    requires |page| <= i < |page + rest|
    ensures i - |page| < |rest| && (page + rest)[i] == rest[i - |page|]
  {}

  lemma RereadOfFirstPage(batch: BatchSize, t: Table, dir: Option<string>, cursor: Option<Cursor>,
                          between: seq<seq<Write>>, out: seq<Row>, i: nat, j: nat)
    requires UniqueIds(t) && out == Read(batch, t, dir, cursor, between)
    requires i < j < |out| && i < |Page(t, dir, cursor, batch)|
    requires out[i].memo.id == out[j].memo.id && NeverDeleted(between, out[i].memo.id)
    ensures out[j].memo.recordedAt < out[i].memo.recordedAt
  {
    FirstOfPage(batch, t, dir, cursor, between, i);
    var first, second := out[i], out[j];
    LaterReadsAreHigher(batch, t, dir, cursor, between, first.memo.id, first.rowId, j);
    ReadDescends(batch, t, dir, cursor, between);
    assert Before(second.Pos(), first.Pos());
  }

  /** A row of the first page is a row of the table. */
  lemma FirstOfPage(batch: BatchSize, t: Table, dir: Option<string>, cursor: Option<Cursor>, between: seq<seq<Write>>, i: nat)
    requires i < |Page(t, dir, cursor, batch)|
    ensures i < |Read(batch, t, dir, cursor, between)|
    ensures var row := Read(batch, t, dir, cursor, between)[i]; row.rowId in t && t[row.rowId] == row.memo
  {
    PageDescends(t, dir, cursor, batch);
    assert Read(batch, t, dir, cursor, between)[i] == Page(t, dir, cursor, batch)[i];
  }

  /** A read that goes on behind its first page. */
  lemma ReadUnfolds(batch: BatchSize, t: Table, dir: Option<string>, cursor: Option<Cursor>, between: seq<seq<Write>>,
                    page: seq<Row>)
    returns (last: Cursor, after: Table, rest: seq<Row>)
    requires page == Page(t, dir, cursor, batch) && |page| == batch && between != []
    ensures last == page[batch - 1].Pos() && after == ApplyAll(t, between[0])
    ensures rest == Read(batch, after, dir, Some(last), between[1..])
    ensures Read(batch, t, dir, cursor, between) == page + rest
  {
    last, after := page[batch - 1].Pos(), ApplyAll(t, between[0]);
    rest := Read(batch, after, dir, Some(last), between[1..]);
  }

  /** A matching memo that no write names is read exactly once, as it stands. */
  lemma UntouchedReadOnce(batch: BatchSize, t: Table, dir: Option<string>, between: seq<seq<Write>>, row: Row)
    requires UniqueIds(t) && row in Matching(t, dir, None) && Untouched(between, row.memo.id)
    requires Terminates(batch, t, dir, None, between)
    ensures var out := Read(batch, t, dir, None, between);
      exists i :: 0 <= i < |out| && out[i] == row && forall j | 0 <= j < |out| && j != i :: out[j].memo.id != row.memo.id
  {
    UntouchedRowIsRead(batch, t, dir, None, between, row);
    var out := Read(batch, t, dir, None, between);
    var i :| 0 <= i < |out| && out[i] == row;
    forall j | 0 <= j < |out| && j != i
      ensures out[j].memo.id != row.memo.id
    {
      if out[j].memo.id == row.memo.id {
        UntouchedReadsAsIs(batch, t, dir, None, between, row, j);
        ReadDescends(batch, t, dir, None, between);
        DescendingDistinct(out, None, if i < j then i else j, if i < j then j else i);
      }
    }
  }

  lemma DescendingDistinct(rows: seq<Row>, cursor: Option<Cursor>, i: nat, j: nat)
    requires Descending(rows, cursor) && i < j < |rows|
    ensures rows[i] != rows[j]
  {
    assert Before(rows[j].Pos(), rows[i].Pos());
  }

  lemma {:induction false} UntouchedReadsAsIs(batch: BatchSize, t: Table, dir: Option<string>, cursor: Option<Cursor>,
                                              between: seq<seq<Write>>, row: Row, j: nat)
    requires UniqueIds(t) && row.rowId in t && t[row.rowId] == row.memo && Untouched(between, row.memo.id)
    requires j < |Read(batch, t, dir, cursor, between)| && Read(batch, t, dir, cursor, between)[j].memo.id == row.memo.id
    ensures Read(batch, t, dir, cursor, between)[j] == row
    decreases |between|
  {
    var page := Page(t, dir, cursor, batch);
    PageDescends(t, dir, cursor, batch);
    if j >= |page| {
      assert NoneNames(between[0], row.memo.id);
      UntouchedRowStays(t, between[0], row.rowId);
      ApplyAllKeepsUniqueIds(t, between[0]);
      var last, after, rest := ReadUnfolds(batch, t, dir, cursor, between, page);
      SuffixRows(page, rest, j);
      UntouchedReadsAsIs(batch, after, dir, Some(last), between[1..], row, j - |page|);
    }
  }

  // ---------------------------------------------------------------- a quiet store

  /** A page that is not empty: its first row and the page behind it. */
  lemma PageUnfolds(t: Table, dir: Option<string>, cursor: Option<Cursor>, limit: nat, top: Row)
    requires limit > 0 && Matching(t, dir, cursor) != {} && top == Top(Matching(t, dir, cursor))
    ensures Page(t, dir, cursor, limit) == [top] + Page(t, dir, Some(top.Pos()), limit - 1)
  {}

  lemma PagesUnfold(t: Table, dir: Option<string>, cursor: Option<Cursor>, a: nat, c: nat, less: nat, total: nat)
    returns (top: Row, rest: seq<Row>)
    requires a == less + 1 && c == total + 1 && Page(t, dir, cursor, a) != []
    ensures rest == Page(t, dir, Some(top.Pos()), less) && Page(t, dir, cursor, a) == [top] + rest
    ensures Page(t, dir, cursor, c) == [top] + Page(t, dir, Some(top.Pos()), total)
  {
    top := Top(Matching(t, dir, cursor));
    PageUnfolds(t, dir, cursor, a, top);
    PageUnfolds(t, dir, cursor, c, top);
    rest := Page(t, dir, Some(top.Pos()), less);
  }

  function LastPos(rows: seq<Row>): Cursor
    requires rows != []
  {
    rows[|rows| - 1].Pos()
  }

  /** A page that is not full has all there is. */
  lemma {:induction false} ShortPage(t: Table, dir: Option<string>, cursor: Option<Cursor>, a: nat, c: nat)
    requires a <= c && |Page(t, dir, cursor, a)| < a
    ensures Page(t, dir, cursor, c) == Page(t, dir, cursor, a)
    decreases a
  {
    if Matching(t, dir, cursor) != {} {
      var top := Top(Matching(t, dir, cursor));
      PageUnfolds(t, dir, cursor, a, top);
      PageUnfolds(t, dir, cursor, c, top);
      ShortPage(t, dir, Some(top.Pos()), a - 1, c - 1);
    }
  }

  /** A full page and the page behind it are one larger page. */
  lemma {:induction false} PagesJoin(t: Table, dir: Option<string>, cursor: Option<Cursor>, a: nat, b: nat, c: nat,
                                     page: seq<Row>, more: seq<Row>)
    requires a > 0 && c == a + b && page == Page(t, dir, cursor, a) && |page| == a
    requires more == Page(t, dir, Some(LastPos(page)), b)
    ensures Page(t, dir, cursor, c) == page + more
    decreases a
  {
    var less, total := a - 1, c - 1;
    var top, rest := PagesUnfold(t, dir, cursor, a, c, less, total);
    var next := Some(top.Pos());
    if a > 1 {
      FrontJoins(top, rest, more);
      PagesJoin(t, dir, next, less, b, total, rest, more);
    } else {
      assert page == [top];
    }
  }

  lemma FrontJoins(top: Row, rest: seq<Row>, more: seq<Row>)
    requires rest != []
    ensures [top] + (rest + more) == [top] + rest + more && LastPos([top] + rest) == LastPos(rest)
  {}

  ghost predicate Quiet(between: seq<seq<Write>>) {
    forall i | 0 <= i < |between| :: between[i] == []
  }

  /** On a quiet store the pages are the whole table, sorted: what one query without a limit would give. */
  lemma {:induction false} QuietReadIsSorted(batch: BatchSize, t: Table, dir: Option<string>, cursor: Option<Cursor>,
                                             between: seq<seq<Write>>, limit: nat)
    requires Quiet(between) && Terminates(batch, t, dir, cursor, between)
    requires |Read(batch, t, dir, cursor, between)| < limit
    ensures Read(batch, t, dir, cursor, between) == Page(t, dir, cursor, limit)
    decreases |between|
  {
    var page := Page(t, dir, cursor, batch);
    if |page| < batch {
      LimitDoesNotMatter(t, dir, cursor, batch, limit);
    } else {
      var last, after, rest := ReadUnfolds(batch, t, dir, cursor, between, page);
      assert between[0] == [] && after == t;
      var left := limit - batch;
      QuietReadIsSorted(batch, t, dir, Some(last), between[1..], left);
      PagesJoin(t, dir, cursor, batch, left, limit, page, rest);
    }
  }

  lemma LimitDoesNotMatter(t: Table, dir: Option<string>, cursor: Option<Cursor>, a: nat, c: nat)
    requires |Page(t, dir, cursor, a)| < a && |Page(t, dir, cursor, a)| < c
    ensures Page(t, dir, cursor, c) == Page(t, dir, cursor, a)
  {
    if c < a {
      LargeEnough(t, dir, cursor, c, a);
    } else {
      ShortPage(t, dir, cursor, a, c);
    }
  }

  /** A limit above the number of rows is as good as a larger one. */
  lemma {:induction false} LargeEnough(t: Table, dir: Option<string>, cursor: Option<Cursor>, a: nat, c: nat)
    requires |Page(t, dir, cursor, c)| < a <= c
    ensures Page(t, dir, cursor, a) == Page(t, dir, cursor, c)
    decreases a
  {
    if Matching(t, dir, cursor) != {} {
      var top := Top(Matching(t, dir, cursor));
      PageUnfolds(t, dir, cursor, a, top);
      PageUnfolds(t, dir, cursor, c, top);
      LargeEnough(t, dir, Some(top.Pos()), a - 1, c - 1);
    }
  }

  lemma {:induction false} FullPageUsesRows(t: Table, dir: Option<string>, cursor: Option<Cursor>, limit: nat)
    requires limit > 0 && |Page(t, dir, cursor, limit)| == limit
    ensures |Matching(t, dir, Some(LastPos(Page(t, dir, cursor, limit))))| + limit <= |Matching(t, dir, cursor)|
    decreases limit
  {
    var top := Top(Matching(t, dir, cursor));
    var next := Some(top.Pos());
    PageUnfolds(t, dir, cursor, limit, top);
    RowUsed(t, dir, cursor, top);
    var rest := Page(t, dir, next, limit - 1);
    if limit > 1 {
      FullPageUsesRows(t, dir, next, limit - 1);
      FrontJoins(top, rest, []);
    } else {
      assert [top] + rest == [top];
    }
  }

  lemma RowUsed(t: Table, dir: Option<string>, cursor: Option<Cursor>, top: Row)
    requires IsTop(Matching(t, dir, cursor), top)
    ensures |Matching(t, dir, Some(top.Pos()))| + 1 <= |Matching(t, dir, cursor)|
  {
    var rows, below := Matching(t, dir, cursor), Matching(t, dir, Some(top.Pos()));
    assert below + {top} <= rows && top !in below;
    SubsetSize(below + {top}, rows);
  }

  lemma {:induction false} SubsetSize<T>(a: set<T>, b: set<T>)
    requires a <= b
    ensures |a| <= |b|
    decreases |a|
  {
    if a != {} {
      var x :| x in a;
      SubsetSize(a - {x}, b - {x});
    }
  }

  /** On a quiet store the read ends after one page per 500 rows and a short one. */
  lemma {:induction false} QuietReadEnds(batch: BatchSize, t: Table, dir: Option<string>, cursor: Option<Cursor>, between: seq<seq<Write>>)
    requires Quiet(between) && |Matching(t, dir, cursor)| < batch * (|between| + 1)
    ensures Terminates(batch, t, dir, cursor, between)
    decreases |between|
  {
    var page := Page(t, dir, cursor, batch);
    if |page| == batch {
      FullPageUsesRows(t, dir, cursor, batch);
      assert between != [] && between[0] == [];
      QuietReadEnds(batch, t, dir, Some(page[|page| - 1].Pos()), between[1..]);
    }
  }
}
