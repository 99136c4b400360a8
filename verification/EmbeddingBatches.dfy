/**
 Embedding texts in length-sorted, padded batches and putting every vector back in its
 place. The tokenizer and the neural network are functions; what is proved is that the
 sorting, padding, flat indexing and re-slicing around them lose and confuse nothing.
 */
module EmbeddingBatches {
  import opened StableSort

  const EMBED_BATCH_SIZE := 16
  const MAX_SEQ_LEN := 512

  type Vector = seq<real>

  /** One text after tokenising and truncation. */
  datatype Encoded = Encoded(index: nat, ids: seq<int>, types: seq<int>)

  /**
   `run` is the session on flat inputs, `hidden` the length of a vector, `cls` what the
   network computes for one unpadded sequence, `normalize` the division by the norm.
   */
  datatype Network = Network(
    run: (seq<int>, seq<int>, seq<int>, nat, nat) -> seq<real>,
    hidden: nat,
    cls: (seq<int>, seq<int>) -> Vector,
    normalize: Vector -> Vector)

  // ---------------------------------------------------------------- truncation

  /** `truncateEncoded`, for one of its two lists. */
  function Truncate(tokens: seq<int>): (r: seq<int>)
    ensures |r| == if |tokens| <= MAX_SEQ_LEN then |tokens| else MAX_SEQ_LEN
    ensures tokens != [] ==> r[0] == tokens[0] && r[|r| - 1] == tokens[|tokens| - 1]
  {
    if |tokens| <= MAX_SEQ_LEN then tokens else tokens[..MAX_SEQ_LEN - 1] + [tokens[|tokens| - 1]]
  }

  // ---------------------------------------------------------------- padded rows

  /** A list filled up with zeros, and its mask. */
  function Padded(tokens: seq<int>, width: nat): (row: seq<int>)
    requires |tokens| <= width
    ensures |row| == width
  {
    tokens + seq(width - |tokens|, i => 0)
  }

  function Mask(length: nat, width: nat): (row: seq<int>)
    requires length <= width
    ensures |row| == width
  {
    seq(length, i => 1) + seq(width - length, i => 0)
  }

  function Flat(rows: seq<seq<int>>): seq<int> {
    if rows == [] then [] else Flat(rows[..|rows| - 1]) + rows[|rows| - 1]
  }

  ghost predicate AllWide(rows: seq<seq<int>>, width: nat) {
    forall k | 0 <= k < |rows| :: |rows[k]| == width
  }

  /** Row k of the flat list is where index arithmetic looks for it. */
  lemma {:induction false} RowOfFlat(rows: seq<seq<int>>, width: nat, k: nat)
    requires AllWide(rows, width) && k < |rows|
    ensures |Flat(rows)| == |rows| * width
    ensures 0 <= k * width && k * width + width <= |Flat(rows)|
    ensures Flat(rows)[k * width..k * width + width] == rows[k]
    decreases |rows|
  {
    var n := |rows| - 1;
    var front := rows[..n];
    FlatLength(front, width);
    FlatLength(rows, width);
    Rows(k, n, width);
    if k < n {
      RowOfFlat(front, width, k);
      assert Flat(rows)[k * width..k * width + width] == Flat(front)[k * width..k * width + width];
    }
  }

  lemma {:induction false} FlatLength(rows: seq<seq<int>>, width: nat)
    requires AllWide(rows, width)
    ensures |Flat(rows)| == |rows| * width
  {
    if rows != [] {
      FlatLength(rows[..|rows| - 1], width);
      assert (|rows| - 1) * width + width == |rows| * width;
    }
  }

  /** Row k begins behind the rows before it and ends before row n. */
  lemma {:induction false} Rows(k: nat, n: nat, width: nat)
    requires k <= n
    ensures 0 <= k * width <= n * width && n * width + width == (n + 1) * width
    ensures k < n ==> k * width + width <= n * width
    decreases n
  {
    Next(n, width);
    if k < n {
      Next(n - 1, width);
      Rows(k, n - 1, width);
    } else {
      NonNegative(k, width);
    }
  }

  lemma Next(n: nat, width: nat)
    ensures n * width + width == (n + 1) * width
  {}

  /** The tokens of a row that its mask lets through. */
  function Visible(tokens: seq<int>, mask: seq<int>): seq<int>
    requires |tokens| == |mask|
  {
    if tokens == [] then [] else (if mask[0] == 1 then [tokens[0]] else []) + Visible(tokens[1..], mask[1..])
  }

  lemma {:induction false} VisibleOfPadded(tokens: seq<int>, width: nat)
    requires |tokens| <= width
    ensures Visible(Padded(tokens, width), Mask(|tokens|, width)) == tokens
    decreases width
  {
    var row, mask := Padded(tokens, width), Mask(|tokens|, width);
    if tokens == [] {
      NothingVisible(row, mask);
    } else {
      assert row[1..] == Padded(tokens[1..], width - 1) && mask[1..] == Mask(|tokens| - 1, width - 1);
      VisibleOfPadded(tokens[1..], width - 1);
    }
  }

  lemma {:induction false} NothingVisible(tokens: seq<int>, mask: seq<int>)
    requires |tokens| == |mask| && forall i | 0 <= i < |mask| :: mask[i] == 0
    ensures Visible(tokens, mask) == []
  {
    if tokens != [] {
      NothingVisible(tokens[1..], mask[1..]);
    }
  }

  /** The padded inputs of a group: one row per entry. */
  function PaddedRows(group: seq<Encoded>, width: nat, part: Encoded -> seq<int>): (rows: seq<seq<int>>)
    requires forall k | 0 <= k < |group| :: |part(group[k])| <= width
    ensures AllWide(rows, width) && |rows| == |group|
  {
    seq(|group|, k requires 0 <= k < |group| => Padded(part(group[k]), width))
  }

  function MaskRows(group: seq<Encoded>, width: nat): (rows: seq<seq<int>>)
    requires forall k | 0 <= k < |group| :: |group[k].ids| <= width
    ensures AllWide(rows, width) && |rows| == |group|
  {
    seq(|group|, k requires 0 <= k < |group| => Mask(|group[k].ids|, width))
  }

  /** The row of that length that begins at `from`. */
  function Slice(data: seq<real>, from: nat, length: nat): (row: seq<real>)
    ensures from + length <= |data| ==> |row| == length && forall j | 0 <= j < length :: row[j] == data[from + j]
  {
    if from + length <= |data| then data[from..from + length] else []
  }

  /** A mask that shows the first n of `width` places. */
  ghost predicate RightPadded(mask: seq<int>, width: nat) {
    exists n: nat | n <= width :: mask == Mask(n, width)
  }

  ghost predicate AllRightPadded(masks: seq<seq<int>>, width: nat) {
    forall k | 0 <= k < |masks| :: RightPadded(masks[k], width)
  }

  /**
   The network looks at each row by itself and, of a row that is padded behind its tokens, only
   at those: the hidden state of the first token is what `cls` gives for the tokens alone. A
   token may well count by its place, and nothing is said of rows without a token.
   */
  ghost predicate PaddingInvariant(net: Network) {
    forall ids: seq<seq<int>>, masks: seq<seq<int>>, types: seq<seq<int>>, width: nat, row: nat |
      && SameShape(ids, masks, types, width) && AllRightPadded(masks, width)
      && row < |ids| && Visible(ids[row], masks[row]) != [] ::
      Slice(net.run(Flat(ids), Flat(masks), Flat(types), |ids|, width), row * width * net.hidden, net.hidden)
        == net.cls(Visible(ids[row], masks[row]), Visible(types[row], masks[row]))
  }

  ghost predicate SameShape(ids: seq<seq<int>>, masks: seq<seq<int>>, types: seq<seq<int>>, width: nat) {
    |ids| == |masks| == |types| && AllWide(ids, width) && AllWide(masks, width) && AllWide(types, width)
  }

  // ---------------------------------------------------------------- sorting

  function LengthOf(e: Encoded): int { |e.ids| }

  /** The texts by token count. */
  function SortByLength(entries: seq<Encoded>): seq<Encoded> {
    SortBy(entries, LengthOf)
  }

  ghost predicate DistinctIndexes(entries: seq<Encoded>) {
    forall i, j | 0 <= i < j < |entries| :: entries[i].index != entries[j].index
  }

  /** Sorting rearranges the entries: the same ones, each once, shortest first. */
  lemma LengthSortRearranges(entries: seq<Encoded>)
    requires DistinctIndexes(entries)
    ensures DistinctIndexes(SortByLength(entries)) && Ascending(SortByLength(entries), LengthOf)
    ensures |SortByLength(entries)| == |entries|
    ensures forall x :: x in SortByLength(entries) <==> x in entries
  {
    var sorted := SortByLength(entries);
    SortRearranges(entries, LengthOf);
    forall i, j | 0 <= i < j < |sorted| ensures sorted[i].index != sorted[j].index {
      assert sorted[i] in entries && sorted[j] in entries;
      assert sorted[i] != sorted[j];
    }
  }

  // ---------------------------------------------------------------- one batch

  ghost predicate WellFormed(e: Encoded) {
    |e.ids| == |e.types|
  }

  /** The vector a text ought to get. */
  function VectorOf(net: Network, e: Encoded): Vector {
    net.normalize(net.cls(e.ids, e.types))
  }

  /** One flat input, filled row by row and column by column. */
  method Fill(rows: seq<seq<int>>, width: nat) returns (flat: array<int>)
    requires AllWide(rows, width)
    ensures fresh(flat) && flat[..] == Flat(rows)
  {
    FlatLength(rows, width);
    flat := new int[|rows| * width];
    var offset := 0;
    for row := 0 to |rows|
      invariant offset == row * width && offset <= flat.Length
      invariant flat[..offset] == Flat(rows[..row])
    {
      Rows(row, |rows|, width);
      Rows(row, row, width);
      assert rows[..row + 1][..row] == rows[..row];
      ghost var start := offset;
      for column := 0 to width
        invariant offset == start + column && start + width <= flat.Length
        invariant flat[..start] == Flat(rows[..row])
        invariant flat[start..offset] == rows[row][..column]
      {
        flat[offset] := rows[row][column];
        offset := offset + 1;
      }
      assert flat[..offset] == flat[..start] + flat[start..offset];
      assert rows[row][..width] == rows[row];
    }
    assert rows[..|rows|] == rows;
    assert flat[..offset] == flat[..];
  }

  function Width(group: seq<Encoded>): (width: nat)
    ensures forall k | 0 <= k < |group| :: |group[k].ids| <= width
  {
    if group == [] then 0
    else
      var w := Width(group[..|group| - 1]);
      assert forall k | 0 <= k < |group| - 1 :: group[..|group| - 1][k] == group[k];
      if w < |group[|group| - 1].ids| then |group[|group| - 1].ids| else w
  }

  /** The vectors of a group, in group order. */
  method RunGroup(net: Network, group: seq<Encoded>) returns (vectors: seq<Vector>)
    requires PaddingInvariant(net) && forall k | 0 <= k < |group| :: WellFormed(group[k])
    ensures |vectors| == |group|
    ensures forall k | 0 <= k < |group| && group[k].ids != [] :: vectors[k] == VectorOf(net, group[k])
  {
    var width := Width(group);
    var idRows, typeRows := PaddedRows(group, width, (e: Encoded) => e.ids), PaddedRows(group, width, (e: Encoded) => e.types);
    var maskRows := MaskRows(group, width);
    var ids := Fill(idRows, width);
    var mask := Fill(maskRows, width);
    var types := Fill(typeRows, width);
    var data := net.run(ids[..], mask[..], types[..], |group|, width);
    AllRowVectors(net, group, width, idRows, maskRows, typeRows, data);
    vectors := [];
    for row := 0 to |group|
      invariant |vectors| == row
      invariant forall k | 0 <= k < row && group[k].ids != [] :: vectors[k] == VectorOf(net, group[k])
    {
      Rows(0, row, width);
      var rowStart := row * width * net.hidden;
      NonNegative(row * width, net.hidden);
      vectors := vectors + [net.normalize(Slice(data, rowStart, net.hidden))];
    }
  }

  lemma NonNegative(a: nat, b: nat)
    ensures a * b >= 0
  {}

  /** The stretch of the output that belongs to a row, normalised, is that vector. */
  ghost predicate RowGives(net: Network, data: seq<real>, width: nat, row: nat, v: Vector) {
    var rowStart := row * width * net.hidden;
    rowStart >= 0 && net.normalize(Slice(data, rowStart, net.hidden)) == v
  }

  lemma AllRowVectors(net: Network, group: seq<Encoded>, width: nat, idRows: seq<seq<int>>, maskRows: seq<seq<int>>,
                      typeRows: seq<seq<int>>, data: seq<real>)
    requires PaddingInvariant(net) && forall k | 0 <= k < |group| :: WellFormed(group[k])
    requires forall k | 0 <= k < |group| :: |group[k].ids| <= width && |group[k].types| <= width
    requires idRows == PaddedRows(group, width, (e: Encoded) => e.ids)
    requires typeRows == PaddedRows(group, width, (e: Encoded) => e.types)
    requires maskRows == MaskRows(group, width)
    requires data == net.run(Flat(idRows), Flat(maskRows), Flat(typeRows), |group|, width)
    ensures forall row | 0 <= row < |group| && group[row].ids != [] ::
              RowGives(net, data, width, row, VectorOf(net, group[row]))
  {
    forall row | 0 <= row < |group| && group[row].ids != []
      ensures RowGives(net, data, width, row, VectorOf(net, group[row]))
    {
      RowVector(net, group, width, idRows, maskRows, typeRows, row);
    }
  }

  /** What a padded row shows the network is the text itself. */
  lemma RowVector(net: Network, group: seq<Encoded>, width: nat, idRows: seq<seq<int>>, maskRows: seq<seq<int>>,
                  typeRows: seq<seq<int>>, row: nat)
    requires PaddingInvariant(net) && row < |group| && group[row].ids != []
    requires forall k | 0 <= k < |group| :: WellFormed(group[k])
    requires forall k | 0 <= k < |group| :: |group[k].ids| <= width && |group[k].types| <= width
    requires idRows == PaddedRows(group, width, (e: Encoded) => e.ids)
    requires typeRows == PaddedRows(group, width, (e: Encoded) => e.types)
    requires maskRows == MaskRows(group, width)
    ensures row * width * net.hidden >= 0
    ensures Slice(net.run(Flat(idRows), Flat(maskRows), Flat(typeRows), |group|, width), row * width * net.hidden, net.hidden)
         == net.cls(group[row].ids, group[row].types)
  {
    NonNegative(row, width);
    NonNegative(row * width, net.hidden);
    MasksArePadded(group, width);
    VisibleOfPadded(group[row].ids, width);
    VisibleOfPadded(group[row].types, width);
    RowOfNet(net, idRows, maskRows, typeRows, width, row);
  }

  lemma MasksArePadded(group: seq<Encoded>, width: nat)
    requires forall k | 0 <= k < |group| :: |group[k].ids| <= width
    ensures AllRightPadded(MaskRows(group, width), width)
  {
    forall k | 0 <= k < |group| ensures RightPadded(MaskRows(group, width)[k], width) {
      assert MaskRows(group, width)[k] == Mask(|group[k].ids|, width);
    }
  }

  lemma RowOfNet(net: Network, ids: seq<seq<int>>, masks: seq<seq<int>>, types: seq<seq<int>>, width: nat, row: nat)
    requires PaddingInvariant(net) && SameShape(ids, masks, types, width) && row < |ids|
    requires AllRightPadded(masks, width) && Visible(ids[row], masks[row]) != []
    ensures row * width * net.hidden >= 0
    ensures Slice(net.run(Flat(ids), Flat(masks), Flat(types), |ids|, width), row * width * net.hidden, net.hidden)
         == net.cls(Visible(ids[row], masks[row]), Visible(types[row], masks[row]))
  {
    NonNegative(row, width);
    NonNegative(row * width, net.hidden);
  }

  // ---------------------------------------------------------------- all texts

  function Flatten(batches: seq<seq<Vector>>): seq<Vector> {
    if batches == [] then [] else Flatten(batches[..|batches| - 1]) + batches[|batches| - 1]
  }

  /** Results filled in so far: those of the first `done` buckets. */
  ghost predicate Scattered(net: Network, buckets: seq<Encoded>, done: nat, results: seq<Vector>) {
    done <= |buckets| && forall p | 0 <= p < done && buckets[p].ids != [] ::
      buckets[p].index < |results| && results[buckets[p].index] == VectorOf(net, buckets[p])
  }

  /** The loop over the batches: every vector back to the index its text came with. */
  method Scatter(net: Network, buckets: seq<Encoded>, count: nat) returns (results: seq<Vector>)
    requires PaddingInvariant(net) && DistinctIndexes(buckets)
    requires forall k | 0 <= k < |buckets| :: WellFormed(buckets[k]) && buckets[k].index < count
    ensures |results| == count && Scattered(net, buckets, |buckets|, results)
  {
    results := seq(count, i => []);
    var start := 0;
    while start < |buckets|
      invariant 0 <= start <= |buckets| && |results| == count && Scattered(net, buckets, start, results)
    {
      var end := if start + EMBED_BATCH_SIZE < |buckets| then start + EMBED_BATCH_SIZE else |buckets|;
      var group := buckets[start..end];
      var vectors := RunGroup(net, group);
      for row := 0 to |group|
        invariant |results| == count && Scattered(net, buckets, start + row, results)
      {
        assert group[row] == buckets[start + row];
        results := results[group[row].index := vectors[row]];
      }
      start := end;
    }
  }

  /** Slices of at most 16, in order. */
  method Reslice(results: seq<Vector>) returns (batches: seq<seq<Vector>>)
    ensures Flatten(batches) == results
    ensures forall b | 0 <= b < |batches| :: 0 < |batches[b]| <= EMBED_BATCH_SIZE
  {
    batches := [];
    var start := 0;
    while start < |results|
      invariant 0 <= start <= |results| && Flatten(batches) == results[..start]
      invariant forall b | 0 <= b < |batches| :: 0 < |batches[b]| <= EMBED_BATCH_SIZE
    {
      var end := if start + EMBED_BATCH_SIZE < |results| then start + EMBED_BATCH_SIZE else |results|;
      assert (batches + [results[start..end]])[..|batches|] == batches;
      assert results[..end] == results[..start] + results[start..end];
      batches := batches + [results[start..end]];
      start := end;
    }
    assert results[..start] == results;
  }

  /** The texts as they are after tokenising: ids and types of equal length. */
  function EncodeAll(tokens: seq<(seq<int>, seq<int>)>): (encoded: seq<Encoded>)
    ensures |encoded| == |tokens|
  {
    seq(|tokens|, k requires 0 <= k < |tokens| => Encoded(k, Truncate(tokens[k].0), Truncate(tokens[k].1)))
  }

  /**
   `embed`: the vector at place i is that of text i, whatever batch it went through. A tokenizer
   that puts a token in front of every text, as the one in use does, leaves no text out.
   */
  method Embed(net: Network, tokens: seq<(seq<int>, seq<int>)>) returns (batches: seq<seq<Vector>>)
    requires PaddingInvariant(net) && forall k | 0 <= k < |tokens| :: |tokens[k].0| == |tokens[k].1|
    ensures |Flatten(batches)| == |tokens|
    ensures forall i | 0 <= i < |tokens| && tokens[i].0 != [] ::
      Flatten(batches)[i] == net.normalize(net.cls(Truncate(tokens[i].0), Truncate(tokens[i].1)))
    ensures forall b | 0 <= b < |batches| :: 0 < |batches[b]| <= EMBED_BATCH_SIZE
  {
    var encoded := EncodeAll(tokens);
    var buckets := SortByLength(encoded);
    LengthSortRearranges(encoded);
    forall k | 0 <= k < |buckets| ensures WellFormed(buckets[k]) && buckets[k].index < |tokens| {
      assert buckets[k] in encoded;
    }
    var results := Scatter(net, buckets, |tokens|);
    forall i | 0 <= i < |tokens| && tokens[i].0 != [] ensures results[i] == VectorOf(net, encoded[i]) {
      assert encoded[i] in buckets;
      var p :| 0 <= p < |buckets| && buckets[p] == encoded[i];
      assert buckets[p].index == i;
    }
    batches := Reslice(results);
  }
}
