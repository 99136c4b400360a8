/**
 A full-text index that keeps no text of its own. It holds what was inserted, and a
 'delete' command removes the posting it names; nothing follows the table by itself.
 */
module FtsIndex {
  import opened RowIds

  type Doc = seq<string>

  /** What the index holds: row identity and tokenised columns. */
  type Index = multiset<(nat, Doc)>

  /** Exactly one entry per row, equal to the tokenised row, and no other. */
  ghost predicate Agrees<R(!new)>(table: map<nat, R>, doc: R -> Doc, index: Index) {
    forall p: (nat, Doc) :: index[p] == if p.0 in table && p.1 == doc(table[p.0]) then 1 else 0
  }

  /** The index after a 'delete' command for each of the rows `gone`, with the columns read from the table. */
  function Without<R>(table: map<nat, R>, doc: R -> Doc, index: Index, gone: set<nat>): Index
    requires gone <= table.Keys
    decreases |gone|
  {
    if gone == {} then index
    else
      var r := LargestOf(gone);
      Without(table, doc, index - multiset{(r, doc(table[r]))}, gone - {r})
  }

  /** How often a posting is left. */
  lemma {:induction false} WithoutCount<R(!new)>(table: map<nat, R>, doc: R -> Doc, index: Index, gone: set<nat>, p: (nat, Doc))
    requires gone <= table.Keys
    ensures Without(table, doc, index, gone)[p]
         == if p.0 in gone && p.1 == doc(table[p.0]) && index[p] > 0 then index[p] - 1 else index[p]
    decreases |gone|
  {
    if gone != {} {
      var r := LargestOf(gone);
      WithoutCount(table, doc, index - multiset{(r, doc(table[r]))}, gone - {r}, p);
    }
  }

  lemma InsertAgrees<R(!new)>(table: map<nat, R>, doc: R -> Doc, index: Index, r: nat, row: R)
    requires Agrees(table, doc, index) && r !in table
    ensures Agrees(table[r := row], doc, index + multiset{(r, doc(row))})
  {}

  /** A row whose columns change: the old posting out, the new one in. */
  lemma ReplaceAgrees<R(!new)>(table: map<nat, R>, doc: R -> Doc, index: Index, r: nat, row: R)
    requires Agrees(table, doc, index) && r in table
    ensures Agrees(table[r := row], doc, index - multiset{(r, doc(table[r]))} + multiset{(r, doc(row))})
  {}

  /**
   Rows `lost` leave the table and 'delete' commands go out for `named` ones among them: the
   index still agrees exactly when every lost row was named.
   */
  lemma DeleteAgreesIff<R(!new)>(table: map<nat, R>, doc: R -> Doc, index: Index, lost: set<nat>, named: set<nat>)
    requires Agrees(table, doc, index) && named <= lost <= table.Keys
    ensures Agrees(table - lost, doc, Without(table, doc, index, named)) <==> named == lost
  {
    var after := Without(table, doc, index, named);
    forall p: (nat, Doc)
      ensures after[p] == if p.0 in table && p.0 !in named && p.1 == doc(table[p.0]) then 1 else 0
    {
      WithoutCount(table, doc, index, named, p);
    }
    if Agrees(table - lost, doc, after) {
      forall r | r in lost ensures r in named {
        var p := (r, doc(table[r]));
        assert after[p] == 0;
      }
    }
  }
}
