/** Row identities as SQLite hands them out. */
module RowIds {

  /** The identity of a new row: the largest one in use plus one. */
  function NextAfter(s: set<nat>): (next: nat)
    ensures next > 0 && forall r | r in s :: r < next
  {
    LargestOf(s) + 1
  }

  function LargestOf(s: set<nat>): (largest: nat)
    ensures forall r | r in s :: r <= largest
    ensures s != {} ==> largest in s
  {
    if s == {} then 0
    else
      HasLargest(s);
      var r :| r in s && forall q | q in s :: q <= r;
      r
  }

  lemma {:induction false} HasLargest(s: set<nat>)
    requires s != {}
    ensures exists r :: r in s && forall q | q in s :: q <= r
    decreases |s|
  {
    var r :| r in s;
    if s != {r} {
      var rest := s - {r};
      assert s == rest + {r};
      HasLargest(rest);
      var q :| q in rest && forall p | p in rest :: p <= q;
      var top := if q < r then r else q;
      assert top in s && forall p | p in s :: p <= top by {
        forall p | p in s ensures p <= top {
          assert p == r || p in rest;
        }
      }
    }
  }
}
