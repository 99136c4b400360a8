/**
 How `generate` ends, told from the places of the parts in the stream: which streams are
 refused and with which error, and which become a message.
 */
module StreamOutcomes {
  import opened Whitespace
  import opened Wrappers
  import opened StreamParts

  /** The part at i is a delta that names an index, and no header in front of it has that index. */
  ghost predicate Unrouted(p: seq<Part>, i: nat) {
    && i < |p| && p[i].IndexedDelta?()
    && forall j | 0 <= j < i :: p[j].Header? ==> p[j].index != p[i].index
  }

  /** The part at i is the first such delta. */
  ghost predicate FirstUnrouted(p: seq<Part>, i: nat) {
    Unrouted(p, i) && forall j: nat | j < i :: !Unrouted(p, j)
  }

  ghost predicate Routed(p: seq<Part>) {
    forall i: nat :: !Unrouted(p, i)
  }

  lemma UnroutedAfter(p: seq<Part>, x: Part, i: nat)
    ensures Unrouted(p + [x], i) <==>
      Unrouted(p, i) || (i == |p| && x.IndexedDelta?() && Owner(p, x).None?)
  {
    var q := p + [x];
    assert forall j | 0 <= j < |p| :: q[j] == p[j];
    if i == |p| && x.IndexedDelta?() && Owner(p, x).Some? {
      var h := Owner(p, x).value;
      assert q[h].Header? && q[h].index == q[i].index;
    }
  }

  /** The error for an index is thrown at the first delta that no header in front of it can take, and for its index. */
  lemma {:induction false} UnknownIndexIff(p: seq<Part>)
    ensures UnknownIndexIn(p).None? <==> Routed(p)
    ensures UnknownIndexIn(p).Some? ==> exists i: nat :: FirstUnrouted(p, i) && p[i].index == UnknownIndexIn(p)
  {
    if p != [] {
      var front, x := p[..|p| - 1], p[|p| - 1];
      assert p == front + [x];
      UnknownIndexIff(front);
      forall i: nat
        ensures Unrouted(p, i) <==> Unrouted(front, i) || (i == |front| && x.IndexedDelta?() && Owner(front, x).None?)
      {
        UnroutedAfter(front, x, i);
      }
      if UnknownIndexIn(front).Some? {
        var i: nat :| FirstUnrouted(front, i) && front[i].index == UnknownIndexIn(front);
        assert FirstUnrouted(p, i) && p[i].index == UnknownIndexIn(p);
      } else if x.IndexedDelta?() && Owner(front, x).None? {
        assert FirstUnrouted(p, |front|);
      } else {
        assert Routed(p);
      }
    }
  }

  lemma FirstIsOne(p: seq<Part>, i: nat, j: nat)
    requires FirstUnrouted(p, i) && FirstUnrouted(p, j)
    ensures i == j
  {
    assert !(i < j) && !(j < i);
  }

  /**
   What an answer says of the stream. An index error names the first delta without a header
   of its index. Without such a delta the answer is a message exactly when the stream has a
   tool call, or text that is not blank, or media with neither thinking nor text; any other
   stream is refused for what it has instead: nothing, thinking, or blank text alone.
   */
  ghost predicate Answers(p: seq<Part>, result: Result<Message, Failure>) {
    && (forall index: Index :: result == Err(UnknownIndex(index)) <==> Throws(p, index))
    && (result.Ok? <==>
          && Routed(p)
          && ((exists i :: 0 <= i < |p| && p[i].Header?)
              || (exists i :: 0 <= i < |p| && p[i].Text? && !AllBlank(p[i].text))
              || ((exists i :: 0 <= i < |p| && p[i].Media?) && forall i | 0 <= i < |p| :: !p[i].Think? && !p[i].Text?)))
    && (result == Err(NoContent) <==> Routed(p) && forall i | 0 <= i < |p| :: p[i].Delta?)
    && (result == Err(OnlyThinking) <==>
          && Routed(p) && (exists i :: 0 <= i < |p| && p[i].Think?)
          && forall i | 0 <= i < |p| :: !p[i].Header? && (p[i].Text? ==> AllBlank(p[i].text)))
    && (result == Err(OnlyBlankText) <==>
          && Routed(p) && (exists i :: 0 <= i < |p| && p[i].Text?)
          && forall i | 0 <= i < |p| :: !p[i].Header? && !p[i].Think? && (p[i].Text? ==> AllBlank(p[i].text)))
  }

  ghost predicate Throws(p: seq<Part>, index: Index) {
    exists i: nat :: FirstUnrouted(p, i) && p[i].index == Some(index)
  }

  lemma IndexIff(p: seq<Part>, index: Index)
    ensures Outcome(p) == Err(UnknownIndex(index))
      <==> Throws(p, index)
  {
    UnknownIndexIff(p);
    if UnknownIndexIn(p).Some? {
      var i: nat :| FirstUnrouted(p, i) && p[i].index == UnknownIndexIn(p);
      forall j: nat | FirstUnrouted(p, j)
        ensures j == i
      {
        FirstIsOne(p, i, j);
      }
    } else {
      assert Outcome(p) != Err(UnknownIndex(index));
    }
  }

  /** `Generate` answers so. */
  lemma AnswersIff(p: seq<Part>)
    ensures Answers(p, Outcome(p))
  {
    UnknownIndexIff(p);
    forall index: Index
      ensures Outcome(p) == Err(UnknownIndex(index)) <==> Throws(p, index)
    {
      IndexIff(p, index);
    }
  }
}
