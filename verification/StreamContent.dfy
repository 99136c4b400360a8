/**
 Which parts of a stream become one part of the message: a piece of text goes with the text
 right before it and thinking with thinking that is not signed yet, where "right before"
 looks past the argument deltas that name their call.
 */
module StreamContent {
  import opened Wrappers
  import opened StreamParts
  import opened StreamAssembly
  import opened StreamTheorems

  /** The content part at j is right before the place i: only indexed deltas are between. */
  ghost predicate RightBefore(p: seq<Part>, j: nat, i: nat) {
    && j < i <= |p| && p[j].Content?()
    && forall k | j < k < i :: p[k].IndexedDelta?()
  }

  /** The content part at i continues the one right before it. */
  ghost predicate Continues(p: seq<Part>, i: nat) {
    i < |p| && exists j: nat :: RightBefore(p, j, i) && Mergeable(p[j], p[i])
  }

  /** The content part at i begins a part of the message. */
  ghost predicate Begins(p: seq<Part>, i: nat) {
    i < |p| && p[i].Content?() && !Continues(p, i)
  }

  ghost function Beginnings(p: seq<Part>): nat {
    if p == [] then 0 else Beginnings(p[..|p| - 1]) + if Begins(p, |p| - 1) then 1 else 0
  }

  /** What the content parts from the k-th beginning up to the next one hold. */
  ghost function Group(p: seq<Part>, k: nat): seq<Atom> {
    if p == [] then []
    else
      var x := p[|p| - 1];
      Group(p[..|p| - 1], k) + if x.Content?() && Beginnings(p) == k + 1 then AtomsOf(x) else []
  }

  /** A part merges with b as a does. */
  predicate Alike(a: Part, b: Part) {
    (a.Text? <==> b.Text?) && (a.Think? <==> b.Think?) && (a.Think? ==> a.encrypted == b.encrypted)
  }

  ghost predicate OpenAt(p: seq<Part>, j: nat) {
    RightBefore(p, j, |p|) && Contents(p) != [] && Alike(Contents(p)[|Contents(p)| - 1], p[j])
  }

  lemma RightBeforeAfter(p: seq<Part>, x: Part, j: nat)
    ensures RightBefore(p + [x], j, |p|) <==> RightBefore(p, j, |p|)
    ensures RightBefore(p + [x], j, |p| + 1) <==>
      if x.IndexedDelta?() then RightBefore(p, j, |p|) else x.Content?() && j == |p|
  {
    var q := p + [x];
    assert q[|p|] == x && forall k | 0 <= k < |p| :: q[k] == p[k];
  }

  /** The message's last part can grow exactly when a content part is right before the end, and it merges like that one. */
  lemma {:induction false} OpenIsRightBefore(p: seq<Part>)
    ensures OpenContent(p) <==> exists j: nat :: RightBefore(p, j, |p|)
    ensures OpenContent(p) ==> exists j: nat :: OpenAt(p, j)
  {
    if p != [] {
      var front, x := p[..|p| - 1], p[|p| - 1];
      assert p == front + [x];
      ContentsAfter(front, x);
      if x.Content?() {
        assert RightBefore(p, |front|, |p|);
        assert OpenAt(p, |front|);
      } else if x.IndexedDelta?() {
        OpenIsRightBefore(front);
        if OpenContent(front) {
          var j: nat :| OpenAt(front, j);
          RightBeforeAfter(front, x, j);
          assert OpenAt(p, j);
        }
      }
      forall j: nat
        ensures RightBefore(p, j, |p|) <==>
          if x.IndexedDelta?() then RightBefore(front, j, |front|) else x.Content?() && j == |front|
      {
        RightBeforeAfter(front, x, j);
      }
    }
  }

  lemma OnlyOneRightBefore(p: seq<Part>, i: nat, j: nat, k: nat)
    requires RightBefore(p, j, i) && RightBefore(p, k, i)
    ensures j == k
  {}

  /** The last part continues the one before exactly when the message's last part takes it in. */
  lemma ContinuesIff(front: seq<Part>, x: Part)
    requires x.Content?()
    ensures Continues(front + [x], |front|) <==>
      OpenContent(front) && Contents(front) != [] && Mergeable(Contents(front)[|Contents(front)| - 1], x)
  {
    var p := front + [x];
    OpenIsRightBefore(front);
    if OpenContent(front) {
      var j: nat :| OpenAt(front, j);
      assert RightBefore(p, j, |front|);
      forall k: nat | RightBefore(p, k, |front|)
        ensures k == j
      {
        OnlyOneRightBefore(p, |front|, j, k);
      }
      assert Mergeable(Contents(front)[|Contents(front)| - 1], x) <==> Mergeable(p[j], p[|front|]);
    } else {
      forall k: nat
        ensures !RightBefore(p, k, |front|)
      {
        RightBeforeAfter(front, x, k);
      }
    }
  }

  lemma GroupAfter(p: seq<Part>, x: Part, k: nat)
    ensures Beginnings(p + [x]) == Beginnings(p) + if Begins(p + [x], |p|) then 1 else 0
    ensures Group(p + [x], k) == Group(p, k) + if x.Content?() && Beginnings(p + [x]) == k + 1 then AtomsOf(x) else []
  {
    assert (p + [x])[..|p|] == p;
  }

  lemma {:induction false} NothingYet(p: seq<Part>, k: nat)
    requires Beginnings(p) <= k
    ensures Group(p, k) == []
  {
    if p != [] {
      var front, x := p[..|p| - 1], p[|p| - 1];
      assert p == front + [x];
      GroupAfter(front, x, k);
      NothingYet(front, k);
    }
  }

  /**
   The message has one content part for each beginning in the stream, and it holds what its
   own parts of the stream hold, in their order.
   */
  lemma {:induction false} ContentIsGrouped(p: seq<Part>)
    ensures |Contents(p)| == Beginnings(p)
    ensures forall k: nat | k < |Contents(p)| :: AtomsOf(Contents(p)[k]) == Group(p, k)
  {
    if p != [] {
      var front, x := p[..|p| - 1], p[|p| - 1];
      assert p == front + [x];
      ContentIsGrouped(front);
      ContentsAfter(front, x);
      GroupAfter(front, x, 0);
      if x.Content?() {
        ContinuesIff(front, x);
        forall k: nat | k < |Contents(p)|
          ensures AtomsOf(Contents(p)[k]) == Group(p, k)
        {
          PartIsGroup(front, x, k);
        }
      } else {
        forall k: nat | k < |Contents(p)|
          ensures AtomsOf(Contents(p)[k]) == Group(p, k)
        {
          GroupAfter(front, x, k);
        }
      }
    }
  }

  /** The message part the last part of the stream goes into, or the one behind it begins. */
  lemma PartIsGroup(front: seq<Part>, x: Part, k: nat)
    requires x.Content?() && |Contents(front)| == Beginnings(front) && k < |Contents(front + [x])|
    requires k < |Contents(front)| ==> AtomsOf(Contents(front)[k]) == Group(front, k)
    ensures AtomsOf(Contents(front + [x])[k]) == Group(front + [x], k)
  {
    var p, content := front + [x], Contents(front);
    var last := |content| - 1;
    ContentsAfter(front, x);
    ContinuesIff(front, x);
    GroupAfter(front, x, k);
    assert p[|front|] == x;
    if OpenContent(front) && content != [] && Mergeable(content[last], x) {
      assert Beginnings(p) == last + 1;
      assert Contents(p) == content[last := Merged(content[last], x)];
      if k == last {
        AtomsMerge(content[last], x);
      } else {
        assert Group(p, k) == Group(front, k);
      }
    } else {
      assert Beginnings(p) == last + 2;
      assert Contents(p) == content + [x];
      if k == |content| {
        NothingYet(front, k);
        assert Group(p, k) == AtomsOf(x);
      } else {
        assert Group(p, k) == Group(front, k);
      }
    }
  }

  ghost function HeaderPlaces(p: seq<Part>): set<nat> {
    set h: nat | h < |p| && p[h].Header?
  }

  lemma {:induction false} CountHeaders(p: seq<Part>)
    ensures HeaderCount(p) == |HeaderPlaces(p)|
  {
    if p != [] {
      var front, last := p[..|p| - 1], |p| - 1;
      CountHeaders(front);
      assert HeaderPlaces(p) == HeaderPlaces(front) + if p[last].Header? then {last} else {};
    }
  }

  // ---------------------------------------------------------------- argument text

  function TextOf(argumentsPart: Option<string>): string {
    if argumentsPart.Some? then argumentsPart.value else ""
  }

  function Concatenated(parts: seq<Option<string>>): string {
    if parts == [] then "" else Concatenated(parts[..|parts| - 1]) + TextOf(parts[|parts| - 1])
  }

  predicate NoText(parts: seq<Option<string>>) {
    forall i | 0 <= i < |parts| :: parts[i].None?
  }

  /** The text, or nothing when nobody has given any. */
  function Told(nobody: bool, text: string): Option<string> {
    if nobody then None else Some(text)
  }

  lemma {:induction false} NothingConcatenated(parts: seq<Option<string>>)
    requires forall i | 0 <= i < |parts| :: parts[i].None?
    ensures Concatenated(parts) == ""
  {
    if parts != [] {
      NothingConcatenated(parts[..|parts| - 1]);
    }
  }

  lemma TextAppended(nobody: bool, text: string, last: Option<string>)
    requires nobody ==> text == ""
    ensures AppendArguments(Told(nobody, text), last) == Told(nobody && last.None?, text + TextOf(last))
  {
    assert text + "" == text;
    if last.Some? {
      assert "" + last.value == last.value;
    }
  }

  lemma {:induction false} JoinedText(first: Option<string>, more: seq<Option<string>>)
    ensures Joined(first, more) == Told(first.None? && NoText(more), TextOf(first) + Concatenated(more))
  {
    if more == [] {
      assert TextOf(first) + "" == TextOf(first);
    } else {
      var front, last := more[..|more| - 1], more[|more| - 1];
      JoinedText(first, front);
      if first.None? && NoText(front) {
        NothingConcatenated(front);
      }
      TextAppended(first.None? && NoText(front), TextOf(first) + Concatenated(front), last);
      Regroup(TextOf(first), Concatenated(front), TextOf(last));
      assert NoText(more) <==> NoText(front) && last.None?;
    }
  }

  /** The call's arguments are its header's text with the texts of its own deltas behind it; absent when none of them has any. */
  lemma ArgumentsAreConcatenated(p: seq<Part>, h: nat)
    requires h < |p| && p[h].Header?
    ensures Ordinal(p, h) < |Calls(p)|
    ensures var own := OwnDeltas(p, h);
      Calls(p)[Ordinal(p, h)].arguments ==
        if p[h].arguments.None? && NoText(own) then None else Some(TextOf(p[h].arguments) + Concatenated(own))
  {
    CallHasOwnArguments(p, h);
    JoinedText(p[h].arguments, OwnDeltas(p, h));
  }

  /**
   A message leaves nothing of its stream out: all content in order, in one part for each
   beginning, and one call for each header, with the header's data and its own argument text.
   */
  lemma MessageIsWhole(p: seq<Part>)
    requires Outcome(p).Ok?
    ensures var m := Outcome(p).value;
      && Atoms(m.content) == Atoms(p)
      && |m.content| == Beginnings(p)
      && |m.toolCalls| == |HeaderPlaces(p)|
      && (forall h | h in HeaderPlaces(p) :: CallOf(p, h, m.toolCalls))
  {
    ContentPreserved(p);
    ContentIsGrouped(p);
    CountHeaders(p);
    forall h | h in HeaderPlaces(p)
      ensures CallOf(p, h, Calls(p))
    {
      CallHasOwnArguments(p, h);
      ArgumentsAreConcatenated(p, h);
    }
  }

  /** The call of header h is at the place of the header among the headers, with its own argument text. */
  ghost predicate CallOf(p: seq<Part>, h: nat, toolCalls: seq<Call>)
    requires h < |p| && p[h].Header?
  {
    && Ordinal(p, h) < |toolCalls|
    && var call, own := toolCalls[Ordinal(p, h)], OwnDeltas(p, h);
    && call.id == p[h].id && call.name == p[h].name && call.extras == p[h].extras
    && call.arguments ==
         (if p[h].arguments.None? && NoText(own) then None else Some(TextOf(p[h].arguments) + Concatenated(own)))
  }
}
