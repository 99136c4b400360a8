/**
 What the assembled message keeps of the stream: all content in order, the tool calls in
 header order, and for each call its own argument deltas and nothing else, however the
 deltas of parallel calls are interleaved.
 */
module StreamTheorems {
  import opened Wrappers
  import opened StreamParts
  import opened StreamAssembly

  // ---------------------------------------------------------------- content

  /** The smallest pieces of content, in the order a reader meets them. */
  datatype Atom = TextChar(c: char) | ThinkChar(t: char) | Signature(encrypted: string) | MediaUrl(url: string)

  function AtomsOf(x: Part): seq<Atom> {
    match x
    case Text(text) => seq(|text|, i requires 0 <= i < |text| => TextChar(text[i]))
    case Think(think, encrypted) =>
      seq(|think|, i requires 0 <= i < |think| => ThinkChar(think[i]))
        + if encrypted.Some? then [Signature(encrypted.value)] else []
    case Media(url) => [MediaUrl(url)]
    case _ => []
  }

  function Atoms(p: seq<Part>): seq<Atom> {
    if p == [] then [] else Atoms(p[..|p| - 1]) + AtomsOf(p[|p| - 1])
  }

  lemma AtomsAppend(p: seq<Part>, x: Part)
    ensures Atoms(p + [x]) == Atoms(p) + AtomsOf(x)
  {
    assert (p + [x])[..|p|] == p;
  }

  lemma AtomsMerge(a: Part, b: Part)
    requires Mergeable(a, b)
    ensures AtomsOf(Merged(a, b)) == AtomsOf(a) + AtomsOf(b)
  {}

  lemma AtomsOfMergedLast(content: seq<Part>, x: Part)
    requires content != [] && Mergeable(content[|content| - 1], x)
    ensures Atoms(content[|content| - 1 := Merged(content[|content| - 1], x)]) == Atoms(content) + AtomsOf(x)
  {
    var rest, last := content[..|content| - 1], content[|content| - 1];
    assert content == rest + [last] && content[|content| - 1 := Merged(last, x)] == rest + [Merged(last, x)];
    AtomsAppend(rest, last);
    AtomsAppend(rest, Merged(last, x));
    AtomsMerge(last, x);
    Regroup(Atoms(rest), AtomsOf(last), AtomsOf(x));
  }

  lemma Regroup<T>(a: seq<T>, b: seq<T>, c: seq<T>)
    ensures a + (b + c) == a + b + c
  {}

  /** Text, thinking, signatures and media all arrive, none twice, in the order of the stream. */
  lemma {:induction false} ContentPreserved(p: seq<Part>)
    ensures Atoms(Contents(p)) == Atoms(p)
  {
    if p != [] {
      var front, x := p[..|p| - 1], p[|p| - 1];
      assert p == front + [x];
      ContentPreserved(front);
      ContentsAfter(front, x);
      var content := Contents(front);
      if !x.Content?() {
        assert AtomsOf(x) == [];
      } else if OpenContent(front) && content != [] && Mergeable(content[|content| - 1], x) {
        AtomsOfMergedLast(content, x);
      } else {
        AtomsAppend(content, x);
      }
    }
  }

  // ---------------------------------------------------------------- tool calls

  /** The argument texts of the deltas that header h owns, in stream order. */
  function OwnDeltas(p: seq<Part>, h: nat): seq<Option<string>> {
    if p == [] then []
    else
      var front, x := p[..|p| - 1], p[|p| - 1];
      OwnDeltas(front, h) + if x.Delta? && Owner(front, x) == Some(h) then [x.argumentsPart] else []
  }

  function Joined(first: Option<string>, more: seq<Option<string>>): Option<string> {
    if more == [] then first else AppendArguments(Joined(first, more[..|more| - 1]), more[|more| - 1])
  }

  lemma OneMoreDelta(front: seq<Part>, x: Part, h: nat, first: Option<string>)
    ensures Joined(first, OwnDeltas(front + [x], h)) ==
      if x.Delta? && Owner(front, x) == Some(h) then AppendArguments(Joined(first, OwnDeltas(front, h)), x.argumentsPart)
      else Joined(first, OwnDeltas(front, h))
  {
    assert (front + [x])[..|front|] == front;
    var own := OwnDeltas(front, h);
    if x.Delta? && Owner(front, x) == Some(h) {
      assert (own + [x.argumentsPart])[..|own|] == own;
    } else {
      assert own + [] == own;
    }
  }

  /** What one more part does to the call of header h. */
  lemma CallAfter(front: seq<Part>, x: Part, h: nat)
    requires h < |front| && front[h].Header?
    ensures Ordinal(front, h) == Ordinal(front + [x], h) < |Calls(front)|
    ensures Ordinal(front, h) < |Calls(front + [x])|
    ensures Calls(front + [x])[Ordinal(front, h)] ==
      if x.Delta? && Owner(front, x) == Some(h) then Extended(Calls(front)[Ordinal(front, h)], x.argumentsPart)
      else Calls(front)[Ordinal(front, h)]
  {
    OrdinalsDiffer(front, h, h);
    assert (front + [x])[..h] == front[..h];
    if x.Delta? && Owner(front, x).Some? {
      var g := Owner(front, x).value;
      OrdinalsDiffer(front, g, h);
      CallsAfterDelta(front, x, g, Ordinal(front, g));
    } else {
      CallsAfter(front, x);
    }
  }

  /** A call keeps its header's data, and its arguments are the header's and then its own deltas. */
  lemma {:induction false} CallHasOwnArguments(p: seq<Part>, h: nat)
    requires h < |p| && p[h].Header?
    ensures Ordinal(p, h) < |Calls(p)|
    ensures Calls(p)[Ordinal(p, h)] == Stored(p[h]).(arguments := Joined(p[h].arguments, OwnDeltas(p, h)))
    decreases |p|
  {
    var front, x := p[..|p| - 1], p[|p| - 1];
    assert p == front + [x];
    if h == |p| - 1 {
      assert p[..h] == front;
      CallsAfter(front, x);
      NoDeltasBefore(front, h);
    } else {
      CallHasOwnArguments(front, h);
      CallAfter(front, x, h);
      OneMoreDelta(front, x, h, p[h].arguments);
    }
  }

  lemma OrdinalsDiffer(p: seq<Part>, g: nat, h: nat)
    requires g < |p| && h < |p| && p[g].Header? && p[h].Header?
    ensures Ordinal(p, g) < |Calls(p)| && Ordinal(p, h) < |Calls(p)|
    ensures Ordinal(p, g) == Ordinal(p, h) <==> g == h
    ensures g < h ==> Ordinal(p, g) < Ordinal(p, h)
  {
    assert p[..|p|] == p;
    OrdinalsIncrease(p, g, |p|);
    OrdinalsIncrease(p, h, |p|);
    if g < h {
      OrdinalsIncrease(p, g, h);
    } else if h < g {
      OrdinalsIncrease(p, h, g);
    }
  }

  lemma {:induction false} NoDeltasBefore(p: seq<Part>, h: nat)
    requires |p| <= h
    ensures OwnDeltas(p, h) == []
  {
    if p != [] {
      NoDeltasBefore(p[..|p| - 1], h);
    }
  }

  /** Each call is that of exactly one header, and calls are in header order. */
  lemma {:induction false} CallsFollowHeaders(p: seq<Part>, k: nat)
    requires k < |Calls(p)|
    ensures exists h :: 0 <= h < |p| && p[h].Header? && Ordinal(p, h) == k
    ensures forall g, h | 0 <= g < h < |p| && p[g].Header? && p[h].Header? :: Ordinal(p, g) < Ordinal(p, h)
  {
    var front, x := p[..|p| - 1], p[|p| - 1];
    if k < |Calls(front)| {
      CallsFollowHeaders(front, k);
      var h :| 0 <= h < |front| && front[h].Header? && Ordinal(front, h) == k;
      assert p[..h] == front[..h];
      assert p[h].Header? && Ordinal(p, h) == k;
    } else {
      assert p[|p| - 1].Header? && Ordinal(p, |p| - 1) == k;
    }
    forall g, h | 0 <= g < h < |p| && p[g].Header? && p[h].Header?
      ensures Ordinal(p, g) < Ordinal(p, h)
    {
      OrdinalsDiffer(p, g, h);
    }
  }

  // ---------------------------------------------------------------- interleaving

  /** The parts that carry one streaming index, without those of other calls and without content. */
  function Projection(p: seq<Part>, index: Index): seq<Part> {
    if p == [] then []
    else
      var x := p[|p| - 1];
      Projection(p[..|p| - 1], index) + if (x.Header? || x.Delta?) && x.index == Some(index) then [x] else []
  }

  /** The stream routes by index only: every delta has one, and no two headers share one. */
  ghost predicate RoutedByIndex(p: seq<Part>) {
    && (forall i | 0 <= i < |p| && p[i].Delta? :: p[i].index.Some?)
    && (forall g, h | 0 <= g < h < |p| && p[g].Header? && p[h].Header? && p[g].index.Some? :: p[g].index != p[h].index)
  }

  lemma RoutedPrefix(p: seq<Part>)
    requires p != [] && RoutedByIndex(p) && UnknownIndexIn(p).None?
    ensures RoutedByIndex(p[..|p| - 1]) && UnknownIndexIn(p[..|p| - 1]).None?
  {
    assert forall i | 0 <= i < |p| - 1 :: p[..|p| - 1][i] == p[i];
  }

  /** Before its header an accepted stream has no part with the index. */
  lemma {:induction false} NothingBeforeHeader(p: seq<Part>, index: Index)
    requires UnknownIndexIn(p).None? && LatestHeader(p, index).None?
    ensures Projection(p, index) == []
  {
    if p != [] {
      assert forall i | 0 <= i < |p| - 1 :: p[..|p| - 1][i] == p[i];
      NothingBeforeHeader(p[..|p| - 1], index);
    }
  }

  lemma ProjectionAfter(p: seq<Part>, x: Part, index: Index)
    ensures Projection(p + [x], index)
         == Projection(p, index) + if (x.Header? || x.Delta?) && x.index == Some(index) then [x] else []
  {
    assert (p + [x])[..|p|] == p;
  }

  /** One header, and then deltas that name its index. */
  ghost predicate Alone(s: seq<Part>, index: Index) {
    && s != [] && s[0].Header? && s[0].index == Some(index)
    && (forall i | 0 < i < |s| :: s[i].Delta? && s[i].index == Some(index))
  }

  lemma AloneCall(s: seq<Part>, x: Part, index: Index)
    requires Alone(s, index) && x.Delta? && x.index == Some(index) && |Calls(s)| == 1
    ensures Alone(s + [x], index) && Calls(s + [x]) == [Extended(Calls(s)[0], x.argumentsPart)]
  {
    LatestSkips(s, 0, index);
    CallsAfterDelta(s, x, 0, 0);
  }

  /** Deltas that name the header's index, and only they, belong to it. */
  lemma OwnedByIndex(front: seq<Part>, x: Part, h: nat, index: Index)
    requires RoutedByIndex(front + [x]) && x.Delta? && Owner(front, x).Some?
    requires h < |front| && front[h].Header? && front[h].index == Some(index)
    ensures Owner(front, x) == Some(h) <==> x.index == Some(index)
  {
    var p := front + [x];
    var g := Owner(front, x).value;
    assert p[|front|] == x && p[g] == front[g] && p[h] == front[h];
  }

  /**
   Parallel calls do not disturb each other: the call of a header is the one its own parts
   give when they are streamed alone.
   */
  lemma {:induction false} CallAsIfAlone(p: seq<Part>, h: nat, index: Index)
    requires RoutedByIndex(p) && UnknownIndexIn(p).None?
    requires h < |p| && p[h].Header? && p[h].index == Some(index)
    ensures Ordinal(p, h) < |Calls(p)|
    ensures Alone(Projection(p, index), index)
    ensures Calls(Projection(p, index)) == [Calls(p)[Ordinal(p, h)]]
    decreases |p|
  {
    var front, x := p[..|p| - 1], p[|p| - 1];
    assert p == front + [x];
    RoutedPrefix(p);
    ProjectionAfter(front, x, index);
    if h == |p| - 1 {
      HeaderAlone(front, x, index);
    } else {
      assert front[h] == p[h];
      CallAsIfAlone(front, h, index);
      CallAfter(front, x, h);
      var alone := Projection(front, index);
      if x.Delta? {
        OwnedByIndex(front, x, h, index);
        if x.index == Some(index) {
          AloneCall(alone, x, index);
        }
      } else {
        OtherPart(front, x, h, index);
      }
      assert alone + [] == alone;
    }
  }

  /** A later header has another index. */
  lemma OtherPart(front: seq<Part>, x: Part, h: nat, index: Index)
    requires RoutedByIndex(front + [x]) && !x.Delta?
    requires h < |front| && front[h].Header? && front[h].index == Some(index)
    ensures !(x.Header? && x.index == Some(index))
  {
    var p := front + [x];
    assert p[|front|] == x && p[h] == front[h];
  }

  lemma HeaderAlone(front: seq<Part>, x: Part, index: Index)
    requires RoutedByIndex(front + [x]) && UnknownIndexIn(front).None? && x.Header? && x.index == Some(index)
    ensures Ordinal(front + [x], |front|) < |Calls(front + [x])|
    ensures Projection(front, index) == []
    ensures Calls([x]) == [Calls(front + [x])[Ordinal(front + [x], |front|)]]
  {
    var p := front + [x];
    assert p[|front|] == x && p[..|front|] == front;
    forall g | 0 <= g < |front|
      ensures !(front[g].Header? && front[g].index == Some(index))
    {
      assert p[g] == front[g];
    }
    NothingBeforeHeader(front, index);
    CallsAfter(front, x);
    CallsAfter([], x);
    assert [] + [x] == [x];
  }

  /** So the call depends on its own parts only, not on how the others are mixed in. */
  lemma InterleavingIrrelevant(p: seq<Part>, g: nat, q: seq<Part>, h: nat, index: Index)
    requires RoutedByIndex(p) && UnknownIndexIn(p).None? && RoutedByIndex(q) && UnknownIndexIn(q).None?
    requires g < |p| && p[g].Header? && p[g].index == Some(index)
    requires h < |q| && q[h].Header? && q[h].index == Some(index)
    requires Projection(p, index) == Projection(q, index)
    ensures Ordinal(p, g) < |Calls(p)| && Ordinal(q, h) < |Calls(q)|
    ensures Calls(p)[Ordinal(p, g)] == Calls(q)[Ordinal(q, h)]
  {
    CallAsIfAlone(p, g, index);
    CallAsIfAlone(q, h, index);
  }
}
