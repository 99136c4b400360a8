/**
 The streaming loop of `generate`: one pending part that grows in place, finished parts
 flushed into the message, and a map from streaming index to tool call. It is proved to
 arrive at what `StreamParts` says about the whole stream.
 */
module StreamAssembly {
  import opened Wrappers
  import opened StreamOutcomes
  import opened StreamParts
  import opened Whitespace

  // ---------------------------------------------------------------- the loop's invariant

  /** The flushed calls and the pending one are the calls of the stream. */
  ghost predicate CallsInv(seen: seq<Part>, pending: Option<Part>, toolCalls: seq<Call>) {
    Calls(seen) == if pending.Some? && pending.value.Header? then toolCalls + [Stored(pending.value)] else toolCalls
  }

  ghost predicate ContentInv(seen: seq<Part>, pending: Option<Part>, content: seq<Part>) {
    && Contents(seen) == (if pending.Some? && pending.value.Content?() then content + [pending.value] else content)
    && (OpenContent(seen) <==> pending.Some? && pending.value.Content?())
  }

  /** Where the pending part stands: only deltas follow a pending header, and nothing is pending only at the start. */
  ghost predicate PendingInv(seen: seq<Part>, at: nat, pending: Option<Part>, flushed: nat) {
    match pending
    case None => seen == []
    case Some(part) =>
      if part.Header? then
        && at < |seen| && seen[at].Header? && seen[at].index == part.index && Ordinal(seen, at) == flushed
        && (forall k | at < k < |seen| :: seen[k].Delta?)
      else
        var q := LastNonDelta(seen);
        q.None? || !seen[q.value].Header?
  }

  /** The map leads from each index among the parts `p` to the call of the latest header that has it. */
  ghost predicate MapOf(p: seq<Part>, indexMap: map<Index, nat>) {
    && (forall index :: index in indexMap <==> LatestHeader(p, index).Some?)
    && (forall index | index in indexMap :: indexMap[index] == Ordinal(p, LatestHeader(p, index).value))
  }

  /** The parts whose headers have been flushed: all of them, or those before the pending header. */
  ghost function FlushedParts(seen: seq<Part>, at: nat, pending: Option<Part>): seq<Part> {
    if pending.Some? && pending.value.Header? && at < |seen| then seen[..at] else seen
  }

  ghost predicate Inv(seen: seq<Part>, at: nat, pending: Option<Part>, content: seq<Part>, toolCalls: seq<Call>,
                      indexMap: map<Index, nat>) {
    && CallsInv(seen, pending, toolCalls) && ContentInv(seen, pending, content)
    && PendingInv(seen, at, pending, |toolCalls|) && MapOf(FlushedParts(seen, at, pending), indexMap)
  }

  /** Nothing is held back: the message has all that the stream brought so far. */
  ghost predicate AllFlushed(seen: seq<Part>, content: seq<Part>, toolCalls: seq<Call>, indexMap: map<Index, nat>) {
    Calls(seen) == toolCalls && Contents(seen) == content && MapOf(seen, indexMap)
  }

  // ---------------------------------------------------------------- one more part

  lemma CallsAfter(p: seq<Part>, x: Part)
    ensures x.Header? ==> Calls(p + [x]) == Calls(p) + [Stored(x)]
    ensures x.Content?() || (x.Delta? && Owner(p, x).None?) ==> Calls(p + [x]) == Calls(p)
  {
    assert (p + [x])[..|p|] == p;
  }

  lemma CallsAfterDelta(p: seq<Part>, x: Part, h: nat, k: nat)
    requires x.Delta? && Owner(p, x) == Some(h) && k == Ordinal(p, h)
    ensures k < |Calls(p)|
    ensures Calls(p + [x])
         == Calls(p)[k := Calls(p)[k].(arguments := AppendArguments(Calls(p)[k].arguments, x.argumentsPart))]
  {
    assert (p + [x])[..|p|] == p;
    OrdinalsIncrease(p, h, |p|);
    assert p[..|p|] == p;
  }

  lemma ContentsAfter(p: seq<Part>, x: Part)
    ensures Contents(p + [x]) ==
      if !x.Content?() then Contents(p)
      else if OpenContent(p) && Contents(p) != [] && Mergeable(Contents(p)[|Contents(p)| - 1], x) then
        Contents(p)[|Contents(p)| - 1 := Merged(Contents(p)[|Contents(p)| - 1], x)]
      else Contents(p) + [x]
    ensures OpenContent(p + [x]) == if x.IndexedDelta?() then OpenContent(p) else x.Content?()
  {
    assert (p + [x])[..|p|] == p;
  }

  lemma LookupsAfterDelta(p: seq<Part>, x: Part)
    requires x.Delta?
    ensures LastNonDelta(p + [x]) == LastNonDelta(p)
    ensures forall index :: LatestHeader(p + [x], index) == LatestHeader(p, index)
    ensures forall h | 0 <= h < |p| :: Ordinal(p + [x], h) == Ordinal(p, h)
  {
    assert (p + [x])[..|p|] == p;
    forall h | 0 <= h < |p| ensures Ordinal(p + [x], h) == Ordinal(p, h) {
      assert (p + [x])[..h] == p[..h];
    }
  }

  /** Deltas behind part q change no lookup of an index it does not have. */
  lemma {:induction false} LatestSkips(p: seq<Part>, q: nat, index: Index)
    requires q < |p| && (forall k | q < k < |p| :: p[k].Delta?)
    ensures LatestHeader(p, index)
         == if p[q].Header? && p[q].index == Some(index) then Some(q) else LatestHeader(p[..q], index)
    decreases |p|
  {
    var front := p[..|p| - 1];
    if q < |p| - 1 {
      assert front[..q] == p[..q];
      LatestSkips(front, q, index);
    }
  }

  // ---------------------------------------------------------------- the rounds of the loop

  /** A part that starts a new pending part, everything before it being flushed. */
  lemma StartKeepsInv(seen: seq<Part>, at: nat, x: Part, content: seq<Part>, toolCalls: seq<Call>, indexMap: map<Index, nat>)
    requires AllFlushed(seen, content, toolCalls, indexMap) && Starts(seen, x) && at == |seen|
    ensures Inv(seen + [x], at, Some(x), content, toolCalls, indexMap)
  {
    CallsAfter(seen, x);
    ContentsAfter(seen, x);
    var grown := seen + [x];
    assert grown[..|seen|] == seen;
    if x.Header? {
      assert FlushedParts(grown, at, Some(x)) == seen;
    } else {
      assert LastNonDelta(grown) == if x.Delta? then LastNonDelta(seen) else Some(|seen|);
      OtherKeepsMap(seen, x, indexMap);
    }
  }

  lemma OtherKeepsMap(p: seq<Part>, x: Part, indexMap: map<Index, nat>)
    requires !x.Header? && MapOf(p, indexMap)
    ensures MapOf(p + [x], indexMap)
  {
    assert (p + [x])[..|p|] == p;
    forall index
      ensures LatestHeader(p + [x], index) == LatestHeader(p, index)
      ensures LatestHeader(p, index).Some? ==>
        Ordinal(p + [x], LatestHeader(p, index).value) == Ordinal(p, LatestHeader(p, index).value)
    {
      if LatestHeader(p, index).Some? {
        assert (p + [x])[..LatestHeader(p, index).value] == p[..LatestHeader(p, index).value];
      }
    }
  }

  /** Content that merges into the pending content. */
  lemma MergeContentKeepsInv(seen: seq<Part>, at: nat, target: Part, x: Part, content: seq<Part>, toolCalls: seq<Call>,
                             indexMap: map<Index, nat>)
    requires Inv(seen, at, Some(target), content, toolCalls, indexMap) && Mergeable(target, x)
    ensures Inv(seen + [x], at, Some(Merged(target, x)), content, toolCalls, indexMap)
  {
    CallsAfter(seen, x);
    ContentsAfter(seen, x);
    OtherKeepsMap(seen, x, indexMap);
    assert Contents(seen)[|content| := Merged(target, x)] == content + [Merged(target, x)];
    assert (seen + [x])[..|seen|] == seen;
  }

  /** A delta that merges into the pending header: the header is its owner. */
  lemma MergeDeltaKeepsInv(seen: seq<Part>, at: nat, target: Part, x: Part, content: seq<Part>, toolCalls: seq<Call>,
                           indexMap: map<Index, nat>)
    requires Inv(seen, at, Some(target), content, toolCalls, indexMap)
    requires target.Header? && x.Delta? && (x.index.Some? ==> x.index == target.index)
    ensures Owner(seen, x) == Some(at)
    ensures Inv(seen + [x], at, Some(target.(arguments := AppendArguments(target.arguments, x.argumentsPart))), content,
                toolCalls, indexMap)
  {
    if x.index.Some? {
      LatestSkips(seen, at, x.index.value);
    } else {
      assert LastNonDelta(seen) == Some(at);
    }
    var k := |toolCalls|;
    CallsAfterDelta(seen, x, at, k);
    ContentsAfter(seen, x);
    LookupsAfterDelta(seen, x);
    var grown := target.(arguments := AppendArguments(target.arguments, x.argumentsPart));
    assert (toolCalls + [Stored(target)])[k := Stored(grown)] == toolCalls + [Stored(grown)];
    assert (seen + [x])[..at] == seen[..at];
  }

  /** Where a routed delta's owner is found. */
  lemma RoutedOwner(seen: seq<Part>, at: nat, pending: Option<Part>, content: seq<Part>, toolCalls: seq<Call>,
                    indexMap: map<Index, nat>, x: Part)
    requires Inv(seen, at, pending, content, toolCalls, indexMap) && x.IndexedDelta?()
    requires !(pending.Some? && pending.value.Header? && pending.value.index == x.index)
    ensures Owner(seen, x).Some? <==> x.index.value in indexMap
    ensures Owner(seen, x).Some? ==>
      indexMap[x.index.value] == Ordinal(seen, Owner(seen, x).value) < |toolCalls|
  {
    var index := x.index.value;
    var flushed := FlushedParts(seen, at, pending);
    if pending.Some? && pending.value.Header? {
      LatestSkips(seen, at, index);
    }
    var h := LatestHeader(flushed, index);
    if h.Some? {
      assert flushed[..h.value] == seen[..h.value];
      OrdinalsIncrease(flushed, h.value, |flushed|);
      assert flushed[..|flushed|] == flushed;
    }
  }

  function Extended(call: Call, more: Option<string>): Call {
    call.(arguments := AppendArguments(call.arguments, more))
  }

  /** A delta that is routed to a flushed call. */
  lemma RouteKeepsInv(seen: seq<Part>, at: nat, pending: Option<Part>, content: seq<Part>, toolCalls: seq<Call>,
                      indexMap: map<Index, nat>, x: Part, k: nat, routed: seq<Call>)
    requires Inv(seen, at, pending, content, toolCalls, indexMap) && x.IndexedDelta?()
    requires !(pending.Some? && pending.value.Header? && pending.value.index == x.index)
    requires x.index.value in indexMap && k == indexMap[x.index.value] && k < |toolCalls|
    requires routed == toolCalls[k := Extended(toolCalls[k], x.argumentsPart)]
    ensures Inv(seen + [x], at, pending, content, routed, indexMap)
  {
    RoutedOwner(seen, at, pending, content, toolCalls, indexMap, x);
    RouteCalls(seen, pending, toolCalls, x, Owner(seen, x).value, k, routed);
    ContentsAfter(seen, x);
    DeltaKeepsPending(seen, at, pending, |routed|, x);
    FlushedAfterDelta(seen, at, pending, x, indexMap);
  }

  lemma RouteCalls(seen: seq<Part>, pending: Option<Part>, toolCalls: seq<Call>, x: Part, h: nat, k: nat, routed: seq<Call>)
    requires CallsInv(seen, pending, toolCalls) && x.Delta? && Owner(seen, x) == Some(h) && k == Ordinal(seen, h)
    requires k < |toolCalls| && routed == toolCalls[k := Extended(toolCalls[k], x.argumentsPart)]
    ensures CallsInv(seen + [x], pending, routed)
  {
    CallsAfterDelta(seen, x, h, k);
    if pending.Some? && pending.value.Header? {
      var last := [Stored(pending.value)];
      assert (toolCalls + last)[k := Extended(toolCalls[k], x.argumentsPart)] == routed + last;
    }
  }

  lemma DeltaKeepsPending(seen: seq<Part>, at: nat, pending: Option<Part>, flushed: nat, x: Part)
    requires PendingInv(seen, at, pending, flushed) && pending.Some? && x.Delta?
    ensures PendingInv(seen + [x], at, pending, flushed)
  {
    LookupsAfterDelta(seen, x);
  }

  lemma FlushedAfterDelta(seen: seq<Part>, at: nat, pending: Option<Part>, x: Part, indexMap: map<Index, nat>)
    requires MapOf(FlushedParts(seen, at, pending), indexMap) && x.Delta?
    requires pending.Some? && pending.value.Header? ==> at < |seen|
    ensures MapOf(FlushedParts(seen + [x], at, pending), indexMap)
  {
    if pending.Some? && pending.value.Header? {
      assert (seen + [x])[..at] == seen[..at];
    } else {
      LookupsAfterDelta(seen, x);
    }
  }

  /** Flushing a pending header completes the map. */
  lemma FlushHeader(seen: seq<Part>, at: nat, part: Part, content: seq<Part>, toolCalls: seq<Call>,
                    indexMap: map<Index, nat>)
    requires part.Header? && Inv(seen, at, Some(part), content, toolCalls, indexMap)
    ensures AllFlushed(seen, content, toolCalls + [Stored(part)],
                       if part.index.Some? then indexMap[part.index.value := |toolCalls|] else indexMap)
  {
    forall index
      ensures LatestHeader(seen, index)
           == if part.index == Some(index) then Some(at) else LatestHeader(seen[..at], index)
      ensures LatestHeader(seen[..at], index).Some? ==>
        Ordinal(seen[..at], LatestHeader(seen[..at], index).value) == Ordinal(seen, LatestHeader(seen[..at], index).value)
    {
      LatestSkips(seen, at, index);
      if LatestHeader(seen[..at], index).Some? {
        OrdinalOfPrefix(seen, at, index);
      }
    }
  }

  lemma OrdinalOfPrefix(seen: seq<Part>, at: nat, index: Index)
    requires at <= |seen| && LatestHeader(seen[..at], index).Some?
    ensures Ordinal(seen[..at], LatestHeader(seen[..at], index).value) == Ordinal(seen, LatestHeader(seen[..at], index).value)
  {
    var h := LatestHeader(seen[..at], index).value;
    assert seen[..at][..h] == seen[..h];
  }

  /** `mergeInPlace` accepts the pair. */
  predicate Absorbs(target: Part, source: Part) {
    Mergeable(target, source) || (target.Header? && source.Delta?)
  }

  /** The target after it has absorbed the source. */
  function Grown(target: Part, source: Part): Part
    requires Absorbs(target, source)
  {
    if target.Header? then target.(arguments := AppendArguments(target.arguments, source.argumentsPart))
    else Merged(target, source)
  }

  /** The pending part absorbs the next one. */
  lemma AbsorbKeepsInv(seen: seq<Part>, at: nat, target: Part, x: Part, content: seq<Part>, toolCalls: seq<Call>,
                       indexMap: map<Index, nat>)
    requires Inv(seen, at, Some(target), content, toolCalls, indexMap) && Absorbs(target, x)
    requires x.IndexedDelta?() ==> x.index == target.index
    ensures Inv(seen + [x], at, Some(Grown(target, x)), content, toolCalls, indexMap)
  {
    if target.Header? {
      MergeDeltaKeepsInv(seen, at, target, x, content, toolCalls, indexMap);
    } else {
      MergeContentKeepsInv(seen, at, target, x, content, toolCalls, indexMap);
    }
  }

  /** The part may start a new pending part once everything before it is flushed. */
  ghost predicate Starts(seen: seq<Part>, x: Part) {
    && !x.IndexedDelta?() && (x.Delta? ==> Owner(seen, x).None?)
    && (x.Content?() && OpenContent(seen) && Contents(seen) != [] ==> !Mergeable(Contents(seen)[|Contents(seen)| - 1], x))
  }

  /** That is so for a part the pending one does not absorb. */
  lemma UnabsorbedStarts(seen: seq<Part>, at: nat, pending: Option<Part>, x: Part, content: seq<Part>,
                         toolCalls: seq<Call>, indexMap: map<Index, nat>)
    requires Inv(seen, at, pending, content, toolCalls, indexMap)
    requires (pending.Some? ==> !Absorbs(pending.value, x)) && !x.IndexedDelta?()
    ensures Starts(seen, x)
  {}

  // ---------------------------------------------------------------- the loop

  class Assembler {
    var pendingPart: Option<Part>
    var content: seq<Part>
    var toolCalls: seq<Call>
    var toolCallIndexMap: map<Index, nat>

    /** The parts received so far, and the place of the pending header among them. */
    ghost var seen: seq<Part>
    ghost var pendingAt: nat

    ghost predicate Valid()
      reads this
    {
      Inv(seen, pendingAt, pendingPart, content, toolCalls, toolCallIndexMap)
    }

    constructor ()
      ensures Valid() && seen == []
    {
      pendingPart, content, toolCalls, toolCallIndexMap := None, [], [], map[];
      seen, pendingAt := [], 0;
    }

    predicate IsPendingToolCallAtIndex(index: Option<Index>)
      reads this
    {
      pendingPart.Some? && pendingPart.value.Header? && pendingPart.value.index == index
    }

    /** `mergeInPlace`, with the pending part as its target. */
    method MergeInPlace(source: Part) returns (merged: bool)
      requires pendingPart.Some?
      modifies this
      ensures content == old(content) && toolCalls == old(toolCalls) && toolCallIndexMap == old(toolCallIndexMap)
      ensures seen == old(seen) && pendingAt == old(pendingAt) && pendingPart.Some?
      ensures merged == Absorbs(old(pendingPart).value, source)
      ensures pendingPart == if merged then Some(Grown(old(pendingPart).value, source)) else old(pendingPart)
    {
      var target := pendingPart.value;
      if target.Text? && source.Text? {
        pendingPart := Some(target.(text := target.text + source.text));
        return true;
      }
      if target.Think? && source.Think? {
        if target.encrypted.Some? {
          return false;
        }
        target := target.(think := target.think + source.think);
        if source.encrypted.Some? {
          target := target.(encrypted := source.encrypted);
        }
        pendingPart := Some(target);
        return true;
      }
      if target.Header? && source.Delta? {
        if source.argumentsPart.Some? {
          var text := source.argumentsPart.value;
          target := target.(arguments := Some(if target.arguments.None? then text else target.arguments.value + text));
          pendingPart := Some(target);
        }
        return true;
      }
      return false;
    }

    /** `flushPart`, with the pending part. */
    method FlushPart()
      requires Valid() && pendingPart.Some?
      modifies this
      ensures seen == old(seen) && pendingAt == old(pendingAt) && pendingPart == old(pendingPart)
      ensures AllFlushed(seen, content, toolCalls, toolCallIndexMap)
    {
      var part := pendingPart.value;
      if part.Content?() {
        content := content + [part];
      } else if part.Header? {
        FlushHeader(seen, pendingAt, part, content, toolCalls, toolCallIndexMap);
        var ordinal := |toolCalls|;
        toolCalls := toolCalls + [Stored(part)];
        if part.index.Some? {
          toolCallIndexMap := toolCallIndexMap[part.index.value := ordinal];
        }
      }
    }

    /** An indexed delta whose call is not pending: straight to the stored call, or an error. */
    method RouteByIndex(part: Part) returns (unknown: Option<Index>)
      requires Valid() && part.IndexedDelta?() && !IsPendingToolCallAtIndex(part.index)
      modifies this
      ensures unknown == if Owner(old(seen), part).None? then part.index else None
      ensures unknown.None? ==> Valid() && seen == old(seen) + [part]
    {
      RoutedOwner(seen, pendingAt, pendingPart, content, toolCalls, toolCallIndexMap, part);
      if part.index.value !in toolCallIndexMap {
        return part.index;
      }
      AppendToStored(part, toolCallIndexMap[part.index.value]);
      unknown := None;
    }

    /** The delta's text goes to the stored call k. */
    method AppendToStored(part: Part, k: nat)
      requires Valid() && part.IndexedDelta?() && !IsPendingToolCallAtIndex(part.index)
      requires part.index.value in toolCallIndexMap && k == toolCallIndexMap[part.index.value] && k < |toolCalls|
      modifies this
      ensures Valid() && seen == old(seen) + [part]
    {
      var target := WithText(toolCalls[k], part.argumentsPart);
      var routed := toolCalls[k := target];
      RouteKeepsInv(seen, pendingAt, pendingPart, content, toolCalls, toolCallIndexMap, part, k, routed);
      toolCalls := routed;
      seen := seen + [part];
    }

    /** The stored call with the delta's text behind its own. */
    static method WithText(call: Call, argumentsPart: Option<string>) returns (target: Call)
      ensures target == Extended(call, argumentsPart)
    {
      target := call;
      if argumentsPart.Some? {
        var text := argumentsPart.value;
        target := target.(arguments := Some(if target.arguments.None? then text else target.arguments.value + text));
      }
    }

    /** The part becomes the pending one. */
    method Begin(part: Part)
      requires AllFlushed(seen, content, toolCalls, toolCallIndexMap) && Starts(seen, part)
      modifies this
      ensures Valid() && seen == old(seen) + [part]
    {
      ghost var at := |seen|;
      StartKeepsInv(seen, at, part, content, toolCalls, toolCallIndexMap);
      pendingPart, pendingAt := Some(part), at;
      seen := seen + [part];
    }

    /** Any other part: it merges into the pending one or takes its place. */
    method MergeOrReplace(part: Part)
      requires Valid() && (part.IndexedDelta?() ==> IsPendingToolCallAtIndex(part.index))
      modifies this
      ensures Valid() && seen == old(seen) + [part]
    {
      if pendingPart.None? {
        UnabsorbedStarts(seen, pendingAt, pendingPart, part, content, toolCalls, toolCallIndexMap);
        Begin(part);
        return;
      }
      if Absorbs(pendingPart.value, part) {
        AbsorbKeepsInv(seen, pendingAt, pendingPart.value, part, content, toolCalls, toolCallIndexMap);
      } else {
        UnabsorbedStarts(seen, pendingAt, pendingPart, part, content, toolCalls, toolCallIndexMap);
      }
      var merged := MergeInPlace(part);
      if merged {
        seen := seen + [part];
      } else {
        FlushPart();
        Begin(part);
      }
    }

    /** One round of the loop; `unknown` is the index of a delta the loop throws on. */
    method Receive(part: Part) returns (unknown: Option<Index>)
      requires Valid()
      modifies this
      ensures unknown == if part.IndexedDelta?() && Owner(old(seen), part).None? then part.index else None
      ensures unknown.None? ==> Valid() && seen == old(seen) + [part]
    {
      unknown := None;
      if part.IndexedDelta?() && !IsPendingToolCallAtIndex(part.index) {
        unknown := RouteByIndex(part);
      } else {
        PendingOwner(part);
        MergeOrReplace(part);
      }
    }

    /** The flush behind the loop. */
    method Finish() returns (allContent: seq<Part>, allCalls: seq<Call>)
      requires Valid()
      modifies this
      ensures allContent == Contents(old(seen)) && allCalls == Calls(old(seen))
    {
      if pendingPart.Some? {
        FlushPart();
      }
      return content, toolCalls;
    }

    lemma PendingOwner(part: Part)
      requires Valid() && (part.IndexedDelta?() ==> IsPendingToolCallAtIndex(part.index))
      ensures part.IndexedDelta?() ==> Owner(seen, part).Some?
    {
      if part.IndexedDelta?() {
        LatestSkips(seen, pendingAt, part.index.value);
      }
    }
  }

  // ---------------------------------------------------------------- the whole stream

  lemma UnknownAfter(p: seq<Part>, x: Part)
    ensures UnknownIndexIn(p + [x]) ==
      if UnknownIndexIn(p).None? && x.IndexedDelta?() && Owner(p, x).None? then x.index else UnknownIndexIn(p)
  {
    assert (p + [x])[..|p|] == p;
  }

  lemma {:induction false} UnknownStays(p: seq<Part>, n: nat)
    requires n <= |p| && UnknownIndexIn(p[..n]).Some?
    ensures UnknownIndexIn(p) == UnknownIndexIn(p[..n])
    decreases |p| - n
  {
    if n == |p| {
      assert p[..n] == p;
    } else {
      UnknownAfter(p[..n], p[n]);
      assert p[..n + 1] == p[..n] + [p[n]];
      UnknownStays(p, n + 1);
    }
  }

  /** The message has a kind of part exactly when the stream has. */
  lemma {:induction false} KindsKept(p: seq<Part>)
    ensures Contents(p) == [] <==> !AnyContent(p)
    ensures Calls(p) == [] <==> !AnyHeader(p)
    ensures AnyThink(Contents(p)) <==> AnyThink(p)
    ensures AnyText(Contents(p)) <==> AnyText(p)
    ensures AnyRealText(Contents(p)) <==> AnyRealText(p)
  {
    if p != [] {
      var front, x := p[..|p| - 1], p[|p| - 1];
      assert p == front + [x];
      KindsKept(front);
      HeadersCounted(p);
      KindsOfAppended(front, x);
      ContentsAfter(front, x);
      var content := Contents(front);
      if x.Content?() {
        if OpenContent(front) && content != [] && Mergeable(content[|content| - 1], x) {
          var rest, last := content[..|content| - 1], content[|content| - 1];
          assert content == rest + [last] && Contents(p) == rest + [Merged(last, x)];
          KindsOfAppended(rest, last);
          KindsOfAppended(rest, Merged(last, x));
          BlankJoin(last, x);
        } else {
          KindsOfAppended(content, x);
        }
      }
    }
  }

  lemma KindsOfAppended(p: seq<Part>, x: Part)
    ensures AnyContent(p + [x]) <==> AnyContent(p) || x.Content?()
    ensures AnyThink(p + [x]) <==> AnyThink(p) || x.Think?
    ensures AnyText(p + [x]) <==> AnyText(p) || x.Text?
    ensures AnyRealText(p + [x]) <==> AnyRealText(p) || (x.Text? && !AllBlank(x.text))
  {
    var q := p + [x];
    assert q[|p|] == x;
    assert forall i | 0 <= i < |p| :: q[i] == p[i];
  }

  lemma BlankJoin(a: Part, b: Part)
    requires Mergeable(a, b)
    ensures a.Text? ==> (AllBlank(a.text + b.text) <==> AllBlank(a.text) && AllBlank(b.text))
  {
    if a.Text? && AllBlank(a.text + b.text) {
      assert forall i | 0 <= i < |a.text| :: (a.text + b.text)[i] == a.text[i];
      assert forall i | 0 <= i < |b.text| :: (a.text + b.text)[|a.text| + i] == b.text[i];
    }
  }

  lemma {:induction false} HeadersCounted(p: seq<Part>)
    ensures HeaderCount(p) == 0 <==> !AnyHeader(p)
  {
    if p != [] {
      var front, x := p[..|p| - 1], p[|p| - 1];
      HeadersCounted(front);
      assert forall i | 0 <= i < |front| :: front[i] == p[i];
    }
  }

  /** A part that is taken leaves the stream acceptable so far, and one that is refused decides its outcome. */
  lemma PrefixGrows(parts: seq<Part>, i: nat, unknown: Option<Index>)
    requires i < |parts| && UnknownIndexIn(parts[..i]).None?
    requires unknown == if parts[i].IndexedDelta?() && Owner(parts[..i], parts[i]).None? then parts[i].index else None
    ensures parts[..i + 1] == parts[..i] + [parts[i]]
    ensures unknown.None? ==> UnknownIndexIn(parts[..i + 1]).None?
    ensures unknown.Some? ==> Outcome(parts) == Err(UnknownIndex(unknown.value))
  {
    UnknownAfter(parts[..i], parts[i]);
    assert parts[..i + 1] == parts[..i] + [parts[i]];
    if UnknownIndexIn(parts[..i + 1]).Some? {
      UnknownStays(parts, i + 1);
    }
  }

  /** `generate`, from the first streamed part to the message or the error. */
  method Generate(parts: seq<Part>) returns (result: Result<Message, Failure>)
    ensures result == Outcome(parts)
    ensures Answers(parts, result)
  {
    AnswersIff(parts);
    var loop := new Assembler();
    for i := 0 to |parts|
      invariant fresh(loop) && loop.Valid() && loop.seen == parts[..i] && UnknownIndexIn(parts[..i]).None?
    {
      var unknown := loop.Receive(parts[i]);
      PrefixGrows(parts, i, unknown);
      if unknown.Some? {
        return Err(UnknownIndex(unknown.value));
      }
    }
    assert parts[..|parts|] == parts;
    var content, toolCalls := loop.Finish();
    result := Conclude(content, toolCalls, parts);
  }

  /** The checks behind the loop, on the finished message. */
  method Conclude(content: seq<Part>, toolCalls: seq<Call>, ghost parts: seq<Part>)
    returns (result: Result<Message, Failure>)
    requires content == Contents(parts) && toolCalls == Calls(parts) && UnknownIndexIn(parts).None?
    ensures result == Outcome(parts)
  {
    KindsKept(parts);
    if content == [] && toolCalls == [] {
      return Err(NoContent);
    }
    var hasThink, hasText, hasToolCalls := AnyThink(content), AnyRealText(content), |toolCalls| > 0;
    if hasThink && !hasText && !hasToolCalls {
      return Err(OnlyThinking);
    }
    if !hasText && !hasToolCalls && AnyText(content) {
      return Err(OnlyBlankText);
    }
    return Ok(Message(content, toolCalls));
  }
}
