/**
 What a streamed assistant answer means: which tool call an argument delta belongs to,
 which content parts are joined, and which streams are refused. Everything is said about
 the stream as a whole; `StreamAssembly` has the loop that works part by part.
 */
module StreamParts {
  import opened Whitespace
  import opened Wrappers

  /** A provider's streaming index: a number or a string. */
  datatype Index = Number(number: int) | Item(item: string)

  datatype Part =
    | Text(text: string)
    | Think(think: string, encrypted: Option<string>)
    | Media(url: string)
    | Header(id: string, name: string, arguments: Option<string>, extras: Option<string>, index: Option<Index>)
    | Delta(argumentsPart: Option<string>, index: Option<Index>)
  {
    /** `isContentPart` */
    predicate Content?() { Text? || Think? || Media? }

    predicate IndexedDelta?() { Delta? && index.Some? }
  }

  /** A stored tool call: the routing index is gone. */
  datatype Call = Call(id: string, name: string, arguments: Option<string>, extras: Option<string>)

  datatype Message = Message(content: seq<Part>, toolCalls: seq<Call>)

  datatype Failure = UnknownIndex(index: Index) | NoContent | OnlyThinking | OnlyBlankText

  function Stored(h: Part): Call
    requires h.Header?
  {
    Call(h.id, h.name, h.arguments, h.extras)
  }

  // ---------------------------------------------------------------- who owns a delta

  /** The last header with that index. */
  function LatestHeader(p: seq<Part>, index: Index): (h: Option<nat>)
    ensures h.Some? ==> h.value < |p| && p[h.value].Header? && p[h.value].index == Some(index)
    ensures forall k | (if h.Some? then h.value + 1 else 0) <= k < |p| :: p[k].Header? ==> p[k].index != Some(index)
  {
    if p == [] then None
    else
      var last := |p| - 1;
      if p[last].Header? && p[last].index == Some(index) then Some(last)
      else
        assert forall k | 0 <= k < last :: p[..last][k] == p[k];
        LatestHeader(p[..last], index)
  }

  /** The last part that is no delta. */
  function LastNonDelta(p: seq<Part>): (q: Option<nat>)
    ensures q.Some? ==> q.value < |p| && !p[q.value].Delta?
    ensures forall k | (if q.Some? then q.value + 1 else 0) <= k < |p| :: p[k].Delta?
  {
    if p == [] then None
    else
      var last := |p| - 1;
      if !p[last].Delta? then Some(last)
      else
        assert forall k | 0 <= k < last :: p[..last][k] == p[k];
        LastNonDelta(p[..last])
  }

  /**
   The header whose arguments a delta that follows `p` extends: the latest one with the
   delta's index or, for a delta without one, the part right before it and its fellow
   deltas if that is a header.
   */
  function Owner(p: seq<Part>, delta: Part): (h: Option<nat>)
    requires delta.Delta?
    ensures h.Some? ==> h.value < |p| && p[h.value].Header?
  {
    match delta.index
    case Some(index) => LatestHeader(p, index)
    case None =>
      var q := LastNonDelta(p);
      if q.Some? && p[q.value].Header? then q else None
  }

  /** Argument text appended to argument text, `null` being no text yet. */
  function AppendArguments(a: Option<string>, b: Option<string>): Option<string> {
    if b.None? then a else if a.None? then b else Some(a.value + b.value)
  }

  // ---------------------------------------------------------------- tool calls

  function HeaderCount(p: seq<Part>): nat {
    if p == [] then 0
    else HeaderCount(p[..|p| - 1]) + if p[|p| - 1].Header? then 1 else 0
  }

  /** The place of header h among the tool calls. */
  function Ordinal(p: seq<Part>, h: nat): nat
    requires h < |p|
  {
    HeaderCount(p[..h])
  }

  lemma {:induction false} OrdinalsIncrease(p: seq<Part>, g: nat, h: nat)
    requires g < h <= |p| && p[g].Header?
    ensures Ordinal(p, g) < HeaderCount(p[..h])
    decreases h
  {
    assert p[..h][..h - 1] == p[..h - 1];
    if g < h - 1 {
      OrdinalsIncrease(p, g, h - 1);
    }
  }

  /** The tool calls of a stream, in header order, each with the argument text it owns so far. */
  function Calls(p: seq<Part>): (calls: seq<Call>)
    ensures |calls| == HeaderCount(p)
  {
    if p == [] then []
    else
      var front, x := p[..|p| - 1], p[|p| - 1];
      var calls := Calls(front);
      match x
      case Header(_, _, _, _, _) => calls + [Stored(x)]
      case Delta(more, _) =>
        var h := Owner(front, x);
        if h.None? then calls
        else
          OrdinalsIncrease(front, h.value, |front|);
          assert front[..|front|] == front;
          var k := Ordinal(front, h.value);
          calls[k := calls[k].(arguments := AppendArguments(calls[k].arguments, more))]
      case _ => calls
  }

  // ---------------------------------------------------------------- content

  /** The content part at the end of the stream may still grow: only indexed deltas follow it. */
  predicate OpenContent(p: seq<Part>) {
    p != [] && var x := p[|p| - 1];
      if x.IndexedDelta?() then OpenContent(p[..|p| - 1]) else x.Content?()
  }

  /** Two neighbouring parts are one: text with text, thinking with thinking not yet signed. */
  predicate Mergeable(a: Part, b: Part) {
    (a.Text? && b.Text?) || (a.Think? && b.Think? && a.encrypted.None?)
  }

  function Merged(a: Part, b: Part): Part
    requires Mergeable(a, b)
  {
    if a.Text? then Text(a.text + b.text) else Think(a.think + b.think, b.encrypted)
  }

  function Contents(p: seq<Part>): seq<Part> {
    if p == [] then []
    else
      var front, x := p[..|p| - 1], p[|p| - 1];
      var content := Contents(front);
      if !x.Content?() then content
      else if OpenContent(front) && content != [] && Mergeable(content[|content| - 1], x) then
        content[|content| - 1 := Merged(content[|content| - 1], x)]
      else content + [x]
  }

  // ---------------------------------------------------------------- refused streams

  /** The index of the first delta that names an index no earlier header has. */
  function UnknownIndexIn(p: seq<Part>): Option<Index> {
    if p == [] then None
    else
      var front, x := p[..|p| - 1], p[|p| - 1];
      var earlier := UnknownIndexIn(front);
      if earlier.None? && x.IndexedDelta?() && Owner(front, x).None? then x.index else earlier
  }

  predicate AnyHeader(p: seq<Part>) {
    exists i :: 0 <= i < |p| && p[i].Header?
  }

  predicate AnyContent(p: seq<Part>) {
    exists i :: 0 <= i < |p| && p[i].Content?()
  }

  predicate AnyThink(p: seq<Part>) {
    exists i :: 0 <= i < |p| && p[i].Think?
  }

  predicate AnyText(p: seq<Part>) {
    exists i :: 0 <= i < |p| && p[i].Text?
  }

  predicate AnyRealText(p: seq<Part>) {
    exists i :: 0 <= i < |p| && p[i].Text? && !AllBlank(p[i].text)
  }

  /** The answer a whole stream stands for, told from the stream itself. */
  function Outcome(p: seq<Part>): Result<Message, Failure> {
    if UnknownIndexIn(p).Some? then Err(UnknownIndex(UnknownIndexIn(p).value))
    else if AnyHeader(p) || AnyRealText(p) then Ok(Message(Contents(p), Calls(p)))
    else if !AnyContent(p) then Err(NoContent)
    else if AnyThink(p) then Err(OnlyThinking)
    else if AnyText(p) then Err(OnlyBlankText)
    else Ok(Message(Contents(p), Calls(p)))
  }
}
