/**
 The glob walk of the local file system layer (`glob`, `_globWalk`) as a function of
 the directory graph, and the declarative meaning of a pattern.

 Directories are physical identities (the `dev:ino` keys of `cycleKey`, all present);
 a path is the list of entry names below the walk root, so several paths may lead to
 one directory when symbolic links do.
 */
module GlobModel {
  import opened Wrappers

  const MAX_PHYSICAL_REVISITS := 2

  type Name = string
  type Path = seq<Name>

  /** One `/`-separated pattern part. */
  datatype Part = DoubleStar | Segment(pattern: string)

  /** What `stat` says about an entry; `Unreachable` is a failing `stat`. */
  datatype Target = Directory(key: nat) | File | Unreachable

  datatype Entry = Entry(name: Name, target: Target)

  /** Everything the walk asks its surroundings. */
  datatype World = World(
    dirs: set<nat>,
    listing: map<nat, seq<Entry>>,       // `readdir`; an absent key is a failing one
    matches: (string, Name) -> bool,     // `globPatternToRegex(part).test(name)`
    excluded: set<Name>,
    lexical: Path -> bool,               // inside `_rootDir`
    physical: Path -> bool)              // `_isWithinPhysicalRoots`
  {
    /** The graph is finite: every directory an entry leads to is one of `dirs`. */
    ghost predicate Valid() {
      forall d | d in listing :: KnownTargets(listing[d])
    }

    ghost predicate KnownTargets(es: seq<Entry>) {
      forall i | 0 <= i < |es| && es[i].target.Directory? :: es[i].target.key in dirs
    }

    /** Every entry has one of these names: those the file system allows. */
    ghost predicate NamedFrom(names: iset<Name>) {
      forall d, i | d in listing && 0 <= i < |listing[d]| :: listing[d][i].name in names
    }

    function List(node: nat): seq<Entry> {
      if node in listing then listing[node] else []
    }
  }

  // ---------------------------------------------------------------- the walk

  /**
   `left` counts the cancellation checkpoints that still find the signal quiet (`None`
   for a signal that never fires), `listings` counts `readdir` calls.
   */
  datatype Walk = Walk(entries: map<nat, nat>, left: Option<nat>, listings: nat, out: seq<Path>) {

    function Count(key: nat): nat { if key in entries then entries[key] else 0 }

    /** `isAborted(signal)` */
    predicate Aborted() { left == Some(0) }

    /** The state after a checkpoint that found the signal quiet. */
    function Checked(): Walk
      requires !Aborted()
    {
      if left.Some? then this.(left := Some(left.value - 1)) else this
    }

    /** `enterPhysical` may enter the directory once more. */
    predicate MayEnter(key: nat) { Count(key) < MAX_PHYSICAL_REVISITS }

    function Enter(key: nat): Walk { this.(entries := entries[key := Count(key) + 1]) }

    function Yield(path: Path): Walk { this.(out := out + [path]) }

    function Read(): Walk { this.(listings := listings + 1) }
  }

  function GlobWalk(w: World, base: Path, node: nat, parts: seq<Part>, visited: set<nat>, st: Walk): Walk
    requires w.Valid()
    decreases |w.dirs - visited|, |parts|, 1, 0
  {
    if st.Aborted() then st
    else if !w.physical(base) || parts == [] then st.Checked()
    else
      var here := st.Checked();
      var before :=
        if parts[0].Segment? then here
        else if |parts| > 1 then GlobWalk(w, base, node, parts[1..], visited, here)
        else here.Yield(base);
      if before.Aborted() then before
      else WalkEntries(w, base, parts, visited, w.List(node), before.Checked().Read())
  }

  function WalkEntries(w: World, base: Path, parts: seq<Part>, visited: set<nat>, es: seq<Entry>, st: Walk): Walk
    requires w.Valid() && w.KnownTargets(es) && parts != []
    decreases |w.dirs - visited|, |parts|, 0, |es|
  {
    if es == [] || st.Aborted() then st
    else WalkEntries(w, base, parts, visited, es[1..], VisitEntry(w, base, parts, visited, es[0], st.Checked()))
  }

  /** One round of the entry loop, after its checkpoint. */
  function VisitEntry(w: World, base: Path, parts: seq<Part>, visited: set<nat>, e: Entry, st: Walk): Walk
    requires w.Valid() && w.KnownTargets([e]) && parts != []
    decreases |w.dirs - visited|, |parts|, 0, 0
  {
    var full := base + [e.name];
    if e.name in w.excluded then st
    else if parts[0].Segment? && !w.matches(parts[0].pattern, e.name) then st
    else if !w.lexical(full) then st
    else if parts[0].Segment? && |parts| == 1 then (if w.physical(full) then st.Yield(full) else st)
    else
      match e.target
      case Unreachable => st
      case File => if parts[0].DoubleStar? && |parts| == 1 && w.physical(full) then st.Yield(full) else st
      case Directory(key) =>
        if key in visited || !st.MayEnter(key) then st
        else
          assert [e][0] == e;
          VisitedShrinks(w.dirs, visited, key);
          GlobWalk(w, full, key, Below(parts), visited + {key}, st.Enter(key))
  }

  /** The pattern a descent continues with: `**` stays in front, a segment is used up. */
  function Below(parts: seq<Part>): seq<Part>
    requires parts != []
  {
    if parts[0].DoubleStar? then parts else parts[1..]
  }

  /** Descending makes the first component of the termination measure smaller. */
  lemma VisitedShrinks(dirs: set<nat>, visited: set<nat>, key: nat)
    requires key in dirs && key !in visited
    ensures |dirs - (visited + {key})| < |dirs - visited|
  {
    assert dirs - visited == (dirs - (visited + {key})) + {key};
  }

  /** `glob` from a root directory that exists; `left` is the state of the caller's signal. */
  function Glob(w: World, root: nat, parts: seq<Part>, left: Option<nat>): Walk
    requires w.Valid()
  {
    var start := Walk(map[root := 1], left, 0, []);
    if start.Aborted() then start
    else if !w.physical([]) then start.Checked()
    else GlobWalk(w, [], root, parts, {root}, start.Checked())
  }

  // ---------------------------------------------------------------- what a pattern means

  /** The path `rel` below `base` leads to `target` through entries the walk may see. */
  ghost predicate Allowed(w: World, base: Path, node: nat, rel: Path, target: Target)
    decreases |rel|
  {
    && w.physical(base)
    && if rel == [] then target == Directory(node)
       else exists i :: 0 <= i < |w.List(node)| && AllowedVia(w, base, w.List(node)[i], rel, target)
  }

  ghost predicate AllowedVia(w: World, base: Path, e: Entry, rel: Path, target: Target)
    requires rel != []
    decreases |rel|, 0
  {
    && e.name == rel[0] && e.name !in w.excluded && w.lexical(base + [e.name])
    && if e.target.Directory? then Allowed(w, base + [e.name], e.target.key, rel[1..], target)
       else |rel| == 1 && target == e.target && w.physical(base + rel)
  }

  /**
   The names match the pattern: a segment takes one name, `**` takes any run of
   directories, and as the last part it takes whatever exists below them too.
   */
  ghost predicate PatternMatches(matches: (string, Name) -> bool, parts: seq<Part>, rel: Path, target: Target)
    decreases |parts|
  {
    && parts != []
    && match parts[0]
       case Segment(p) =>
         rel != [] && matches(p, rel[0])
         && (if |parts| == 1 then |rel| == 1 else PatternMatches(matches, parts[1..], rel[1..], target))
       case DoubleStar =>
         if |parts| == 1 then (if rel == [] then target.Directory? else !target.Unreachable?)
         else exists k :: 0 <= k <= |rel| && PatternMatches(matches, parts[1..], rel[k..], target)
  }

  /** Path `p` is one the walk from `base` ought to list. */
  ghost predicate Listed(w: World, base: Path, node: nat, parts: seq<Part>, p: Path) {
    && base <= p
    && exists target :: Allowed(w, base, node, p[|base|..], target)
                        && PatternMatches(w.matches, parts, p[|base|..], target)
  }
}
