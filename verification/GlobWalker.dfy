/**
 The walk as it runs: one generator frame per directory, all frames sharing the entry
 counter, the cancellation signal and the consumer. Every frame is proved to do to that
 shared state exactly what the function `GlobWalk` says.
 */
module GlobWalker {
  import opened Wrappers
  import opened GlobModel

  class Walker {
    const w: World
    var physicalEntries: map<nat, nat>
    var left: Option<nat>
    var listings: nat
    var yielded: seq<Path>

    function State(): Walk
      reads this
    {
      Walk(physicalEntries, left, listings, yielded)
    }

    /** `glob`, from the first checkpoint to the return of the outermost frame. */
    constructor (world: World, root: nat, parts: seq<Part>, signal: Option<nat>)
      requires world.Valid()
      ensures State() == Glob(world, root, parts, signal)
    {
      w, physicalEntries, left, listings, yielded := world, map[root := 1], signal, 0, [];
      new;
      var aborted := Checkpoint();
      if !aborted && w.physical([]) {
        WalkDirectory([], root, parts, {root});
      }
    }

    /** `isAborted(signal)`: one more look at a signal that fires at some later look. */
    method Checkpoint() returns (aborted: bool)
      modifies this
      ensures aborted == old(State()).Aborted()
      ensures State() == if aborted then old(State()) else old(State()).Checked()
    {
      aborted := left == Some(0);
      if !aborted && left.Some? {
        left := Some(left.value - 1);
      }
    }

    method EnterPhysical(key: nat) returns (entered: bool)
      modifies this
      ensures entered == old(State()).MayEnter(key)
      ensures State() == if entered then old(State()).Enter(key) else old(State())
    {
      var count := if key in physicalEntries then physicalEntries[key] else 0;
      if count >= MAX_PHYSICAL_REVISITS {
        return false;
      }
      physicalEntries := physicalEntries[key := count + 1];
      return true;
    }

    method Readdir(node: nat) returns (es: seq<Entry>)
      modifies this
      ensures es == w.List(node) && State() == old(State()).Read()
    {
      listings := listings + 1;
      es := w.List(node);
    }

    method Yield(path: Path)
      modifies this
      ensures State() == old(State()).Yield(path)
    {
      yielded := yielded + [path];
    }

    /** `_globWalk` */
    method WalkDirectory(base: Path, node: nat, parts: seq<Part>, visited: set<nat>)
      requires w.Valid()
      modifies this
      ensures State() == GlobWalk(w, base, node, parts, visited, old(State()))
      decreases |w.dirs - visited|, |parts|, 1
    {
      var aborted := Checkpoint();
      if aborted || !w.physical(base) || parts == [] {
        return;
      }
      if parts[0].DoubleStar? {
        if |parts| > 1 {
          WalkDirectory(base, node, parts[1..], visited);
        } else {
          Yield(base);
        }
        aborted := Checkpoint();
        if aborted {
          return;
        }
        var es := Readdir(node);
        DescendEverywhere(base, parts, visited, es);
      } else {
        aborted := Checkpoint();
        if aborted {
          return;
        }
        var es := Readdir(node);
        FollowSegment(base, parts, visited, es);
      }
    }

    /** The entry loop of a `**` frame. */
    method DescendEverywhere(base: Path, parts: seq<Part>, visited: set<nat>, es: seq<Entry>)
      requires w.Valid() && w.KnownTargets(es) && parts != [] && parts[0].DoubleStar?
      modifies this
      ensures State() == WalkEntries(w, base, parts, visited, es, old(State()))
      decreases |w.dirs - visited|, |parts|, 0
    {
      for i := 0 to |es|
        invariant WalkEntries(w, base, parts, visited, es[i..], State())
               == WalkEntries(w, base, parts, visited, es, old(State()))
      {
        assert es[i..][0] == es[i] && es[i..][1..] == es[i + 1..];
        var aborted := Checkpoint();
        if aborted {
          return;
        }
        var e := es[i];
        var full := base + [e.name];
        if e.name in w.excluded || !w.lexical(full) {
          continue;
        }
        match e.target
        case Unreachable =>
        case File =>
          if |parts| == 1 && w.physical(full) {
            Yield(full);
          }
        case Directory(key) =>
          if key !in visited {
            var entered := EnterPhysical(key);
            if entered {
              VisitedShrinks(w.dirs, visited, key);
              WalkDirectory(full, key, parts, visited + {key});
            }
          }
      }
    }

    /** The entry loop of a frame whose first part is a segment. */
    method FollowSegment(base: Path, parts: seq<Part>, visited: set<nat>, es: seq<Entry>)
      requires w.Valid() && w.KnownTargets(es) && parts != [] && parts[0].Segment?
      modifies this
      ensures State() == WalkEntries(w, base, parts, visited, es, old(State()))
      decreases |w.dirs - visited|, |parts|, 0
    {
      for i := 0 to |es|
        invariant WalkEntries(w, base, parts, visited, es[i..], State())
               == WalkEntries(w, base, parts, visited, es, old(State()))
      {
        assert es[i..][0] == es[i] && es[i..][1..] == es[i + 1..];
        var aborted := Checkpoint();
        if aborted {
          return;
        }
        var e := es[i];
        var full := base + [e.name];
        if e.name in w.excluded || !w.matches(parts[0].pattern, e.name) || !w.lexical(full) {
          continue;
        }
        if |parts| == 1 {
          if w.physical(full) {
            Yield(full);
          }
        } else if e.target.Directory? && e.target.key !in visited {
          var entered := EnterPhysical(e.target.key);
          if entered {
            VisitedShrinks(w.dirs, visited, e.target.key);
            WalkDirectory(full, e.target.key, parts[1..], visited + {e.target.key});
          }
        }
      }
    }
  }
}
