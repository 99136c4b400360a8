/**
 Which rows the library has after an operation: what an insertion stores, what a repeated
 entity keeps and what it takes over, and that deleting a source takes no more than the keys ask for.
 */
module KnowledgeRows {
  import opened Wrappers
  import opened RowIds
  import opened FtsIndex
  import opened KnowledgeLibrary
  import opened KnowledgeTheorems

  /** Every row of `before` is still there under its row identity. */
  ghost predicate KeepsRows<R(!new)>(before: map<nat, R>, after: map<nat, R>) {
    forall r | r in before :: r in after && after[r] == before[r]
  }

  ghost predicate Stores<R(!new)>(table: map<nat, R>, row: R) {
    exists r :: r in table && table[r] == row
  }

  // ---------------------------------------------------------------- chunks and events

  /** A chunk is stored exactly when its identity is free and its source and document exist; nothing else changes. */
  lemma ChunkIsStored(l: Library, t: Text, c: Chunk, x: Chunk)
    ensures var after := InsertChunk(l, t, c);
      && KeepsRows(l.chunks, after.chunks)
      && (Stores(after.chunks, x) <==>
            Stores(l.chunks, x)
            || (x == c && c.source in l.sources && c.document in l.documents && forall r | r in l.chunks :: l.chunks[r].id != c.id))
      && after == l.(chunks := after.chunks, chunkIndex := after.chunkIndex)
  {
    var after, r := InsertChunk(l, t, c), NextAfter(l.chunks.Keys);
    if ChunkAccepted(l, c) {
      assert after.chunks == l.chunks[r := c] && after.chunks[r] == c;
    }
    if Stores(l.chunks, x) {
      var q :| q in l.chunks && l.chunks[q] == x;
      assert q in after.chunks && after.chunks[q] == x;
    }
  }

  /** And an event when its source, document and chunk exist. */
  lemma EventIsStored(l: Library, t: Text, e: Event, x: Event)
    ensures var after := InsertEvent(l, t, e);
      && KeepsRows(l.events, after.events)
      && (Stores(after.events, x) <==>
            Stores(l.events, x)
            || (x == e && e.source in l.sources && e.document in l.documents && HasChunk(l.chunks, e.chunk)
                && forall r | r in l.events :: l.events[r].id != e.id))
      && after == l.(events := after.events, eventIndex := after.eventIndex)
  {
    var after, r := InsertEvent(l, t, e), NextAfter(l.events.Keys);
    if EventAccepted(l, e) {
      assert after.events == l.events[r := e] && after.events[r] == e;
    }
    if Stores(l.events, x) {
      var q :| q in l.events && l.events[q] == x;
      assert q in after.events && after.events[q] == x;
    }
  }

  /**
   In an exact index a chunk is found under its heading and content, an event under title,
   summary and content, and an entity under name and description; what is null counts as empty.
   */
  lemma IndexedColumns(l: Library, t: Text, r: nat, heading: string, summary: string, description: string)
    requires Indexed(l, t)
    requires r in l.chunks ==> if l.chunks[r].heading.None? then heading == "" else l.chunks[r].heading == Some(heading)
    requires r in l.events ==> if l.events[r].summary.None? then summary == "" else l.events[r].summary == Some(summary)
    requires r in l.entities ==>
      if l.entities[r].description.None? then description == "" else l.entities[r].description == Some(description)
    ensures r in l.chunks ==> l.chunkIndex[(r, [t.text(heading), t.text(l.chunks[r].content)])] == 1
    ensures r in l.events ==> l.eventIndex[(r, [t.text(l.events[r].title), t.text(summary), t.text(l.events[r].content)])] == 1
    ensures r in l.entities ==> l.entityIndex[(r, [t.text(l.entities[r].name), t.text(description)])] == 1
  {
    if r in l.chunks {
      assert ChunkDoc(t)(l.chunks[r]) == [t.text(heading), t.text(l.chunks[r].content)];
    }
    if r in l.events {
      assert EventDoc(t)(l.events[r]) == [t.text(l.events[r].title), t.text(summary), t.text(l.events[r].content)];
    }
    if r in l.entities {
      assert EntityDoc(t)(l.entities[r]) == [t.text(l.entities[r].name), t.text(description)];
    }
  }

  // ---------------------------------------------------------------- entities

  /** `UNIQUE(source_id, type, normalized_name)` */
  ghost predicate UniqueNames(entities: map<nat, Entity>) {
    forall r, q | r in entities && q in entities && SameName(entities[r], entities[q]) :: r == q
  }

  predicate SameName(a: Entity, b: Entity) {
    a.source == b.source && a.kind == b.kind && a.normalized == b.normalized
  }

  ghost predicate Normalized(entities: map<nat, Entity>, t: Text) {
    forall r | r in entities :: entities[r].normalized == t.normalize(entities[r].name)
  }

  ghost predicate HasNamesake(entities: map<nat, Entity>, e: Entity) {
    exists r :: r in entities && SameName(entities[r], e)
  }

  /**
   An entity that is told again keeps its row, and every column of it except a missing
   description, which it takes from the telling. Told for the first time it is stored as it is,
   when its source exists and its identity is free. No other row changes.
   */
  lemma EntityIsStored(l: Library, t: Text, given: Entity, x: Entity)
    requires UniqueNames(l.entities)
    ensures var e := given.(normalized := t.normalize(given.name));
      var after := UpsertEntity(l, t, given);
      && (forall r | r in l.entities && !SameName(l.entities[r], e) :: r in after.entities && after.entities[r] == l.entities[r])
      && (forall r | r in l.entities && SameName(l.entities[r], e) ::
            && r in after.entities && after.entities[r].(description := None) == l.entities[r].(description := None)
            && (forall told :: l.entities[r].description == Some(told) ==> after.entities[r].description == Some(told))
            && (l.entities[r].description.None? ==> after.entities[r].description == e.description))
      && (HasNamesake(l.entities, e) ==> after.entities.Keys == l.entities.Keys)
      && (!HasNamesake(l.entities, e) ==>
            (Stores(after.entities, x) <==>
               Stores(l.entities, x)
               || (x == e && e.source in l.sources && forall r | r in l.entities :: l.entities[r].id != e.id)))
  {
    var e := given.(normalized := t.normalize(given.name));
    if r :| r in l.entities && SameName(l.entities[r], e) {
      OneNamesake(l, e, r);
      assert HasNamesake(l.entities, e);
      assert UpsertEntity(l, t, given).entities
          == if e.description.Some? && l.entities[r].description.None? then l.entities[r := l.entities[r].(description := e.description)]
             else l.entities;
    } else {
      NewEntity(l, t, given, e, x);
    }
  }

  lemma OneNamesake(l: Library, e: Entity, r: nat)
    requires UniqueNames(l.entities) && r in l.entities && SameName(l.entities[r], e)
    ensures Namesakes(l, e) == {r} && LargestOf({r}) == r
    ensures forall q | q in l.entities && SameName(l.entities[q], e) :: q == r
  {
    assert r in Namesakes(l, e);
    forall q | q in l.entities && SameName(l.entities[q], e)
      ensures q == r
    {
      assert SameName(l.entities[r], l.entities[q]);
    }
    assert LargestOf({r}) in {r};
  }

  lemma NewEntity(l: Library, t: Text, given: Entity, e: Entity, x: Entity)
    requires e == given.(normalized := t.normalize(given.name)) && !HasNamesake(l.entities, e)
    ensures var after := UpsertEntity(l, t, given);
      && KeepsRows(l.entities, after.entities)
      && (Stores(after.entities, x) <==>
            Stores(l.entities, x)
            || (x == e && e.source in l.sources && forall r | r in l.entities :: l.entities[r].id != e.id))
  {
    var after, r := UpsertEntity(l, t, given), NextAfter(l.entities.Keys);
    assert Namesakes(l, e) == {} by {
      forall q | q in Namesakes(l, e)
        ensures false
      {
        assert SameName(l.entities[q], e);
      }
    }
    if EntityAccepted(l, e) {
      assert after.entities == l.entities[r := e] && after.entities[r] == e;
    } else {
      assert after == l;
    }
    if Stores(l.entities, x) {
      var q :| q in l.entities && l.entities[q] == x;
      assert q in after.entities && after.entities[q] == x;
    }
  }

  lemma UpsertKeepsNames(l: Library, t: Text, given: Entity)
    requires UniqueNames(l.entities) && Normalized(l.entities, t)
    ensures UniqueNames(UpsertEntity(l, t, given).entities) && Normalized(UpsertEntity(l, t, given).entities, t)
  {
    var e := given.(normalized := t.normalize(given.name));
    if r :| r in l.entities && SameName(l.entities[r], e) {
      OneNamesake(l, e, r);
    } else {
      forall q | q in Namesakes(l, e)
        ensures false
      {
        assert SameName(l.entities[q], e);
      }
      assert Namesakes(l, e) == {};
    }
  }

  // ---------------------------------------------------------------- deleting a source

  ghost predicate UniqueChunks(chunks: map<nat, Chunk>) {
    forall r, q | r in chunks && q in chunks && chunks[r].id == chunks[q].id :: r == q
  }

  /** `part` has some of the rows of `l` and no others. */
  ghost predicate PartOf(part: Library, l: Library) {
    && part.sources <= l.sources
    && (forall d | d in part.documents :: d in l.documents && l.documents[d] == part.documents[d])
    && KeepsRows(part.chunks, l.chunks) && KeepsRows(part.events, l.events) && KeepsRows(part.entities, l.entities)
  }

  /**
   Deleting a source takes it out, and it takes out as little as the keys allow: every part of
   the library that does without the source and whose rows have their parents is still there.
   */
  lemma CascadeIsLeast(l: Library, t: Text, source: Id, part: Library)
    requires KeysHold(l) && UniqueChunks(l.chunks)
    ensures source !in DeleteSource(l, t, source).sources && PartOf(DeleteSource(l, t, source), l)
    ensures KeysHold(DeleteSource(l, t, source))
    ensures PartOf(part, l) && KeysHold(part) && source !in part.sources ==> PartOf(part, DeleteSource(l, t, source))
  {
    DeleteSourceKeepsKeys(l, t, source);
    if source in l.sources && PartOf(part, l) && KeysHold(part) && source !in part.sources {
      ChunksStay(l, source, part);
      EventsStay(l, source, part);
    }
  }

  lemma ChunksStay(l: Library, source: Id, part: Library)
    requires PartOf(part, l) && KeysHold(part) && source !in part.sources
    ensures forall r | r in part.chunks :: r in l.chunks && r !in LostChunks(l, source)
  {
    forall r | r in part.chunks
      ensures r in l.chunks && r !in LostChunks(l, source)
    {
      assert part.chunks[r] == l.chunks[r] && part.chunks[r].document in part.documents;
    }
  }

  lemma EventsStay(l: Library, source: Id, part: Library)
    requires PartOf(part, l) && KeysHold(part) && source !in part.sources && UniqueChunks(l.chunks)
    ensures forall r | r in part.events :: r in l.events && r !in LostEvents(l, source)
  {
    ChunksStay(l, source, part);
    forall r | r in part.events
      ensures r in l.events && r !in LostEvents(l, source)
    {
      var e := part.events[r];
      assert e == l.events[r] && e.document in part.documents;
      var q :| q in part.chunks && part.chunks[q].id == e.chunk;
      assert l.chunks[q].id == e.chunk;
      assert !ChunkGoes(l, e.chunk, source);
    }
  }

  // ---------------------------------------------------------------- sessions

  /** No two chunks with one identity, no two entities with one name, names normalised. */
  ghost predicate Unique(l: Library, t: Text) {
    UniqueChunks(l.chunks) && UniqueNames(l.entities) && Normalized(l.entities, t)
  }

  ghost predicate BothUnique(db: Database, t: Text) {
    Unique(db.library, t) && (db.saved.Some? ==> Unique(db.saved.value, t))
  }

  lemma ChunkKeepsUnique(l: Library, t: Text, c: Chunk)
    requires UniqueChunks(l.chunks)
    ensures UniqueChunks(InsertChunk(l, t, c).chunks)
  {
    if ChunkAccepted(l, c) {
      var r := NextAfter(l.chunks.Keys);
      assert InsertChunk(l, t, c).chunks == l.chunks[r := c];
      assert forall q | q in l.chunks :: l.chunks[q].id != c.id;
    }
  }

  lemma StepKeepsUnique(db: Database, t: Text, op: Op)
    requires BothUnique(db, t)
    ensures BothUnique(Apply(db, t, op), t)
  {
    match op
    case AddChunk(c) => ChunkKeepsUnique(db.library, t, c);
    case AddEntity(e) =>
      UpsertKeepsNames(db.library, t, e);
      UpsertFrame(db.library, t, e);
    case _ =>
  }

  /** So what is said above holds of every library a session reaches. */
  lemma {:induction false} SessionsKeepUnique(t: Text, ops: seq<Op>)
    ensures BothUnique(Run(Database(EMPTY, None), t, ops), t)
  {
    if ops != [] {
      SessionsKeepUnique(t, ops[..|ops| - 1]);
      StepKeepsUnique(Run(Database(EMPTY, None), t, ops[..|ops| - 1]), t, ops[|ops| - 1]);
    }
  }

  // ---------------------------------------------------------------- what a session comes to

  /** What an operation on the tables does; the three others only say what counts. */
  function Performed(l: Library, t: Text, op: Op): Library {
    match op
    case AddSource(id) => CreateSource(l, id)
    case AddDocument(id, source) => CreateDocument(l, id, source)
    case AddChunk(chunk) => InsertChunk(l, t, chunk)
    case AddEvent(event) => InsertEvent(l, t, event)
    case AddEntity(entity) => UpsertEntity(l, t, entity)
    case RemoveSource(id) => DeleteSource(l, t, id)
    case _ => l
  }

  function PerformedAll(t: Text, ops: seq<Op>): Library {
    if ops == [] then EMPTY else Performed(PerformedAll(t, ops[..|ops| - 1]), t, ops[|ops| - 1])
  }

  /** The operations that count, and how many of them counted when the open transaction began. */
  datatype Account = Account(counted: seq<Op>, since: Option<nat>)

  /** A rollback strikes out what the open transaction did; a second `BEGIN` inside it and a stray `COMMIT` or `ROLLBACK` do nothing. */
  function Accounted(ops: seq<Op>): (a: Account)
    ensures a.since.Some? ==> a.since.value <= |a.counted|
  {
    if ops == [] then Account([], None)
    else
      var a, op := Accounted(ops[..|ops| - 1]), ops[|ops| - 1];
      if op.Begin? then (if a.since.None? then Account(a.counted, Some(|a.counted|)) else a)
      else if op.Commit? then Account(a.counted, None)
      else if op.Rollback? then (if a.since.Some? then Account(a.counted[..a.since.value], None) else a)
      else Account(a.counted + [op], a.since)
  }

  predicate OnTables(op: Op) {
    !op.Begin? && !op.Commit? && !op.Rollback?
  }

  lemma TableStep(db: Database, t: Text, op: Op)
    requires OnTables(op)
    ensures Apply(db, t, op) == db.(library := Performed(db.library, t, op))
  {}

  lemma OneMorePerformed(t: Text, ops: seq<Op>, op: Op)
    ensures PerformedAll(t, ops + [op]) == Performed(PerformedAll(t, ops), t, op)
  {
    assert (ops + [op])[..|ops|] == ops;
  }

  /** The library and what a rollback would restore are those of the account. */
  ghost predicate Balances(t: Text, a: Account, db: Database) {
    && (a.since.Some? ==> a.since.value <= |a.counted|)
    && db.library == PerformedAll(t, a.counted)
    && db.saved == (if a.since.Some? then Some(PerformedAll(t, a.counted[..a.since.value])) else None)
  }

  lemma TableOpBalances(t: Text, a: Account, db: Database, op: Op)
    requires Balances(t, a, db) && OnTables(op)
    ensures Balances(t, Account(a.counted + [op], a.since), Apply(db, t, op))
  {
    TableStep(db, t, op);
    OneMorePerformed(t, a.counted, op);
    if a.since.Some? {
      assert (a.counted + [op])[..a.since.value] == a.counted[..a.since.value];
    }
  }

  /** The library is what the operations that count have made of the empty one, each once and in order. */
  lemma {:induction false} SessionIsItsOperations(t: Text, ops: seq<Op>)
    ensures Balances(t, Accounted(ops), Run(Database(EMPTY, None), t, ops))
  {
    if ops != [] {
      var front, op := ops[..|ops| - 1], ops[|ops| - 1];
      var a, db := Accounted(front), Run(Database(EMPTY, None), t, front);
      SessionIsItsOperations(t, front);
      assert a.counted[..|a.counted|] == a.counted;
      if OnTables(op) {
        TableOpBalances(t, a, db, op);
      } else {
        assert Balances(t, Accounted(ops), Apply(db, t, op));
      }
    }
  }
}
