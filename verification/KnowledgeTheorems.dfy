/**
 After any session on the library, whatever was inserted, described late, deleted or rolled
 back, each full-text index has exactly one entry per row, equal to the tokenised row.
 */
module KnowledgeTheorems {
  import opened Wrappers
  import opened RowIds
  import opened FtsIndex
  import opened KnowledgeLibrary

  // ---------------------------------------------------------------- the indexes, step by step

  lemma InsertChunkKeepsIndexes(l: Library, t: Text, c: Chunk)
    requires Indexed(l, t)
    ensures Indexed(InsertChunk(l, t, c), t)
  {
    InsertAgrees(l.chunks, ChunkDoc(t), l.chunkIndex, NextAfter(l.chunks.Keys), c);
  }

  lemma InsertEventKeepsIndexes(l: Library, t: Text, e: Event)
    requires Indexed(l, t)
    ensures Indexed(InsertEvent(l, t, e), t)
  {
    InsertAgrees(l.events, EventDoc(t), l.eventIndex, NextAfter(l.events.Keys), e);
  }

  /** A late description finds the old entry because a null description was indexed as the empty text. */
  lemma UpsertEntityKeepsIndexes(l: Library, t: Text, given: Entity)
    requires Indexed(l, t) && t.text("") == ""
    ensures Indexed(UpsertEntity(l, t, given), t)
  {
    var e := given.(normalized := t.normalize(given.name));
    var same := Namesakes(l, e);
    if same != {} {
      var r := LargestOf(same);
      var described := l.entities[r].(description := e.description);
      ReplaceAgrees(l.entities, EntityDoc(t), l.entityIndex, r, described);
    } else {
      InsertAgrees(l.entities, EntityDoc(t), l.entityIndex, NextAfter(l.entities.Keys), e);
    }
  }

  /**
   Deleting a source keeps the indexes exact if and only if the cascade reaches no chunk or
   event that names another source: the 'delete' commands go by the named source alone.
   */
  lemma DeleteSourceKeepsIndexesIff(l: Library, t: Text, source: Id)
    requires Indexed(l, t) && source in l.sources
    ensures Indexed(DeleteSource(l, t, source), t) <==> CascadeStaysInside(l, source)
  {
    DeleteAgreesIff(l.chunks, ChunkDoc(t), l.chunkIndex, LostChunks(l, source), NamedChunks(l, source));
    DeleteAgreesIff(l.events, EventDoc(t), l.eventIndex, LostEvents(l, source), NamedEvents(l, source));
    DeleteAgreesIff(l.entities, EntityDoc(t), l.entityIndex, NamedEntities(l, source), NamedEntities(l, source));
    if CascadeStaysInside(l, source) {
      assert NamedChunks(l, source) == LostChunks(l, source);
      assert NamedEvents(l, source) == LostEvents(l, source);
    }
    if NamedChunks(l, source) == LostChunks(l, source) && NamedEvents(l, source) == LostEvents(l, source) {
      forall r | r in l.chunks && DocumentGoes(l, l.chunks[r].document, source)
        ensures l.chunks[r].source == source
      {
        assert r in NamedChunks(l, source);
      }
      forall r | r in l.events && (DocumentGoes(l, l.events[r].document, source) || ChunkGoes(l, l.events[r].chunk, source))
        ensures l.events[r].source == source
      {
        assert r in LostEvents(l, source);
        assert r in NamedEvents(l, source);
      }
    }
  }

  lemma RunAppend(db: Database, t: Text, ops: seq<Op>, op: Op)
    ensures Run(db, t, ops + [op]) == Apply(Run(db, t, ops), t, op)
  {
    assert (ops + [op])[..|ops|] == ops;
  }

  lemma RunOfFive(db: Database, t: Text, a: Op, b: Op, c: Op, d: Op, e: Op)
    ensures Run(db, t, [a] + [b] + [c] + [d] + [e]) == Apply(Apply(Apply(Apply(Apply(db, t, a), t, b), t, c), t, d), t, e)
  {
    RunAppend(db, t, [], a);
    assert [] + [a] == [a];
    RunAppend(db, t, [a], b);
    RunAppend(db, t, [a] + [b], c);
    RunAppend(db, t, [a] + [b] + [c], d);
    RunAppend(db, t, [a] + [b] + [c] + [d], e);
  }

  /** A session that breaks the agreement: a chunk of one source in a document of another, which is then deleted. */
  lemma StrayChunkLeavesEntry(t: Text)
    ensures var ops := [AddSource("a")] + [AddSource("b")] + [AddDocument("d", "a")]
                       + [AddChunk(Chunk("c", "b", "d", None, "x"))] + [RemoveSource("a")];
      !Indexed(Run(Database(EMPTY, None), t, ops).library, t)
  {
    var c := Chunk("c", "b", "d", None, "x");
    FiveOperations(EMPTY, t, "a", "b", "d", c);
    StrayChunk(CreateDocument(CreateSource(CreateSource(EMPTY, "a"), "b"), "d", "a"), t, c);
  }

  /** Two sources, a document of the first, a chunk, and the first source deleted. */
  lemma FiveOperations(l: Library, t: Text, a: Id, b: Id, d: Id, c: Chunk)
    ensures Run(Database(l, None), t, [AddSource(a)] + [AddSource(b)] + [AddDocument(d, a)] + [AddChunk(c)] + [RemoveSource(a)]).library
         == DeleteSource(InsertChunk(CreateDocument(CreateSource(CreateSource(l, a), b), d, a), t, c), t, a)
  {
    RunOfFive(Database(l, None), t, AddSource(a), AddSource(b), AddDocument(d, a), AddChunk(c), RemoveSource(a));
  }

  lemma StrayChunk(l: Library, t: Text, c: Chunk)
    requires l == CreateDocument(CreateSource(CreateSource(EMPTY, "a"), "b"), "d", "a")
    requires c == Chunk("c", "b", "d", None, "x")
    ensures !Indexed(DeleteSource(InsertChunk(l, t, c), t, "a"), t)
  {
    assert Indexed(l, t);
    InsertChunkKeepsIndexes(l, t, c);
    var with := InsertChunk(l, t, c);
    var r := NextAfter(l.chunks.Keys);
    assert with.chunks[r] == c && DocumentGoes(with, "d", "a");
    DeleteSourceKeepsIndexesIff(with, t, "a");
  }

  // ---------------------------------------------------------------- keys, step by step

  lemma DeleteSourceKeepsKeys(l: Library, t: Text, source: Id)
    requires KeysHold(l)
    ensures KeysHold(DeleteSource(l, t, source))
  {
    if source in l.sources {
      var after := DeleteSource(l, t, source);
      ChunksKeepKeys(l, source, after.documents, after.chunks);
      EventsKeepKeys(l, source, after.documents, after.chunks, after.events);
    }
  }

  lemma ChunksKeepKeys(l: Library, source: Id, documents: map<Id, Id>, chunks: map<nat, Chunk>)
    requires ChunkKeys(l.sources, l.documents, l.chunks) && chunks == l.chunks - LostChunks(l, source)
    requires documents == DocumentsLeft(l.documents, source)
    ensures ChunkKeys(l.sources - {source}, documents, chunks)
  {
    forall r | r in chunks
      ensures chunks[r].source in l.sources - {source} && chunks[r].document in documents
    {
      assert r !in LostChunks(l, source);
    }
  }

  lemma EventsKeepKeys(l: Library, source: Id, documents: map<Id, Id>, chunks: map<nat, Chunk>, events: map<nat, Event>)
    requires EventKeys(l.sources, l.documents, l.chunks, l.events)
    requires chunks == l.chunks - LostChunks(l, source) && events == l.events - LostEvents(l, source)
    requires documents == DocumentsLeft(l.documents, source)
    ensures EventKeys(l.sources - {source}, documents, chunks, events)
  {
    forall r | r in events
      ensures events[r].source in l.sources - {source} && events[r].document in documents
              && HasChunk(chunks, events[r].chunk)
    {
      assert r !in LostEvents(l, source);
      var q :| q in l.chunks && l.chunks[q].id == l.events[r].chunk;
      if q in LostChunks(l, source) {
        assert ChunkGoes(l, l.events[r].chunk, source);
      }
      assert q in chunks && chunks[q].id == events[r].chunk;
    }
  }

  /** Rows that keep to their own source's parents give the cascade nothing else to take. */
  lemma OwnParentsStayInside(l: Library, source: Id)
    requires OwnParents(l)
    ensures CascadeStaysInside(l, source)
  {
    forall r | r in l.events && (DocumentGoes(l, l.events[r].document, source) || ChunkGoes(l, l.events[r].chunk, source))
      ensures l.events[r].source == source
    {
      if ChunkGoes(l, l.events[r].chunk, source) {
        var q :| q in LostChunks(l, source) && q in l.chunks && l.chunks[q].id == l.events[r].chunk;
        assert l.chunks[q].source == source;
      }
    }
  }

  /** A caller that hands each row's parents and source from one place, as the ingest does. */
  ghost predicate Placed(l: Library, op: Op) {
    match op
    case AddChunk(c) => c.document in l.documents ==> l.documents[c.document] == c.source
    case AddEvent(e) =>
      && (e.document in l.documents ==> l.documents[e.document] == e.source)
      && (forall r | r in l.chunks && l.chunks[r].id == e.chunk :: l.chunks[r].source == e.source)
    case _ => true
  }

  ghost predicate Sound(l: Library, t: Text) {
    Indexed(l, t) && KeysHold(l) && OwnParents(l)
  }

  lemma AddSourceStaysSound(l: Library, t: Text, id: Id)
    requires Sound(l, t)
    ensures Sound(CreateSource(l, id), t)
  {}

  lemma AddDocumentStaysSound(l: Library, t: Text, id: Id, source: Id)
    requires Sound(l, t)
    ensures Sound(CreateDocument(l, id, source), t)
  {
    if id !in l.documents && source in l.sources {
      var documents := l.documents[id := source];
      assert ChunkKeys(l.sources, documents, l.chunks);
      assert EventKeys(l.sources, documents, l.chunks, l.events);
      assert OwnChunks(documents, l.chunks) by {
        assert forall r | r in l.chunks :: l.chunks[r].document in l.documents;
      }
      assert OwnEvents(documents, l.chunks, l.events) by {
        assert forall r | r in l.events :: l.events[r].document in l.documents;
      }
    }
  }

  /** A new chunk with an identity of its own: no event refers to it yet. */
  lemma NewChunk(l: Library, r: nat, c: Chunk)
    requires KeysHold(l) && OwnParents(l) && Placed(l, AddChunk(c)) && ChunkAccepted(l, c) && r !in l.chunks
    ensures ChunkKeys(l.sources, l.documents, l.chunks[r := c]) && OwnChunks(l.documents, l.chunks[r := c])
    ensures EventKeys(l.sources, l.documents, l.chunks[r := c], l.events)
    ensures OwnEvents(l.documents, l.chunks[r := c], l.events)
  {
    var chunks := l.chunks[r := c];
    forall n | n in l.events
      ensures HasChunk(chunks, l.events[n].chunk) && l.events[n].chunk != c.id
    {
      var q :| q in l.chunks && l.chunks[q].id == l.events[n].chunk;
      assert q in chunks && chunks[q] == l.chunks[q];
    }
  }

  lemma AddChunkStaysSound(l: Library, t: Text, c: Chunk)
    requires Sound(l, t) && Placed(l, AddChunk(c))
    ensures Sound(InsertChunk(l, t, c), t)
  {
    InsertChunkKeepsIndexes(l, t, c);
    if ChunkAccepted(l, c) {
      NewChunk(l, NextAfter(l.chunks.Keys), c);
    }
  }

  lemma NewEvent(l: Library, r: nat, e: Event)
    requires KeysHold(l) && OwnParents(l) && Placed(l, AddEvent(e)) && EventAccepted(l, e) && r !in l.events
    ensures EventKeys(l.sources, l.documents, l.chunks, l.events[r := e])
    ensures OwnEvents(l.documents, l.chunks, l.events[r := e])
  {}

  lemma AddEventStaysSound(l: Library, t: Text, e: Event)
    requires Sound(l, t) && Placed(l, AddEvent(e))
    ensures Sound(InsertEvent(l, t, e), t)
  {
    InsertEventKeepsIndexes(l, t, e);
    if EventAccepted(l, e) {
      NewEvent(l, NextAfter(l.events.Keys), e);
    }
  }

  /** Upserting touches no other table. */
  lemma UpsertFrame(l: Library, t: Text, e: Entity)
    ensures var after := UpsertEntity(l, t, e);
      after == l.(entities := after.entities, entityIndex := after.entityIndex)
  {}

  lemma UpsertKeepsEntityKeys(l: Library, t: Text, e: Entity)
    requires EntityKeys(l.sources, l.entities)
    ensures EntityKeys(l.sources, UpsertEntity(l, t, e).entities)
  {}

  lemma UpsertKeepsKeys(l: Library, t: Text, e: Entity)
    requires KeysHold(l) && OwnParents(l)
    ensures KeysHold(UpsertEntity(l, t, e)) && OwnParents(UpsertEntity(l, t, e))
  {
    UpsertFrame(l, t, e);
    UpsertKeepsEntityKeys(l, t, e);
    OtherTables(l, UpsertEntity(l, t, e));
  }

  lemma OtherTables(l: Library, after: Library)
    requires KeysHold(l) && OwnParents(l) && EntityKeys(l.sources, after.entities)
    requires after == l.(entities := after.entities, entityIndex := after.entityIndex)
    ensures KeysHold(after) && OwnParents(after)
  {}

  lemma AddEntityStaysSound(l: Library, t: Text, e: Entity)
    requires Sound(l, t) && t.text("") == ""
    ensures Sound(UpsertEntity(l, t, e), t)
  {
    UpsertEntityKeepsIndexes(l, t, e);
    UpsertKeepsKeys(l, t, e);
  }

  lemma DeleteKeepsOwnParents(l: Library, t: Text, source: Id)
    requires OwnParents(l)
    ensures OwnParents(DeleteSource(l, t, source))
  {}

  lemma RemoveSourceStaysSound(l: Library, t: Text, source: Id)
    requires Sound(l, t)
    ensures Sound(DeleteSource(l, t, source), t)
  {
    DeleteSourceKeepsKeys(l, t, source);
    DeleteKeepsOwnParents(l, t, source);
    if source in l.sources {
      OwnParentsStayInside(l, source);
      DeleteSourceKeepsIndexesIff(l, t, source);
    }
  }

  ghost predicate DatabaseSound(db: Database, t: Text) {
    Sound(db.library, t) && (db.saved.Some? ==> Sound(db.saved.value, t))
  }

  lemma StepStaysSound(db: Database, t: Text, op: Op)
    requires DatabaseSound(db, t) && t.text("") == "" && Placed(db.library, op)
    ensures DatabaseSound(Apply(db, t, op), t)
  {
    match op
    case AddSource(id) => AddSourceStaysSound(db.library, t, id);
    case AddDocument(id, source) => AddDocumentStaysSound(db.library, t, id, source);
    case AddChunk(c) => AddChunkStaysSound(db.library, t, c);
    case AddEvent(e) => AddEventStaysSound(db.library, t, e);
    case AddEntity(e) => AddEntityStaysSound(db.library, t, e);
    case RemoveSource(id) => RemoveSourceStaysSound(db.library, t, id);
    case _ =>
  }

  /** The caller placed every row well at the time it was inserted. */
  ghost predicate AllPlaced(t: Text, ops: seq<Op>) {
    forall n | 0 <= n < |ops| :: Placed(Run(Database(EMPTY, None), t, ops[..n]).library, ops[n])
  }

  // ---------------------------------------------------------------- main results

  /** Any session, transactions rolled back or committed, leaves the indexes exact. */
  lemma {:induction false} SessionsKeepIndexes(t: Text, ops: seq<Op>)
    requires t.text("") == "" && AllPlaced(t, ops)
    ensures DatabaseSound(Run(Database(EMPTY, None), t, ops), t)
    decreases |ops|
  {
    if ops == [] {
      EmptyIsSound(t);
    } else {
      var front := ops[..|ops| - 1];
      forall n | 0 <= n < |front|
        ensures Placed(Run(Database(EMPTY, None), t, front[..n]).library, front[n])
      {
        assert front[..n] == ops[..n];
      }
      SessionsKeepIndexes(t, front);
      StepStaysSound(Run(Database(EMPTY, None), t, front), t, ops[|ops| - 1]);
    }
  }

  /** The library after the first n operations of a session. */
  function LibraryAt(t: Text, ops: seq<Op>, n: nat): Library
    requires n <= |ops|
  {
    Run(Database(EMPTY, None), t, ops[..n]).library
  }

  /** Whenever a source is deleted, the cascade reaches no chunk or event that names another. */
  ghost predicate CascadesStayInside(t: Text, ops: seq<Op>) {
    forall n | 0 <= n < |ops| && ops[n].RemoveSource? && ops[n].id in LibraryAt(t, ops, n).sources ::
      CascadeStaysInside(LibraryAt(t, ops, n), ops[n].id)
  }

  ghost predicate AlwaysIndexed(t: Text, ops: seq<Op>) {
    forall n: nat | n <= |ops| :: Indexed(LibraryAt(t, ops, n), t)
  }

  ghost predicate BothIndexed(db: Database, t: Text) {
    Indexed(db.library, t) && (db.saved.Some? ==> Indexed(db.saved.value, t))
  }

  lemma StepKeepsIndexed(db: Database, t: Text, op: Op)
    requires BothIndexed(db, t) && t.text("") == ""
    requires op.RemoveSource? && op.id in db.library.sources ==> CascadeStaysInside(db.library, op.id)
    ensures BothIndexed(Apply(db, t, op), t)
  {
    match op
    case AddChunk(c) => InsertChunkKeepsIndexes(db.library, t, c);
    case AddEvent(e) => InsertEventKeepsIndexes(db.library, t, e);
    case AddEntity(e) => UpsertEntityKeepsIndexes(db.library, t, e);
    case RemoveSource(id) =>
      if id in db.library.sources {
        DeleteSourceKeepsIndexesIff(db.library, t, id);
      }
    case _ =>
  }

  lemma {:induction false} InsideKeepsIndexed(t: Text, ops: seq<Op>, n: nat)
    requires t.text("") == "" && CascadesStayInside(t, ops) && n <= |ops|
    ensures BothIndexed(Run(Database(EMPTY, None), t, ops[..n]), t)
    decreases n
  {
    if n == 0 {
      EmptyIsSound(t);
    } else {
      var less := n - 1;
      InsideKeepsIndexed(t, ops, less);
      RunAppend(Database(EMPTY, None), t, ops[..less], ops[less]);
      assert ops[..n] == ops[..less] + [ops[less]];
      StepKeepsIndexed(Run(Database(EMPTY, None), t, ops[..less]), t, ops[less]);
    }
  }

  /**
   Any session at all, transactions and rollbacks included: the indexes are exact after every
   operation if and only if each deletion of a source keeps to rows that name it.
   */
  lemma SessionExactIff(t: Text, ops: seq<Op>)
    requires t.text("") == ""
    ensures AlwaysIndexed(t, ops) <==> CascadesStayInside(t, ops)
  {
    if CascadesStayInside(t, ops) {
      forall n: nat | n <= |ops| ensures Indexed(LibraryAt(t, ops, n), t) {
        InsideKeepsIndexed(t, ops, n);
      }
    } else {
      var n: nat :| n < |ops| && ops[n].RemoveSource? && ops[n].id in LibraryAt(t, ops, n).sources
                    && !CascadeStaysInside(LibraryAt(t, ops, n), ops[n].id);
      var id := ops[n].id;
      DeletionInSession(t, ops, n, id);
      if Indexed(LibraryAt(t, ops, n), t) {
        assert !Indexed(LibraryAt(t, ops, n + 1), t);
      }
    }
  }

  lemma DeletionInSession(t: Text, ops: seq<Op>, n: nat, id: Id)
    requires n < |ops| && ops[n] == RemoveSource(id) && id in LibraryAt(t, ops, n).sources
    ensures Indexed(LibraryAt(t, ops, n), t) ==>
              (Indexed(LibraryAt(t, ops, n + 1), t) <==> CascadeStaysInside(LibraryAt(t, ops, n), id))
  {
    RunAppend(Database(EMPTY, None), t, ops[..n], ops[n]);
    assert ops[..n + 1] == ops[..n] + [ops[n]];
    assert LibraryAt(t, ops, n + 1) == DeleteSource(LibraryAt(t, ops, n), t, id);
    if Indexed(LibraryAt(t, ops, n), t) {
      DeleteSourceKeepsIndexesIff(LibraryAt(t, ops, n), t, id);
    }
  }

  lemma EmptyIsSound(t: Text)
    ensures Sound(EMPTY, t)
  {}

  predicate InsideTransaction(ops: seq<Op>) {
    forall i | 0 <= i < |ops| :: !ops[i].Commit? && !ops[i].Rollback?
  }

  /** A transaction that is rolled back leaves no trace, in the tables or in the indexes. */
  lemma {:induction false} RollbackLeavesNoTrace(db: Database, t: Text, ops: seq<Op>)
    requires db.saved.None? && InsideTransaction(ops)
    ensures Apply(Run(Apply(db, t, Begin), t, ops), t, Rollback) == db
    decreases |ops|
  {
    SavedStays(Apply(db, t, Begin), t, ops);
  }

  lemma {:induction false} SavedStays(db: Database, t: Text, ops: seq<Op>)
    requires db.saved.Some? && InsideTransaction(ops)
    ensures Run(db, t, ops).saved == db.saved
    decreases |ops|
  {
    if ops != [] {
      SavedStays(db, t, ops[..|ops| - 1]);
    }
  }
}
