/**
 The knowledge store as an object over one connection: its statements change tables and
 indexes one after the other, and a transaction can take all of them back.
 */
module KnowledgeStore {
  import opened Wrappers
  import opened RowIds
  import opened FtsIndex
  import opened KnowledgeLibrary
  import opened KnowledgeTheorems

  /** The 'delete' commands of `deleteSource` for one index, in a loop over the rows read beforehand. */
  method DeletePostings<R>(rows: map<nat, R>, doc: R -> Doc, index: Index) returns (after: Index)
    ensures after == Without(rows, doc, index, rows.Keys)
  {
    after := index;
    var left := rows.Keys;
    while left != {}
      invariant left <= rows.Keys
      invariant Without(rows, doc, after, left) == Without(rows, doc, index, rows.Keys)
      decreases |left|
    {
      var r := LargestOf(left);
      after := after - multiset{(r, doc(rows[r]))};
      left := left - {r};
    }
  }

  lemma {:induction false} SameRowsSameCommands<R>(table: map<nat, R>, rows: map<nat, R>, doc: R -> Doc, index: Index, gone: set<nat>)
    requires gone <= rows.Keys && rows.Keys <= table.Keys && forall r | r in gone :: rows[r] == table[r]
    ensures Without(rows, doc, index, gone) == Without(table, doc, index, gone)
    decreases |gone|
  {
    if gone != {} {
      var r := LargestOf(gone);
      SameRowsSameCommands(table, rows, doc, index - multiset{(r, doc(table[r]))}, gone - {r});
    }
  }

  function Restrict<R>(table: map<nat, R>, rows: set<nat>): map<nat, R> {
    map r | r in table && r in rows :: table[r]
  }

  lemma RestrictedCommands<R>(table: map<nat, R>, doc: R -> Doc, index: Index, rows: set<nat>)
    requires rows <= table.Keys
    ensures Restrict(table, rows).Keys == rows
    ensures Without(Restrict(table, rows), doc, index, rows) == Without(table, doc, index, rows)
  {
    SameRowsSameCommands(table, Restrict(table, rows), doc, index, rows);
  }

  /** Commands for the rows read beforehand are the commands for the rows that name the source. */
  lemma NamedCommands(l: Library, t: Text, id: Id)
    ensures var rows := Restrict(l.chunks, NamedChunks(l, id));
      Without(rows, ChunkDoc(t), l.chunkIndex, rows.Keys) == Without(l.chunks, ChunkDoc(t), l.chunkIndex, NamedChunks(l, id))
    ensures var rows := Restrict(l.events, NamedEvents(l, id));
      Without(rows, EventDoc(t), l.eventIndex, rows.Keys) == Without(l.events, EventDoc(t), l.eventIndex, NamedEvents(l, id))
    ensures var rows := Restrict(l.entities, NamedEntities(l, id));
      Without(rows, EntityDoc(t), l.entityIndex, rows.Keys)
        == Without(l.entities, EntityDoc(t), l.entityIndex, NamedEntities(l, id))
  {
    RestrictedCommands(l.chunks, ChunkDoc(t), l.chunkIndex, NamedChunks(l, id));
    RestrictedCommands(l.events, EventDoc(t), l.eventIndex, NamedEvents(l, id));
    RestrictedCommands(l.entities, EntityDoc(t), l.entityIndex, NamedEntities(l, id));
  }

  class Store {
    const text: Text
    var sources: set<Id>
    var documents: map<Id, Id>
    var chunks: map<nat, Chunk>
    var events: map<nat, Event>
    var entities: map<nat, Entity>
    var chunkIndex: Index
    var eventIndex: Index
    var entityIndex: Index
    var saved: Option<Library>

    function Content(): Library
      reads this
    {
      Library(sources, documents, chunks, events, entities, chunkIndex, eventIndex, entityIndex)
    }

    function State(): Database
      reads this
    {
      Database(Content(), saved)
    }

    constructor (t: Text)
      ensures text == t && State() == Database(EMPTY, None)
    {
      text := t;
      sources, documents, chunks, events, entities := {}, map[], map[], map[], map[];
      chunkIndex, eventIndex, entityIndex, saved := multiset{}, multiset{}, multiset{}, None;
    }

    /** `insertChunk`: the row, then its index entry under the row's identity. */
    method InsertChunkRow(c: Chunk) returns (accepted: bool)
      modifies this
      ensures accepted == ChunkAccepted(old(Content()), c)
      ensures State() == Apply(old(State()), text, AddChunk(c))
    {
      accepted := ChunkAccepted(Content(), c);
      if accepted {
        var rowid := NextAfter(chunks.Keys);
        chunks := chunks[rowid := c];
        chunkIndex := chunkIndex + multiset{(rowid, [text.text(OrEmpty(c.heading)), text.text(c.content)])};
      }
    }

    /** `insertEvent` */
    method InsertEventRow(e: Event) returns (accepted: bool)
      modifies this
      ensures accepted == EventAccepted(old(Content()), e)
      ensures State() == Apply(old(State()), text, AddEvent(e))
    {
      accepted := EventAccepted(Content(), e);
      if accepted {
        var rowid := NextAfter(events.Keys);
        events := events[rowid := e];
        eventIndex := eventIndex
          + multiset{(rowid, [text.text(e.title), text.text(OrEmpty(e.summary)), text.text(e.content)])};
      }
    }

    /** `upsertEntity` */
    method UpsertEntityRow(given: Entity)
      modifies this
      ensures State() == Apply(old(State()), text, AddEntity(given))
    {
      var e := given.(normalized := text.normalize(given.name));
      var existing := Namesakes(Content(), e);
      if existing != {} {
        var rowid := LargestOf(existing);
        var descriptionChanged := false;
        if e.description.Some? && entities[rowid].description.None? {
          entities := entities[rowid := entities[rowid].(description := e.description)];
          descriptionChanged := true;
        }
        if descriptionChanged {
          var row := entities[rowid];
          entityIndex := entityIndex - multiset{(rowid, [text.text(row.name), ""])};
          entityIndex := entityIndex + multiset{(rowid, [text.text(row.name), text.text(OrEmpty(row.description))])};
        }
        return;
      }
      if EntityAccepted(Content(), e) {
        var rowid := NextAfter(entities.Keys);
        entities := entities[rowid := e];
        entityIndex := entityIndex + multiset{(rowid, [text.text(e.name), text.text(OrEmpty(e.description))])};
      }
    }

    /** `DELETE FROM knowledge_sources` with its cascade, for a source that exists. */
    method Cascade(id: Id)
      modifies this
      ensures var l := old(Content());
        Content() == DeleteSource(l, text, id).(chunkIndex := l.chunkIndex, eventIndex := l.eventIndex, entityIndex := l.entityIndex)
      ensures saved == old(saved)
    {
      var l := Content();
      if id in sources {
        sources := sources - {id};
        documents := DocumentsLeft(documents, id);
        chunks := chunks - LostChunks(l, id);
        events := events - LostEvents(l, id);
        entities := entities - NamedEntities(l, id);
      }
    }

    /** The 'delete' commands for rows that were read before the cascade. */
    method Unindex(chunkRows: map<nat, Chunk>, eventRows: map<nat, Event>, entityRows: map<nat, Entity>)
      modifies this
      ensures var l := old(Content());
        Content() == l.(chunkIndex := Without(chunkRows, ChunkDoc(text), l.chunkIndex, chunkRows.Keys),
                        eventIndex := Without(eventRows, EventDoc(text), l.eventIndex, eventRows.Keys),
                        entityIndex := Without(entityRows, EntityDoc(text), l.entityIndex, entityRows.Keys))
      ensures saved == old(saved)
    {
      var fewerChunks := DeletePostings(chunkRows, ChunkDoc(text), chunkIndex);
      var fewerEvents := DeletePostings(eventRows, EventDoc(text), eventIndex);
      var fewerEntities := DeletePostings(entityRows, EntityDoc(text), entityIndex);
      chunkIndex, eventIndex, entityIndex := fewerChunks, fewerEvents, fewerEntities;
    }

    /** `deleteSource`: the rows to unindex are read first, then the cascade runs, then the commands go out. */
    method DeleteSourceRow(id: Id) returns (changed: bool)
      modifies this
      ensures changed == (id in old(sources))
      ensures State() == Apply(old(State()), text, RemoveSource(id))
    {
      ghost var l := Content();
      var chunkRows := Restrict(chunks, NamedChunks(Content(), id));
      var eventRows := Restrict(events, NamedEvents(Content(), id));
      var entityRows := Restrict(entities, NamedEntities(Content(), id));
      changed := id in sources;
      Cascade(id);
      if changed {
        Unindex(chunkRows, eventRows, entityRows);
        NamedCommands(l, text, id);
      }
    }

    method BeginTransaction()
      modifies this
      ensures State() == Apply(old(State()), text, Begin)
    {
      if saved.None? {
        saved := Some(Content());
      }
    }

    method CommitTransaction()
      modifies this
      ensures State() == Apply(old(State()), text, Commit)
    {
      saved := None;
    }

    method RollbackTransaction()
      modifies this
      ensures State() == Apply(old(State()), text, Rollback)
    {
      if saved.Some? {
        var l := saved.value;
        sources, documents, chunks, events, entities := l.sources, l.documents, l.chunks, l.events, l.entities;
        chunkIndex, eventIndex, entityIndex := l.chunkIndex, l.eventIndex, l.entityIndex;
        saved := None;
      }
    }
  }
}
