/**
 The knowledge library: sources, documents, chunks, events and entities with their foreign
 keys, and the three full-text indexes the store keeps by hand.
 */
module KnowledgeLibrary {
  import opened Wrappers
  import opened RowIds
  import opened FtsIndex

  type Id = string

  datatype Chunk = Chunk(id: Id, source: Id, document: Id, heading: Option<string>, content: string)

  datatype Event = Event(id: Id, source: Id, document: Id, chunk: Id, title: string, summary: Option<string>, content: string)

  datatype Entity = Entity(id: Id, source: Id, kind: string, name: string, normalized: string, description: Option<string>)

  /** `text` is `toFtsText`, `normalize` is `normalizeName`. */
  datatype Text = Text(text: string -> string, normalize: string -> string)

  function OrEmpty(s: Option<string>): string {
    if s.Some? then s.value else ""
  }

  function ChunkDoc(t: Text): Chunk -> Doc {
    (c: Chunk) => [t.text(OrEmpty(c.heading)), t.text(c.content)]
  }

  function EventDoc(t: Text): Event -> Doc {
    (e: Event) => [t.text(e.title), t.text(OrEmpty(e.summary)), t.text(e.content)]
  }

  function EntityDoc(t: Text): Entity -> Doc {
    (e: Entity) => [t.text(e.name), t.text(OrEmpty(e.description))]
  }

  datatype Library = Library(
    sources: set<Id>,
    documents: map<Id, Id>,              // a document's source
    chunks: map<nat, Chunk>,
    events: map<nat, Event>,
    entities: map<nat, Entity>,
    chunkIndex: Index,
    eventIndex: Index,
    entityIndex: Index)

  /** The three indexes agree with their tables. */
  ghost predicate Indexed(l: Library, t: Text) {
    && Agrees(l.chunks, ChunkDoc(t), l.chunkIndex)
    && Agrees(l.events, EventDoc(t), l.eventIndex)
    && Agrees(l.entities, EntityDoc(t), l.entityIndex)
  }

  // ---------------------------------------------------------------- keys

  predicate HasChunk(chunks: map<nat, Chunk>, id: Id) {
    exists r :: r in chunks && chunks[r].id == id
  }

  ghost predicate ChunkKeys(sources: set<Id>, documents: map<Id, Id>, chunks: map<nat, Chunk>) {
    forall r | r in chunks :: chunks[r].source in sources && chunks[r].document in documents
  }

  ghost predicate EventKeys(sources: set<Id>, documents: map<Id, Id>, chunks: map<nat, Chunk>, events: map<nat, Event>) {
    forall r | r in events ::
      events[r].source in sources && events[r].document in documents && HasChunk(chunks, events[r].chunk)
  }

  ghost predicate EntityKeys(sources: set<Id>, entities: map<nat, Entity>) {
    forall r | r in entities :: entities[r].source in sources
  }

  /** The foreign keys hold: every document, chunk, event and entity has its parents. */
  ghost predicate KeysHold(l: Library) {
    && (forall d | d in l.documents :: l.documents[d] in l.sources)
    && ChunkKeys(l.sources, l.documents, l.chunks)
    && EventKeys(l.sources, l.documents, l.chunks, l.events)
    && EntityKeys(l.sources, l.entities)
  }

  ghost predicate OwnChunks(documents: map<Id, Id>, chunks: map<nat, Chunk>) {
    forall r | r in chunks && chunks[r].document in documents :: documents[chunks[r].document] == chunks[r].source
  }

  ghost predicate OwnEvents(documents: map<Id, Id>, chunks: map<nat, Chunk>, events: map<nat, Event>) {
    && (forall r | r in events && events[r].document in documents :: documents[events[r].document] == events[r].source)
    && (forall r, q | r in events && q in chunks && events[r].chunk == chunks[q].id :: chunks[q].source == events[r].source)
  }

  /** Rows whose parents all belong to the source they name. */
  ghost predicate OwnParents(l: Library) {
    OwnChunks(l.documents, l.chunks) && OwnEvents(l.documents, l.chunks, l.events)
  }

  // ---------------------------------------------------------------- operations

  function CreateSource(l: Library, id: Id): Library {
    l.(sources := l.sources + {id})
  }

  function CreateDocument(l: Library, id: Id, source: Id): Library {
    if id in l.documents || source !in l.sources then l else l.(documents := l.documents[id := source])
  }

  /** A chunk whose keys are taken or dangling is refused, table and index alike. */
  predicate ChunkAccepted(l: Library, c: Chunk) {
    !HasChunk(l.chunks, c.id) && c.source in l.sources && c.document in l.documents
  }

  function InsertChunk(l: Library, t: Text, c: Chunk): Library {
    if !ChunkAccepted(l, c) then l
    else
      var r := NextAfter(l.chunks.Keys);
      l.(chunks := l.chunks[r := c], chunkIndex := l.chunkIndex + multiset{(r, ChunkDoc(t)(c))})
  }

  predicate EventAccepted(l: Library, e: Event) {
    && !(exists r :: r in l.events && l.events[r].id == e.id)
    && e.source in l.sources && e.document in l.documents && HasChunk(l.chunks, e.chunk)
  }

  function InsertEvent(l: Library, t: Text, e: Event): Library {
    if !EventAccepted(l, e) then l
    else
      var r := NextAfter(l.events.Keys);
      l.(events := l.events[r := e], eventIndex := l.eventIndex + multiset{(r, EventDoc(t)(e))})
  }

  /** The rows with the entity's source, type and normalised name: `UNIQUE` allows at most one. */
  function Namesakes(l: Library, e: Entity): set<nat> {
    set r | r in l.entities && l.entities[r].source == e.source && l.entities[r].kind == e.kind
            && l.entities[r].normalized == e.normalized
  }

  predicate EntityAccepted(l: Library, e: Entity) {
    e.source in l.sources && !(exists r :: r in l.entities && l.entities[r].id == e.id)
  }

  /** A namesake takes over a description it does not have yet; otherwise the entity is new. */
  function UpsertEntity(l: Library, t: Text, given: Entity): Library {
    var e := given.(normalized := t.normalize(given.name));
    var same := Namesakes(l, e);
    if same != {} then
      var r := LargestOf(same);
      if e.description.Some? && l.entities[r].description.None? then DescribeEntity(l, t, r, e.description) else l
    else if !EntityAccepted(l, e) then l
    else
      var r := NextAfter(l.entities.Keys);
      l.(entities := l.entities[r := e], entityIndex := l.entityIndex + multiset{(r, EntityDoc(t)(e))})
  }

  /** A late description: the posting without one goes, as the column was null, and the new one comes. */
  function DescribeEntity(l: Library, t: Text, r: nat, description: Option<string>): Library
    requires r in l.entities
  {
    var described := l.entities[r].(description := description);
    l.(entities := l.entities[r := described],
       entityIndex := l.entityIndex - multiset{(r, [t.text(described.name), ""])} + multiset{(r, EntityDoc(t)(described))})
  }

  // ---------------------------------------------------------------- deleting a source

  function NamedChunks(l: Library, source: Id): set<nat> {
    set r | r in l.chunks && l.chunks[r].source == source
  }

  function NamedEvents(l: Library, source: Id): set<nat> {
    set r | r in l.events && l.events[r].source == source
  }

  function NamedEntities(l: Library, source: Id): set<nat> {
    set r | r in l.entities && l.entities[r].source == source
  }

  predicate DocumentGoes(l: Library, document: Id, source: Id) {
    document in l.documents && l.documents[document] == source
  }

  /** What `ON DELETE CASCADE` takes: rows of the source, and rows below rows it takes. */
  function LostChunks(l: Library, source: Id): set<nat> {
    set r | r in l.chunks && (l.chunks[r].source == source || DocumentGoes(l, l.chunks[r].document, source))
  }

  predicate ChunkGoes(l: Library, chunk: Id, source: Id) {
    exists r :: r in LostChunks(l, source) && r in l.chunks && l.chunks[r].id == chunk
  }

  function LostEvents(l: Library, source: Id): set<nat> {
    set r | r in l.events && (l.events[r].source == source || DocumentGoes(l, l.events[r].document, source)
                              || ChunkGoes(l, l.events[r].chunk, source))
  }

  function DocumentsLeft(documents: map<Id, Id>, source: Id): map<Id, Id> {
    map d | d in documents && documents[d] != source :: documents[d]
  }

  /** `deleteSource`: the cascade, and then 'delete' commands for the rows that name the source. */
  function DeleteSource(l: Library, t: Text, source: Id): Library {
    if source !in l.sources then l
    else
      Library(
        l.sources - {source},
        DocumentsLeft(l.documents, source),
        l.chunks - LostChunks(l, source),
        l.events - LostEvents(l, source),
        l.entities - NamedEntities(l, source),
        Without(l.chunks, ChunkDoc(t), l.chunkIndex, NamedChunks(l, source)),
        Without(l.events, EventDoc(t), l.eventIndex, NamedEvents(l, source)),
        Without(l.entities, EntityDoc(t), l.entityIndex, NamedEntities(l, source)))
  }

  /** Every chunk and event that the cascade reaches names the source itself. */
  ghost predicate CascadeStaysInside(l: Library, source: Id) {
    && (forall r | r in l.chunks && DocumentGoes(l, l.chunks[r].document, source) :: l.chunks[r].source == source)
    && (forall r | r in l.events && (DocumentGoes(l, l.events[r].document, source) || ChunkGoes(l, l.events[r].chunk, source))
          :: l.events[r].source == source)
  }

  // ---------------------------------------------------------------- sessions

  datatype Op =
    | AddSource(id: Id)
    | AddDocument(id: Id, source: Id)
    | AddChunk(chunk: Chunk)
    | AddEvent(event: Event)
    | AddEntity(entity: Entity)
    | RemoveSource(id: Id)
    | Begin
    | Commit
    | Rollback

  /** The database as its connection sees it, and what a rollback would restore. */
  datatype Database = Database(library: Library, saved: Option<Library>)

  const EMPTY := Library({}, map[], map[], map[], map[], multiset{}, multiset{}, multiset{})

  function Apply(db: Database, t: Text, op: Op): Database {
    match op
    case AddSource(id) => db.(library := CreateSource(db.library, id))
    case AddDocument(id, source) => db.(library := CreateDocument(db.library, id, source))
    case AddChunk(chunk) => db.(library := InsertChunk(db.library, t, chunk))
    case AddEvent(event) => db.(library := InsertEvent(db.library, t, event))
    case AddEntity(entity) => db.(library := UpsertEntity(db.library, t, entity))
    case RemoveSource(id) => db.(library := DeleteSource(db.library, t, id))
    case Begin => if db.saved.None? then db.(saved := Some(db.library)) else db
    case Commit => db.(saved := None)
    case Rollback => if db.saved.Some? then Database(db.saved.value, None) else db
  }

  function Run(db: Database, t: Text, ops: seq<Op>): Database {
    if ops == [] then db else Apply(Run(db, t, ops[..|ops| - 1]), t, ops[|ops| - 1])
  }
}
