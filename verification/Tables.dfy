/** The rows of the database and the foreign-key actions of its schema. */
module Tables {
  type Uuid = nat

  lemma Unused(used: set<Uuid>) returns (id: Uuid)
    ensures id !in used
  {
    id := 0;
    var todo := used;
    while todo != {}
      invariant forall x | x in used && x !in todo :: x < id
    {
      var x :| x in todo;
      id := if x < id then id else x + 1;
      todo := todo - {x};
    }
  }

  lemma FirstIn(ids: seq<Uuid>)
    ensures ids == [] || exists id :: id in ids
  {
    if ids != [] {
      assert ids[0] in ids;
    }
  }

  datatype Option<+T> = None | Some(value: T)

  /** `(scope_type, scope_id)`. */
  datatype Scope = User(id: string) | Session(id: string)

  function ScopeFor(user: Option<string>, session: string): Scope {
    if user.Some? && user.value != "" then User(user.value) else Session(session)
  }

  datatype MemoryType = Fact | Preference | Opinion | Event

  datatype Turn = Turn(session: string, user: Option<string>, scope: Scope, timestamp: int)

  /** One row of `memories`; `key` is the generated column, `createdAt` the start of the inserting transaction. */
  datatype Memory = Memory(
    scope: Scope, kind: MemoryType, subject: string, pred: string, obj: string, key: string,
    value: string, quote: Option<string>, confidence: real, session: string, sourceTurn: Option<Uuid>,
    createdAt: int, supersedes: Option<Uuid>, active: bool)

  datatype Entity = Entity(scope: Scope, name: string, kind: Option<string>)

  datatype Relation = CoExtracted | SameSubject

  function WeightOf(r: Relation): real {
    match r
    case CoExtracted => 0.7
    case SameSubject => 0.5
  }

  datatype Edge = Edge(src: Uuid, dst: Uuid, relation: Relation)

  datatype Mention = Mention(memory: Uuid, entity: Uuid)

  datatype Db = Db(
    turns: map<Uuid, Turn>,
    memories: map<Uuid, Memory>,
    entities: map<Uuid, Entity>,
    mentions: set<Mention>,
    edges: map<Edge, real>)

  const EMPTY := Db(map[], map[], map[], {}, map[])

  /** The rows of one `(scope, key)` group: what reconciliation reads and writes. */
  function Group(ms: map<Uuid, Memory>, s: Scope, k: string): map<Uuid, Memory> {
    map id | id in ms && ms[id].scope == s && ms[id].key == k :: ms[id]
  }

  /** `ON DELETE SET NULL` on one nullable reference. */
  function SetNull(ref: Option<Uuid>, dead: set<Uuid>): Option<Uuid> {
    if ref.Some? && ref.value in dead then None else ref
  }

  /** Rows left after deleting `dead`, with `supersedes` set to null where it named a deleted row. */
  function WithoutMemories(ms: map<Uuid, Memory>, dead: set<Uuid>): map<Uuid, Memory> {
    map id | id in ms && id !in dead :: ms[id].(supersedes := SetNull(ms[id].supersedes, dead))
  }

  /** Deleting memories cascades to mentions and edges and sets `supersedes` to null. */
  function DeleteMemories(db: Db, dead: set<Uuid>): Db {
    db.(memories := WithoutMemories(db.memories, dead),
        mentions := (set m | m in db.mentions && m.memory !in dead),
        edges := map e | e in db.edges && e.src !in dead && e.dst !in dead :: db.edges[e])
  }

  /** Deleting turns sets `source_turn` to null. */
  function DeleteTurns(db: Db, dead: set<Uuid>): Db {
    db.(turns := (map id | id in db.turns && id !in dead :: db.turns[id]),
        memories := map id | id in db.memories ::
          db.memories[id].(sourceTurn := SetNull(db.memories[id].sourceTurn, dead)))
  }

  /** Deleting entities cascades to mentions. */
  function DeleteEntities(db: Db, dead: set<Uuid>): Db {
    db.(entities := (map id | id in db.entities && id !in dead :: db.entities[id]),
        mentions := set m | m in db.mentions && m.entity !in dead)
  }

  // ---------------------------------------------------------------- referential integrity

  /** The reference, if there is one, names one of the rows. */
  predicate Names(ref: Option<Uuid>, rows: set<Uuid>) {
    ref.Some? ==> ref.value in rows
  }

  /** Every reference in the tables names a live row. */
  ghost predicate ReferencesHold(db: Db) {
    && (forall id | id in db.memories ::
          Names(db.memories[id].supersedes, db.memories.Keys) && Names(db.memories[id].sourceTurn, db.turns.Keys))
    && (forall m | m in db.mentions :: m.memory in db.memories && m.entity in db.entities)
    && (forall e | e in db.edges :: e.src in db.memories && e.dst in db.memories)
  }

  /** A reference after its target may have been deleted: kept if it named none of the dead, else null. */
  predicate Released(before: Option<Uuid>, after: Option<Uuid>, dead: set<Uuid>) {
    && (after == before || after.None?)
    && (after.Some? ==> after.value !in dead)
    && (before.Some? && before.value !in dead ==> after == before)
  }

  /** Row by row: the dead memories and their links are gone, no reference names them, and nothing else changes. */
  ghost predicate MemoriesRemoved(db: Db, d: Db, dead: set<Uuid>) {
    && d.turns == db.turns && d.entities == db.entities && d.memories.Keys == db.memories.Keys - dead
    && (forall id | id in d.memories ::
          && d.memories[id] == db.memories[id].(supersedes := d.memories[id].supersedes)
          && Released(db.memories[id].supersedes, d.memories[id].supersedes, dead))
    && (forall m :: m in d.mentions <==> m in db.mentions && m.memory !in dead)
    && (forall e :: e in d.edges <==> e in db.edges && e.src !in dead && e.dst !in dead)
    && (forall e | e in d.edges :: d.edges[e] == db.edges[e])
  }

  /** The same for turns, of which only memories keep references. */
  ghost predicate TurnsRemoved(db: Db, d: Db, dead: set<Uuid>) {
    && d.entities == db.entities && d.mentions == db.mentions && d.edges == db.edges
    && d.turns.Keys == db.turns.Keys - dead && (forall t | t in d.turns :: d.turns[t] == db.turns[t])
    && d.memories.Keys == db.memories.Keys
    && forall id | id in d.memories ::
         && d.memories[id] == db.memories[id].(sourceTurn := d.memories[id].sourceTurn)
         && Released(db.memories[id].sourceTurn, d.memories[id].sourceTurn, dead)
  }

  /** The same for entities, of which only mentions keep references. */
  ghost predicate EntitiesRemoved(db: Db, d: Db, dead: set<Uuid>) {
    && d.turns == db.turns && d.memories == db.memories && d.edges == db.edges
    && d.entities.Keys == db.entities.Keys - dead && (forall e | e in d.entities :: d.entities[e] == db.entities[e])
    && forall m :: m in d.mentions <==> m in db.mentions && m.entity !in dead
  }

  lemma DeleteMemoriesRemoves(db: Db, dead: set<Uuid>)
    ensures MemoriesRemoved(db, DeleteMemories(db, dead), dead)
  {
  }

  lemma DeleteTurnsRemoves(db: Db, dead: set<Uuid>)
    ensures TurnsRemoved(db, DeleteTurns(db, dead), dead)
  {
  }

  lemma DeleteEntitiesRemoves(db: Db, dead: set<Uuid>)
    ensures EntitiesRemoved(db, DeleteEntities(db, dead), dead)
  {
  }

  /** Each of the three leaves a store in which every reference names a live row, if it found one. */
  lemma RemovalKeepsReferences(db: Db, d: Db, dead: set<Uuid>)
    requires ReferencesHold(db)
    requires MemoriesRemoved(db, d, dead) || TurnsRemoved(db, d, dead) || EntitiesRemoved(db, d, dead)
    ensures ReferencesHold(d)
  {
  }
}
