/**
 * The read queries of recall, by their WHERE clauses. Two of them do not filter by scope; that they
 * stay in the scope they start from is a property of the reachable states.
 */
module Queries {
  import opened Tables
  import opened Text
  import opened Groups
  import opened Lifecycle
  import opened Invariants
  import opened Graph
  import opened Frames
  import opened Fusion
  import opened Assembler

  /** `list_stable_facts`. */
  predicate IsStable(db: Db, s: Scope, id: Uuid) {
    && InScope(db.memories, id, s) && db.memories[id].active
    && db.memories[id].kind != Event && db.memories[id].confidence >= 0.5
  }

  predicate IsNamed(e: Entity, names: seq<string>) {
    exists i :: 0 <= i < |names| && names[i] != "" && Lower(names[i]) == Lower(e.name)
  }

  /** `entities_for_names`: there is no limit, so the answer is all matches. */
  function EntitiesNamed(db: Db, s: Scope, names: seq<string>): set<Uuid> {
    set e | e in db.entities && db.entities[e].scope == s && IsNamed(db.entities[e], names)
  }

  /** `memories_mentioning_entities`, which has no scope filter. */
  predicate IsMentioning(db: Db, entities: set<Uuid>, id: Uuid) {
    id in db.memories && db.memories[id].active && exists e :: e in entities && Mention(id, e) in db.mentions
  }

  predicate LeadsTo(db: Db, seeds: set<Uuid>, id: Uuid, e: Edge) {
    e in db.edges && e.src in seeds && e.dst == id
  }

  /** `memories_via_edges`, which has no scope filter either. */
  predicate IsNeighbour(db: Db, seeds: set<Uuid>, id: Uuid) {
    id in db.memories && db.memories[id].active && id !in seeds && exists e | e in db.edges :: LeadsTo(db, seeds, id, e)
  }

  /** The greatest weight of an edge from a seed, given that weights are those of the relations. */
  function HopScore(db: Db, seeds: set<Uuid>, id: Uuid): real {
    if exists e | e in db.edges :: LeadsTo(db, seeds, id, e) && e.relation == CoExtracted
    then WeightOf(CoExtracted) else WeightOf(SameSubject)
  }

  /** When the newer fact was stated: the time of its turn, or the stamp of the older row if there is no turn. */
  function StatedAt(db: Db, m: Memory, older: Memory): int {
    if m.sourceTurn.Some? && m.sourceTurn.value in db.turns then db.turns[m.sourceTurn.value].timestamp
    else older.createdAt
  }

  /** The joins with `supersedes` and `source_turn`; `dateOf` formats a point in time as a date. */
  function PriorOf(db: Db, m: Memory, dateOf: int -> string): Option<Prior> {
    if m.supersedes.None? || m.supersedes.value !in db.memories then None
    else
      var older := db.memories[m.supersedes.value];
      Some(Prior(older.value, Some(dateOf(StatedAt(db, m, older)))))
  }

  function FactOf(db: Db, id: Uuid, dateOf: int -> string): StableFact
    requires id in db.memories
  {
    var m := db.memories[id];
    StableFact(m.value, m.confidence, m.sourceTurn, Some(dateOf(m.createdAt)), PriorOf(db, m, dateOf))
  }

  function HitOf(db: Db, source: string, id: Uuid, score: real, dateOf: int -> string): Hit
    requires id in db.memories
  {
    var m := db.memories[id];
    Hit(source, MemoryHit, id, score, m.value, Some(dateOf(m.createdAt)), m.sourceTurn, PriorOf(db, m, dateOf))
  }

  // ---------------------------------------------------------------- scope closure of the answers

  ghost predicate SeedsIn(db: Db, seeds: set<Uuid>, s: Scope) {
    forall id | id in seeds :: InScope(db.memories, id, s)
  }

  ghost predicate EntitiesIn(db: Db, entities: set<Uuid>, s: Scope) {
    forall e | e in entities :: e in db.entities && db.entities[e].scope == s
  }

  lemma NeighbourInScope(db: Db, seeds: set<Uuid>, s: Scope, id: Uuid)
    requires GraphSound(db) && SeedsIn(db, seeds, s) && IsNeighbour(db, seeds, id)
    ensures InScope(db.memories, id, s)
  {
    var e :| e in db.edges && LeadsTo(db, seeds, id, e);
    assert EdgeSound(db, e);
  }

  lemma MentioningInScope(db: Db, entities: set<Uuid>, s: Scope, id: Uuid)
    requires GraphSound(db) && EntitiesIn(db, entities, s) && IsMentioning(db, entities, id)
    ensures InScope(db.memories, id, s)
  {
  }

  /**
   * In every reachable state the two unfiltered queries and the join with the superseded row return
   * only rows of the scope they start from, and the date shown for a superseded row is that of the
   * turn that superseded it: the fallback is never taken.
   */
  lemma AnswersStayInScope(evs: seq<Event>, s: Scope, seeds: set<Uuid>, entities: set<Uuid>, id: Uuid)
    requires ValidRun(evs) && SeedsIn(Run(evs), seeds, s) && EntitiesIn(Run(evs), entities, s)
    ensures IsNeighbour(Run(evs), seeds, id) ==> InScope(Run(evs).memories, id, s)
    ensures IsMentioning(Run(evs), entities, id) ==> InScope(Run(evs).memories, id, s)
    ensures InScope(Run(evs).memories, id, s) && Run(evs).memories[id].supersedes.Some? ==>
      var db := Run(evs); var m := db.memories[id]; var older := m.supersedes.value;
      && InScope(db.memories, older, s)
      && m.sourceTurn.Some? && m.sourceTurn.value in db.turns
      && StatedAt(db, m, db.memories[older]) == db.turns[m.sourceTurn.value].timestamp
  {
    RunGraphSound(evs);
    RunConsistent(evs);
    var db := Run(evs);
    ConsistentLinks(db);
    if IsNeighbour(db, seeds, id) {
      NeighbourInScope(db, seeds, s, id);
    }
    if IsMentioning(db, entities, id) {
      MentioningInScope(db, entities, s, id);
    }
    if InScope(db.memories, id, s) && db.memories[id].supersedes.Some? {
      assert HasSource(db, db.memories[id]);
      assert Supersedes(db.memories, id, db.memories[id].supersedes.value);
    }
  }

  // ---------------------------------------------------------------- the answers depend on the slice only

  lemma SameRow(db: Db, db': Db, s: Scope, id: Uuid)
    requires Slice(db, s) == Slice(db', s)
    ensures InScope(db.memories, id, s) == InScope(db'.memories, id, s)
    ensures InScope(db.memories, id, s) ==> db'.memories[id] == db.memories[id]
  {
    assert MemoriesOf(db.memories, s) == MemoriesOf(db'.memories, s);
    assert InScope(db.memories, id, s) <==> id in MemoriesOf(db.memories, s);
    assert InScope(db'.memories, id, s) <==> id in MemoriesOf(db'.memories, s);
  }

  lemma SameTurn(db: Db, db': Db, s: Scope, t: Uuid)
    requires Slice(db, s) == Slice(db', s) && t in db.turns && db.turns[t].scope == s
    ensures t in db'.turns && db'.turns[t] == db.turns[t]
  {
    assert t in TurnsOf(db.turns, s);
    assert TurnsOf(db.turns, s) == TurnsOf(db'.turns, s);
  }

  lemma SameEdge(db: Db, db': Db, s: Scope, e: Edge)
    requires Slice(db, s) == Slice(db', s) && InScope(db.memories, e.src, s)
    ensures e in db.edges <==> e in db'.edges
  {
    SameRow(db, db', s, e.src);
    assert EdgesOf(db, s) == EdgesOf(db', s);
    assert e in db.edges <==> e in EdgesOf(db, s);
    assert e in db'.edges <==> e in EdgesOf(db', s);
  }

  lemma SameMention(db: Db, db': Db, s: Scope, m: Mention)
    requires Slice(db, s) == Slice(db', s) && InScope(db.memories, m.memory, s)
    ensures m in db.mentions <==> m in db'.mentions
  {
    SameRow(db, db', s, m.memory);
    assert MentionsOf(db, s) == MentionsOf(db', s);
    assert m in db.mentions <==> m in MentionsOf(db, s);
    assert m in db'.mentions <==> m in MentionsOf(db', s);
  }

  lemma NeighbourFromSlice(db: Db, db': Db, s: Scope, seeds: set<Uuid>, id: Uuid)
    requires GraphSound(db) && Slice(db, s) == Slice(db', s) && SeedsIn(db, seeds, s) && IsNeighbour(db, seeds, id)
    ensures IsNeighbour(db', seeds, id) && HopScore(db', seeds, id) == HopScore(db, seeds, id)
  {
    NeighbourInScope(db, seeds, s, id);
    SameRow(db, db', s, id);
    forall e: Edge | e.src in seeds ensures e in db.edges <==> e in db'.edges {
      SameEdge(db, db', s, e);
    }
    assert forall e :: LeadsTo(db, seeds, id, e) <==> LeadsTo(db', seeds, id, e);
    var e :| e in db.edges && LeadsTo(db, seeds, id, e);
    assert LeadsTo(db', seeds, id, e);
  }

  lemma MentioningFromSlice(db: Db, db': Db, s: Scope, entities: set<Uuid>, id: Uuid)
    requires GraphSound(db) && Slice(db, s) == Slice(db', s) && EntitiesIn(db, entities, s)
      && IsMentioning(db, entities, id)
    ensures IsMentioning(db', entities, id)
  {
    MentioningInScope(db, entities, s, id);
    SameRow(db, db', s, id);
    var e :| e in entities && Mention(id, e) in db.mentions;
    SameMention(db, db', s, Mention(id, e));
  }

  lemma FactFromSlice(db: Db, db': Db, s: Scope, id: Uuid, dateOf: int -> string)
    requires Consistent(db) && Slice(db, s) == Slice(db', s) && InScope(db.memories, id, s)
    ensures id in db'.memories && FactOf(db', id, dateOf) == FactOf(db, id, dateOf)
  {
    SameRow(db, db', s, id);
    var m := db.memories[id];
    assert HasSource(db, m);
    SameTurn(db, db', s, m.sourceTurn.value);
    if m.supersedes.Some? {
      ConsistentLinks(db);
      assert Supersedes(db.memories, id, m.supersedes.value);
      SameRow(db, db', s, m.supersedes.value);
    }
  }

  lemma SameEntities(db: Db, db': Db, s: Scope, entities: set<Uuid>)
    requires Slice(db, s) == Slice(db', s) && EntitiesIn(db, entities, s)
    ensures EntitiesIn(db', entities, s)
  {
    assert EntitiesOf(db.entities, s) == EntitiesOf(db'.entities, s);
    forall e | e in entities ensures e in db'.entities && db'.entities[e].scope == s {
      assert e in EntitiesOf(db.entities, s);
    }
  }

  lemma NamedFromSlice(db: Db, db': Db, s: Scope, names: seq<string>)
    requires Slice(db, s) == Slice(db', s)
    ensures EntitiesNamed(db', s, names) == EntitiesNamed(db, s, names)
  {
    hide IsNamed;
    var es, es' := EntitiesOf(db.entities, s), EntitiesOf(db'.entities, s);
    assert es == es';
    forall e ensures e in EntitiesNamed(db', s, names) <==> e in EntitiesNamed(db, s, names) {
      assert e in EntitiesNamed(db, s, names) <==> e in es && IsNamed(es[e], names);
      assert e in EntitiesNamed(db', s, names) <==> e in es' && IsNamed(es'[e], names);
    }
  }

  /**
   * A request of somebody else: it ingests into another scope, deletes another user, or deletes a
   * session that left neither memory nor turn in the scope.
   */
  predicate Elsewhere(db: Db, ev: Event, s: Scope) {
    match ev
    case Ingest(session, user, _, _, _, _) => ScopeFor(user, session) != s
    case DeleteSession(session, _) =>
      && Session(session) != s
      && (forall id | id in db.memories && db.memories[id].scope == s :: db.memories[id].session != session)
      && (forall id | id in db.turns && db.turns[id].scope == s :: db.turns[id].session != session)
    case DeleteUser(user) => User(user) != s
  }

  /**
   * No request of somebody else changes an answer: in every reachable state each query made in the
   * scope returns the same rows, with the same contents, before and after.
   */
  lemma OthersChangeNoAnswer(
    evs: seq<Event>, ev: Event, s: Scope, names: seq<string>, seeds: set<Uuid>, entities: set<Uuid>, id: Uuid,
    dateOf: int -> string)
    requires ValidRun(evs) && Valid(Run(evs), ev) && Elsewhere(Run(evs), ev, s)
    requires SeedsIn(Run(evs), seeds, s) && EntitiesIn(Run(evs), entities, s)
    ensures var db, db' := Run(evs), Apply(Run(evs), ev);
      && EntitiesNamed(db', s, names) == EntitiesNamed(db, s, names)
      && (IsStable(db, s, id) <==> IsStable(db', s, id))
      && (IsMentioning(db, entities, id) <==> IsMentioning(db', entities, id))
      && (IsNeighbour(db, seeds, id) <==> IsNeighbour(db', seeds, id))
      && (IsNeighbour(db, seeds, id) ==> HopScore(db', seeds, id) == HopScore(db, seeds, id))
      && (InScope(db.memories, id, s) ==> id in db'.memories && FactOf(db', id, dateOf) == FactOf(db, id, dateOf))
  {
    hide Slice, GraphSound, Consistent, Valid, Apply, Elsewhere, EntitiesNamed, IsNeighbour, IsMentioning,
         HopScore, FactOf;
    var db, db' := Run(evs), Apply(Run(evs), ev);
    RunGraphSound(evs);
    RunConsistent(evs);
    ElsewhereFrame(evs, ev, s);
    NamedFromSlice(db, db', s, names);
    SameRow(db, db', s, id);
    forall x | x in seeds ensures InScope(db'.memories, x, s) {
      SameRow(db, db', s, x);
    }
    SameEntities(db, db', s, entities);
    if IsMentioning(db, entities, id) {
      MentioningFromSlice(db, db', s, entities, id);
    }
    if IsMentioning(db', entities, id) {
      MentioningFromSlice(db', db, s, entities, id);
    }
    if IsNeighbour(db, seeds, id) {
      NeighbourFromSlice(db, db', s, seeds, id);
    }
    if IsNeighbour(db', seeds, id) {
      NeighbourFromSlice(db', db, s, seeds, id);
    }
    if InScope(db.memories, id, s) {
      FactFromSlice(db, db', s, id, dateOf);
    }
  }

  /** The frame of such a request, and the graph after it. */
  lemma ElsewhereFrame(evs: seq<Event>, ev: Event, s: Scope)
    requires ValidRun(evs) && Valid(Run(evs), ev) && Elsewhere(Run(evs), ev, s)
    ensures Slice(Apply(Run(evs), ev), s) == Slice(Run(evs), s)
    ensures GraphSound(Apply(Run(evs), ev))
  {
    RunGraphSound(evs);
    RunConsistent(evs);
    match ev
    case Ingest(session, user, timestamp, turn, now, steps) =>
      IngestFrame(Run(evs), session, user, timestamp, turn, now, steps, s);
      IngestKeepsGraph(Run(evs), session, user, timestamp, turn, now, steps);
    case DeleteSession(session, picks) =>
      DropSessionScopeFrame(Run(evs), session, picks, s);
      DropSessionKeepsGraph(Run(evs), session, picks);
    case DeleteUser(user) =>
      DropUserFrame(Run(evs), user, s);
      DropUserKeepsGraph(Run(evs), user);
  }
}
