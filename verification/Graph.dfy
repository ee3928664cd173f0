/** Edges, mentions and entities in every reachable state. */
module Graph {
  import opened Tables
  import opened Text
  import opened Reconciler
  import opened Lifecycle
  import opened Invariants

  ghost predicate EdgeSound(db: Db, e: Edge) {
    && e.src != e.dst
    && e.src in db.memories && e.dst in db.memories
    && db.memories[e.src].scope == db.memories[e.dst].scope
    && Edge(e.dst, e.src, e.relation) in db.edges
  }

  /** Edges are irreflexive and symmetric, join live rows of one scope, and weigh what their relation says. */
  ghost predicate EdgesSound(db: Db) {
    forall e | e in db.edges :: EdgeSound(db, e) && db.edges[e] == WeightOf(e.relation)
  }

  ghost predicate MentionsScoped(db: Db) {
    forall m | m in db.mentions ::
      m.memory in db.memories && m.entity in db.entities
      && db.memories[m.memory].scope == db.entities[m.entity].scope
  }

  predicate NoKind(kind: Option<string>) {
    kind == None || kind == Some("")
  }

  /** No kind and the empty one are the same to the index. */
  predicate SameKind(a: Option<string>, b: Option<string>) {
    a == b || (NoKind(a) && NoKind(b))
  }

  /** The unique index on entities. */
  ghost predicate EntitiesUnique(es: map<Uuid, Entity>) {
    forall a, b | a in es && b in es && a != b ::
      !(es[a].scope == es[b].scope && Lower(es[a].name) == Lower(es[b].name) && SameKind(es[a].kind, es[b].kind))
  }

  ghost predicate GraphSound(db: Db) {
    EdgesSound(db) && MentionsScoped(db) && EntitiesUnique(db.entities)
  }

  // ---------------------------------------------------------------- ingest

  /** `upsert_entity` keeps the index unique and never moves an entity to another scope. */
  lemma UpsertKeepsEntities(es: map<Uuid, Entity>, s: Scope, m: EntityMention, id: Uuid)
    requires EntitiesUnique(es) && UpsertReturns(es, s, m, id)
    ensures EntitiesUnique(Upsert(es, s, m, id))
    ensures forall e | e in es :: Upsert(es, s, m, id)[e].scope == es[e].scope
    ensures Upsert(es, s, m, id)[id].scope == s
  {
    var es' := Upsert(es, s, m, id);
    if id !in es {
      assert forall e | e in es :: !Conflicts(es[e], s, m);
    }
    assert Conflicts(es'[id], s, m);
  }

  lemma {:induction false} LinkEntitiesKeepsGraph(db: Db, s: Scope, memory: Uuid, ms: seq<EntityMention>,
                                                  ids: seq<Uuid>)
    requires GraphSound(db) && LinksReady(db, s, memory, ms, ids)
    requires memory in db.memories && db.memories[memory].scope == s
    ensures GraphSound(LinkEntities(db, s, memory, ms, ids))
    decreases |ms|
  {
    if ms != [] {
      var n := |ms| - 1;
      LinkEntitiesKeepsGraph(db, s, memory, ms[..n], ids[..n]);
      var d := LinkEntities(db, s, memory, ms[..n], ids[..n]);
      LinkEntitiesFrame(db, s, memory, ms[..n], ids[..n]);
      if ms[n].name != "" {
        LinkEntityKeepsGraph(d, s, memory, ms[n], ids[n]);
      }
    }
  }

  lemma LinkEntityKeepsGraph(db: Db, s: Scope, memory: Uuid, m: EntityMention, id: Uuid)
    requires GraphSound(db) && UpsertReturns(db.entities, s, m, id)
    requires memory in db.memories && db.memories[memory].scope == s
    ensures GraphSound(LinkEntity(db, s, memory, m, id))
  {
    UpsertKeepsEntities(db.entities, s, m, id);
    var d := LinkEntity(db, s, memory, m, id);
    forall e | e in d.edges ensures EdgeSound(d, e) && d.edges[e] == WeightOf(e.relation) {
      assert EdgeSound(db, e);
    }
  }

  /** The memories table may grow and change `active` without hurting the graph. */
  lemma MoreMemories(db: Db, ms: map<Uuid, Memory>)
    requires GraphSound(db)
    requires forall id | id in db.memories :: id in ms && ms[id].scope == db.memories[id].scope
    ensures GraphSound(db.(memories := ms))
  {
    var d := db.(memories := ms);
    forall e | e in d.edges ensures EdgeSound(d, e) && d.edges[e] == WeightOf(e.relation) {
      assert EdgeSound(db, e);
    }
  }

  lemma StepKeepsGraph(db: Db, ctx: Context, st: Step)
    requires GraphSound(db) && StepDbReady(db, ctx, st)
    ensures GraphSound(StepDb(db, ctx, st))
  {
    StepRows(db.memories, ctx, st);
    var ms := StepMemories(db.memories, ctx, st);
    MoreMemories(db, ms);
    if DecisionOf(db.memories, ctx, st).insert {
      LinkEntitiesKeepsGraph(db.(memories := ms), ctx.scope, st.id, st.cand.entities, st.entityIds);
    }
  }

  lemma {:induction false} LoopKeepsGraph(db: Db, ctx: Context, steps: seq<Step>)
    requires GraphSound(db) && LoopReady(db, ctx, steps)
    ensures GraphSound(AfterLoop(db, ctx, steps))
  {
    if steps != [] {
      var p := steps[..|steps| - 1];
      LoopKeepsGraph(db, ctx, p);
      StepKeepsGraph(AfterLoop(db, ctx, p), ctx, steps[|steps| - 1]);
    }
  }

  /** `inserted_ids` are exactly the new rows; old rows keep all fields but `active`, which is only ever cleared. */
  lemma {:induction false} InsertedAreNew(ms: map<Uuid, Memory>, ctx: Context, steps: seq<Step>)
    requires StepsReady(ms, ctx, steps)
    ensures var ms' := AfterSteps(ms, ctx, steps);
      && (forall id :: id in InsertedIds(ms, ctx, steps) <==> id in ms' && id !in ms)
      && (forall id | id in ms' && id !in ms :: ms'[id].scope == ctx.scope && ms'[id].sourceTurn == Some(ctx.turn))
      && (forall id | id in ms ::
            id in ms' && ms'[id] == ms[id].(active := ms'[id].active) && (ms'[id].active ==> ms[id].active))
  {
    hide StepMemories, IsFetch, DecisionOf;
    if steps != [] {
      var p := steps[..|steps| - 1];
      InsertedAreNew(ms, ctx, p);
      StepRows(AfterSteps(ms, ctx, p), ctx, steps[|steps| - 1]);
    }
  }

  lemma LinkTurnKeepsGraph(db: Db, s: Scope, ids: set<Uuid>)
    requires GraphSound(db) && forall id | id in ids :: id in db.memories && db.memories[id].scope == s
    ensures GraphSound(LinkTurn(db, s, ids))
  {
    var es := NewEdges(db.memories, s, ids);
    var d := LinkTurn(db, s, ids);
    forall e | e in d.edges ensures EdgeSound(d, e) && d.edges[e] == WeightOf(e.relation) {
      if e in db.edges {
        assert EdgeSound(db, e);
      } else {
        assert IsNewEdge(db.memories, s, ids, e);
        assert IsNewEdge(db.memories, s, ids, Edge(e.dst, e.src, e.relation));
        assert Edge(e.dst, e.src, e.relation) in es;
      }
    }
  }

  lemma IngestKeepsGraph(
    db: Db, session: string, user: Option<string>, timestamp: int, turn: Uuid, now: int, steps: seq<Step>)
    requires GraphSound(db) && Valid(db, Ingest(session, user, timestamp, turn, now, steps))
    ensures GraphSound(IngestTurn(db, session, user, timestamp, turn, now, steps))
  {
    var ctx := ContextOf(session, user, turn, now);
    var d0 := AddTurn(db, session, user, timestamp, turn);
    assert GraphSound(d0) by {
      forall e | e in d0.edges ensures EdgeSound(d0, e) && d0.edges[e] == WeightOf(e.relation) {
        assert EdgeSound(db, e);
      }
    }
    LoopKeepsGraph(d0, ctx, steps);
    AfterLoopMemories(d0, ctx, steps);
    InsertedAreNew(db.memories, ctx, steps);
    LinkTurnKeepsGraph(AfterLoop(d0, ctx, steps), ctx.scope, InsertedSet(db.memories, ctx, steps));
  }

  // ---------------------------------------------------------------- deletes

  lemma DeleteMemoriesKeepsGraph(db: Db, dead: set<Uuid>)
    requires GraphSound(db)
    ensures GraphSound(DeleteMemories(db, dead))
  {
    var d := DeleteMemories(db, dead);
    forall e | e in d.edges ensures EdgeSound(d, e) && d.edges[e] == WeightOf(e.relation) {
      assert EdgeSound(db, e);
    }
  }

  lemma DeleteEntitiesKeepsGraph(db: Db, dead: set<Uuid>)
    requires GraphSound(db)
    ensures GraphSound(DeleteEntities(db, dead))
  {
    var d := DeleteEntities(db, dead);
    forall e | e in d.edges ensures EdgeSound(d, e) && d.edges[e] == WeightOf(e.relation) {
      assert EdgeSound(db, e);
    }
  }

  /** Turns do not matter to the graph, nor do fields of memories other than the scope. */
  lemma SameGraph(db: Db, db': Db)
    requires GraphSound(db) && db'.edges == db.edges && db'.mentions == db.mentions && db'.entities == db.entities
    requires db'.memories.Keys == db.memories.Keys
    requires forall id | id in db.memories :: db'.memories[id].scope == db.memories[id].scope
    ensures GraphSound(db')
  {
    forall e | e in db'.edges ensures EdgeSound(db', e) && db'.edges[e] == WeightOf(e.relation) {
      assert EdgeSound(db, e);
    }
  }

  lemma DropSessionKeepsGraph(db: Db, session: string, picks: map<GroupKey, Uuid>)
    requires GraphSound(db)
    ensures GraphSound(DropSession(db, session, picks))
  {
    hide EdgesSound, MentionsScoped, EntitiesUnique, SessionMemories, SessionTurns,
         ScopeEntities, Affected, WithoutMemories;
    var d1 := DeleteMemories(db, SessionMemories(db, session));
    var d2 := DeleteTurns(d1, SessionTurns(db, session));
    DeleteMemoriesKeepsGraph(db, SessionMemories(db, session));
    SameGraph(d1, d2);
    DeleteEntitiesKeepsGraph(d2, ScopeEntities(db, Session(session)));
    SameGraph(WithoutSession(db, session), DropSession(db, session, picks));
  }

  lemma DropUserKeepsGraph(db: Db, user: string)
    requires GraphSound(db)
    ensures GraphSound(DropUser(db, user))
  {
    var d1 := DeleteEntities(db, ScopeEntities(db, User(user)));
    var d2 := DeleteMemories(d1, UserMemories(db, user));
    DeleteEntitiesKeepsGraph(db, ScopeEntities(db, User(user)));
    DeleteMemoriesKeepsGraph(d1, UserMemories(db, user));
    SameGraph(d2, DropUser(db, user));
  }

  /** The graph is sound in every reachable state. */
  lemma {:induction false} RunGraphSound(evs: seq<Event>)
    requires ValidRun(evs)
    ensures GraphSound(Run(evs))
  {
    if evs != [] {
      var db := Run(evs[..|evs| - 1]);
      RunGraphSound(evs[..|evs| - 1]);
      match evs[|evs| - 1]
      case Ingest(session, user, timestamp, turn, now, steps) =>
        IngestKeepsGraph(db, session, user, timestamp, turn, now, steps);
      case DeleteSession(session, picks) => DropSessionKeepsGraph(db, session, picks);
      case DeleteUser(user) => DropUserKeepsGraph(db, user);
    }
  }

  /**
   * Every link in the store stays inside one scope, in every reachable state: edges, mentions,
   * `supersedes` and `source_turn`.
   */
  lemma ScopeClosed(evs: seq<Event>)
    requires ValidRun(evs)
    ensures var db := Run(evs); var ms := db.memories;
      && (forall e | e in db.edges ::
            e.src in ms && e.dst in ms && ms[e.src].scope == ms[e.dst].scope && e.src != e.dst
            && Edge(e.dst, e.src, e.relation) in db.edges && db.edges[e] == WeightOf(e.relation))
      && (forall m | m in db.mentions ::
            m.memory in ms && m.entity in db.entities && ms[m.memory].scope == db.entities[m.entity].scope)
      && (forall a | a in ms && ms[a].supersedes.Some? ::
            ms[a].supersedes.value in ms.Keys && ms[ms[a].supersedes.value].scope == ms[a].scope)
      && (forall a | a in ms :: HasSource(db, ms[a]))
  {
    RunGraphSound(evs);
    RunConsistent(evs);
    var db := Run(evs);
    var ms := db.memories;
    forall e | e in db.edges
      ensures e.src in ms && e.dst in ms && ms[e.src].scope == ms[e.dst].scope && e.src != e.dst
        && Edge(e.dst, e.src, e.relation) in db.edges && db.edges[e] == WeightOf(e.relation)
    {
      assert EdgeSound(db, e);
    }
    forall a | a in ms && ms[a].supersedes.Some?
      ensures ms[a].supersedes.value in ms.Keys && ms[ms[a].supersedes.value].scope == ms[a].scope
    {
      SupersedesInGroup(evs, a, ms[a].supersedes.value);
    }
  }

  // ---------------------------------------------------------------- same subject

  /** Any two active rows of one scope and subject are neighbours. */
  ghost predicate SubjectsLinked(db: Db) {
    forall a, b | a in db.memories && b in db.memories && a != b
      && db.memories[a].active && db.memories[b].active
      && db.memories[a].scope == db.memories[b].scope && db.memories[a].subject == db.memories[b].subject ::
      Edge(a, b, SameSubject) in db.edges
  }

  /** `ids` are the rows added, all of scope `s`; old rows keep all fields but `active`, which is only ever cleared. */
  ghost predicate Extended(before: map<Uuid, Memory>, ms: map<Uuid, Memory>, s: Scope, ids: set<Uuid>) {
    && ids == ms.Keys - before.Keys
    && (forall id | id in ids :: ms[id].scope == s)
    && forall id | id in ms && id in before ::
         ms[id] == before[id].(active := ms[id].active) && (ms[id].active ==> before[id].active)
  }

  lemma StepsExtend(ms: map<Uuid, Memory>, ctx: Context, steps: seq<Step>)
    requires StepsReady(ms, ctx, steps)
    ensures Extended(ms, AfterSteps(ms, ctx, steps), ctx.scope, InsertedSet(ms, ctx, steps))
  {
    hide AfterSteps, StepsReady;
    InsertedAreNew(ms, ctx, steps);
  }

  /** New rows are linked to every active peer, so only pairs of old rows rest on old edges. */
  lemma LinkTurnLinksSubjects(before: Db, db: Db, s: Scope, ids: set<Uuid>)
    requires SubjectsLinked(before) && db.edges == before.edges
    requires Extended(before.memories, db.memories, s, ids)
    ensures SubjectsLinked(LinkTurn(db, s, ids))
  {
    var ms := db.memories;
    forall a, b | a in ms && b in ms && a != b && ms[a].active && ms[b].active
      && ms[a].scope == ms[b].scope && ms[a].subject == ms[b].subject
      ensures Edge(a, b, SameSubject) in LinkTurn(db, s, ids).edges
    {
      if a in ids || b in ids {
        assert IsNewEdge(ms, s, ids, Edge(a, b, SameSubject));
      }
    }
  }

  lemma IngestKeepsSubjectsLinked(
    db: Db, session: string, user: Option<string>, timestamp: int, turn: Uuid, now: int, steps: seq<Step>)
    requires SubjectsLinked(db) && Valid(db, Ingest(session, user, timestamp, turn, now, steps))
    ensures SubjectsLinked(IngestTurn(db, session, user, timestamp, turn, now, steps))
  {
    var ctx := ContextOf(session, user, turn, now);
    var d0 := AddTurn(db, session, user, timestamp, turn);
    AfterLoopMemories(d0, ctx, steps);
    StepsExtend(db.memories, ctx, steps);
    LinkTurnLinksSubjects(db, AfterLoop(d0, ctx, steps), ctx.scope, InsertedSet(db.memories, ctx, steps));
  }

  /** Deleting rows and clearing `active` cannot separate two rows that stay active. */
  lemma FewerRowsKeepSubjectsLinked(db: Db, db': Db)
    requires SubjectsLinked(db)
    requires forall id | id in db'.memories ::
      && id in db.memories
      && db'.memories[id].scope == db.memories[id].scope && db'.memories[id].subject == db.memories[id].subject
      && (db'.memories[id].active ==> db.memories[id].active)
    requires forall e | e in db.edges && e.src in db'.memories && e.dst in db'.memories :: e in db'.edges
    ensures SubjectsLinked(db')
  {
  }

  lemma DropUserKeepsSubjectsLinked(db: Db, user: string)
    requires SubjectsLinked(db)
    ensures SubjectsLinked(DropUser(db, user))
  {
    FewerRowsKeepSubjectsLinked(db, DropUser(db, user));
  }

  /** The row is active after the session delete: it survives, and is picked or not concerned. */
  predicate ActiveAfter(db: Db, session: string, picks: map<GroupKey, Uuid>, id: Uuid) {
    && id in db.memories && db.memories[id].session != session
    && if GroupKeyOf(db.memories[id]) in Affected(db, session)
       then PickOf(picks, GroupKeyOf(db.memories[id])) == Some(id)
       else db.memories[id].active
  }

  /** The row is inactive before the delete and active after it. */
  predicate Restored(db: Db, session: string, picks: map<GroupKey, Uuid>, id: Uuid) {
    ActiveAfter(db, session, picks, id) && !db.memories[id].active
  }

  /** A row that the delete restores is linked already to every row of its subject that is active afterwards. */
  ghost predicate RestoredAreLinked(db: Db, session: string, picks: map<GroupKey, Uuid>) {
    forall a, b | Restored(db, session, picks, a) && ActiveAfter(db, session, picks, b) && a != b
      && db.memories[a].scope == db.memories[b].scope && db.memories[a].subject == db.memories[b].subject ::
      Edge(a, b, SameSubject) in db.edges
  }

  /** The rows left by the deletes of a session, before the recompute. */
  lemma RowsLeft(db: Db, session: string)
    ensures var ms := WithoutSession(db, session).memories;
      && (forall id :: id in ms <==> id in db.memories && db.memories[id].session != session)
      && (forall id | id in ms ::
            && ms[id].scope == db.memories[id].scope && ms[id].subject == db.memories[id].subject
            && ms[id].key == db.memories[id].key && ms[id].active == db.memories[id].active)
  {
  }

  lemma RowsRecomputed(ms: map<Uuid, Memory>, affected: set<GroupKey>, picks: map<GroupKey, Uuid>)
    ensures var ms' := Recompute(ms, affected, picks);
      && ms'.Keys == ms.Keys
      && (forall id | id in ms :: ms'[id].scope == ms[id].scope && ms'[id].subject == ms[id].subject)
      && (forall id | id in ms :: ms'[id].active <==>
            if GroupKeyOf(ms[id]) in affected then PickOf(picks, GroupKeyOf(ms[id])) == Some(id) else ms[id].active)
  {
  }

  lemma DropSessionActive(db: Db, session: string, picks: map<GroupKey, Uuid>)
    ensures var ms := DropSession(db, session, picks).memories;
      && (forall id :: id in ms <==> id in db.memories && db.memories[id].session != session)
      && (forall id | id in ms :: ms[id].scope == db.memories[id].scope && ms[id].subject == db.memories[id].subject)
      && (forall id :: id in ms && ms[id].active <==> ActiveAfter(db, session, picks, id))
  {
    hide WithoutSession, Recompute, Affected, PickOf;
    RowsLeft(db, session);
    RowsRecomputed(WithoutSession(db, session).memories, Affected(db, session), picks);
  }

  lemma DropSessionEdges(db: Db, session: string, picks: map<GroupKey, Uuid>)
    ensures var db' := DropSession(db, session, picks);
      forall e :: e in db'.edges <==>
        e in db.edges && e.src !in SessionMemories(db, session) && e.dst !in SessionMemories(db, session)
  {
  }

  /** A session delete keeps the links complete if and only if the rows it restores are linked already. */
  lemma DropSessionLinkedIff(db: Db, session: string, picks: map<GroupKey, Uuid>)
    requires SubjectsLinked(db) && EdgesSound(db)
    ensures SubjectsLinked(DropSession(db, session, picks)) <==> RestoredAreLinked(db, session, picks)
  {
    hide DropSession, ActiveAfter, EdgesSound;
    var db' := DropSession(db, session, picks);
    DropSessionActive(db, session, picks);
    DropSessionEdges(db, session, picks);
    if RestoredAreLinked(db, session, picks) {
      forall a, b | a in db'.memories && b in db'.memories && a != b
        && db'.memories[a].active && db'.memories[b].active
        && db'.memories[a].scope == db'.memories[b].scope && db'.memories[a].subject == db'.memories[b].subject
        ensures Edge(a, b, SameSubject) in db'.edges
      {
        assert ActiveAfter(db, session, picks, a) && ActiveAfter(db, session, picks, b);
        if Restored(db, session, picks, b) {
          assert Edge(b, a, SameSubject) in db.edges;
          EdgeBack(db, Edge(b, a, SameSubject));
        }
      }
    }
  }

  lemma EdgeBack(db: Db, e: Edge)
    requires EdgesSound(db) && e in db.edges
    ensures Edge(e.dst, e.src, e.relation) in db.edges
  {
    assert EdgeSound(db, e);
  }

  /** What a request must meet in order to keep the links complete; only a session delete can fail to. */
  ghost predicate KeepsLinks(db: Db, ev: Event) {
    ev.DeleteSession? ==> RestoredAreLinked(db, ev.session, ev.picks)
  }

  lemma EventLinkedIff(db: Db, ev: Event)
    requires Valid(db, ev) && SubjectsLinked(db) && EdgesSound(db)
    ensures SubjectsLinked(Apply(db, ev)) <==> KeepsLinks(db, ev)
  {
    match ev
    case Ingest(session, user, timestamp, turn, now, steps) =>
      IngestKeepsSubjectsLinked(db, session, user, timestamp, turn, now, steps);
    case DeleteSession(session, picks) => DropSessionLinkedIff(db, session, picks);
    case DeleteUser(user) => DropUserKeepsSubjectsLinked(db, user);
  }

  /**
   * Two active rows of one scope and subject are linked both ways at every point of a run if and only
   * if each session delete restores linked rows only.
   */
  lemma {:induction false} RunLinkedIff(evs: seq<Event>)
    requires ValidRun(evs)
    ensures (forall n | 0 <= n <= |evs| :: SubjectsLinked(Run(evs[..n])))
      <==> (forall i | 0 <= i < |evs| :: KeepsLinks(Run(evs[..i]), evs[i]))
  {
    hide SubjectsLinked, KeepsLinks, Valid, Apply, GraphSound;
    if evs == [] {
      NothingLinked(evs);
      assert evs[..0] == evs;
      return;
    }
    var m := |evs| - 1;
    var p := evs[..m];
    assert forall n | 0 <= n <= m :: p[..n] == evs[..n];
    assert evs[..|evs|] == evs;
    RunLinkedIff(p);
    if SubjectsLinked(Run(p)) {
      assert EdgesSound(Run(p)) by {
        RunEdgesSound(p);
      }
      EventLinkedIff(Run(p), evs[m]);
    }
    assert p == evs[..m];
  }

  lemma RunEdgesSound(evs: seq<Event>)
    requires ValidRun(evs)
    ensures EdgesSound(Run(evs))
  {
    RunGraphSound(evs);
  }

  lemma NothingLinked(evs: seq<Event>)
    requires evs == []
    ensures SubjectsLinked(Run(evs))
  {
  }

  /** The recomputes of the event activate no row that was inactive. */
  ghost predicate ReactivatesNothing(db: Db, ev: Event) {
    ev.DeleteSession? ==> forall gk | gk in ev.picks && ev.picks[gk] in db.memories :: db.memories[ev.picks[gk]].active
  }

  lemma NothingRestored(db: Db, ev: Event)
    requires ReactivatesNothing(db, ev)
    ensures KeepsLinks(db, ev)
  {
  }

  /** In particular in runs that only ingest, and as long as no recompute reactivates a row. */
  lemma RunSubjectsLinked(evs: seq<Event>)
    requires ValidRun(evs) && forall i | 0 <= i < |evs| :: ReactivatesNothing(Run(evs[..i]), evs[i])
    ensures SubjectsLinked(Run(evs))
  {
    hide SubjectsLinked, KeepsLinks, ReactivatesNothing, Run, ValidRun;
    forall i | 0 <= i < |evs| ensures KeepsLinks(Run(evs[..i]), evs[i]) {
      NothingRestored(Run(evs[..i]), evs[i]);
    }
    RunLinkedIff(evs);
    assert evs[..|evs|] == evs;
  }
}
