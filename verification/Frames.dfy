/** What a request leaves alone, and what a delete erases. */
module Frames {
  import opened Tables
  import opened Reconciler
  import opened Groups
  import opened Lifecycle
  import opened Invariants
  import opened Graph

  function TurnsOf(ts: map<Uuid, Turn>, s: Scope): map<Uuid, Turn> {
    map t | t in ts && ts[t].scope == s :: ts[t]
  }

  function MemoriesOf(ms: map<Uuid, Memory>, s: Scope): map<Uuid, Memory> {
    map m | m in ms && ms[m].scope == s :: ms[m]
  }

  function EntitiesOf(es: map<Uuid, Entity>, s: Scope): map<Uuid, Entity> {
    map e | e in es && es[e].scope == s :: es[e]
  }

  predicate InScope(ms: map<Uuid, Memory>, id: Uuid, s: Scope) {
    id in ms && ms[id].scope == s
  }

  function MentionsOf(db: Db, s: Scope): set<Mention> {
    set m | m in db.mentions && InScope(db.memories, m.memory, s)
  }

  function EdgesOf(db: Db, s: Scope): map<Edge, real> {
    map e | e in db.edges && InScope(db.memories, e.src, s) :: db.edges[e]
  }

  /** The part of the store that belongs to one scope. */
  function Slice(db: Db, s: Scope): Db {
    Db(TurnsOf(db.turns, s), MemoriesOf(db.memories, s), EntitiesOf(db.entities, s), MentionsOf(db, s), EdgesOf(db, s))
  }

  /** Links of a row stay in its scope; stated without mentioning groups. */
  ghost predicate LinksScoped(db: Db) {
    forall a, b | Supersedes(db.memories, a, b) :: b in db.memories && db.memories[b].scope == db.memories[a].scope
  }

  lemma ConsistentLinks(db: Db)
    requires GroupsSound(db.memories)
    ensures LinksScoped(db)
  {
    forall a, b | Supersedes(db.memories, a, b)
      ensures b in db.memories && db.memories[b].scope == db.memories[a].scope
    {
      var g := Group(db.memories, db.memories[a].scope, db.memories[a].key);
      assert Sound(g);
      assert Supersedes(g, a, b);
    }
  }

  // ---------------------------------------------------------------- ingest

  /** Rows of other scopes may come and change without the slice noticing. */
  lemma SliceOfMemories(db: Db, ms: map<Uuid, Memory>, s: Scope)
    requires forall id :: id in db.memories && db.memories[id].scope == s <==> id in ms && ms[id].scope == s
    requires forall id | id in ms && ms[id].scope == s :: ms[id] == db.memories[id]
    ensures Slice(db.(memories := ms), s) == Slice(db, s)
  {
    var a, b := Slice(db.(memories := ms), s), Slice(db, s);
    assert a.memories == b.memories;
    assert a.mentions == b.mentions;
    assert a.edges == b.edges;
  }

  lemma StepFrame(db: Db, ctx: Context, st: Step, s: Scope)
    requires StepDbReady(db, ctx, st) && s != ctx.scope
    ensures Slice(StepDb(db, ctx, st), s) == Slice(db, s)
  {
    hide MentionsOf, EdgesOf, DecisionOf, StepMemories;
    var ms := StepMemories(db.memories, ctx, st);
    StepRows(db.memories, ctx, st);
    StepOutside(db.memories, ctx, st, s);
    SliceOfMemories(db, ms, s);
    if DecisionOf(db.memories, ctx, st).insert {
      LinkEntitiesOutside(db.(memories := ms), ctx.scope, st.id, st.cand.entities, st.entityIds, s);
    }
  }

  lemma StepOutside(ms: map<Uuid, Memory>, ctx: Context, st: Step, s: Scope)
    requires StepReady(ms, ctx, st) && s != ctx.scope
    ensures forall id | id in ms && ms[id].scope == s :: StepMemories(ms, ctx, st)[id] == ms[id]
  {
    forall id | id in ms && ms[id].scope == s ensures StepMemories(ms, ctx, st)[id] == ms[id] {
      var d := DecisionOf(ms, ctx, st);
      StepRows(ms, ctx, st);
      assert id !in Group(ms, ctx.scope, st.cand.Key());
    }
  }

  lemma {:induction false} LinkEntitiesOutside(
    db: Db, s0: Scope, memory: Uuid, ms: seq<EntityMention>, ids: seq<Uuid>, s: Scope)
    requires LinksReady(db, s0, memory, ms, ids) && s != s0
    requires memory in db.memories && db.memories[memory].scope == s0
    ensures Slice(LinkEntities(db, s0, memory, ms, ids), s) == Slice(db, s)
    decreases |ms|
  {
    if ms != [] {
      var n := |ms| - 1;
      LinkEntitiesOutside(db, s0, memory, ms[..n], ids[..n], s);
      LinkEntitiesFrame(db, s0, memory, ms[..n], ids[..n]);
      var d := LinkEntities(db, s0, memory, ms[..n], ids[..n]);
      assert Slice(LinkEntity(d, s0, memory, ms[n], ids[n]), s) == Slice(d, s);
    }
  }

  lemma {:induction false} LoopFrame(db: Db, ctx: Context, steps: seq<Step>, s: Scope)
    requires LoopReady(db, ctx, steps) && s != ctx.scope
    ensures Slice(AfterLoop(db, ctx, steps), s) == Slice(db, s)
  {
    if steps != [] {
      var p := steps[..|steps| - 1];
      LoopFrame(db, ctx, p, s);
      StepFrame(AfterLoop(db, ctx, p), ctx, steps[|steps| - 1], s);
    }
  }

  lemma LinkTurnFrame(db: Db, s0: Scope, ids: set<Uuid>, s: Scope)
    requires s != s0 && forall id | id in ids :: id in db.memories && db.memories[id].scope == s0
    ensures Slice(LinkTurn(db, s0, ids), s) == Slice(db, s)
  {
    var a, b := Slice(LinkTurn(db, s0, ids), s), Slice(db, s);
    assert forall e | IsNewEdge(db.memories, s0, ids, e) :: e.src in db.memories && db.memories[e.src].scope == s0;
    assert a.edges == b.edges;
  }

  lemma AddTurnFrame(db: Db, session: string, user: Option<string>, timestamp: int, turn: Uuid, s: Scope)
    requires turn !in db.turns && s != ScopeFor(user, session)
    ensures Slice(AddTurn(db, session, user, timestamp, turn), s) == Slice(db, s)
  {
    var d := AddTurn(db, session, user, timestamp, turn);
    assert TurnsOf(d.turns, s) == TurnsOf(db.turns, s);
    assert MentionsOf(d, s) == MentionsOf(db, s) && EdgesOf(d, s) == EdgesOf(db, s);
  }

  /** Ingesting a turn leaves every other scope exactly as it was. */
  lemma IngestFrame(
    db: Db, session: string, user: Option<string>, timestamp: int, turn: Uuid, now: int, steps: seq<Step>, s: Scope)
    requires Valid(db, Ingest(session, user, timestamp, turn, now, steps)) && s != ScopeFor(user, session)
    ensures Slice(IngestTurn(db, session, user, timestamp, turn, now, steps), s) == Slice(db, s)
  {
    var ctx := ContextOf(session, user, turn, now);
    var d0 := AddTurn(db, session, user, timestamp, turn);
    AddTurnFrame(db, session, user, timestamp, turn, s);
    LoopFrame(d0, ctx, steps, s);
    AfterLoopMemories(d0, ctx, steps);
    InsertedAreNew(db.memories, ctx, steps);
    var d1, ids := AfterLoop(d0, ctx, steps), InsertedSet(db.memories, ctx, steps);
    assert forall id | id in ids :: id in d1.memories && d1.memories[id].scope == ctx.scope;
    LinkTurnFrame(d1, ctx.scope, ids, s);
  }

  // ---------------------------------------------------------------- deletes

  lemma WithoutMemoriesFrame(db: Db, dead: set<Uuid>, s: Scope)
    requires LinksScoped(db) && forall id | id in dead :: id in db.memories && db.memories[id].scope != s
    ensures MemoriesOf(WithoutMemories(db.memories, dead), s) == MemoriesOf(db.memories, s)
    ensures forall id :: InScope(WithoutMemories(db.memories, dead), id, s) <==> InScope(db.memories, id, s)
  {
    var b := MemoriesOf(db.memories, s);
    forall id | id in b ensures SetNull(db.memories[id].supersedes, dead) == db.memories[id].supersedes {
      assert db.memories[id].supersedes.Some? ==> Supersedes(db.memories, id, db.memories[id].supersedes.value);
    }
    assert MemoriesOf(WithoutMemories(db.memories, dead), s) == b;
  }

  lemma SameMentionsAndEdges(d: Db, db: Db, s: Scope)
    requires forall id :: InScope(d.memories, id, s) <==> InScope(db.memories, id, s)
    requires forall m: Mention | InScope(db.memories, m.memory, s) :: m in d.mentions <==> m in db.mentions
    requires forall e: Edge | InScope(db.memories, e.src, s) ::
      (e in d.edges <==> e in db.edges) && (e in db.edges ==> d.edges[e] == db.edges[e])
    ensures MentionsOf(d, s) == MentionsOf(db, s) && EdgesOf(d, s) == EdgesOf(db, s)
  {
    assert MentionsOf(d, s) == MentionsOf(db, s);
    assert EdgesOf(d, s) == EdgesOf(db, s);
  }

  /** Deleting rows outside a scope that nothing in the scope refers to does not change its slice. */
  lemma DeleteMemoriesFrame(db: Db, dead: set<Uuid>, s: Scope)
    requires LinksScoped(db) && GraphSound(db)
    requires forall id | id in dead :: id in db.memories && db.memories[id].scope != s
    ensures Slice(DeleteMemories(db, dead), s) == Slice(db, s)
  {
    var d := DeleteMemories(db, dead);
    WithoutMemoriesFrame(db, dead, s);
    assert forall e | e in db.edges :: EdgeSound(db, e);
    SameMentionsAndEdges(d, db, s);
  }

  lemma DeleteEntitiesFrame(db: Db, dead: set<Uuid>, s: Scope)
    requires GraphSound(db)
    requires forall id | id in dead :: id in db.entities && db.entities[id].scope != s
    ensures Slice(DeleteEntities(db, dead), s) == Slice(db, s)
  {
    var d := DeleteEntities(db, dead);
    assert EntitiesOf(d.entities, s) == EntitiesOf(db.entities, s);
    assert MentionsOf(d, s) == MentionsOf(db, s);
    assert EdgesOf(d, s) == EdgesOf(db, s);
  }

  /** No row of the scope has a source turn among the dead. */
  ghost predicate SourcesSurvive(ms: map<Uuid, Memory>, dead: set<Uuid>, s: Scope) {
    forall id | InScope(ms, id, s) :: SetNull(ms[id].sourceTurn, dead) == ms[id].sourceTurn
  }

  lemma DeleteTurnsFrame(db: Db, dead: set<Uuid>, s: Scope)
    requires (forall t | t in dead && t in db.turns :: db.turns[t].scope != s) && SourcesSurvive(db.memories, dead, s)
    ensures Slice(DeleteTurns(db, dead), s) == Slice(db, s)
  {
    hide MentionsOf, EdgesOf, MemoriesOf, SourcesSurvive;
    var d := DeleteTurns(db, dead);
    assert TurnsOf(d.turns, s) == TurnsOf(db.turns, s);
    SameMentionsAndEdges(d, db, s);
    SourcesFrame(db, dead, s);
  }

  lemma SourcesFrame(db: Db, dead: set<Uuid>, s: Scope)
    requires SourcesSurvive(db.memories, dead, s)
    ensures MemoriesOf(DeleteTurns(db, dead).memories, s) == MemoriesOf(db.memories, s)
  {
    var a, b := MemoriesOf(DeleteTurns(db, dead).memories, s), MemoriesOf(db.memories, s);
    forall id | id in b ensures id in a && a[id] == b[id] {
      assert InScope(db.memories, id, s);
    }
    assert a == b;
  }

  lemma UserSourcesSurvive(db: Db, user: string, s: Scope)
    requires TurnsScoped(db) && Traceable(db) && user != "" && s != User(user)
    ensures SourcesSurvive(WithoutMemories(db.memories, UserMemories(db, user)), UserTurns(db, user), s)
  {
    var ms := WithoutMemories(db.memories, UserMemories(db, user));
    forall id | InScope(ms, id, s) ensures SetNull(ms[id].sourceTurn, UserTurns(db, user)) == ms[id].sourceTurn {
      assert HasSource(db, db.memories[id]);
    }
  }

  /** Deleting a user leaves every other scope exactly as it was, and nothing of the user's own. */
  lemma DropUserFrame(db: Db, user: string, s: Scope)
    requires Consistent(db) && GraphSound(db) && user != ""
    ensures Slice(DropUser(db, user), s) == if s == User(user) then EMPTY else Slice(db, s)
  {
    var d1 := DeleteEntities(db, ScopeEntities(db, User(user)));
    var d2 := DeleteMemories(d1, UserMemories(db, user));
    DeleteEntitiesKeepsGraph(db, ScopeEntities(db, User(user)));
    if s == User(user) {
      UserErased(db, user);
    } else {
      DeleteEntitiesFrame(db, ScopeEntities(db, User(user)), s);
      ConsistentLinks(d1);
      DeleteMemoriesFrame(d1, UserMemories(db, user), s);
      UserSourcesSurvive(db, user, s);
      DeleteTurnsFrame(d2, UserTurns(db, user), s);
    }
  }

  lemma EmptySlice(db: Db, s: Scope)
    requires forall t | t in db.turns :: db.turns[t].scope != s
    requires forall id | id in db.memories :: db.memories[id].scope != s
    requires forall e | e in db.entities :: db.entities[e].scope != s
    ensures Slice(db, s) == EMPTY
  {
    assert TurnsOf(db.turns, s) == map[] && MemoriesOf(db.memories, s) == map[];
    assert EntitiesOf(db.entities, s) == map[];
    assert MentionsOf(db, s) == {} && EdgesOf(db, s) == map[];
  }

  lemma UserErased(db: Db, user: string)
    requires TurnsScoped(db) && user != ""
    ensures Slice(DropUser(db, user), User(user)) == EMPTY
  {
    EmptySlice(DropUser(db, user), User(user));
  }

  /** Nothing of the session is left: no memory, no turn, and nothing in the session's own scope. */
  lemma SessionErased(db: Db, session: string, picks: map<GroupKey, Uuid>)
    requires Consistent(db)
    ensures var db' := DropSession(db, session, picks);
      && db'.memories.Keys == db.memories.Keys - SessionMemories(db, session)
      && db'.turns.Keys == db.turns.Keys - SessionTurns(db, session)
      && Slice(db', Session(session)) == EMPTY
  {
    hide GroupsSound, KeysGenerated, Slice;
    forall id | id in db.memories && db.memories[id].scope == Session(session)
      ensures id in SessionMemories(db, session)
    {
      assert HasSource(db, db.memories[id]);
    }
    EmptySlice(DropSession(db, session, picks), Session(session));
  }

  /** A group without a row of the session is unchanged, field by field. */
  lemma DropSessionFrame(db: Db, session: string, picks: map<GroupKey, Uuid>, s: Scope, k: string)
    requires Consistent(db) && Valid(db, DeleteSession(session, picks))
    requires forall id | id in Group(db.memories, s, k) :: db.memories[id].session != session
    ensures Group(DropSession(db, session, picks).memories, s, k) == Group(db.memories, s, k)
  {
    assert Sound(Group(db.memories, s, k));
    assert forall id | id in db.memories && GroupKeyOf(db.memories[id]) == GroupKey(s, k)
      :: id in Group(db.memories, s, k);
    DropSessionOnGroup(db, session, picks, s, k);
  }

  lemma SessionSourcesSurvive(db: Db, session: string, s: Scope)
    requires Traceable(db)
    ensures SourcesSurvive(WithoutMemories(db.memories, SessionMemories(db, session)), SessionTurns(db, session), s)
  {
    var ms := WithoutMemories(db.memories, SessionMemories(db, session));
    forall id | InScope(ms, id, s) ensures SetNull(ms[id].sourceTurn, SessionTurns(db, session)) == ms[id].sourceTurn {
      assert HasSource(db, db.memories[id]);
    }
  }

  /** A scope in which the session left neither memory nor turn is unchanged. */
  lemma DropSessionScopeFrame(db: Db, session: string, picks: map<GroupKey, Uuid>, s: Scope)
    requires Consistent(db) && GraphSound(db) && s != Session(session)
    requires forall id | id in db.memories && db.memories[id].scope == s :: db.memories[id].session != session
    requires forall id | id in db.turns && db.turns[id].scope == s :: db.turns[id].session != session
    ensures Slice(DropSession(db, session, picks), s) == Slice(db, s)
  {
    hide GraphSound, KeysGenerated, GroupsSound, MentionsOf, EdgesOf, TurnsOf, EntitiesOf;
    WithoutSessionFrame(db, session, s);
    var d := WithoutSession(db, session);
    var ms := Recompute(d.memories, Affected(db, session), picks);
    DropSessionMemories(db, session);
    forall id | id in d.memories && d.memories[id].scope == s ensures ms[id] == d.memories[id] {
      assert GroupKeyOf(d.memories[id]) !in Affected(db, session);
    }
    SliceOfMemories(d, ms, s);
  }

  lemma WithoutSessionFrame(db: Db, session: string, s: Scope)
    requires Consistent(db) && GraphSound(db) && s != Session(session)
    requires forall id | id in db.memories && db.memories[id].scope == s :: db.memories[id].session != session
    requires forall id | id in db.turns && db.turns[id].scope == s :: db.turns[id].session != session
    ensures Slice(WithoutSession(db, session), s) == Slice(db, s)
  {
    var d1 := DeleteMemories(db, SessionMemories(db, session));
    var d2 := DeleteTurns(d1, SessionTurns(db, session));
    ConsistentLinks(db);
    DeleteMemoriesFrame(db, SessionMemories(db, session), s);
    DeleteMemoriesKeepsGraph(db, SessionMemories(db, session));
    SessionSourcesSurvive(db, session, s);
    DeleteTurnsFrame(d1, SessionTurns(db, session), s);
    SameGraph(d1, d2);
    DeleteEntitiesFrame(d2, ScopeEntities(db, Session(session)), s);
  }

  // ---------------------------------------------------------------- entities left behind

  ghost predicate Unmentioned(db: Db, e: Uuid) {
    forall m | m in db.mentions :: m.entity != e
  }

  /**
   * A session delete leaves entities behind that no memory mentions: exactly those outside the scope of
   * the session itself whose every mention was by a memory of the session.
   */
  lemma LeftUnmentionedIff(db: Db, session: string, picks: map<GroupKey, Uuid>, e: Uuid)
    ensures var db' := DropSession(db, session, picks);
      (e in db'.entities && Unmentioned(db', e))
      <==> e in db.entities && db.entities[e].scope != Session(session)
           && forall m | m in db.mentions && m.entity == e :: m.memory in SessionMemories(db, session)
  {
    var db' := DropSession(db, session, picks);
    var dead, gone := SessionMemories(db, session), ScopeEntities(db, Session(session));
    assert forall m :: m in db'.mentions <==> m in db.mentions && m.memory !in dead && m.entity !in gone;
  }

  // ---------------------------------------------------------------- over runs

  /** Whatever was requested before, deleting a user erases the user's scope and no row of any other. */
  lemma UserDeleted(evs: seq<Event>, user: string, s: Scope)
    requires ValidRun(evs) && user != ""
    ensures Slice(DropUser(Run(evs), user), s) == if s == User(user) then EMPTY else Slice(Run(evs), s)
  {
    hide Slice, Consistent, GraphSound, DropUser;
    RunConsistent(evs);
    RunGraphSound(evs);
    DropUserFrame(Run(evs), user, s);
  }

  /**
   * Whatever was requested before, deleting a session erases exactly its memories and turns and all of
   * its own scope, and leaves every group it did not write to unchanged, field by field.
   */
  lemma SessionDeleted(evs: seq<Event>, session: string, picks: map<GroupKey, Uuid>, s: Scope, k: string)
    requires ValidRun(evs) && Valid(Run(evs), DeleteSession(session, picks))
    ensures var db, db' := Run(evs), DropSession(Run(evs), session, picks);
      && db'.memories.Keys == db.memories.Keys - SessionMemories(db, session)
      && db'.turns.Keys == db.turns.Keys - SessionTurns(db, session)
      && Slice(db', Session(session)) == EMPTY
      && ((forall id | id in Group(db.memories, s, k) :: db.memories[id].session != session) ==>
            Group(db'.memories, s, k) == Group(db.memories, s, k))
  {
    hide Slice, Consistent, DropSession;
    RunConsistent(evs);
    var db := Run(evs);
    SessionErased(db, session, picks);
    if forall id | id in Group(db.memories, s, k) :: db.memories[id].session != session {
      DropSessionFrame(db, session, picks, s, k);
    }
  }
}
