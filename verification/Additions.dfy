/** What a turn adds to the tables, in terms of what was said: rows, mentions and edges. */
module Additions {
  import opened Tables
  import opened Text
  import opened Reconciler
  import opened Lifecycle
  import opened Invariants
  import opened Graph

  /** The row holds the candidate, and says where it came from. */
  predicate IsRowOf(m: Memory, ctx: Context, c: Candidate) {
    && m.scope == ctx.scope && m.session == ctx.session && m.sourceTurn == Some(ctx.turn) && m.createdAt == ctx.now
    && m.kind == c.kind && m.subject == c.subject && m.pred == c.pred && m.obj == c.obj && m.value == c.value
    && m.quote == (if c.quote == "" then None else Some(c.quote)) && m.confidence == c.confidence
  }

  /** The entity that a mention names: of this scope, of the name up to case, and of the kind. */
  predicate IsEntityOf(e: Entity, s: Scope, m: EntityMention) {
    e.scope == s && Lower(e.name) == Lower(m.name) && SameKind(e.kind, m.kind)
  }

  /** The memory is linked to every entity that is named. */
  ghost predicate EntitiesLinked(db: Db, s: Scope, id: Uuid, ms: seq<EntityMention>) {
    forall m | m in ms && m.name != "" ::
      exists e :: e in db.entities && IsEntityOf(db.entities[e], s, m) && Mention(id, e) in db.mentions
  }

  /** The link is one of the memory with an entity that is named. */
  ghost predicate IsLinkOf(db: Db, s: Scope, id: Uuid, ms: seq<EntityMention>, x: Mention) {
    && x.memory == id && x.entity in db.entities
    && exists m :: m in ms && m.name != "" && IsEntityOf(db.entities[x.entity], s, m)
  }

  // ---------------------------------------------------------------- mentions

  /** Entities stay what they are, up to the case of their names. */
  ghost predicate EntitiesStay(es: map<Uuid, Entity>, es': map<Uuid, Entity>) {
    forall e | e in es ::
      e in es' && es'[e].scope == es[e].scope && es'[e].kind == es[e].kind && Lower(es'[e].name) == Lower(es[e].name)
  }

  lemma UpsertNames(es: map<Uuid, Entity>, s: Scope, m: EntityMention, id: Uuid)
    requires UpsertReturns(es, s, m, id)
    ensures var es' := Upsert(es, s, m, id); EntitiesStay(es, es') && id in es' && IsEntityOf(es'[id], s, m)
  {
  }

  lemma LinksStay(db: Db, db': Db, s: Scope, id: Uuid, ms: seq<EntityMention>)
    requires EntitiesStay(db.entities, db'.entities)
    ensures EntitiesLinked(db, s, id, ms) && db.mentions <= db'.mentions ==> EntitiesLinked(db', s, id, ms)
    ensures forall x | IsLinkOf(db, s, id, ms, x) :: IsLinkOf(db', s, id, ms, x)
  {
    hide Lower;
    if EntitiesLinked(db, s, id, ms) && db.mentions <= db'.mentions {
      forall m | m in ms && m.name != ""
        ensures exists e :: e in db'.entities && IsEntityOf(db'.entities[e], s, m) && Mention(id, e) in db'.mentions
      {
        var e :| e in db.entities && IsEntityOf(db.entities[e], s, m) && Mention(id, e) in db.mentions;
        assert IsEntityOf(db'.entities[e], s, m);
      }
    }
    forall x | IsLinkOf(db, s, id, ms, x) ensures IsLinkOf(db', s, id, ms, x) {
      var m :| m in ms && m.name != "" && IsEntityOf(db.entities[x.entity], s, m);
      assert IsEntityOf(db'.entities[x.entity], s, m);
    }
  }

  /** One more mention in the list. */
  lemma LinkedMore(db: Db, s: Scope, id: Uuid, ms: seq<EntityMention>, n: nat)
    requires |ms| == n + 1 && EntitiesLinked(db, s, id, ms[..n])
    requires ms[n].name != "" ==>
      exists e :: e in db.entities && IsEntityOf(db.entities[e], s, ms[n]) && Mention(id, e) in db.mentions
    ensures EntitiesLinked(db, s, id, ms)
    ensures forall x | IsLinkOf(db, s, id, ms[..n], x) :: IsLinkOf(db, s, id, ms, x)
  {
    hide IsEntityOf;
    assert forall m | m in ms :: m in ms[..n] || m == ms[n];
    assert forall m | m in ms[..n] :: m in ms;
  }

  /** The inner loop links the memory to every entity named, and does nothing else to the mentions. */
  lemma {:induction false} LinkEntitiesAdds(db: Db, s: Scope, memory: Uuid, ms: seq<EntityMention>, ids: seq<Uuid>)
    requires LinksReady(db, s, memory, ms, ids)
    ensures var db' := LinkEntities(db, s, memory, ms, ids);
      && EntitiesStay(db.entities, db'.entities) && db.mentions <= db'.mentions
      && EntitiesLinked(db', s, memory, ms)
      && forall x | x in db'.mentions && x !in db.mentions :: IsLinkOf(db', s, memory, ms, x)
    decreases |ms|
  {
    hide UpsertReturns, Lower;
    if ms != [] {
      var n := |ms| - 1;
      LinkEntitiesAdds(db, s, memory, ms[..n], ids[..n]);
      var d := LinkEntities(db, s, memory, ms[..n], ids[..n]);
      OneLinkAdds(d, s, memory, ms[n], ids[n]);
      var d' := LinkEntity(d, s, memory, ms[n], ids[n]);
      LinksStay(d, d', s, memory, ms[..n]);
      LinkedMore(d', s, memory, ms, n);
      StayTwice(db.entities, d.entities, d'.entities);
      LastLink(d, d', s, memory, ms, n);
    }
  }

  lemma StayTwice(a: map<Uuid, Entity>, b: map<Uuid, Entity>, c: map<Uuid, Entity>)
    requires EntitiesStay(a, b) && EntitiesStay(b, c)
    ensures EntitiesStay(a, c)
  {
  }

  lemma OneLinkAdds(db: Db, s: Scope, memory: Uuid, m: EntityMention, id: Uuid)
    requires m.name != "" ==> UpsertReturns(db.entities, s, m, id)
    ensures var db' := LinkEntity(db, s, memory, m, id);
      && EntitiesStay(db.entities, db'.entities)
      && (m.name == "" ==> db'.mentions == db.mentions)
      && (m.name != "" ==> id in db'.entities && IsEntityOf(db'.entities[id], s, m)
                           && db'.mentions == db.mentions + {Mention(memory, id)})
  {
    hide UpsertReturns, Upsert;
    if m.name != "" {
      UpsertNames(db.entities, s, m, id);
    }
  }

  lemma LastLink(db: Db, db': Db, s: Scope, memory: Uuid, ms: seq<EntityMention>, n: nat)
    requires |ms| == n + 1
    requires forall x | x in db'.mentions && x !in db.mentions ::
      ms[n].name != "" && x.memory == memory && x.entity in db'.entities && IsEntityOf(db'.entities[x.entity], s, ms[n])
    ensures forall x | x in db'.mentions && x !in db.mentions :: IsLinkOf(db', s, memory, ms, x)
  {
    assert ms[n] in ms;
  }

  // ---------------------------------------------------------------- the loop

  /** The row was added for the candidate of this step, and is linked to the entities the candidate names. */
  ghost predicate AddedFor(db: Db, ctx: Context, c: Candidate, id: Uuid) {
    && id in db.memories && IsRowOf(db.memories[id], ctx, c)
    && EntitiesLinked(db, ctx.scope, id, c.entities)
  }

  ghost predicate RowsAdded(before: Db, db: Db, ctx: Context, steps: seq<Step>) {
    forall id | id in db.memories && id !in before.memories ::
      exists i :: 0 <= i < |steps| && steps[i].id == id && AddedFor(db, ctx, steps[i].cand, id)
  }

  ghost predicate MentionsAdded(before: Db, db: Db, ctx: Context, steps: seq<Step>) {
    && before.mentions <= db.mentions
    && forall x | x in db.mentions && x !in before.mentions ::
         && x.memory in db.memories && x.memory !in before.memories
         && exists i :: 0 <= i < |steps| && IsLinkOf(db, ctx.scope, steps[i].id, steps[i].cand.entities, x)
  }

  /** What one pass of the loop adds. */
  ghost predicate StepAdds(db: Db, db': Db, ctx: Context, st: Step) {
    && EntitiesStay(db.entities, db'.entities) && db.mentions <= db'.mentions
    && db.memories.Keys <= db'.memories.Keys
    && (forall id | id in db.memories :: db'.memories[id] == db.memories[id].(active := db'.memories[id].active))
    && (forall id | id in db'.memories && id !in db.memories :: id == st.id && AddedFor(db', ctx, st.cand, id))
    && forall x | x in db'.mentions && x !in db.mentions ::
         && st.id in db'.memories && st.id !in db.memories
         && IsLinkOf(db', ctx.scope, st.id, st.cand.entities, x)
  }

  lemma StepDbAdds(db: Db, ctx: Context, st: Step)
    requires StepDbReady(db, ctx, st)
    ensures StepAdds(db, StepDb(db, ctx, st), ctx, st)
  {
    hide StepMemories, DecisionOf, LinksReady, LinkEntities, EntitiesLinked, IsLinkOf, IsFetch, Group;
    StepRows(db.memories, ctx, st);
    var d := db.(memories := StepMemories(db.memories, ctx, st));
    if DecisionOf(db.memories, ctx, st).insert {
      LinkEntitiesAdds(d, ctx.scope, st.id, st.cand.entities, st.entityIds);
      LinkEntitiesFrame(d, ctx.scope, st.id, st.cand.entities, st.entityIds);
    }
  }

  lemma AddedStays(db: Db, db': Db, ctx: Context, st: Step, c: Candidate, id: Uuid)
    requires StepAdds(db, db', ctx, st) && AddedFor(db, ctx, c, id)
    ensures AddedFor(db', ctx, c, id)
  {
    hide EntitiesStay, EntitiesLinked, IsLinkOf;
    LinksStay(db, db', ctx.scope, id, c.entities);
  }

  lemma RowsAddedMore(before: Db, db: Db, db': Db, ctx: Context, steps: seq<Step>, n: nat)
    requires |steps| == n + 1 && RowsAdded(before, db, ctx, steps[..n]) && StepAdds(db, db', ctx, steps[n])
    ensures RowsAdded(before, db', ctx, steps)
  {
    hide AddedFor, EntitiesStay, IsLinkOf;
    forall id | id in db'.memories && id !in before.memories
      ensures exists i :: 0 <= i < |steps| && steps[i].id == id && AddedFor(db', ctx, steps[i].cand, id)
    {
      if id in db.memories {
        var i :| 0 <= i < n && steps[..n][i].id == id && AddedFor(db, ctx, steps[..n][i].cand, id);
        AddedStays(db, db', ctx, steps[n], steps[i].cand, id);
      } else {
        assert steps[n].id == id;
      }
    }
  }

  lemma MentionsAddedMore(before: Db, db: Db, db': Db, ctx: Context, steps: seq<Step>, n: nat)
    requires |steps| == n + 1 && MentionsAdded(before, db, ctx, steps[..n]) && StepAdds(db, db', ctx, steps[n])
    requires before.memories.Keys <= db.memories.Keys
    ensures MentionsAdded(before, db', ctx, steps)
  {
    hide AddedFor, EntitiesStay, IsLinkOf;
    forall x | x in db'.mentions && x !in before.mentions
      ensures x.memory in db'.memories && x.memory !in before.memories
      ensures exists i :: 0 <= i < |steps| && IsLinkOf(db', ctx.scope, steps[i].id, steps[i].cand.entities, x)
    {
      if x in db.mentions {
        var i :| 0 <= i < n && IsLinkOf(db, ctx.scope, steps[..n][i].id, steps[..n][i].cand.entities, x);
        LinksStay(db, db', ctx.scope, steps[i].id, steps[i].cand.entities);
      } else {
        assert IsLinkOf(db', ctx.scope, steps[n].id, steps[n].cand.entities, x);
        LinkNames(db', ctx.scope, steps[n].id, steps[n].cand.entities, x);
      }
    }
  }

  lemma LinkNames(db: Db, s: Scope, id: Uuid, ms: seq<EntityMention>, x: Mention)
    requires IsLinkOf(db, s, id, ms, x)
    ensures x.memory == id
  {
  }

  /** After the loop every new row holds a candidate and is linked to its entities, and there are no other links. */
  lemma {:induction false} LoopAdds(db: Db, ctx: Context, steps: seq<Step>)
    requires LoopReady(db, ctx, steps)
    ensures var db' := AfterLoop(db, ctx, steps);
      RowsAdded(db, db', ctx, steps) && MentionsAdded(db, db', ctx, steps) && db.memories.Keys <= db'.memories.Keys
  {
    hide StepDb, StepDbReady, StepAdds, RowsAdded, MentionsAdded;
    if steps == [] {
      NothingAdded(db, ctx, steps);
      return;
    }
    var n := |steps| - 1;
    LoopAdds(db, ctx, steps[..n]);
    var d := AfterLoop(db, ctx, steps[..n]);
    StepDbAdds(d, ctx, steps[n]);
    RowsAddedMore(db, d, StepDb(d, ctx, steps[n]), ctx, steps, n);
    MentionsAddedMore(db, d, StepDb(d, ctx, steps[n]), ctx, steps, n);
    MoreRows(d, StepDb(d, ctx, steps[n]), ctx, steps[n]);
  }

  lemma MoreRows(db: Db, db': Db, ctx: Context, st: Step)
    requires StepAdds(db, db', ctx, st)
    ensures db.memories.Keys <= db'.memories.Keys
  {
  }

  lemma NothingAdded(db: Db, ctx: Context, steps: seq<Step>)
    requires steps == []
    ensures RowsAdded(db, db, ctx, steps) && MentionsAdded(db, db, ctx, steps)
  {
  }

  // ---------------------------------------------------------------- edges

  /** The turn joins the two rows: both are new, or one is and the other is an active row of its scope and subject. */
  predicate Joins(before: Db, db: Db, e: Edge) {
    && e.src in db.memories && e.dst in db.memories && e.src != e.dst
    && var src, dst := e.src !in before.memories, e.dst !in before.memories;
       match e.relation
       case CoExtracted => src && dst
       case SameSubject =>
         && db.memories[e.src].scope == db.memories[e.dst].scope
         && db.memories[e.src].subject == db.memories[e.dst].subject
         && ((src && db.memories[e.dst].active) || (dst && db.memories[e.src].active))
  }

  /** The old edges are as they were, and the new ones are those that join rows, with the weights of the schema. */
  ghost predicate EdgesAdded(before: Db, db: Db) {
    && (forall e :: e in db.edges <==> e in before.edges || Joins(before, db, e))
    && (forall e | e in before.edges :: db.edges[e] == before.edges[e])
    && (forall e | e in db.edges && e !in before.edges :: db.edges[e] == if e.relation == CoExtracted then 0.7 else 0.5)
  }

  lemma LinkTurnAdds(before: Db, db: Db, s: Scope, ids: set<Uuid>)
    requires Extended(before.memories, db.memories, s, ids) && db.edges == before.edges
    ensures EdgesAdded(before, LinkTurn(db, s, ids))
  {
    var db' := LinkTurn(db, s, ids);
    forall e ensures IsNewEdge(db.memories, s, ids, e) <==> Joins(before, db', e) {
    }
  }

  // ---------------------------------------------------------------- the whole turn

  /** What ingesting a turn adds, and that it leaves everything else as it was. */
  ghost predicate TurnAdded(before: Db, db: Db, ctx: Context, turn: Turn, cands: seq<Candidate>) {
    && ctx.turn !in before.turns && db.turns == before.turns[ctx.turn := turn]
    && before.memories.Keys <= db.memories.Keys
    && (forall id | id in before.memories ::
          db.memories[id] == before.memories[id].(active := db.memories[id].active))
    && (forall id | id in db.memories && id !in before.memories ::
          exists i :: 0 <= i < |cands| && AddedFor(db, ctx, cands[i], id))
    && before.mentions <= db.mentions
    && (forall x | x in db.mentions && x !in before.mentions ::
          && x.memory in db.memories && x.memory !in before.memories
          && exists i :: 0 <= i < |cands| && IsLinkOf(db, ctx.scope, x.memory, cands[i].entities, x))
    && EdgesAdded(before, db)
  }

  function ScopeOfPayload(session: string, user: Option<string>): Scope {
    if user == None || user == Some("") then Session(session) else User(user.value)
  }

  /** The rows that a step of a list was for are those that a candidate was for. */
  lemma FromCandidates(before: Db, db: Db, ctx: Context, steps: seq<Step>, cands: seq<Candidate>)
    requires |steps| == |cands| && forall i | 0 <= i < |cands| :: steps[i].cand == cands[i]
    requires RowsAdded(before, db, ctx, steps) && MentionsAdded(before, db, ctx, steps)
    ensures before.mentions <= db.mentions
    ensures forall id | id in db.memories && id !in before.memories ::
      exists i :: 0 <= i < |cands| && AddedFor(db, ctx, cands[i], id)
    ensures forall x | x in db.mentions && x !in before.mentions ::
      && x.memory in db.memories && x.memory !in before.memories
      && exists i :: 0 <= i < |cands| && IsLinkOf(db, ctx.scope, x.memory, cands[i].entities, x)
  {
    hide AddedFor, IsLinkOf;
    forall id | id in db.memories && id !in before.memories
      ensures exists i :: 0 <= i < |cands| && AddedFor(db, ctx, cands[i], id)
    {
      var i :| 0 <= i < |steps| && steps[i].id == id && AddedFor(db, ctx, steps[i].cand, id);
      assert AddedFor(db, ctx, cands[i], id);
    }
    forall x | x in db.mentions && x !in before.mentions
      ensures exists i :: 0 <= i < |cands| && IsLinkOf(db, ctx.scope, x.memory, cands[i].entities, x)
    {
      var i :| 0 <= i < |steps| && IsLinkOf(db, ctx.scope, steps[i].id, steps[i].cand.entities, x);
      LinkNames(db, ctx.scope, steps[i].id, steps[i].cand.entities, x);
      assert IsLinkOf(db, ctx.scope, x.memory, cands[i].entities, x);
    }
  }

  /**
   * Every new row holds one of the candidates of the turn and is linked to each entity it names, each new
   * mention is such a link, and the new edges are exactly those that join new rows with each other and with
   * active rows of their subject.
   */
  lemma IngestAdds(db: Db, ev: Event, cands: seq<Candidate>)
    requires ev.Ingest? && Valid(db, ev)
    requires |ev.steps| == |cands| && forall i | 0 <= i < |cands| :: ev.steps[i].cand == cands[i]
    ensures var s := ScopeOfPayload(ev.session, ev.user);
      TurnAdded(db, Apply(db, ev), Context(s, ev.session, ev.turn, ev.now), Turn(ev.session, ev.user, s, ev.timestamp),
                cands)
  {
    hide AfterLoop, LoopReady, RowsAdded, MentionsAdded, EdgesAdded, AddedFor, IsLinkOf, InsertedSet, StepsReady,
         AfterSteps;
    var ctx := EventContext(ev);
    var d0 := AddTurn(db, ev.session, ev.user, ev.timestamp, ev.turn);
    var d := AfterLoop(d0, ctx, ev.steps);
    AfterLoopMemories(d0, ctx, ev.steps);
    StepsExtend(db.memories, ctx, ev.steps);
    LoopAdds(d0, ctx, ev.steps);
    FromCandidates(d0, d, ctx, ev.steps, cands);
    LinkTurnAdds(d0, d, ctx.scope, InsertedSet(db.memories, ctx, ev.steps));
    SameRowsAdded(d0, d, Apply(db, ev), ctx, cands);
    SameBefore(db, d0, Apply(db, ev));
  }

  lemma SameBefore(db: Db, d0: Db, db': Db)
    requires d0.memories == db.memories && d0.edges == db.edges && EdgesAdded(d0, db')
    ensures EdgesAdded(db, db')
  {
    assert forall e :: Joins(db, db', e) <==> Joins(d0, db', e);
  }

  /** Edges play no part in rows and mentions. */
  lemma SameRowsAdded(before: Db, db: Db, db': Db, ctx: Context, cands: seq<Candidate>)
    requires db'.memories == db.memories && db'.entities == db.entities && db'.mentions == db.mentions
    requires forall id | id in db.memories && id !in before.memories ::
      exists i :: 0 <= i < |cands| && AddedFor(db, ctx, cands[i], id)
    requires forall x | x in db.mentions && x !in before.mentions ::
      exists i :: 0 <= i < |cands| && IsLinkOf(db, ctx.scope, x.memory, cands[i].entities, x)
    ensures forall id | id in db.memories && id !in before.memories ::
      exists i :: 0 <= i < |cands| && AddedFor(db', ctx, cands[i], id)
    ensures forall x | x in db.mentions && x !in before.mentions ::
      exists i :: 0 <= i < |cands| && IsLinkOf(db', ctx.scope, x.memory, cands[i].entities, x)
  {
    hide IsEntityOf, IsRowOf;
    assert forall c, id :: AddedFor(db, ctx, c, id) ==> AddedFor(db', ctx, c, id);
    assert forall id, ms, x :: IsLinkOf(db, ctx.scope, id, ms, x) ==> IsLinkOf(db', ctx.scope, id, ms, x);
  }
}
