/**
 * The request handlers and the SQL they run, on tables held in memory. Every method says which legal
 * event of the transition system it has carried out.
 */
module Store {
  import opened Tables
  import opened Taxonomy
  import opened Reconciler
  import opened Groups
  import opened Lifecycle
  import opened Invariants
  import opened Additions

  lemma {:induction false} ActiveIdsAppend(g: map<Uuid, Memory>, ids: seq<Uuid>, id: Uuid)
    requires (forall i | i in ids :: i in g) && id in g
    ensures ActiveIds(g, ids + [id]) == ActiveIds(g, ids) + if g[id].active then [id] else []
  {
    if ids != [] {
      assert (ids + [id])[1..] == ids[1..] + [id];
      ActiveIdsAppend(g, ids[1..], id);
    }
  }

  lemma {:induction false} TargetsAppend(g: map<Uuid, Memory>, ids: seq<Uuid>, id: Uuid, quote: string)
    requires (forall i | i in ids :: i in g) && id in g
    ensures Targets(g, ids + [id], quote) == Targets(g, ids, quote) + if Mentions(quote, g[id]) then [id] else []
  {
    if ids != [] {
      assert (ids + [id])[1..] == ids[1..] + [id];
      TargetsAppend(g, ids[1..], id, quote);
    }
  }

  /** Where a row belongs in a list that is newest first. */
  method Place(g: map<Uuid, Memory>, ids: seq<Uuid>, id: Uuid) returns (i: nat)
    requires (forall x | x in ids :: x in g) && NewestFirst(g, ids) && id in g
    ensures i <= |ids|
    ensures forall j | 0 <= j < i :: g[ids[j]].createdAt >= g[id].createdAt
    ensures forall j | i <= j < |ids| :: g[id].createdAt >= g[ids[j]].createdAt
  {
    i := 0;
    while i < |ids| && g[ids[i]].createdAt >= g[id].createdAt
      invariant i <= |ids|
      invariant forall j | 0 <= j < i :: g[ids[j]].createdAt >= g[id].createdAt
    {
      i := i + 1;
    }
  }

  /** `SELECT ... ORDER BY created_at DESC`; the order of equal stamps is whatever comes. */
  method Sort(g: map<Uuid, Memory>) returns (ids: seq<Uuid>)
    ensures IsFetch(g, ids)
  {
    ids := [];
    var todo := g.Keys;
    while todo != {}
      invariant todo <= g.Keys
      invariant forall id :: id in ids <==> id in g && id !in todo
      invariant forall i, j | 0 <= i < j < |ids| :: ids[i] != ids[j]
      invariant NewestFirst(g, ids)
    {
      var id :| id in todo;
      var i := Place(g, ids, id);
      ids := ids[..i] + [id] + ids[i..];
      todo := todo - {id};
    }
  }

  /** `active_rows`, and whether one of them has the candidate's object. */
  method CollectActive(g: map<Uuid, Memory>, ids: seq<Uuid>, obj: string) returns (act: seq<Uuid>, present: bool)
    requires forall id | id in ids :: id in g
    ensures act == ActiveIds(g, ids)
    ensures present <==> exists j :: 0 <= j < |act| && SameObject(g[act[j]], obj)
  {
    act, present := [], false;
    for i := 0 to |ids|
      invariant act == ActiveIds(g, ids[..i])
      invariant forall id | id in act :: id in g
      invariant present <==> exists j :: 0 <= j < |act| && SameObject(g[act[j]], obj)
    {
      ActiveIdsAppend(g, ids[..i], ids[i]);
      assert ids[..i + 1] == ids[..i] + [ids[i]];
      if g[ids[i]].active {
        ghost var before := act;
        act := act + [ids[i]];
        assert forall j | 0 <= j < |before| :: act[j] == before[j];
        assert act[|before|] == ids[i];
        present := present || SameObject(g[ids[i]], obj);
      }
    }
    assert ids[..|ids|] == ids;
  }

  /** The active rows whose object the quote of a correction mentions. */
  method CorrectionTargets(g: map<Uuid, Memory>, act: seq<Uuid>, quote: string) returns (targets: seq<Uuid>)
    requires forall id | id in act :: id in g
    ensures targets == Targets(g, act, quote)
  {
    targets := [];
    for i := 0 to |act|
      invariant targets == Targets(g, act[..i], quote)
    {
      TargetsAppend(g, act[..i], act[i], quote);
      assert act[..i + 1] == act[..i] + [act[i]];
      if Mentions(quote, g[act[i]]) {
        targets := targets + [act[i]];
      }
    }
    assert act[..|act|] == act;
  }

  /** `reconcile`: the early returns of the original, against the decision as a function. */
  method Reconcile(g: map<Uuid, Memory>, ids: seq<Uuid>, c: Candidate) returns (d: Decision)
    requires forall id | id in ids :: id in g
    ensures d == Decide(g, ids, c)
  {
    var act, present := CollectActive(g, ids, c.obj);
    if present {
      return SKIP;
    }
    if MultiplicityOf(c.pred) == One {
      return Decision(true, true, if act == [] then None else Some(act[0]), act);
    }
    if c.corrects {
      var targets := CorrectionTargets(g, act, c.quote);
      if targets != [] {
        return Decision(true, true, Some(targets[0]), targets);
      }
      if act != [] {
        return Decision(true, true, Some(act[0]), [act[0]]);
      }
    }
    return Decision(true, true, None, []);
  }

  /** `uuid4`: some id not in use. */
  method Uuid4(used: set<Uuid>) returns (id: Uuid)
    ensures id !in used
  {
    ghost var unused := Unused(used);
    id :| id !in used;
  }

  /** The table after an `UPDATE ... SET active = false` by id. */
  function WithInactive(ms: map<Uuid, Memory>, ids: seq<Uuid>): map<Uuid, Memory> {
    map i | i in ms :: if i in ids then ms[i].(active := false) else ms[i]
  }

  lemma InactiveRows(ms: map<Uuid, Memory>, ms': map<Uuid, Memory>, ids: seq<Uuid>)
    requires ms'.Keys == ms.Keys
    requires forall id | id in ms' ::
      ms'[id] == ms[id].(active := ms'[id].active) && (ms'[id].active <==> ms[id].active && id !in ids)
    ensures ms' == WithInactive(ms, ids)
  {
  }

  lemma UpdateRows(ms: map<Uuid, Memory>, s: Scope, k: string, ids: seq<Uuid>)
    requires forall i | i in ids :: i in Group(ms, s, k)
    ensures WithInactive(ms, ids) == ms + Deactivated(Group(ms, s, k), ids)
  {
  }

  /** Updating and then inserting is one step of the transition system. */
  lemma StepInTwo(ms: map<Uuid, Memory>, ctx: Context, st: Step, d: Decision, ms': map<Uuid, Memory>)
    requires IsFetch(Group(ms, ctx.scope, st.cand.Key()), st.fetched)
    requires d == Decide(Group(ms, ctx.scope, st.cand.Key()), st.fetched, st.cand)
    requires ms' == if d.insert then WithInactive(ms, d.deactivate)[st.id := NewRow(ctx, st.cand, d)]
                    else WithInactive(ms, d.deactivate)
    ensures ms' == StepMemories(ms, ctx, st) && d == DecisionOf(ms, ctx, st)
  {
    EffectOfDecision(ms, ctx, st, d);
    UpdateRows(ms, ctx.scope, st.cand.Key(), d.deactivate);
    WritesInTwo(Group(ms, ctx.scope, st.cand.Key()), ms, ctx, st.cand, d, st.id);
  }

  /** The tables. */
  class Store {
    var turns: map<Uuid, Turn>
    var memories: map<Uuid, Memory>
    var entities: map<Uuid, Entity>
    var mentions: set<Mention>
    var edges: map<Edge, real>

    function Snapshot(): Db
      reads this
    {
      Db(turns, memories, entities, mentions, edges)
    }

    constructor ()
      ensures Snapshot() == EMPTY
    {
      turns, memories, entities, mentions, edges := map[], map[], map[], {}, map[];
    }

    // -------------------------------------------------------------- one candidate

    /** `UPDATE memories SET active = false WHERE id = ANY(...)`. */
    method ApplyDecision(d: Decision)
      modifies this`memories
      ensures memories.Keys == old(memories).Keys
      ensures forall id | id in memories ::
        && memories[id] == old(memories[id]).(active := memories[id].active)
        && (memories[id].active <==> old(memories[id]).active && id !in d.deactivate)
    {
      if d.deactivate != [] {
        memories := WithInactive(memories, d.deactivate);
      } else {
        assert WithInactive(memories, []) == memories;
      }
    }

    /** Reconcile, deactivate, insert: one pass of the loop on the memories table. */
    method ReconcileAndInsert(ctx: Context, c: Candidate) returns (st: Step, inserted: bool)
      modifies this`memories
      ensures StepReady(old(memories), ctx, st) && st.cand == c && st.entityIds == []
      ensures memories == StepMemories(old(memories), ctx, st)
      ensures inserted == DecisionOf(old(memories), ctx, st).insert
      ensures inserted ==> st.id in memories && IsRowOf(memories[st.id], ctx, c) && memories[st.id].active
    {
      var g := Group(memories, ctx.scope, c.Key());
      var ids := Sort(g);
      var d := Reconcile(g, ids, c);
      var id := Uuid4(memories.Keys);
      st := Step(c, ids, id, []);
      var before := memories;
      ApplyDecision(d);
      InactiveRows(before, memories, d.deactivate);
      if d.insert {
        memories := memories[id := NewRow(ctx, c, d)];
      }
      inserted := d.insert;
      StepInTwo(before, ctx, st, d, memories);
    }

    /** `INSERT ... ON CONFLICT DO UPDATE SET name = EXCLUDED.name RETURNING id`. */
    method UpsertEntity(s: Scope, m: EntityMention) returns (id: Uuid)
      modifies this`entities
      ensures UpsertReturns(old(entities), s, m, id)
      ensures entities == Upsert(old(entities), s, m, id)
      ensures id in entities && IsEntityOf(entities[id], s, m) && entities[id].name == m.name
      ensures forall e | e in old(entities) && e != id :: e in entities && entities[e] == old(entities)[e]
      ensures entities.Keys == old(entities).Keys + {id}
    {
      if e :| e in entities && Conflicts(entities[e], s, m) {
        id := e;
        entities := entities[e := Entity(s, m.name, entities[e].kind)];
      } else {
        id := Uuid4(entities.Keys);
        entities := entities[id := Entity(s, m.name, m.kind)];
      }
    }

    method LinkMention(memory: Uuid, entity: Uuid)
      modifies this`mentions
      ensures mentions == old(mentions) + {Mention(memory, entity)}
    {
      mentions := mentions + {Mention(memory, entity)};
    }

    /** Upsert one named entity and link the memory to it; a nameless one is passed over. */
    method LinkNamed(s: Scope, memory: Uuid, m: EntityMention) returns (id: Uuid)
      modifies this`entities, this`mentions
      ensures m.name != "" ==> UpsertReturns(old(entities), s, m, id)
      ensures Snapshot() == LinkEntity(old(Snapshot()), s, memory, m, id)
    {
      id := 0;
      if m.name != "" {
        id := UpsertEntity(s, m);
        LinkMention(memory, id);
      }
    }

    /** The inner loop over the named entities of a candidate. */
    method LinkMentions(s: Scope, memory: Uuid, ms: seq<EntityMention>) returns (ids: seq<Uuid>)
      modifies this`entities, this`mentions
      ensures LinksReady(old(Snapshot()), s, memory, ms, ids)
      ensures Snapshot() == LinkEntities(old(Snapshot()), s, memory, ms, ids)
      ensures EntitiesLinked(Snapshot(), s, memory, ms) && old(mentions) <= mentions
      ensures forall x | x in mentions && x !in old(mentions) :: IsLinkOf(Snapshot(), s, memory, ms, x)
    {
      ghost var db := Snapshot();
      ids := [];
      for i := 0 to |ms|
        invariant LinksReady(db, s, memory, ms[..i], ids)
        invariant Snapshot() == LinkEntities(db, s, memory, ms[..i], ids)
      {
        var id := LinkNamed(s, memory, ms[i]);
        LinkMore(db, s, memory, ms, ids, i, id);
        ids := ids + [id];
      }
      assert ms[..|ms|] == ms;
      LinkEntitiesAdds(db, s, memory, ms, ids);
    }

    /** One pass of the candidate loop. */
    method IngestCandidate(ctx: Context, c: Candidate) returns (st: Step, inserted: bool)
      modifies this`memories, this`entities, this`mentions
      ensures StepDbReady(old(Snapshot()), ctx, st) && st.cand == c
      ensures Snapshot() == StepDb(old(Snapshot()), ctx, st)
      ensures inserted == DecisionOf(old(memories), ctx, st).insert
      ensures inserted <==> st.id in memories && st.id !in old(memories)
      ensures inserted ==> EntitiesLinked(Snapshot(), ctx.scope, st.id, c.entities)
      ensures old(mentions) <= mentions
      ensures forall x | x in mentions && x !in old(mentions) ::
        inserted && IsLinkOf(Snapshot(), ctx.scope, st.id, c.entities, x)
    {
      ghost var db := Snapshot();
      st, inserted := ReconcileAndInsert(ctx, c);
      if inserted {
        var ids := LinkMentions(ctx.scope, st.id, c.entities);
        StepLinked(db, ctx, st, ids);
        st := st.(entityIds := ids);
      }
    }

    // -------------------------------------------------------------- edges

    /** Idempotent insert of a directed edge. */
    method InsertEdge(src: Uuid, dst: Uuid, relation: Relation, weight: real)
      requires weight == WeightOf(relation)
      modifies this`edges
      ensures edges == AddEdges(old(edges), if src == dst then {} else {Edge(src, dst, relation)})
    {
      if src == dst {
        assert AddEdges(edges, {}) == edges;
        return;
      }
      var e := Edge(src, dst, relation);
      if e !in edges {
        edges := edges[e := weight];
      }
      assert edges == AddEdges(old(edges), {e});
    }

    method ActiveMemoriesWithSubject(s: Scope, subject: string, exclude: Uuid) returns (peers: set<Uuid>)
      ensures peers == set p | p in memories && p != exclude && memories[p].scope == s
        && memories[p].subject == subject && memories[p].active
    {
      peers := set p | p in memories && p != exclude && memories[p].scope == s
        && memories[p].subject == subject && memories[p].active;
    }

    /** The loop over the other inserted ids. */
    method LinkCoExtracted(ids: seq<Uuid>, i: nat)
      requires i < |ids|
      modifies this`edges
      ensures edges == AddEdges(old(edges), CoExtractedFrom(ids, i, |ids|))
    {
      assert AddEdges(edges, {}) == edges;
      for j := 0 to |ids|
        invariant edges == AddEdges(old(edges), CoExtractedFrom(ids, i, j))
      {
        ghost var before := edges;
        if i != j {
          InsertEdge(ids[i], ids[j], CoExtracted, 0.7);
          AddTwice(old(edges), CoExtractedFrom(ids, i, j),
                   if ids[i] == ids[j] then {} else {Edge(ids[i], ids[j], CoExtracted)});
        }
        CoExtractedMore(ids, i, j);
      }
    }

    /** The loop over the active rows with the same subject; one edge each way. */
    method LinkPeers(src: Uuid, peers: set<Uuid>)
      requires src !in peers
      modifies this`edges
      ensures edges == AddEdges(old(edges), BothWays(src, peers))
    {
      assert BothWays(src, {}) == {} && AddEdges(edges, {}) == edges;
      var todo := peers;
      while todo != {}
        invariant todo <= peers
        invariant edges == AddEdges(old(edges), BothWays(src, peers - todo))
      {
        var p :| p in todo;
        InsertEdge(src, p, SameSubject, 0.5);
        InsertEdge(p, src, SameSubject, 0.5);
        ghost var done := BothWays(src, peers - todo);
        AddTwice(old(edges), done, {Edge(src, p, SameSubject)});
        AddTwice(old(edges), done + {Edge(src, p, SameSubject)}, {Edge(p, src, SameSubject)});
        assert peers - (todo - {p}) == (peers - todo) + {p};
        BothWaysMore(src, peers - todo, p);
        todo := todo - {p};
      }
      assert peers - todo == peers;
    }

    /** One pass of the outer edge loop. */
    method LinkOne(s: Scope, ids: seq<Uuid>, i: nat, subject: string)
      requires i < |ids| && ids[i] in memories && memories[ids[i]].subject == subject
      modifies this`edges
      ensures edges == AddEdges(old(edges), PassEdges(memories, s, ids, i))
    {
      LinkCoExtracted(ids, i);
      var peers := ActiveMemoriesWithSubject(s, subject, ids[i]);
      assert peers == Peers(memories, s, ids[i]);
      LinkPeers(ids[i], peers);
      AddTwice(old(edges), CoExtractedFrom(ids, i, |ids|), BothWays(ids[i], peers));
    }

    /** The nested edge loops at the end of an ingest. */
    method LinkInserted(s: Scope, ids: seq<Uuid>, subjects: seq<string>)
      requires SubjectsOf(memories, ids, subjects)
      modifies this`edges
      ensures edges == AddEdges(old(edges), NewEdges(memories, s, set id | id in ids))
    {
      hide PassEdges, NewEdges;
      NoEdges(edges);
      for i := 0 to |ids|
        invariant edges == AddEdges(old(edges), EdgesFrom(memories, s, ids, i))
      {
        LinkOne(s, ids, i, subjects[i]);
        EdgesFromMore(old(edges), memories, s, ids, i);
      }
      EdgesFromAll(memories, s, ids);
    }

    // -------------------------------------------------------------- ingest

    /** One pass of the candidate loop, with its bookkeeping. */
    method OnePass(ghost db: Db, ctx: Context, c: Candidate, steps: seq<Step>, ids: seq<Uuid>, subjects: seq<string>)
      returns (steps': seq<Step>, ids': seq<Uuid>, subjects': seq<string>)
      requires LoopState(db, ctx, Snapshot(), steps, ids, subjects)
      modifies this`memories, this`entities, this`mentions
      ensures LoopState(db, ctx, Snapshot(), steps', ids', subjects')
      ensures |steps'| == |steps| + 1 && steps'[|steps|].cand == c
        && forall i | 0 <= i < |steps| :: steps'[i] == steps[i]
    {
      ghost var before := Snapshot();
      var st, inserted := IngestCandidate(ctx, c);
      steps', ids', subjects' := steps + [st], ids, subjects;
      if inserted {
        ids', subjects' := ids + [st.id], subjects + [c.subject];
      }
      PassMore(db, ctx, before, steps, st, ids, subjects, ids', subjects');
    }

    /** The candidate loop, with `inserted_ids` and `inserted_subjects`. */
    method CandidateLoop(ctx: Context, cands: seq<Candidate>)
      returns (steps: seq<Step>, ids: seq<Uuid>, subjects: seq<string>)
      modifies this`memories, this`entities, this`mentions
      ensures |steps| == |cands| && forall i | 0 <= i < |cands| :: steps[i].cand == cands[i]
      ensures LoopState(old(Snapshot()), ctx, Snapshot(), steps, ids, subjects)
    {
      hide LoopState;
      ghost var db := Snapshot();
      steps, ids, subjects := [], [], [];
      LoopStart(db, ctx);
      for n := 0 to |cands|
        invariant |steps| == n && forall i | 0 <= i < n :: steps[i].cand == cands[i]
        invariant LoopState(db, ctx, Snapshot(), steps, ids, subjects)
      {
        steps, ids, subjects := OnePass(db, ctx, cands[n], steps, ids, subjects);
      }
    }

    /** `POST /turns`: one transaction. */
    method IngestTurn(session: string, user: Option<string>, timestamp: int, now: int, cands: seq<Candidate>)
      returns (ev: Event)
      modifies this
      ensures ev.Ingest? && |ev.steps| == |cands| && forall i | 0 <= i < |cands| :: ev.steps[i].cand == cands[i]
      ensures ev.session == session && ev.user == user && ev.timestamp == timestamp && ev.now == now
      ensures Valid(old(Snapshot()), ev) && Snapshot() == Apply(old(Snapshot()), ev)
      ensures var s := ScopeOfPayload(session, user);
        TurnAdded(old(Snapshot()), Snapshot(), Context(s, session, ev.turn, now), Turn(session, user, s, timestamp),
                  cands)
    {
      ghost var db := Snapshot();
      var turn := Uuid4(turns.Keys);
      var ctx := ContextOf(session, user, turn, now);
      turns := turns[turn := Turn(session, user, ScopeFor(user, session), timestamp)];
      assert Snapshot() == AddTurn(db, session, user, timestamp, turn);
      var steps, ids, subjects := CandidateLoop(ctx, cands);
      LinkInserted(ctx.scope, ids, subjects);
      ev := Ingest(session, user, timestamp, turn, now, steps);
      IngestAdds(db, ev, cands);
    }

    // -------------------------------------------------------------- deletes

    /** `DELETE FROM memories`, with the actions of the foreign keys on it. */
    method RemoveMemories(dead: set<Uuid>)
      modifies this`memories, this`mentions, this`edges
      ensures MemoriesRemoved(old(Snapshot()), Snapshot(), dead)
      ensures Snapshot() == DeleteMemories(old(Snapshot()), dead)
    {
      hide MemoriesRemoved;
      DeleteMemoriesRemoves(Snapshot(), dead);
      memories := map id | id in memories && id !in dead ::
        memories[id].(supersedes := SetNull(memories[id].supersedes, dead));
      mentions := set m | m in mentions && m.memory !in dead;
      edges := map e | e in edges && e.src !in dead && e.dst !in dead :: edges[e];
    }

    /** `DELETE FROM turns`. */
    method RemoveTurns(dead: set<Uuid>)
      modifies this`turns, this`memories
      ensures TurnsRemoved(old(Snapshot()), Snapshot(), dead)
      ensures Snapshot() == DeleteTurns(old(Snapshot()), dead)
    {
      hide TurnsRemoved;
      DeleteTurnsRemoves(Snapshot(), dead);
      turns := map id | id in turns && id !in dead :: turns[id];
      memories := map id | id in memories :: memories[id].(sourceTurn := SetNull(memories[id].sourceTurn, dead));
    }

    /** `DELETE FROM entities`. */
    method RemoveEntities(dead: set<Uuid>)
      modifies this`entities, this`mentions
      ensures EntitiesRemoved(old(Snapshot()), Snapshot(), dead)
      ensures Snapshot() == DeleteEntities(old(Snapshot()), dead)
    {
      hide EntitiesRemoved;
      DeleteEntitiesRemoves(Snapshot(), dead);
      entities := map id | id in entities && id !in dead :: entities[id];
      mentions := set m | m in mentions && m.entity !in dead;
    }

    /** `recompute_active`: clear the group, then set the row the sub-select returns. */
    method RecomputeActive(s: Scope, k: string) returns (pick: Option<Uuid>)
      modifies this`memories
      ensures IsPick(Group(old(memories), s, k), pick)
      ensures memories == RecomputeOne(old(memories), s, k, pick)
    {
      ghost var before := memories;
      memories := RecomputeOne(memories, s, k, None);
      var g := Group(memories, s, k);
      var ids := Sort(g);
      pick := First(ids);
      PickFromCleared(before, s, k, ids);
      if pick.Some? {
        memories := memories[pick.value := memories[pick.value].(active := true)];
      }
    }

    /** The loop that recomputes every affected group. */
    method RecomputeAll(affected: set<GroupKey>) returns (picks: map<GroupKey, Uuid>)
      modifies this`memories
      ensures PicksValid(old(memories), affected, picks)
      ensures memories == Recompute(old(memories), affected, picks)
    {
      ghost var ms := memories;
      picks := map[];
      var todo := affected;
      assert Recompute(ms, {}, map[]) == ms;
      while todo != {}
        invariant todo <= affected
        invariant picks.Keys <= affected - todo
        invariant PicksValid(ms, affected - todo, picks)
        invariant memories == Recompute(ms, affected - todo, picks)
      {
        var gk :| gk in todo;
        RecomputeOnGroup(ms, affected - todo, picks, gk.scope, gk.key);
        var pick := RecomputeActive(gk.scope, gk.key);
        ghost var before := picks;
        picks := if pick.Some? then picks[gk := pick.value] else picks;
        RecomputeMore(ms, affected - todo, before, gk, pick, picks);
        assert affected - (todo - {gk}) == (affected - todo) + {gk};
        todo := todo - {gk};
      }
      assert affected - todo == affected;
    }

    /** The deletes of `DELETE /sessions/{id}`, before the recompute. */
    method ClearSession(session: string)
      modifies this
      ensures Snapshot() == WithoutSession(old(Snapshot()), session)
    {
      hide MemoriesRemoved, TurnsRemoved, EntitiesRemoved, DeleteMemories, DeleteTurns, DeleteEntities;
      ghost var db := Snapshot();
      RemoveMemories(set id | id in memories && memories[id].session == session);
      RemoveTurns(set id | id in turns && turns[id].session == session);
      RemoveEntities(set id | id in entities && entities[id].scope == Session(session));
    }

    /** `DELETE /sessions/{id}`: capture the affected groups, delete, recompute. */
    method RemoveSession(session: string) returns (ev: Event)
      modifies this
      ensures ev.DeleteSession? && ev.session == session
      ensures Valid(old(Snapshot()), ev) && Snapshot() == Apply(old(Snapshot()), ev)
    {
      hide WithoutSession, Recompute, PicksValid;
      var affected := Affected(Snapshot(), session);
      ClearSession(session);
      var picks := RecomputeAll(affected);
      ev := DeleteSession(session, picks);
    }

    /** `DELETE /users/{id}`; the router never passes an empty id. */
    method RemoveUser(user: string) returns (ev: Event)
      requires user != ""
      modifies this
      ensures ev == DeleteUser(user)
      ensures Valid(old(Snapshot()), ev) && Snapshot() == Apply(old(Snapshot()), ev)
    {
      hide MemoriesRemoved, TurnsRemoved, EntitiesRemoved, DeleteMemories, DeleteTurns, DeleteEntities;
      ghost var db := Snapshot();
      RemoveEntities(set id | id in entities && entities[id].scope == User(user));
      RemoveMemories(set id | id in memories && memories[id].scope == User(user));
      RemoveTurns(set id | id in turns && turns[id].user == Some(user));
      ev := DeleteUser(user);
      assert Snapshot() == DropUser(db, user);
    }
  }

  // ---------------------------------------------------------------- edges, one source at a time

  /** The co-extraction edges from `ids[i]` to the first `j` ids. */
  function CoExtractedFrom(ids: seq<Uuid>, i: nat, j: nat): set<Edge>
    requires i < |ids| && j <= |ids|
  {
    set k | 0 <= k < j && ids[k] != ids[i] :: Edge(ids[i], ids[k], CoExtracted)
  }

  function BothWays(src: Uuid, peers: set<Uuid>): set<Edge> {
    (set p | p in peers :: Edge(src, p, SameSubject)) + (set p | p in peers :: Edge(p, src, SameSubject))
  }

  function Peers(ms: map<Uuid, Memory>, s: Scope, a: Uuid): set<Uuid> {
    set p | p in ms && IsPeer(ms, s, a, p)
  }

  /** The edges one pass of the outer loop inserts. */
  function PassEdges(ms: map<Uuid, Memory>, s: Scope, ids: seq<Uuid>, i: nat): set<Edge>
    requires i < |ids|
  {
    CoExtractedFrom(ids, i, |ids|) + BothWays(ids[i], Peers(ms, s, ids[i]))
  }

  /** The edges the first `i` passes of the outer loop insert. */
  function EdgesFrom(ms: map<Uuid, Memory>, s: Scope, ids: seq<Uuid>, i: nat): set<Edge>
    requires i <= |ids|
  {
    if i == 0 then {}
    else EdgesFrom(ms, s, ids, i - 1) + PassEdges(ms, s, ids, i - 1)
  }

  lemma EdgesFromMore(edges: map<Edge, real>, ms: map<Uuid, Memory>, s: Scope, ids: seq<Uuid>, i: nat)
    requires i < |ids|
    ensures AddEdges(AddEdges(edges, EdgesFrom(ms, s, ids, i)), PassEdges(ms, s, ids, i))
         == AddEdges(edges, EdgesFrom(ms, s, ids, i + 1))
  {
    AddTwice(edges, EdgesFrom(ms, s, ids, i), PassEdges(ms, s, ids, i));
  }

  lemma NoEdges(edges: map<Edge, real>)
    ensures AddEdges(edges, {}) == edges
  {
  }

  lemma AddTwice(edges: map<Edge, real>, a: set<Edge>, b: set<Edge>)
    ensures AddEdges(AddEdges(edges, a), b) == AddEdges(edges, a + b)
  {
  }

  lemma CoExtractedMore(ids: seq<Uuid>, i: nat, j: nat)
    requires i < |ids| && j < |ids|
    ensures CoExtractedFrom(ids, i, j + 1)
         == CoExtractedFrom(ids, i, j) + if ids[i] == ids[j] then {} else {Edge(ids[i], ids[j], CoExtracted)}
  {
  }

  lemma BothWaysMore(src: Uuid, peers: set<Uuid>, p: Uuid)
    ensures BothWays(src, peers + {p})
      == BothWays(src, peers) + {Edge(src, p, SameSubject)} + {Edge(p, src, SameSubject)}
  {
  }

  lemma {:induction false} EdgesFromMeaning(ms: map<Uuid, Memory>, s: Scope, ids: seq<Uuid>, i: nat, e: Edge)
    requires i <= |ids|
    ensures e in EdgesFrom(ms, s, ids, i) <==>
      match e.relation
      case CoExtracted => e.src in ids[..i] && e.dst in ids && e.src != e.dst
      case SameSubject =>
        || (e.src in ids[..i] && IsPeer(ms, s, e.src, e.dst))
        || (e.dst in ids[..i] && IsPeer(ms, s, e.dst, e.src))
  {
    if i > 0 {
      EdgesFromMeaning(ms, s, ids, i - 1, e);
      assert ids[..i] == ids[..i - 1] + [ids[i - 1]];
    }
  }

  /** Over all passes: the edges of the transition system. */
  lemma EdgesFromAll(ms: map<Uuid, Memory>, s: Scope, ids: seq<Uuid>)
    ensures EdgesFrom(ms, s, ids, |ids|) == NewEdges(ms, s, set id | id in ids)
  {
    assert ids[..|ids|] == ids;
    var all := set id | id in ids;
    forall e ensures e in EdgesFrom(ms, s, ids, |ids|) <==> e in NewEdges(ms, s, all) {
      EdgesFromMeaning(ms, s, ids, |ids|, e);
    }
  }

  // ---------------------------------------------------------------- recompute, one group at a time

  function RecomputeOne(ms: map<Uuid, Memory>, s: Scope, k: string, pick: Option<Uuid>): map<Uuid, Memory> {
    map id | id in ms ::
      if ms[id].scope == s && ms[id].key == k then ms[id].(active := pick == Some(id)) else ms[id]
  }

  /** The first row of the cleared group, newest first, is a valid pick of the group as it was. */
  lemma PickFromCleared(ms: map<Uuid, Memory>, s: Scope, k: string, ids: seq<Uuid>)
    requires IsFetch(Group(RecomputeOne(ms, s, k, None), s, k), ids)
    ensures IsPick(Group(ms, s, k), First(ids))
    ensures var cleared := RecomputeOne(ms, s, k, None);
      if ids == [] then cleared == RecomputeOne(ms, s, k, None)
      else
        && ids[0] in cleared
        && cleared[ids[0] := cleared[ids[0]].(active := true)] == RecomputeOne(ms, s, k, Some(ids[0]))
  {
    var cleared := RecomputeOne(ms, s, k, None);
    var g, h := Group(ms, s, k), Group(cleared, s, k);
    assert g.Keys == h.Keys;
    if ids == [] {
      assert forall id | id in h :: id in ids;
    } else {
      assert ids[0] in h && ids[0] in ms;
      FirstIsLatest(h, ids);
      assert forall id | id in g :: g[id].createdAt == h[id].createdAt;
      assert cleared[ids[0] := cleared[ids[0]].(active := true)] == RecomputeOne(ms, s, k, Some(ids[0]));
    }
  }

  lemma FirstIsLatest(g: map<Uuid, Memory>, ids: seq<Uuid>)
    requires IsFetch(g, ids) && ids != []
    ensures IsLatestIn(g, g.Keys, ids[0])
  {
    forall id | id in g ensures g[id].createdAt <= g[ids[0]].createdAt {
      assert id in ids;
    }
  }

  lemma RecomputeMore(ms: map<Uuid, Memory>, done: set<GroupKey>, before: map<GroupKey, Uuid>, gk: GroupKey,
                      pick: Option<Uuid>, picks: map<GroupKey, Uuid>)
    requires gk !in done && before.Keys <= done && PicksValid(ms, done, before)
    requires picks == if pick.Some? then before[gk := pick.value] else before
    requires IsPick(Group(ms, gk.scope, gk.key), pick)
    ensures PicksValid(ms, done + {gk}, picks)
    ensures RecomputeOne(Recompute(ms, done, before), gk.scope, gk.key, pick) == Recompute(ms, done + {gk}, picks)
  {
    hide IsPick, Group;
    forall x | x in done + {gk} ensures PickOf(picks, x) == if x == gk then pick else PickOf(before, x) {
    }
  }

  // ---------------------------------------------------------------- the loop, one step at a time

  /** `inserted_subjects` runs parallel to `inserted_ids`. */
  ghost predicate SubjectsOf(ms: map<Uuid, Memory>, ids: seq<Uuid>, subjects: seq<string>) {
    |subjects| == |ids| && forall i | 0 <= i < |ids| :: ids[i] in ms && ms[ids[i]].subject == subjects[i]
  }

  /** Where the candidate loop is after some of its candidates. */
  ghost predicate LoopState(db: Db, ctx: Context, now: Db, steps: seq<Step>, ids: seq<Uuid>, subjects: seq<string>) {
    && LoopReady(db, ctx, steps) && now == AfterLoop(db, ctx, steps)
    && ids == InsertedIds(db.memories, ctx, steps) && SubjectsOf(now.memories, ids, subjects)
  }

  lemma LoopStart(db: Db, ctx: Context)
    ensures LoopState(db, ctx, db, [], [], [])
  {
  }

  lemma PassMore(db: Db, ctx: Context, before: Db, steps: seq<Step>, st: Step,
                 ids: seq<Uuid>, subjects: seq<string>, ids': seq<Uuid>, subjects': seq<string>)
    requires LoopState(db, ctx, before, steps, ids, subjects) && StepDbReady(before, ctx, st)
    requires var more := DecisionOf(before.memories, ctx, st).insert;
      && ids' == (if more then ids + [st.id] else ids)
      && subjects' == (if more then subjects + [st.cand.subject] else subjects)
    ensures LoopState(db, ctx, StepDb(before, ctx, st), steps + [st], ids', subjects')
  {
    SubjectsMore(before, ctx, st, ids, subjects, ids', subjects');
    LoopMore(db, ctx, steps, st);
    InsertedMore(db, ctx, steps, st);
  }

  lemma SubjectsMore(db: Db, ctx: Context, st: Step, ids: seq<Uuid>, subjects: seq<string>, ids': seq<Uuid>,
                     subjects': seq<string>)
    requires StepReady(db.memories, ctx, st) && SubjectsOf(db.memories, ids, subjects)
    requires var more := DecisionOf(db.memories, ctx, st).insert;
      && ids' == (if more then ids + [st.id] else ids)
      && subjects' == (if more then subjects + [st.cand.subject] else subjects)
    ensures SubjectsOf(StepDb(db, ctx, st).memories, ids', subjects')
  {
    hide DecisionOf, StepMemories;
    StepSubjects(db, ctx, st);
  }

  lemma LinkMore(db: Db, s: Scope, memory: Uuid, ms: seq<EntityMention>, ids: seq<Uuid>, i: nat, id: Uuid)
    requires i < |ms| && LinksReady(db, s, memory, ms[..i], ids)
    requires ms[i].name != "" ==> UpsertReturns(LinkEntities(db, s, memory, ms[..i], ids).entities, s, ms[i], id)
    ensures LinksReady(db, s, memory, ms[..i + 1], ids + [id])
    ensures LinkEntities(db, s, memory, ms[..i + 1], ids + [id])
         == LinkEntity(LinkEntities(db, s, memory, ms[..i], ids), s, memory, ms[i], id)
  {
    assert ms[..i + 1][..i] == ms[..i] && (ids + [id])[..i] == ids;
  }

  lemma LoopMore(db: Db, ctx: Context, steps: seq<Step>, st: Step)
    requires LoopReady(db, ctx, steps) && StepDbReady(AfterLoop(db, ctx, steps), ctx, st)
    ensures LoopReady(db, ctx, steps + [st])
    ensures AfterLoop(db, ctx, steps + [st]) == StepDb(AfterLoop(db, ctx, steps), ctx, st)
  {
    var more := steps + [st];
    assert more[..|steps|] == steps;
  }

  lemma InsertedMore(db: Db, ctx: Context, steps: seq<Step>, st: Step)
    ensures InsertedIds(db.memories, ctx, steps + [st]) == InsertedIds(db.memories, ctx, steps)
      + if DecisionOf(AfterLoop(db, ctx, steps).memories, ctx, st).insert then [st.id] else []
  {
    var more := steps + [st];
    assert more[..|steps|] == steps;
    AfterLoopMemories(db, ctx, steps);
  }

  /** A step keeps the subject of every row, and gives its own row the candidate's. */
  lemma StepSubjects(db: Db, ctx: Context, st: Step)
    requires StepReady(db.memories, ctx, st)
    ensures var ms := StepDb(db, ctx, st).memories;
      && (forall id | id in db.memories :: id in ms && ms[id].subject == db.memories[id].subject)
      && (DecisionOf(db.memories, ctx, st).insert ==> st.id in ms && ms[st.id].subject == st.cand.subject)
  {
    var ms := StepMemories(db.memories, ctx, st);
    LinkEntitiesFrame(db.(memories := ms), ctx.scope, st.id, st.cand.entities, st.entityIds);
    StepRows(db.memories, ctx, st);
  }

  lemma StepLinked(db: Db, ctx: Context, st: Step, ids: seq<Uuid>)
    requires StepReady(db.memories, ctx, st) && DecisionOf(db.memories, ctx, st).insert
    requires LinksReady(db.(memories := StepMemories(db.memories, ctx, st)), ctx.scope, st.id, st.cand.entities, ids)
    ensures var st' := st.(entityIds := ids);
      var db' := db.(memories := StepMemories(db.memories, ctx, st));
      && StepDbReady(db, ctx, st') && DecisionOf(db.memories, ctx, st').insert
      && StepDb(db, ctx, st') == LinkEntities(db', ctx.scope, st.id, st.cand.entities, ids)
      && StepDb(db, ctx, st').memories == db'.memories
  {
    SameStep(db.memories, ctx, st, ids);
    LinkEntitiesFrame(db.(memories := StepMemories(db.memories, ctx, st)), ctx.scope, st.id, st.cand.entities, ids);
  }
}
