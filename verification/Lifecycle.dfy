/** The store as a transition system: ingest a turn, delete a session, delete a user. */
module Lifecycle {
  import opened Tables
  import opened Text
  import opened Reconciler
  import opened Groups

  // ---------------------------------------------------------------- the candidate loop

  /** The rows written by one pass of the loop; the rows fetched must come from the table. */
  function EffectOn(ms: map<Uuid, Memory>, ctx: Context, st: Step): map<Uuid, Memory> {
    var g := Group(ms, ctx.scope, st.cand.Key());
    if forall id | id in st.fetched :: id in g then Effect(g, ctx, st) else map[]
  }

  function StepMemories(ms: map<Uuid, Memory>, ctx: Context, st: Step): map<Uuid, Memory> {
    ms + EffectOn(ms, ctx, st)
  }

  /** The uuid drawn is unused and the rows fetched are the group's, newest first. */
  ghost predicate StepReady(ms: map<Uuid, Memory>, ctx: Context, st: Step) {
    IsFetch(Group(ms, ctx.scope, st.cand.Key()), st.fetched) && st.id !in ms
  }

  function DecisionOf(ms: map<Uuid, Memory>, ctx: Context, st: Step): Decision {
    var g := Group(ms, ctx.scope, st.cand.Key());
    if forall id | id in st.fetched :: id in g then Decide(g, st.fetched, st.cand) else SKIP
  }

  function AfterSteps(ms: map<Uuid, Memory>, ctx: Context, steps: seq<Step>): map<Uuid, Memory> {
    if steps == [] then ms
    else StepMemories(AfterSteps(ms, ctx, steps[..|steps| - 1]), ctx, steps[|steps| - 1])
  }

  ghost predicate StepsReady(ms: map<Uuid, Memory>, ctx: Context, steps: seq<Step>) {
    steps == [] ||
    (var p := steps[..|steps| - 1];
     StepsReady(ms, ctx, p) && StepReady(AfterSteps(ms, ctx, p), ctx, steps[|steps| - 1]))
  }

  /** `inserted_ids`. */
  function InsertedIds(ms: map<Uuid, Memory>, ctx: Context, steps: seq<Step>): seq<Uuid> {
    if steps == [] then []
    else
      var p, st := steps[..|steps| - 1], steps[|steps| - 1];
      InsertedIds(ms, ctx, p) + if DecisionOf(AfterSteps(ms, ctx, p), ctx, st).insert then [st.id] else []
  }

  function InsertedSet(ms: map<Uuid, Memory>, ctx: Context, steps: seq<Step>): set<Uuid> {
    set id | id in InsertedIds(ms, ctx, steps)
  }

  // ---------------------------------------------------------------- entities

  function Coalesce(o: Option<string>): string {
    if o.None? then "" else o.value
  }

  /** Two rows the unique index on entities cannot hold together. */
  predicate Conflicts(e: Entity, s: Scope, m: EntityMention) {
    e.scope == s && Lower(e.name) == Lower(m.name) && Coalesce(e.kind) == Coalesce(m.kind)
  }

  /** `upsert_entity` returns `id`: the conflicting row if there is one, else an unused id. */
  ghost predicate UpsertReturns(es: map<Uuid, Entity>, s: Scope, m: EntityMention, id: Uuid) {
    if exists e :: e in es && Conflicts(es[e], s, m) then id in es && Conflicts(es[id], s, m) else id !in es
  }

  function Upsert(es: map<Uuid, Entity>, s: Scope, m: EntityMention, id: Uuid): map<Uuid, Entity> {
    es[id := Entity(s, m.name, if id in es then es[id].kind else m.kind)]
  }

  function LinkEntity(db: Db, s: Scope, memory: Uuid, m: EntityMention, id: Uuid): Db {
    if m.name == "" then db
    else db.(entities := Upsert(db.entities, s, m, id), mentions := db.mentions + {Mention(memory, id)})
  }

  function LinkEntities(db: Db, s: Scope, memory: Uuid, ms: seq<EntityMention>, ids: seq<Uuid>): Db
    decreases |ms|
  {
    if ms == [] || |ids| != |ms| then db
    else
      var n := |ms| - 1;
      LinkEntity(LinkEntities(db, s, memory, ms[..n], ids[..n]), s, memory, ms[n], ids[n])
  }

  ghost predicate LinksReady(db: Db, s: Scope, memory: Uuid, ms: seq<EntityMention>, ids: seq<Uuid>)
    decreases |ms|
  {
    |ids| == |ms| &&
    (ms == [] ||
     (var n := |ms| - 1;
      && LinksReady(db, s, memory, ms[..n], ids[..n])
      && (ms[n].name != "" ==>
            UpsertReturns(LinkEntities(db, s, memory, ms[..n], ids[..n]).entities, s, ms[n], ids[n]))))
  }

  // ---------------------------------------------------------------- the loop on the whole store

  function StepDb(db: Db, ctx: Context, st: Step): Db {
    var db' := db.(memories := StepMemories(db.memories, ctx, st));
    if DecisionOf(db.memories, ctx, st).insert
    then LinkEntities(db', ctx.scope, st.id, st.cand.entities, st.entityIds)
    else db'
  }

  function AfterLoop(db: Db, ctx: Context, steps: seq<Step>): Db {
    if steps == [] then db
    else StepDb(AfterLoop(db, ctx, steps[..|steps| - 1]), ctx, steps[|steps| - 1])
  }

  ghost predicate StepDbReady(db: Db, ctx: Context, st: Step) {
    && StepReady(db.memories, ctx, st)
    && (DecisionOf(db.memories, ctx, st).insert ==>
          LinksReady(db.(memories := StepMemories(db.memories, ctx, st)), ctx.scope, st.id,
                     st.cand.entities, st.entityIds))
  }

  ghost predicate LoopReady(db: Db, ctx: Context, steps: seq<Step>) {
    steps == [] ||
    (var p := steps[..|steps| - 1];
     LoopReady(db, ctx, p) && StepDbReady(AfterLoop(db, ctx, p), ctx, steps[|steps| - 1]))
  }

  // ---------------------------------------------------------------- edges

  /** The rows `active_memories_with_subject` returns for `a`. */
  predicate IsPeer(ms: map<Uuid, Memory>, s: Scope, a: Uuid, p: Uuid) {
    a in ms && p in ms && p != a && ms[p].scope == s && ms[p].subject == ms[a].subject && ms[p].active
  }

  /** Every edge the nested loops try to insert. */
  predicate IsNewEdge(ms: map<Uuid, Memory>, s: Scope, ids: set<Uuid>, e: Edge) {
    match e.relation
    case CoExtracted => e.src in ids && e.dst in ids && e.src != e.dst
    case SameSubject => (e.src in ids && IsPeer(ms, s, e.src, e.dst)) || (e.dst in ids && IsPeer(ms, s, e.dst, e.src))
  }

  function NewEdges(ms: map<Uuid, Memory>, s: Scope, ids: set<Uuid>): (es: set<Edge>)
    ensures forall e :: e in es <==> IsNewEdge(ms, s, ids, e)
  {
    (set a, b | a in ids && b in ids && a != b :: Edge(a, b, CoExtracted))
    + (set a, p | a in ids && p in ms && IsPeer(ms, s, a, p) :: Edge(a, p, SameSubject))
    + (set a, p | a in ids && p in ms && IsPeer(ms, s, a, p) :: Edge(p, a, SameSubject))
  }

  /** `INSERT ... ON CONFLICT DO NOTHING`. */
  function AddEdges(edges: map<Edge, real>, es: set<Edge>): map<Edge, real> {
    map e | e in edges.Keys + es :: if e in edges then edges[e] else WeightOf(e.relation)
  }

  function LinkTurn(db: Db, s: Scope, ids: set<Uuid>): Db {
    db.(edges := AddEdges(db.edges, NewEdges(db.memories, s, ids)))
  }

  // ---------------------------------------------------------------- events

  datatype GroupKey = GroupKey(scope: Scope, key: string)

  /** The three requests, with the uuids drawn and the rows picked among ties. */
  datatype Event =
    | Ingest(session: string, user: Option<string>, timestamp: int, turn: Uuid, now: int, steps: seq<Step>)
    | DeleteSession(session: string, picks: map<GroupKey, Uuid>)
    | DeleteUser(userId: string)

  function ContextOf(session: string, user: Option<string>, turn: Uuid, now: int): Context {
    Context(ScopeFor(user, session), session, turn, now)
  }

  function AddTurn(db: Db, session: string, user: Option<string>, timestamp: int, turn: Uuid): Db {
    db.(turns := db.turns[turn := Turn(session, user, ScopeFor(user, session), timestamp)])
  }

  function IngestTurn(db: Db, session: string, user: Option<string>, timestamp: int, turn: Uuid, now: int,
                      steps: seq<Step>): Db
  {
    var ctx := ContextOf(session, user, turn, now);
    LinkTurn(AfterLoop(AddTurn(db, session, user, timestamp, turn), ctx, steps), ctx.scope,
             InsertedSet(db.memories, ctx, steps))
  }

  function SessionMemories(db: Db, session: string): set<Uuid> {
    set id | id in db.memories && db.memories[id].session == session
  }

  function SessionTurns(db: Db, session: string): set<Uuid> {
    set id | id in db.turns && db.turns[id].session == session
  }

  function ScopeEntities(db: Db, s: Scope): set<Uuid> {
    set id | id in db.entities && db.entities[id].scope == s
  }

  function GroupKeyOf(m: Memory): GroupKey {
    GroupKey(m.scope, m.key)
  }

  /** `affected_scope_keys`. */
  function Affected(db: Db, session: string): set<GroupKey> {
    set id | id in db.memories && db.memories[id].session == session :: GroupKeyOf(db.memories[id])
  }

  function WithoutSession(db: Db, session: string): Db {
    DeleteEntities(DeleteTurns(DeleteMemories(db, SessionMemories(db, session)), SessionTurns(db, session)),
                   ScopeEntities(db, Session(session)))
  }

  function PickOf(picks: map<GroupKey, Uuid>, gk: GroupKey): Option<Uuid> {
    if gk in picks then Some(picks[gk]) else None
  }

  /** `recompute_active` over a set of groups. */
  function Recompute(ms: map<Uuid, Memory>, affected: set<GroupKey>, picks: map<GroupKey, Uuid>): map<Uuid, Memory> {
    map id | id in ms ::
      if GroupKeyOf(ms[id]) in affected
      then ms[id].(active := PickOf(picks, GroupKeyOf(ms[id])) == Some(id))
      else ms[id]
  }

  function DropSession(db: Db, session: string, picks: map<GroupKey, Uuid>): Db {
    var db' := WithoutSession(db, session);
    db'.(memories := Recompute(db'.memories, Affected(db, session), picks))
  }

  function UserMemories(db: Db, user: string): set<Uuid> {
    set id | id in db.memories && db.memories[id].scope == User(user)
  }

  function UserTurns(db: Db, user: string): set<Uuid> {
    set id | id in db.turns && db.turns[id].user == Some(user)
  }

  function DropUser(db: Db, user: string): Db {
    DeleteTurns(DeleteMemories(DeleteEntities(db, ScopeEntities(db, User(user))), UserMemories(db, user)),
                UserTurns(db, user))
  }

  function Apply(db: Db, ev: Event): Db {
    match ev
    case Ingest(session, user, timestamp, turn, now, steps) =>
      IngestTurn(db, session, user, timestamp, turn, now, steps)
    case DeleteSession(session, picks) => DropSession(db, session, picks)
    case DeleteUser(user) => DropUser(db, user)
  }

  ghost predicate PicksValid(ms: map<Uuid, Memory>, affected: set<GroupKey>, picks: map<GroupKey, Uuid>) {
    forall gk | gk in affected :: IsPick(Group(ms, gk.scope, gk.key), PickOf(picks, gk))
  }

  /** What Postgres and the router guarantee of a request: unused uuids, honest answers, a non-empty user id. */
  ghost predicate Valid(db: Db, ev: Event) {
    match ev
    case Ingest(session, user, timestamp, turn, now, steps) =>
      turn !in db.turns &&
      LoopReady(AddTurn(db, session, user, timestamp, turn), ContextOf(session, user, turn, now), steps)
    case DeleteSession(session, picks) =>
      PicksValid(WithoutSession(db, session).memories, Affected(db, session), picks)
    case DeleteUser(user) => user != ""
  }

  /** The state a run of requests leads to. */
  function Run(evs: seq<Event>): Db {
    if evs == [] then EMPTY else Apply(Run(evs[..|evs| - 1]), evs[|evs| - 1])
  }

  ghost predicate ValidRun(evs: seq<Event>) {
    evs == [] || (ValidRun(evs[..|evs| - 1]) && Valid(Run(evs[..|evs| - 1]), evs[|evs| - 1]))
  }

  // ---------------------------------------------------------------- how the loop acts on memories

  lemma {:induction false} LinkEntitiesFrame(db: Db, s: Scope, memory: Uuid, ms: seq<EntityMention>, ids: seq<Uuid>)
    ensures var db' := LinkEntities(db, s, memory, ms, ids);
            db'.turns == db.turns && db'.memories == db.memories && db'.edges == db.edges
    decreases |ms|
  {
    if ms != [] && |ids| == |ms| {
      LinkEntitiesFrame(db, s, memory, ms[..|ms| - 1], ids[..|ms| - 1]);
    }
  }

  lemma {:induction false} AfterLoopMemories(db: Db, ctx: Context, steps: seq<Step>)
    ensures var db' := AfterLoop(db, ctx, steps);
            db'.memories == AfterSteps(db.memories, ctx, steps) && db'.turns == db.turns && db'.edges == db.edges
    ensures LoopReady(db, ctx, steps) ==> StepsReady(db.memories, ctx, steps)
  {
    if steps != [] {
      var p, st := steps[..|steps| - 1], steps[|steps| - 1];
      AfterLoopMemories(db, ctx, p);
      var d := AfterLoop(db, ctx, p);
      LinkEntitiesFrame(d.(memories := StepMemories(d.memories, ctx, st)), ctx.scope, st.id,
                        st.cand.entities, st.entityIds);
    }
  }

  lemma EffectOfDecision(ms: map<Uuid, Memory>, ctx: Context, st: Step, d: Decision)
    requires var g := Group(ms, ctx.scope, st.cand.Key()); IsFetch(g, st.fetched) && d == Decide(g, st.fetched, st.cand)
    ensures forall i | i in d.deactivate :: i in Group(ms, ctx.scope, st.cand.Key())
    ensures EffectOn(ms, ctx, st) == Writes(Group(ms, ctx.scope, st.cand.Key()), ctx, st.cand, d, st.id)
    ensures DecisionOf(ms, ctx, st) == d
  {
  }

  /** The ids of the linked entities play no part in reconciliation. */
  lemma SameStep(ms: map<Uuid, Memory>, ctx: Context, st: Step, ids: seq<Uuid>)
    ensures StepMemories(ms, ctx, st.(entityIds := ids)) == StepMemories(ms, ctx, st)
    ensures DecisionOf(ms, ctx, st.(entityIds := ids)) == DecisionOf(ms, ctx, st)
  {
  }

  /** Deactivating first and inserting afterwards writes what the step writes. */
  lemma WritesInTwo(g: map<Uuid, Memory>, w: map<Uuid, Memory>, ctx: Context, c: Candidate, d: Decision, id: Uuid)
    requires forall i | i in d.deactivate :: i in g
    ensures var before := w + Deactivated(g, d.deactivate);
            w + Writes(g, ctx, c, d, id) == if d.insert then before[id := NewRow(ctx, c, d)] else before
  {
  }

  /** Every row of `e` belongs to the group, and replaces no row of another group. */
  ghost predicate WithinGroup(ms: map<Uuid, Memory>, e: map<Uuid, Memory>, s: Scope, k: string) {
    forall id | id in e :: e[id].scope == s && e[id].key == k && (id in ms ==> id in Group(ms, s, k))
  }

  lemma UnionOnGroup(ms: map<Uuid, Memory>, e: map<Uuid, Memory>, s0: Scope, k0: string, s: Scope, k: string)
    requires WithinGroup(ms, e, s0, k0)
    ensures Group(ms + e, s, k) == if s == s0 && k == k0 then Group(ms, s, k) + e else Group(ms, s, k)
  {
    hide Group, WithinGroup;
    if s == s0 && k == k0 {
      UnionInGroup(ms, e, s, k);
    } else {
      UnionElsewhere(ms, e, s0, k0, s, k);
    }
  }

  lemma UnionInGroup(ms: map<Uuid, Memory>, e: map<Uuid, Memory>, s: Scope, k: string)
    requires WithinGroup(ms, e, s, k)
    ensures Group(ms + e, s, k) == Group(ms, s, k) + e
  {
  }

  lemma UnionElsewhere(ms: map<Uuid, Memory>, e: map<Uuid, Memory>, s0: Scope, k0: string, s: Scope, k: string)
    requires WithinGroup(ms, e, s0, k0) && !(s == s0 && k == k0)
    ensures Group(ms + e, s, k) == Group(ms, s, k)
  {
  }

  lemma WritesWithinGroup(ms: map<Uuid, Memory>, ctx: Context, c: Candidate, d: Decision, id: Uuid)
    requires Policy(Group(ms, ctx.scope, c.Key()), c, d) && id !in ms
    ensures WithinGroup(ms, Writes(Group(ms, ctx.scope, c.Key()), ctx, c, d, id), ctx.scope, c.Key())
  {
  }

  /** One step writes to its own group only, and there it carries out a decision that follows the policy. */
  lemma StepOnGroup(ms: map<Uuid, Memory>, ctx: Context, st: Step, s: Scope, k: string)
    requires StepReady(ms, ctx, st)
    ensures var g, g' := Group(ms, s, k), Group(StepMemories(ms, ctx, st), s, k);
            var d := DecisionOf(ms, ctx, st);
            if s == ctx.scope && k == st.cand.Key()
            then Policy(g, st.cand, d) && Written(g, g', ctx, st.cand, d, st.id)
            else g' == g
  {
    hide Taxonomy.MultiplicityOf, SameObject;
    var k0 := st.cand.Key();
    var g := Group(ms, ctx.scope, k0);
    var d := Decide(g, st.fetched, st.cand);
    DecideFollowsPolicy(g, st.fetched, st.cand);
    WritesAreWritten(g, ctx, st.cand, d, st.id);
    WritesWithinGroup(ms, ctx, st.cand, d, st.id);
    UnionOnGroup(ms, Writes(g, ctx, st.cand, d, st.id), ctx.scope, k0, s, k);
  }
}
