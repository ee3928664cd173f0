/** What holds of the memories table in every reachable state. */
module Invariants {
  import opened Tables
  import opened Taxonomy
  import opened Reconciler
  import opened Groups
  import opened Lifecycle

  // ---------------------------------------------------------------- invariants of the whole table

  ghost predicate TurnsScoped(db: Db) {
    forall t | t in db.turns :: db.turns[t].scope == ScopeFor(db.turns[t].user, db.turns[t].session)
  }

  /** The source turn of a row: not null, live, of the same scope and session. */
  ghost predicate HasSource(db: Db, m: Memory) {
    && m.sourceTurn.Some? && m.sourceTurn.value in db.turns
    && db.turns[m.sourceTurn.value].scope == m.scope && db.turns[m.sourceTurn.value].session == m.session
  }

  ghost predicate Traceable(db: Db) {
    forall id | id in db.memories :: HasSource(db, db.memories[id])
  }

  ghost predicate KeysGenerated(db: Db) {
    forall id | id in db.memories :: db.memories[id].key == KeyOf(db.memories[id].subject, db.memories[id].pred)
  }

  ghost predicate GroupsSound(ms: map<Uuid, Memory>) {
    forall s, k :: Sound(Group(ms, s, k))
  }

  ghost predicate Consistent(db: Db) {
    TurnsScoped(db) && Traceable(db) && KeysGenerated(db) && GroupsSound(db.memories)
  }

  /** The invariants of one group; `single` and `chained` say which of the conditional ones are meant. */
  ghost predicate Good(g: map<Uuid, Memory>, single: bool, chained: bool) {
    && Sound(g)
    && (single ==> AtMostOneActive(g))
    && (chained ==> Chained(g) && StampsDiffer(g))
    && (single && chained ==> LatestIsActive(g) && LinksToPrevious(g))
  }

  // ---------------------------------------------------------------- ingest

  /** The step concerns the group. */
  predicate Concerns(ctx: Context, st: Step, s: Scope, k: string) {
    ctx.scope == s && st.cand.Key() == k
  }

  /** What the conditional invariants ask of a step that concerns the group. */
  ghost predicate StepFits(ms: map<Uuid, Memory>, ctx: Context, st: Step, s: Scope, k: string, single: bool,
                           chained: bool)
  {
    Concerns(ctx, st, s, k) ==>
      && (single ==> MultiplicityOf(st.cand.pred) == One)
      && (chained && DecisionOf(ms, ctx, st).insert ==> Later(Group(ms, s, k), ctx.now))
  }

  ghost predicate StepsFit(
    ms: map<Uuid, Memory>, ctx: Context, steps: seq<Step>, s: Scope, k: string, single: bool, chained: bool)
  {
    forall j | 0 <= j < |steps| :: StepFits(AfterSteps(ms, ctx, steps[..j]), ctx, steps[j], s, k, single, chained)
  }

  lemma StepKeepsGood(ms: map<Uuid, Memory>, ctx: Context, st: Step, s: Scope, k: string, single: bool, chained: bool)
    requires StepReady(ms, ctx, st) && StepFits(ms, ctx, st, s, k, single, chained)
    requires Good(Group(ms, s, k), single, chained)
    ensures Good(Group(StepMemories(ms, ctx, st), s, k), single, chained)
  {
    hide MultiplicityOf, SameObject, Policy, Written;
    StepOnGroup(ms, ctx, st, s, k);
    if Concerns(ctx, st, s, k) {
      var g, g', d := Group(ms, s, k), Group(StepMemories(ms, ctx, st), s, k), DecisionOf(ms, ctx, st);
      WriteKeepsSound(g, g', ctx, st.cand, d, st.id);
      if single {
        SingleWriteKeepsOne(g, g', ctx, st.cand, d, st.id);
      }
      if chained {
        WriteKeepsChained(g, g', ctx, st.cand, d, st.id);
      }
      if single && chained {
        SingleWriteKeepsPrevious(g, g', ctx, st.cand, d, st.id);
      }
    }
  }

  lemma StepsFitPrefix(
    ms: map<Uuid, Memory>, ctx: Context, steps: seq<Step>, n: nat, s: Scope, k: string, single: bool, chained: bool)
    requires |steps| == n + 1 && StepsFit(ms, ctx, steps, s, k, single, chained)
    ensures StepsFit(ms, ctx, steps[..n], s, k, single, chained)
    ensures StepFits(AfterSteps(ms, ctx, steps[..n]), ctx, steps[n], s, k, single, chained)
  {
    var p := steps[..n];
    forall j | 0 <= j < n ensures StepFits(AfterSteps(ms, ctx, p[..j]), ctx, p[j], s, k, single, chained) {
      assert p[..j] == steps[..j];
    }
  }

  lemma {:induction false} StepsKeepGood(
    ms: map<Uuid, Memory>, ctx: Context, steps: seq<Step>, s: Scope, k: string, single: bool, chained: bool)
    requires StepsReady(ms, ctx, steps) && StepsFit(ms, ctx, steps, s, k, single, chained)
    requires Good(Group(ms, s, k), single, chained)
    ensures Good(Group(AfterSteps(ms, ctx, steps), s, k), single, chained)
  {
    if steps == [] {
      return;
    }
    var n := |steps| - 1;
    StepsFitPrefix(ms, ctx, steps, n, s, k, single, chained);
    StepsKeepGood(ms, ctx, steps[..n], s, k, single, chained);
    StepKeepsGood(AfterSteps(ms, ctx, steps[..n]), ctx, steps[n], s, k, single, chained);
  }

  // ---------------------------------------------------------------- deletes

  /** No surviving row loses its source turn, so deleting a session only removes rows and nulls links. */
  lemma DropSessionMemories(db: Db, session: string)
    requires Traceable(db)
    ensures WithoutSession(db, session).memories == WithoutMemories(db.memories, SessionMemories(db, session))
  {
    var ms := WithoutMemories(db.memories, SessionMemories(db, session));
    forall id | id in ms
      ensures ms[id].(sourceTurn := SetNull(ms[id].sourceTurn, SessionTurns(db, session))) == ms[id]
    {
      assert HasSource(db, db.memories[id]);
    }
  }

  lemma DropUserMemories(db: Db, user: string)
    requires Traceable(db) && TurnsScoped(db) && user != ""
    ensures DropUser(db, user).memories
         == WithoutMemories(db.memories, UserMemories(db, user))
  {
    var ms := WithoutMemories(db.memories, UserMemories(db, user));
    forall id | id in ms
      ensures ms[id].(sourceTurn := SetNull(ms[id].sourceTurn, UserTurns(db, user))) == ms[id]
    {
      assert HasSource(db, db.memories[id]);
    }
  }

  /** A group whose links stay inside and which loses no row is left alone. */
  lemma UntouchedGroup(ms: map<Uuid, Memory>, dead: set<Uuid>, s: Scope, k: string)
    requires LinksInside(Group(ms, s, k)) && dead !! Group(ms, s, k).Keys
    ensures Group(WithoutMemories(ms, dead), s, k) == Group(ms, s, k)
  {
    var g := Group(ms, s, k);
    forall id | id in g ensures SetNull(g[id].supersedes, dead) == g[id].supersedes {
      if g[id].supersedes.Some? {
        assert Supersedes(g, id, g[id].supersedes.value);
      }
    }
  }

  lemma RecomputeOnGroup(
    ms: map<Uuid, Memory>, affected: set<GroupKey>, picks: map<GroupKey, Uuid>, s: Scope, k: string)
    ensures Group(Recompute(ms, affected, picks), s, k)
         == if GroupKey(s, k) in affected then RecomputeGroup(Group(ms, s, k), PickOf(picks, GroupKey(s, k)))
            else Group(ms, s, k)
  {
  }

  lemma PruneOnGroup(ms: map<Uuid, Memory>, dead: set<Uuid>, pick: Option<Uuid>, s: Scope, k: string)
    requires IsPick(Group(WithoutMemories(ms, dead), s, k), pick)
    ensures var g' := RecomputeGroup(Group(WithoutMemories(ms, dead), s, k), pick);
            Pruned(Group(ms, s, k), g', dead, pick) && IsPick(g', pick)
  {
  }

  lemma UnaffectedGroup(db: Db, session: string, s: Scope, k: string)
    requires GroupKey(s, k) !in Affected(db, session)
    ensures SessionMemories(db, session) !! Group(db.memories, s, k).Keys
  {
    forall id | id in Group(db.memories, s, k) ensures id !in SessionMemories(db, session) {
      assert GroupKeyOf(db.memories[id]) == GroupKey(s, k);
    }
  }

  /** Deleting a session, seen from one group: pruned and recomputed, or not touched at all. */
  lemma DropSessionOnGroup(db: Db, session: string, picks: map<GroupKey, Uuid>, s: Scope, k: string)
    requires Traceable(db) && LinksInside(Group(db.memories, s, k))
    requires PicksValid(WithoutSession(db, session).memories, Affected(db, session), picks)
    ensures var g, g' := Group(db.memories, s, k), Group(DropSession(db, session, picks).memories, s, k);
            if GroupKey(s, k) in Affected(db, session)
            then Pruned(g, g', SessionMemories(db, session), PickOf(picks, GroupKey(s, k)))
                 && IsPick(g', PickOf(picks, GroupKey(s, k)))
            else g' == g
  {
    var dead := SessionMemories(db, session);
    var ms := WithoutMemories(db.memories, dead);
    DropSessionMemories(db, session);
    RecomputeOnGroup(ms, Affected(db, session), picks, s, k);
    if GroupKey(s, k) in Affected(db, session) {
      PruneOnGroup(db.memories, dead, PickOf(picks, GroupKey(s, k)), s, k);
    } else {
      UnaffectedGroup(db, session, s, k);
      UntouchedGroup(db.memories, dead, s, k);
    }
  }

  lemma DropUserOnGroup(db: Db, user: string, s: Scope, k: string)
    requires Traceable(db) && TurnsScoped(db) && user != "" && LinksInside(Group(db.memories, s, k))
    ensures Group(DropUser(db, user).memories, s, k) == if s == User(user) then map[] else Group(db.memories, s, k)
  {
    DropUserMemories(db, user);
    if s != User(user) {
      UntouchedGroup(db.memories, UserMemories(db, user), s, k);
    }
  }

  // ---------------------------------------------------------------- rows

  /** Row by row, what one step does to the table. */
  lemma StepRows(ms: map<Uuid, Memory>, ctx: Context, st: Step)
    requires StepReady(ms, ctx, st)
    ensures var ms', d := StepMemories(ms, ctx, st), DecisionOf(ms, ctx, st);
      && ms'.Keys == ms.Keys + (if d.insert then {st.id} else {})
      && (d.insert ==> ms'[st.id] == NewRow(ctx, st.cand, d))
      && forall id | id in ms :: ms'[id] == ms[id].(active := ms[id].active && id !in d.deactivate)
  {
    hide SameObject, Mentions, MultiplicityOf, ActiveIds, Targets;
  }

  lemma StepKeepsRows(db: Db, ctx: Context, st: Step)
    requires StepReady(db.memories, ctx, st) && Traceable(db) && KeysGenerated(db)
    requires ctx.turn in db.turns && db.turns[ctx.turn].scope == ctx.scope && db.turns[ctx.turn].session == ctx.session
    ensures var db' := db.(memories := StepMemories(db.memories, ctx, st)); Traceable(db') && KeysGenerated(db')
  {
    StepRows(db.memories, ctx, st);
    var db' := db.(memories := StepMemories(db.memories, ctx, st));
    forall id | id in db'.memories ensures HasSource(db', db'.memories[id]) {
      if id in db.memories {
        assert HasSource(db, db.memories[id]);
      }
    }
  }

  lemma {:induction false} StepsKeepRows(db: Db, ctx: Context, steps: seq<Step>)
    requires StepsReady(db.memories, ctx, steps) && Traceable(db) && KeysGenerated(db)
    requires ctx.turn in db.turns && db.turns[ctx.turn].scope == ctx.scope && db.turns[ctx.turn].session == ctx.session
    ensures var db' := db.(memories := AfterSteps(db.memories, ctx, steps)); Traceable(db') && KeysGenerated(db')
  {
    if steps != [] {
      var p := steps[..|steps| - 1];
      StepsKeepRows(db, ctx, p);
      StepKeepsRows(db.(memories := AfterSteps(db.memories, ctx, p)), ctx, steps[|steps| - 1]);
    }
  }

  // ---------------------------------------------------------------- every request keeps the invariants

  lemma IngestMemories(db: Db, session: string, user: Option<string>, timestamp: int, turn: Uuid, now: int,
                       steps: seq<Step>)
    ensures var ctx, db' := ContextOf(session, user, turn, now),
      IngestTurn(db, session, user, timestamp, turn, now, steps);
      && db'.memories == AfterSteps(db.memories, ctx, steps)
      && db'.turns == AddTurn(db, session, user, timestamp, turn).turns
    ensures Valid(db, Ingest(session, user, timestamp, turn, now, steps)) ==>
      StepsReady(db.memories, ContextOf(session, user, turn, now), steps)
  {
    AfterLoopMemories(AddTurn(db, session, user, timestamp, turn), ContextOf(session, user, turn, now), steps);
  }

  lemma IngestKeepsConsistent(
    db: Db, session: string, user: Option<string>, timestamp: int, turn: Uuid, now: int, steps: seq<Step>)
    requires Consistent(db) && Valid(db, Ingest(session, user, timestamp, turn, now, steps))
    ensures Consistent(IngestTurn(db, session, user, timestamp, turn, now, steps))
  {
    var ctx := ContextOf(session, user, turn, now);
    var d0 := AddTurn(db, session, user, timestamp, turn);
    IngestMemories(db, session, user, timestamp, turn, now, steps);
    AddTurnKeepsRows(db, session, user, timestamp, turn);
    StepsKeepRows(d0, ctx, steps);
    StepsKeepGroupsSound(db.memories, ctx, steps);
    SameRows(d0.(memories := AfterSteps(db.memories, ctx, steps)),
             IngestTurn(db, session, user, timestamp, turn, now, steps));
  }

  lemma AddTurnKeepsRows(db: Db, session: string, user: Option<string>, timestamp: int, turn: Uuid)
    requires TurnsScoped(db) && Traceable(db) && KeysGenerated(db) && turn !in db.turns
    ensures var d0 := AddTurn(db, session, user, timestamp, turn); TurnsScoped(d0) && Traceable(d0) && KeysGenerated(d0)
  {
    assert forall id | id in db.memories :: HasSource(db, db.memories[id]);
  }

  lemma StepsKeepGroupsSound(ms: map<Uuid, Memory>, ctx: Context, steps: seq<Step>)
    requires StepsReady(ms, ctx, steps) && GroupsSound(ms)
    ensures GroupsSound(AfterSteps(ms, ctx, steps))
  {
    forall s, k ensures Sound(Group(AfterSteps(ms, ctx, steps), s, k)) {
      assert Good(Group(ms, s, k), false, false);
      StepsKeepGood(ms, ctx, steps, s, k, false, false);
    }
  }

  /** The row invariants read only turns and memories. */
  lemma SameRows(db: Db, db': Db)
    requires db'.turns == db.turns && db'.memories == db.memories
    requires TurnsScoped(db) && Traceable(db) && KeysGenerated(db)
    ensures TurnsScoped(db') && Traceable(db') && KeysGenerated(db')
  {
    assert forall id | id in db.memories :: HasSource(db, db.memories[id]);
  }

  lemma DropSessionKeepsRows(db: Db, session: string, picks: map<GroupKey, Uuid>)
    requires TurnsScoped(db) && Traceable(db) && KeysGenerated(db)
    ensures var db' := DropSession(db, session, picks); TurnsScoped(db') && Traceable(db') && KeysGenerated(db')
  {
    hide Affected, PickOf;
    DropSessionMemories(db, session);
    var db' := DropSession(db, session, picks);
    forall id | id in db'.memories ensures HasSource(db', db'.memories[id]) {
      assert HasSource(db, db.memories[id]);
    }
  }

  lemma DropSessionKeepsConsistent(db: Db, session: string, picks: map<GroupKey, Uuid>)
    requires Consistent(db) && Valid(db, DeleteSession(session, picks))
    ensures Consistent(DropSession(db, session, picks))
  {
    hide Sound, DropSession, TurnsScoped, Traceable, KeysGenerated;
    DropSessionKeepsRows(db, session, picks);
    forall s, k ensures Sound(Group(DropSession(db, session, picks).memories, s, k)) {
      DropSessionKeepsSound(db, session, picks, s, k);
    }
  }

  lemma DropSessionKeepsSound(db: Db, session: string, picks: map<GroupKey, Uuid>, s: Scope, k: string)
    requires Traceable(db) && Sound(Group(db.memories, s, k)) && Valid(db, DeleteSession(session, picks))
    ensures Sound(Group(DropSession(db, session, picks).memories, s, k))
  {
    DropSessionOnGroup(db, session, picks, s, k);
    if GroupKey(s, k) in Affected(db, session) {
      PruneMakesSound(Group(db.memories, s, k), Group(DropSession(db, session, picks).memories, s, k),
                      SessionMemories(db, session), PickOf(picks, GroupKey(s, k)));
    }
  }

  lemma DropUserKeepsRows(db: Db, user: string)
    requires TurnsScoped(db) && Traceable(db) && KeysGenerated(db) && user != ""
    ensures var db' := DropUser(db, user); TurnsScoped(db') && Traceable(db') && KeysGenerated(db')
  {
    DropUserMemories(db, user);
    var db' := DropUser(db, user);
    forall id | id in db'.memories ensures HasSource(db', db'.memories[id]) {
      assert HasSource(db, db.memories[id]);
    }
  }

  lemma DropUserKeepsConsistent(db: Db, user: string)
    requires Consistent(db) && Valid(db, DeleteUser(user))
    ensures Consistent(DropUser(db, user))
  {
    hide DropUser, TurnsScoped, Traceable, KeysGenerated;
    DropUserKeepsRows(db, user);
    forall s, k ensures Sound(Group(DropUser(db, user).memories, s, k)) {
      assert Sound(Group(db.memories, s, k));
      DropUserOnGroup(db, user, s, k);
    }
  }

  lemma EventKeepsConsistent(db: Db, ev: Event)
    requires Consistent(db) && Valid(db, ev)
    ensures Consistent(Apply(db, ev))
  {
    match ev
    case Ingest(session, user, timestamp, turn, now, steps) =>
      IngestKeepsConsistent(db, session, user, timestamp, turn, now, steps);
    case DeleteSession(session, picks) => DropSessionKeepsConsistent(db, session, picks);
    case DeleteUser(user) => DropUserKeepsConsistent(db, user);
  }

  /** Every reachable state is consistent; in particular every memory names a live source turn. */
  lemma {:induction false} RunConsistent(evs: seq<Event>)
    requires ValidRun(evs)
    ensures Consistent(Run(evs))
  {
    if evs == [] {
      forall s, k ensures Sound(Group(EMPTY.memories, s, k)) {
        assert Group(EMPTY.memories, s, k) == map[];
      }
    } else {
      RunConsistent(evs[..|evs| - 1]);
      EventKeepsConsistent(Run(evs[..|evs| - 1]), evs[|evs| - 1]);
    }
  }

  // ---------------------------------------------------------------- conditional invariants over runs

  function EventContext(ev: Event): Context
    requires ev.Ingest?
  {
    ContextOf(ev.session, ev.user, ev.turn, ev.now)
  }

  /** The event satisfies what the conditional invariants of the group ask, in the state it meets. */
  ghost predicate EventFits(db: Db, ev: Event, s: Scope, k: string, single: bool, chained: bool) {
    ev.Ingest? ==> StepsFit(db.memories, EventContext(ev), ev.steps, s, k, single, chained)
  }

  lemma PruneMakesGood(
    g: map<Uuid, Memory>, g': map<Uuid, Memory>, dead: set<Uuid>, pick: Option<Uuid>, single: bool, chained: bool)
    requires Good(g, single, chained) && Pruned(g, g', dead, pick) && IsPick(g', pick)
    ensures Good(g', single, chained)
  {
    PruneMakesSound(g, g', dead, pick);
    if chained {
      PruneKeepsChained(g, g', dead, pick);
    }
    if single && chained {
      PruneKeepsPrevious(g, g', dead, pick);
    }
  }

  lemma DropSessionKeepsGood(
    db: Db, session: string, picks: map<GroupKey, Uuid>, s: Scope, k: string, single: bool, chained: bool)
    requires Traceable(db) && Valid(db, DeleteSession(session, picks))
    requires Good(Group(db.memories, s, k), single, chained)
    ensures Good(Group(DropSession(db, session, picks).memories, s, k), single, chained)
  {
    DropSessionOnGroup(db, session, picks, s, k);
    if GroupKey(s, k) in Affected(db, session) {
      PruneMakesGood(Group(db.memories, s, k), Group(DropSession(db, session, picks).memories, s, k),
                     SessionMemories(db, session), PickOf(picks, GroupKey(s, k)), single, chained);
    }
  }

  lemma EventKeepsGood(db: Db, ev: Event, s: Scope, k: string, single: bool, chained: bool)
    requires Consistent(db) && Valid(db, ev) && EventFits(db, ev, s, k, single, chained)
    requires Good(Group(db.memories, s, k), single, chained)
    ensures Good(Group(Apply(db, ev).memories, s, k), single, chained)
  {
    hide MultiplicityOf, StepsFit, Good;
    match ev
    case Ingest(session, user, timestamp, turn, now, steps) =>
      IngestMemories(db, session, user, timestamp, turn, now, steps);
      StepsKeepGood(db.memories, EventContext(ev), steps, s, k, single, chained);
    case DeleteSession(session, picks) =>
      DropSessionKeepsGood(db, session, picks, s, k, single, chained);
    case DeleteUser(user) => DropUserKeepsGood(db, user, s, k, single, chained);
  }

  lemma DropUserKeepsGood(db: Db, user: string, s: Scope, k: string, single: bool, chained: bool)
    requires Traceable(db) && TurnsScoped(db) && user != "" && Good(Group(db.memories, s, k), single, chained)
    ensures Good(Group(DropUser(db, user).memories, s, k), single, chained)
  {
    hide DropUser;
    DropUserOnGroup(db, user, s, k);
  }

  /** Every candidate the run ingests for the group is single-valued. */
  ghost predicate SingleValued(evs: seq<Event>, s: Scope, k: string) {
    forall i, j | 0 <= i < |evs| && evs[i].Ingest? && 0 <= j < |evs[i].steps|
      && Concerns(EventContext(evs[i]), evs[i].steps[j], s, k) ::
      MultiplicityOf(evs[i].steps[j].cand.pred) == One
  }

  /** Every row the run inserts into the group is stamped later than the rows it finds there. */
  ghost predicate IncreasingStamps(evs: seq<Event>, s: Scope, k: string) {
    forall i, j | 0 <= i < |evs| && evs[i].Ingest? && 0 <= j < |evs[i].steps|
      && Concerns(EventContext(evs[i]), evs[i].steps[j], s, k) ::
      var ms := AfterSteps(Run(evs[..i]).memories, EventContext(evs[i]), evs[i].steps[..j]);
      DecisionOf(ms, EventContext(evs[i]), evs[i].steps[j]).insert ==> Later(Group(ms, s, k), evs[i].now)
  }

  lemma PrefixFits(evs: seq<Event>, n: nat, s: Scope, k: string)
    requires |evs| == n + 1
    ensures SingleValued(evs, s, k) ==> SingleValued(evs[..n], s, k)
    ensures IncreasingStamps(evs, s, k) ==> IncreasingStamps(evs[..n], s, k)
  {
    assert forall i | 0 <= i < n :: evs[..n][i] == evs[i] && evs[..n][..i] == evs[..i];
  }

  lemma LastFits(evs: seq<Event>, n: nat, s: Scope, k: string, single: bool, chained: bool)
    requires |evs| == n + 1
    requires single ==> SingleValued(evs, s, k)
    requires chained ==> IncreasingStamps(evs, s, k)
    ensures EventFits(Run(evs[..n]), evs[n], s, k, single, chained)
  {
  }

  lemma {:induction false} RunGood(evs: seq<Event>, s: Scope, k: string, single: bool, chained: bool)
    requires ValidRun(evs)
    requires single ==> SingleValued(evs, s, k)
    requires chained ==> IncreasingStamps(evs, s, k)
    ensures Good(Group(Run(evs).memories, s, k), single, chained)
  {
    if evs == [] {
      assert Group(EMPTY.memories, s, k) == map[];
      return;
    }
    var n := |evs| - 1;
    PrefixFits(evs, n, s, k);
    LastFits(evs, n, s, k, single, chained);
    RunGood(evs[..n], s, k, single, chained);
    RunConsistent(evs[..n]);
    EventKeepsGood(Run(evs[..n]), evs[n], s, k, single, chained);
  }

  // ---------------------------------------------------------------- the theorems

  /**
   * Over every run of requests, whichever row each recompute picks among equal stamps: a non-empty
   * group has an active row, its active rows have different objects, and a group that only received
   * single-valued candidates has exactly one.
   */
  lemma ActiveRows(evs: seq<Event>, s: Scope, k: string)
    requires ValidRun(evs)
    ensures var g := Group(Run(evs).memories, s, k);
      && (g.Keys != {} ==> exists id :: id in g && g[id].active)
      && ActiveObjectsDiffer(g)
      && (SingleValued(evs, s, k) && g.Keys != {} ==>
            exists id :: id in g && g[id].active && forall o | o in g && g[o].active :: o == id)
  {
    RunGood(evs, s, k, SingleValued(evs, s, k), false);
  }

  /** The candidate has a normalised predicate, and its subject neither extends this one nor is extended by it. */
  predicate FitsSubject(c: Candidate, subject: string) {
    IsNormal(c.pred) && !Taxonomy.Extends(c.subject, subject) && !Taxonomy.Extends(subject, c.subject)
  }

  ghost predicate WellFormed(evs: seq<Event>, subject: string) {
    forall i, j | 0 <= i < |evs| && evs[i].Ingest? && 0 <= j < |evs[i].steps| ::
      FitsSubject(evs[i].steps[j].cand, subject)
  }

  /** Then multiplicity is a function of the key: a group named by a single-valued predicate has one active row. */
  lemma SingleValuedByPredicate(evs: seq<Event>, s: Scope, subject: string, pred: string)
    requires ValidRun(evs) && WellFormed(evs, subject) && IsNormal(pred) && MultiplicityOf(pred) == One
    ensures AtMostOneActive(Group(Run(evs).memories, s, KeyOf(subject, pred)))
  {
    var k := KeyOf(subject, pred);
    forall i, j | 0 <= i < |evs| && evs[i].Ingest? && 0 <= j < |evs[i].steps|
      && Concerns(EventContext(evs[i]), evs[i].steps[j], s, k)
      ensures MultiplicityOf(evs[i].steps[j].cand.pred) == One
    {
      var c := evs[i].steps[j].cand;
      KeyInjective(c.subject, c.pred, subject, pred);
    }
    RunGood(evs, s, k, true, false);
  }

  /**
   * With increasing stamps supersession forms chains: links go to live, older, inactive rows of the
   * group and no row has two live superseders; in a single-valued group the active row is the latest
   * and a link goes to the row just before, with another object.
   */
  lemma SupersessionChains(evs: seq<Event>, s: Scope, k: string)
    requires ValidRun(evs) && IncreasingStamps(evs, s, k)
    ensures var g := Group(Run(evs).memories, s, k);
      && Chained(g) && StampsDiffer(g)
      && (SingleValued(evs, s, k) ==> LatestIsActive(g) && LinksToPrevious(g))
  {
    RunGood(evs, s, k, SingleValued(evs, s, k), true);
  }

  /** `supersedes` never leaves its scope and key, in any reachable state. */
  lemma SupersedesInGroup(evs: seq<Event>, a: Uuid, b: Uuid)
    requires ValidRun(evs) && Supersedes(Run(evs).memories, a, b)
    ensures var ms := Run(evs).memories; b in ms && b != a && ms[b].scope == ms[a].scope && ms[b].key == ms[a].key
  {
    RunConsistent(evs);
    var ms := Run(evs).memories;
    var g := Group(ms, ms[a].scope, ms[a].key);
    assert Sound(g);
    assert Supersedes(g, a, b);
  }
}
