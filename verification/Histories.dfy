/** Concurrent histories are runs of the store: what holds in every reachable state holds of them. */
module Histories {
  import opened Tables
  import opened Taxonomy
  import opened Reconciler
  import opened Groups
  import opened Lifecycle
  import opened Invariants
  import opened Concurrency

  // ---------------------------------------------------------------- turns are drawn once

  /** Every transaction has a turn of its own, drawn after those in `before`. */
  ghost predicate TurnsApart(before: set<Uuid>, w: World) {
    && before <= w.turns
    && (forall i | 0 <= i < |w.log| :: OwnTurn(before, w, w.log[i].ctx))
    && (forall t | t in w.running :: OwnTurn(before, w, w.running[t].ctx))
    && (forall i, j | 0 <= i < j < |w.log| :: w.log[i].ctx.turn != w.log[j].ctx.turn)
    && (forall i, t | 0 <= i < |w.log| && t in w.running :: w.log[i].ctx.turn != w.running[t].ctx.turn)
    && (forall t, u | t in w.running && u in w.running && t != u :: w.running[t].ctx.turn != w.running[u].ctx.turn)
  }

  predicate OwnTurn(before: set<Uuid>, w: World, ctx: Context) {
    IsIngestContext(ctx) && ctx.turn in w.turns && ctx.turn !in before
  }

  /** Actions other than the first and the last of a transaction change no context. */
  lemma SameContexts(before: set<Uuid>, w: World, w': World)
    requires TurnsApart(before, w) && w'.log == w.log && w'.turns == w.turns && w'.running.Keys == w.running.Keys
    requires forall u | u in w'.running :: w'.running[u].ctx == w.running[u].ctx
    ensures TurnsApart(before, w')
  {
    hide IsIngestContext;
  }

  lemma BeginKeepsTurns(h: Hash, before: set<Uuid>, w: World, t: nat, ctx: Context, cands: seq<Candidate>)
    requires TurnsApart(before, w) && Enabled(h, w, t, Begin(ctx, cands))
    ensures TurnsApart(before, Do(h, w, t, Begin(ctx, cands)))
  {
    hide IsIngestContext;
  }

  lemma CommitKeepsTurns(h: Hash, before: set<Uuid>, w: World, t: nat)
    requires TurnsApart(before, w) && Enabled(h, w, t, Commit)
    ensures TurnsApart(before, Do(h, w, t, Commit))
  {
    hide IsIngestContext;
    var w' := Do(h, w, t, Commit);
    assert w'.log[..|w.log|] == w.log;
  }

  lemma ActionKeepsTurns(h: Hash, before: set<Uuid>, w: World, t: nat, a: Action)
    requires TurnsApart(before, w) && Enabled(h, w, t, a)
    ensures TurnsApart(before, Do(h, w, t, a))
  {
    hide IsFetch, View, Group, Decide, SetInactive, NewRow, NextLock, IsIngestContext;
    match a
    case Begin(ctx, cands) => BeginKeepsTurns(h, before, w, t, ctx, cands);
    case Commit => CommitKeepsTurns(h, before, w, t);
    case Abort =>
    case _ => SameContexts(before, w, Do(h, w, t, a));
  }

  lemma {:induction false} ScheduleKeepsTurns(
    h: Hash, ms: map<Uuid, Memory>, turns: set<Uuid>, schedule: seq<(nat, Action)>)
    requires Legal(h, Start(ms, turns), schedule)
    ensures TurnsApart(turns, After(h, Start(ms, turns), schedule))
  {
    hide TurnsApart, Enabled, Do;
    if schedule == [] {
      StartApart(ms, turns);
      return;
    }
    var n := |schedule| - 1;
    ScheduleKeepsTurns(h, ms, turns, schedule[..n]);
    ActionKeepsTurns(h, turns, After(h, Start(ms, turns), schedule[..n]), schedule[n].0, schedule[n].1);
  }

  lemma StartApart(ms: map<Uuid, Memory>, turns: set<Uuid>)
    ensures TurnsApart(turns, Start(ms, turns))
  {
  }

  // ---------------------------------------------------------------- entities for every step

  /** Whatever entities a candidate mentions, there are ids with which they can be upserted. */
  lemma {:induction false} LinksExist(db: Db, s: Scope, memory: Uuid, ms: seq<EntityMention>) returns (ids: seq<Uuid>)
    ensures LinksReady(db, s, memory, ms, ids)
  {
    if ms == [] {
      return [];
    }
    var n := |ms| - 1;
    var p := LinksExist(db, s, memory, ms[..n]);
    var es := LinkEntities(db, s, memory, ms[..n], p).entities;
    var id := UpsertExists(es, s, ms[n]);
    ids := p + [id];
    assert ids[..n] == p;
  }

  lemma UpsertExists(es: map<Uuid, Entity>, s: Scope, m: EntityMention) returns (id: Uuid)
    ensures UpsertReturns(es, s, m, id)
  {
    if e :| e in es && Conflicts(es[e], s, m) {
      id := e;
    } else {
      id := Unused(es.Keys);
    }
  }

  /** The steps differ in the ids of linked entities only. */
  ghost predicate SameSteps(a: seq<Step>, b: seq<Step>) {
    |a| == |b| && forall i | 0 <= i < |a| :: b[i] == a[i].(entityIds := b[i].entityIds)
  }

  lemma StepWithEntities(db: Db, ctx: Context, st: Step) returns (st': Step)
    requires StepReady(db.memories, ctx, st)
    ensures StepDbReady(db, ctx, st') && st' == st.(entityIds := st'.entityIds)
    ensures StepMemories(db.memories, ctx, st') == StepMemories(db.memories, ctx, st)
  {
    hide LinksReady, IsFetch, EffectOn, Decide, Group;
    var ids := LinksExist(db.(memories := StepMemories(db.memories, ctx, st)), ctx.scope, st.id, st.cand.entities);
    SameStep(db.memories, ctx, st, ids);
    st' := st.(entityIds := ids);
  }

  /** Legal steps on memories are, with suitable entity ids, legal steps on the whole store. */
  lemma {:induction false} StepsWithEntities(db: Db, ctx: Context, steps: seq<Step>) returns (steps': seq<Step>)
    requires StepsReady(db.memories, ctx, steps)
    ensures LoopReady(db, ctx, steps') && SameSteps(steps, steps')
    ensures AfterSteps(db.memories, ctx, steps') == AfterSteps(db.memories, ctx, steps)
  {
    hide StepReady, StepDbReady, StepMemories, StepDb;
    if steps == [] {
      return [];
    }
    var n := |steps| - 1;
    var p := StepsWithEntities(db, ctx, steps[..n]);
    AfterLoopMemories(db, ctx, p);
    var st := StepWithEntities(AfterLoop(db, ctx, p), ctx, steps[n]);
    steps' := p + [st];
    assert steps'[..n] == p;
  }

  // ---------------------------------------------------------------- from the log to a run

  /** The request that a committed transaction answered. */
  function UserOf(ctx: Context): Option<string> {
    match ctx.scope
    case User(id) => Some(id)
    case Session(_) => None
  }

  function TurnOf(ctx: Context): Turn {
    Turn(ctx.session, UserOf(ctx), ctx.scope, 0)
  }

  ghost predicate RequestOf(ev: Event, c: Committed) {
    ev.Ingest? && EventContext(ev) == c.ctx && SameSteps(c.steps, ev.steps)
  }

  lemma CommittedIsIngest(db: Db, c: Committed) returns (ev: Event)
    requires StepsReady(db.memories, c.ctx, c.steps) && IsIngestContext(c.ctx) && c.ctx.turn !in db.turns
    ensures Valid(db, ev) && RequestOf(ev, c)
    ensures Apply(db, ev).memories == AfterSteps(db.memories, c.ctx, c.steps)
    ensures Apply(db, ev).turns == db.turns[c.ctx.turn := TurnOf(c.ctx)]
  {
    hide LoopReady, StepsReady, AfterSteps, LinkTurn, SameSteps;
    var ctx := c.ctx;
    var d0 := AddTurn(db, ctx.session, UserOf(ctx), 0, ctx.turn);
    var steps := StepsWithEntities(d0, ctx, c.steps);
    ev := Ingest(ctx.session, UserOf(ctx), 0, ctx.turn, ctx.now, steps);
    assert ContextOf(ctx.session, UserOf(ctx), ctx.turn, ctx.now) == ctx;
    IngestMemories(db, ctx.session, UserOf(ctx), 0, ctx.turn, ctx.now, steps);
  }

  function LogTurns(log: seq<Committed>): set<Uuid> {
    set i | 0 <= i < |log| :: log[i].ctx.turn
  }

  ghost predicate LogApart(before: set<Uuid>, log: seq<Committed>) {
    && (forall i | 0 <= i < |log| :: IsIngestContext(log[i].ctx) && log[i].ctx.turn !in before)
    && (forall i, j | 0 <= i < j < |log| :: log[i].ctx.turn != log[j].ctx.turn)
  }

  /** The turns drawn before are as they were, and each logged transaction has added its own. */
  ghost predicate TurnsLogged(before: map<Uuid, Turn>, after: map<Uuid, Turn>, log: seq<Committed>) {
    && after.Keys == before.Keys + LogTurns(log)
    && (forall t | t in before :: after[t] == before[t])
    && (forall i | 0 <= i < |log| :: after[log[i].ctx.turn] == TurnOf(log[i].ctx))
  }

  /** After the requests `evs`, the requests `more` are legal and lead to the table that the log gives. */
  ghost predicate Continues(evs: seq<Event>, more: seq<Event>, log: seq<Committed>) {
    && |more| == |log| && (forall i | 0 <= i < |log| :: RequestOf(more[i], log[i]))
    && ValidRun(evs + more)
    && Run(evs + more).memories == Replay(Run(evs).memories, log)
    && TurnsLogged(Run(evs).turns, Run(evs + more).turns, log)
  }

  lemma RunMore(evs: seq<Event>, more: seq<Event>, ev: Event)
    ensures Run(evs + (more + [ev])) == Apply(Run(evs + more), ev)
    ensures ValidRun(evs + (more + [ev])) <==> ValidRun(evs + more) && Valid(Run(evs + more), ev)
  {
    hide Apply, Valid;
    var all := evs + (more + [ev]);
    assert all[..|all| - 1] == evs + more;
  }

  lemma LogTurnsMore(log: seq<Committed>, n: nat)
    requires |log| == n + 1
    ensures LogTurns(log) == LogTurns(log[..n]) + {log[n].ctx.turn}
  {
    assert forall i | 0 <= i < n :: log[..n][i] == log[i];
  }

  lemma LogApartPrefix(before: set<Uuid>, log: seq<Committed>, n: nat)
    requires LogApart(before, log) && |log| == n + 1
    ensures LogApart(before, log[..n]) && IsIngestContext(log[n].ctx)
    ensures log[n].ctx.turn !in before + LogTurns(log[..n])
  {
  }

  lemma OneMoreTurn(before: map<Uuid, Turn>, after: map<Uuid, Turn>, log: seq<Committed>, n: nat)
    requires |log| == n + 1 && LogApart(before.Keys, log) && TurnsLogged(before, after, log[..n])
    ensures TurnsLogged(before, after[log[n].ctx.turn := TurnOf(log[n].ctx)], log)
  {
    hide IsIngestContext, TurnOf;
    LogTurnsMore(log, n);
    assert forall i | 0 <= i < n :: log[..n][i] == log[i];
  }

  lemma ContinuesMore(evs: seq<Event>, p: seq<Event>, log: seq<Committed>, n: nat, ev: Event)
    requires |log| == n + 1 && Continues(evs, p, log[..n]) && RequestOf(ev, log[n]) && Valid(Run(evs + p), ev)
    requires LogApart(Run(evs).turns.Keys, log)
    requires Apply(Run(evs + p), ev).memories == AfterSteps(Run(evs + p).memories, log[n].ctx, log[n].steps)
    requires Apply(Run(evs + p), ev).turns == Run(evs + p).turns[log[n].ctx.turn := TurnOf(log[n].ctx)]
    ensures Continues(evs, p + [ev], log)
  {
    hide Valid, Apply, RequestOf, AfterSteps, TurnsLogged, Run, ValidRun, LogApart, TurnOf;
    RunMore(evs, p, ev);
    OneMoreTurn(Run(evs).turns, Run(evs + p).turns, log, n);
    forall i | 0 <= i < |log| ensures RequestOf((p + [ev])[i], log[i]) {
      assert i < n ==> RequestOf(p[i], log[..n][i]);
    }
  }

  lemma {:induction false} LogIsRun(evs: seq<Event>, log: seq<Committed>) returns (more: seq<Event>)
    requires ValidRun(evs) && ReplayReady(Run(evs).memories, log) && LogApart(Run(evs).turns.Keys, log)
    ensures Continues(evs, more, log)
  {
    hide Run, ValidRun, Valid, Apply, RequestOf, AfterSteps, StepsReady, LogApart, TurnOf;
    if log == [] {
      assert evs + [] == evs;
      return [];
    }
    var n := |log| - 1;
    LogApartPrefix(Run(evs).turns.Keys, log, n);
    var p := LogIsRun(evs, log[..n]);
    var ev := CommittedIsIngest(Run(evs + p), log[n]);
    ContinuesMore(evs, p, log, n, ev);
    more := p + [ev];
  }

  // ---------------------------------------------------------------- the theorems

  /**
   * Start from any reachable state and interleave ingest transactions as they come: the committed
   * table is that of a serial run of requests, those answered by the committed transactions in commit
   * order.
   */
  lemma ConcurrentIsRun(h: Hash, evs: seq<Event>, schedule: seq<(nat, Action)>) returns (more: seq<Event>)
    requires ValidRun(evs) && Legal(h, Start(Run(evs).memories, Run(evs).turns.Keys), schedule)
    ensures var w := After(h, Start(Run(evs).memories, Run(evs).turns.Keys), schedule);
      Continues(evs, more, w.log) && w.committed == Run(evs + more).memories
  {
    hide Legal, After, ReplayReady, Replay, TurnsApart, Continues;
    var ms, turns := Run(evs).memories, Run(evs).turns.Keys;
    var w := After(h, Start(ms, turns), schedule);
    Serializable(h, ms, turns, schedule);
    ScheduleKeepsTurns(h, ms, turns, schedule);
    LogFromTurns(turns, w);
    more := LogIsRun(evs, w.log);
    ContinuesTable(evs, more, w.log);
  }

  lemma LogFromTurns(before: set<Uuid>, w: World)
    requires TurnsApart(before, w)
    ensures LogApart(before, w.log)
  {
  }

  lemma ContinuesTable(evs: seq<Event>, more: seq<Event>, log: seq<Committed>)
    requires Continues(evs, more, log)
    ensures Run(evs + more).memories == Replay(Run(evs).memories, log) && ValidRun(evs + more)
  {
  }

  /** The source turn is an earlier one or that of a committed transaction, of the row's scope and session. */
  ghost predicate SourceLogged(turns: map<Uuid, Turn>, log: seq<Committed>, m: Memory) {
    && m.sourceTurn.Some?
    && var t := m.sourceTurn.value;
       || (t in turns && turns[t].scope == m.scope && turns[t].session == m.session)
       || exists i :: 0 <= i < |log| && FromTxn(m, log[i].ctx)
  }

  predicate FromTxn(m: Memory, ctx: Context) {
    m.sourceTurn == Some(ctx.turn) && m.scope == ctx.scope && m.session == ctx.session
  }

  lemma SourceInLog(before: Db, after: Db, log: seq<Committed>, m: Memory)
    requires TurnsLogged(before.turns, after.turns, log) && HasSource(after, m)
    ensures SourceLogged(before.turns, log, m)
  {
    var t := m.sourceTurn.value;
    if t !in before.turns {
      var i :| 0 <= i < |log| && log[i].ctx.turn == t;
      assert FromTxn(m, log[i].ctx);
    }
  }

  /**
   * So the invariants of runs hold of concurrent histories: keys are generated, every source turn is
   * that of an earlier request or of a committed transaction of the same scope and session, and every
   * group is sound.
   */
  lemma ConcurrentRowsSound(h: Hash, evs: seq<Event>, schedule: seq<(nat, Action)>, id: Uuid)
    requires ValidRun(evs) && Legal(h, Start(Run(evs).memories, Run(evs).turns.Keys), schedule)
    requires id in After(h, Start(Run(evs).memories, Run(evs).turns.Keys), schedule).committed
    ensures var w := After(h, Start(Run(evs).memories, Run(evs).turns.Keys), schedule);
      var m := w.committed[id];
      && m.key == KeyOf(m.subject, m.pred)
      && SourceLogged(Run(evs).turns, w.log, m)
      && Sound(Group(w.committed, m.scope, m.key))
  {
    hide Legal, After, Group, Sound, Replay, TurnsLogged, SourceLogged, Run, ValidRun;
    var w := After(h, Start(Run(evs).memories, Run(evs).turns.Keys), schedule);
    var more := ConcurrentIsRun(h, evs, schedule);
    RunConsistent(evs + more);
    var db := Run(evs + more);
    assert HasSource(db, db.memories[id]);
    SourceInLog(Run(evs), db, w.log, w.committed[id]);
  }

  /** No interleaving gives the group of a single-valued predicate two active rows. */
  lemma ConcurrentSingleValued(
    h: Hash, evs: seq<Event>, schedule: seq<(nat, Action)>, s: Scope, subject: string, pred: string)
    requires ValidRun(evs) && Legal(h, Start(Run(evs).memories, Run(evs).turns.Keys), schedule)
    requires WellFormed(evs, subject) && IsNormal(pred) && MultiplicityOf(pred) == One
    requires forall c, j |
      c in After(h, Start(Run(evs).memories, Run(evs).turns.Keys), schedule).log && 0 <= j < |c.steps| ::
      FitsSubject(c.steps[j].cand, subject)
    ensures AtMostOneActive(Group(After(h, Start(Run(evs).memories, Run(evs).turns.Keys), schedule).committed, s,
                                  KeyOf(subject, pred)))
  {
    hide Legal, After, Replay, AtMostOneActive, FitsSubject, Run, ValidRun;
    var w := After(h, Start(Run(evs).memories, Run(evs).turns.Keys), schedule);
    var more := ConcurrentIsRun(h, evs, schedule);
    var all := evs + more;
    forall i, j | 0 <= i < |all| && all[i].Ingest? && 0 <= j < |all[i].steps|
      ensures FitsSubject(all[i].steps[j].cand, subject)
    {
      if i >= |evs| {
        var c := w.log[i - |evs|];
        assert c in w.log && RequestOf(more[i - |evs|], c);
        assert all[i].steps[j].cand == c.steps[j].cand;
      } else {
        assert all[i] == evs[i];
      }
    }
    SingleValuedByPredicate(all, s, subject, pred);
  }
}
