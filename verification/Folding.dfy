/** What the candidate loop of one turn adds up to. */
module Folding {
  import opened Tables
  import opened Text
  import opened Taxonomy
  import opened Reconciler
  import opened Groups
  import opened Lifecycle
  import opened Invariants

  /** An active row of the candidate's group has the candidate's object. */
  ghost predicate Present(ms: map<Uuid, Memory>, s: Scope, c: Candidate) {
    exists id :: id in Group(ms, s, c.Key()) && ms[id].active && SameObject(ms[id], c.obj)
  }

  /** The step is a no-op exactly when its candidate is present; afterwards it is present in any case. */
  lemma StepPresent(ms: map<Uuid, Memory>, ctx: Context, st: Step)
    requires StepReady(ms, ctx, st)
    ensures DecisionOf(ms, ctx, st).insert <==> !Present(ms, ctx.scope, st.cand)
    ensures Present(ms, ctx.scope, st.cand) ==> StepMemories(ms, ctx, st) == ms
    ensures Present(StepMemories(ms, ctx, st), ctx.scope, st.cand)
  {
    hide MultiplicityOf, StepReady, StepMemories, DecisionOf, MentionedSet, IsLatestIn;
    var s, k := ctx.scope, st.cand.Key();
    var g := Group(ms, s, k);
    StepOnGroup(ms, ctx, st, s, k);
    StepRows(ms, ctx, st);
    var ms', d := StepMemories(ms, ctx, st), DecisionOf(ms, ctx, st);
    if d.insert {
      assert st.id in Group(ms', s, k) && ms'[st.id].active && SameObject(ms'[st.id], st.cand.obj);
    } else {
      assert ms' == ms;
      assert exists id :: id in g && g[id].active && SameObject(g[id], st.cand.obj);
    }
  }

  // ---------------------------------------------------------------- the last candidate wins

  /** Every active row of the group has this object, and there is one. */
  ghost predicate CurrentObject(g: map<Uuid, Memory>, obj: string) {
    && (exists id :: id in g && g[id].active)
    && (forall id | id in g && g[id].active :: SameObject(g[id], obj))
  }

  lemma SingleStepSetsObject(ms: map<Uuid, Memory>, ctx: Context, st: Step)
    requires StepReady(ms, ctx, st) && MultiplicityOf(st.cand.pred) == One
    requires AtMostOneActive(Group(ms, ctx.scope, st.cand.Key()))
    ensures CurrentObject(Group(StepMemories(ms, ctx, st), ctx.scope, st.cand.Key()), st.cand.obj)
  {
    var s, k := ctx.scope, st.cand.Key();
    StepPresent(ms, ctx, st);
    StepOnGroup(ms, ctx, st, s, k);
    var g, g', d := Group(ms, s, k), Group(StepMemories(ms, ctx, st), s, k), DecisionOf(ms, ctx, st);
    SingleWriteKeepsOne(g, g', ctx, st.cand, d, st.id);
    var id :| id in g' && g'[id].active && SameObject(g'[id], st.cand.obj);
  }

  /** After the loop, the active object of a single-valued key is that of the last candidate with the key. */
  lemma {:induction false} LastCandidateWins(ms: map<Uuid, Memory>, ctx: Context, steps: seq<Step>, k: string,
                                             last: nat)
    requires StepsReady(ms, ctx, steps) && AtMostOneActive(Group(ms, ctx.scope, k)) && Sound(Group(ms, ctx.scope, k))
    requires forall j | 0 <= j < |steps| && steps[j].cand.Key() == k :: MultiplicityOf(steps[j].cand.pred) == One
    requires last < |steps| && steps[last].cand.Key() == k
    requires forall j | last < j < |steps| :: steps[j].cand.Key() != k
    ensures CurrentObject(Group(AfterSteps(ms, ctx, steps), ctx.scope, k), steps[last].cand.obj)
  {
    hide StepReady, StepMemories, Sound, MultiplicityOf;
    var n := |steps| - 1;
    var p := steps[..n];
    var ms1 := AfterSteps(ms, ctx, p);
    if last == n {
      StepsKeepGood(ms, ctx, p, ctx.scope, k, true, false);
      SingleStepSetsObject(ms1, ctx, steps[n]);
    } else {
      LastCandidateWins(ms, ctx, p, k, last);
      StepOnGroup(ms1, ctx, steps[n], ctx.scope, k);
    }
  }

  // ---------------------------------------------------------------- ingesting the same candidates again

  /** If `a` is single-valued and shares its key with `b`, they have equal objects. */
  predicate Compatible(a: Candidate, b: Candidate) {
    a.Key() == b.Key() && MultiplicityOf(a.pred) == One ==> Norm(a.obj) == Norm(b.obj)
  }

  predicate Coexisting(c: Candidate) {
    MultiplicityOf(c.pred) == Many ==> !c.corrects
  }

  /** No many-valued candidate corrects, and a single-valued one shares its key only with equal objects. */
  ghost predicate Coherent(steps: seq<Step>) {
    && (forall i {:trigger Coexisting(steps[i].cand)} | 0 <= i < |steps| :: Coexisting(steps[i].cand))
    && (forall i, j {:trigger Compatible(steps[i].cand, steps[j].cand)} | 0 <= i < |steps| && 0 <= j < |steps| ::
          Compatible(steps[i].cand, steps[j].cand))
  }

  /** A row that the decision leaves active stays in its group. */
  lemma StaysPresent(ms: map<Uuid, Memory>, ctx: Context, st: Step, c: Candidate, id: Uuid)
    requires StepReady(ms, ctx, st) && id in Group(ms, ctx.scope, c.Key()) && ms[id].active && SameObject(ms[id], c.obj)
    requires id !in DecisionOf(ms, ctx, st).deactivate
    ensures Present(StepMemories(ms, ctx, st), ctx.scope, c)
  {
    hide StepReady, StepMemories, DecisionOf, SameObject;
    StepRows(ms, ctx, st);
    var ms' := StepMemories(ms, ctx, st);
    assert ms'[id].obj == ms[id].obj && id in Group(ms', ctx.scope, c.Key());
    SameByObject(ms'[id], ms[id], c.obj);
  }

  lemma SameByObject(a: Memory, b: Memory, obj: string)
    requires a.obj == b.obj
    ensures SameObject(a, obj) == SameObject(b, obj)
  {
  }

  /** A coherent step loses no earlier candidate. */
  lemma StepKeepsPresent(ms: map<Uuid, Memory>, ctx: Context, st: Step, c: Candidate)
    requires StepReady(ms, ctx, st) && Present(ms, ctx.scope, c)
    requires Coexisting(st.cand) && Compatible(st.cand, c)
    ensures Present(StepMemories(ms, ctx, st), ctx.scope, c)
  {
    hide MultiplicityOf, StepReady, StepMemories, DecisionOf, IsLatestIn;
    var id :| id in Group(ms, ctx.scope, c.Key()) && ms[id].active && SameObject(ms[id], c.obj);
    if st.cand.Key() == c.Key() && MultiplicityOf(st.cand.pred) == One {
      assert SameObject(ms[id], st.cand.obj);
      StepPresent(ms, ctx, st);
    } else {
      assert id !in DecisionOf(ms, ctx, st).deactivate by {
        SparesOthers(ms, ctx, st, c.Key(), id);
      }
      StaysPresent(ms, ctx, st, c, id);
    }
  }

  /** A step deactivates nothing in other groups, nor in its own if its candidate coexists. */
  lemma SparesOthers(ms: map<Uuid, Memory>, ctx: Context, st: Step, k: string, id: Uuid)
    requires StepReady(ms, ctx, st) && id in Group(ms, ctx.scope, k) && Coexisting(st.cand)
    requires st.cand.Key() != k || MultiplicityOf(st.cand.pred) == Many
    ensures id !in DecisionOf(ms, ctx, st).deactivate
  {
    hide MultiplicityOf, StepReady, StepMemories, DecisionOf, IsLatestIn;
    StepOnGroup(ms, ctx, st, ctx.scope, st.cand.Key());
    assert id !in (set i | i in DecisionOf(ms, ctx, st).deactivate) ==> id !in DecisionOf(ms, ctx, st).deactivate;
  }

  /** One more coherent step: all candidates up to it are present. */
  lemma StepLeavesPresent(ms: map<Uuid, Memory>, ctx: Context, steps: seq<Step>, i: nat)
    requires Coherent(steps) && i < |steps| && StepReady(ms, ctx, steps[|steps| - 1])
    requires i < |steps| - 1 ==> Present(ms, ctx.scope, steps[i].cand)
    ensures Present(StepMemories(ms, ctx, steps[|steps| - 1]), ctx.scope, steps[i].cand)
  {
    var n := |steps| - 1;
    if i == n {
      StepPresent(ms, ctx, steps[n]);
      return;
    }
    assert Coexisting(steps[n].cand) && Compatible(steps[n].cand, steps[i].cand);
    StepKeepsPresent(ms, ctx, steps[n], steps[i].cand);
  }

  lemma CoherentPrefix(steps: seq<Step>, n: nat)
    requires Coherent(steps) && n <= |steps|
    ensures Coherent(steps[..n])
  {
    var p := steps[..n];
    forall i | 0 <= i < n ensures Coexisting(p[i].cand) {
      assert Coexisting(steps[i].cand);
    }
    forall i, j | 0 <= i < n && 0 <= j < n ensures Compatible(p[i].cand, p[j].cand) {
      assert Compatible(steps[i].cand, steps[j].cand);
    }
  }

  lemma {:induction false} LoopLeavesPresent(ms: map<Uuid, Memory>, ctx: Context, steps: seq<Step>, i: nat)
    requires StepsReady(ms, ctx, steps) && Coherent(steps) && i < |steps|
    ensures Present(AfterSteps(ms, ctx, steps), ctx.scope, steps[i].cand)
  {
    var n := |steps| - 1;
    var p := steps[..n];
    if i < n {
      CoherentPrefix(steps, n);
      LoopLeavesPresent(ms, ctx, p, i);
    }
    StepLeavesPresent(AfterSteps(ms, ctx, p), ctx, steps, i);
  }

  lemma {:induction false} PresentLoopIdle(ms: map<Uuid, Memory>, ctx: Context, steps: seq<Step>)
    requires StepsReady(ms, ctx, steps)
    requires forall i | 0 <= i < |steps| :: Present(ms, ctx.scope, steps[i].cand)
    ensures AfterSteps(ms, ctx, steps) == ms && InsertedIds(ms, ctx, steps) == []
  {
    if steps != [] {
      PresentLoopIdle(ms, ctx, steps[..|steps| - 1]);
      StepPresent(ms, ctx, steps[|steps| - 1]);
    }
  }

  lemma {:induction false} PresentDbIdle(db: Db, ctx: Context, steps: seq<Step>)
    requires LoopReady(db, ctx, steps)
    requires forall i | 0 <= i < |steps| :: Present(db.memories, ctx.scope, steps[i].cand)
    ensures AfterLoop(db, ctx, steps) == db
  {
    hide Present, StepReady, StepMemories, DecisionOf, LinksReady;
    if steps != [] {
      PresentDbIdle(db, ctx, steps[..|steps| - 1]);
      StepPresent(db.memories, ctx, steps[|steps| - 1]);
    }
  }

  /**
   * Ingesting the candidates of a coherent turn a second time, in whatever later transaction, adds
   * its turn row and changes nothing else: no row, entity, mention or edge.
   */
  lemma SecondIngestIdle(
    db: Db, session: string, user: Option<string>, timestamp: int, turn: Uuid, now: int, steps: seq<Step>,
    timestamp': int, turn': Uuid, now': int, steps': seq<Step>)
    requires Valid(db, Ingest(session, user, timestamp, turn, now, steps)) && Coherent(steps)
    requires var db1 := IngestTurn(db, session, user, timestamp, turn, now, steps);
             Valid(db1, Ingest(session, user, timestamp', turn', now', steps'))
    requires |steps'| == |steps| && forall i | 0 <= i < |steps| :: steps'[i].cand == steps[i].cand
    ensures var db1 := IngestTurn(db, session, user, timestamp, turn, now, steps);
            IngestTurn(db1, session, user, timestamp', turn', now', steps')
            == AddTurn(db1, session, user, timestamp', turn')
  {
    hide Present, Coherent, StepsReady, LoopReady, AfterSteps, AfterLoop, LinkTurn;
    var ctx, ctx' := ContextOf(session, user, turn, now), ContextOf(session, user, turn', now');
    var db1 := IngestTurn(db, session, user, timestamp, turn, now, steps);
    var d := AddTurn(db1, session, user, timestamp', turn');
    IngestMemories(db, session, user, timestamp, turn, now, steps);
    IngestMemories(db1, session, user, timestamp', turn', now', steps');
    forall i | 0 <= i < |steps'| ensures Present(db1.memories, ctx'.scope, steps'[i].cand) {
      LoopLeavesPresent(db.memories, ctx, steps, i);
    }
    PresentLoopIdle(db1.memories, ctx', steps');
    PresentDbIdle(d, ctx', steps');
    assert InsertedSet(db1.memories, ctx', steps') == {};
    NothingToLink(d, ctx'.scope);
  }

  lemma NothingToLink(db: Db, s: Scope)
    ensures LinkTurn(db, s, {}) == db
  {
    assert NewEdges(db.memories, s, {}) == {};
    assert AddEdges(db.edges, {}) == db.edges;
  }
}
