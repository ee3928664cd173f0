/** Runs that show the conditions of the theorems are met with: what happens where they fail. */
module Witnesses {
  import opened Tables
  import opened Text
  import opened Taxonomy
  import opened Reconciler
  import opened Groups
  import opened Lifecycle
  import opened Invariants
  import opened Graph

  // ---------------------------------------------------------------- steps whose outcome is plain

  lemma RunSnoc(evs: seq<Event>, ev: Event)
    ensures Run(evs + [ev]) == Apply(Run(evs), ev)
    ensures ValidRun(evs + [ev]) <==> ValidRun(evs) && Valid(Run(evs), ev)
  {
    hide Apply, Valid;
    var all := evs + [ev];
    assert all[..|all| - 1] == evs;
  }

  ghost predicate NoEntities(steps: seq<Step>) {
    forall i | 0 <= i < |steps| :: steps[i].cand.entities == [] && steps[i].entityIds == []
  }

  lemma {:induction false} NoEntitiesReady(db: Db, ctx: Context, steps: seq<Step>)
    requires NoEntities(steps) && StepsReady(db.memories, ctx, steps)
    ensures LoopReady(db, ctx, steps)
  {
    hide StepReady, StepMemories;
    if steps != [] {
      var n := |steps| - 1;
      NoEntitiesReady(db, ctx, steps[..n]);
      AfterLoopMemories(db, ctx, steps[..n]);
    }
  }

  /** A single-valued candidate with a new object takes the place of the only active row. */
  lemma Replaces(ms: map<Uuid, Memory>, ctx: Context, st: Step, prior: Uuid)
    requires StepReady(ms, ctx, st) && MultiplicityOf(st.cand.pred) == One
    requires var g := Group(ms, ctx.scope, st.cand.Key());
      prior in g && g[prior].active && !SameObject(g[prior], st.cand.obj)
      && forall o | o in g && g[o].active :: o == prior
    ensures StepMemories(ms, ctx, st)
         == ms[prior := ms[prior].(active := false)]
          [st.id := NewRow(ctx, st.cand, Decision(true, true, Some(prior), []))]
  {
    hide MultiplicityOf, SameObject, Group, StepMemories, DecisionOf, StepReady;
    var g := Group(ms, ctx.scope, st.cand.Key());
    StepOnGroup(ms, ctx, st, ctx.scope, st.cand.Key());
    StepRows(ms, ctx, st);
    GroupRow(ms, ctx.scope, st.cand.Key(), prior);
    var d := DecisionOf(ms, ctx, st);
    OnlyReplaced(g, st.cand, d, prior);
  }

  lemma GroupRow(ms: map<Uuid, Memory>, s: Scope, k: string, id: Uuid)
    ensures id in Group(ms, s, k) <==> id in ms && ms[id].scope == s && ms[id].key == k
    ensures id in Group(ms, s, k) ==> Group(ms, s, k)[id] == ms[id]
  {
  }

  lemma OnlyReplaced(g: map<Uuid, Memory>, c: Candidate, d: Decision, prior: Uuid)
    requires Policy(g, c, d) && MultiplicityOf(c.pred) == One
    requires prior in g && g[prior].active && !SameObject(g[prior], c.obj)
      && forall o | o in g && g[o].active :: o == prior
    ensures d.insert && d.active && d.supersedes == Some(prior)
    ensures forall id :: id in d.deactivate <==> id == prior
  {
    assert prior in ActiveSet(g);
    assert forall id | id in d.deactivate :: id in (set i | i in d.deactivate);
  }

  /** A candidate whose object is new to a group it need not clear is inserted beside the rows there. */
  lemma Coexists(ms: map<Uuid, Memory>, ctx: Context, st: Step)
    requires StepReady(ms, ctx, st)
    requires var g := Group(ms, ctx.scope, st.cand.Key());
      && (forall o | o in g && g[o].active :: !SameObject(g[o], st.cand.obj))
      && (g == map[] || (MultiplicityOf(st.cand.pred) == Many && !st.cand.corrects))
    ensures StepMemories(ms, ctx, st) == ms[st.id := NewRow(ctx, st.cand, Decision(true, true, None, []))]
  {
    hide MultiplicityOf, SameObject, Group, StepMemories, DecisionOf, StepReady;
    StepOnGroup(ms, ctx, st, ctx.scope, st.cand.Key());
    StepRows(ms, ctx, st);
    var d := DecisionOf(ms, ctx, st);
    assert forall id | id in d.deactivate :: id in (set i | i in d.deactivate);
    FirstIn(d.deactivate);
  }

  lemma LetterNorm(s: string)
    requires |s| == 1 && 'a' <= s[0] <= 'z'
    ensures Norm(s) == s
  {
    StripIsStripped(s);
  }

  // ---------------------------------------------------------------- a superseded row comes back

  const ALICE := User("alice")

  function Fact(pred: string, obj: string): Candidate {
    Candidate(MemoryType.Fact, "user", pred, obj, obj, "", 1.0, [], false)
  }

  function RowAt(
    pred: string, obj: string, session: string, turn: Uuid, now: int, supersedes: Option<Uuid>, active: bool): Memory
  {
    NewRow(Context(ALICE, session, turn, now), Fact(pred, obj), Decision(true, active, supersedes, []))
  }

  function Row(pred: string, obj: string, session: string, turn: Uuid, supersedes: Option<Uuid>, active: bool): Memory {
    RowAt(pred, obj, session, turn, 0, supersedes, active)
  }

  /** A turn with two employers: rows 10 and 11 under one stamp, the second superseding the first. */
  function FirstTurn(): Event {
    Ingest("s1", Some("alice"), 0, 1, 0,
           [Step(Fact("employer", "a"), [], 10, []), Step(Fact("employer", "b"), [10], 11, [])])
  }

  /** Another session names a third: row 12, which supersedes row 11. */
  function SecondTurn(): Event {
    Ingest("s2", Some("alice"), 0, 2, 0, [Step(Fact("employer", "c"), [11, 10], 12, [])])
  }

  /** A third session adds another fact of the subject: row 13. */
  function ThirdTurn(): Event {
    Ingest("s3", Some("alice"), 0, 3, 0, [Step(Fact("lives_in", "d"), [], 13, [])])
  }

  lemma EmployerIsOne()
    ensures MultiplicityOf("employer") == One && MultiplicityOf("lives_in") == One
    ensures KeyOf("user", "employer") != KeyOf("user", "lives_in")
  {
    hide RELATIONS, TASTES;
    assert "employer" in CIRCUMSTANCES && "lives_in" in CIRCUMSTANCES;
    assert "employer" !in RELATIONS && "employer" !in TASTES && "lives_in" !in RELATIONS && "lives_in" !in TASTES by {
      NotElsewhere();
    }
    assert KeyOf("user", "employer")[6] == 'e' && KeyOf("user", "lives_in")[6] == 'l';
  }

  lemma NotElsewhere()
    ensures "employer" !in RELATIONS && "employer" !in TASTES && "lives_in" !in RELATIONS && "lives_in" !in TASTES
  {
    hide CIRCUMSTANCES;
  }

  function RowsOne(): map<Uuid, Memory> {
    map[10 := Row("employer", "a", "s1", 1, None, false), 11 := Row("employer", "b", "s1", 1, Some(10), true)]
  }

  function RowsTwo(): map<Uuid, Memory> {
    map[10 := Row("employer", "a", "s1", 1, None, false), 11 := Row("employer", "b", "s1", 1, Some(10), false),
        12 := Row("employer", "c", "s2", 2, Some(11), true)]
  }

  function RowsThree(): map<Uuid, Memory> {
    RowsTwo()[13 := Row("lives_in", "d", "s3", 3, None, true)]
  }

  lemma AfterFirst(ctx: Context, a: Step, b: Step)
    requires ctx == Context(ALICE, "s1", 1, 0)
    requires a == Step(Fact("employer", "a"), [], 10, []) && b == Step(Fact("employer", "b"), [10], 11, [])
    ensures StepsReady(map[], ctx, [a, b]) && AfterSteps(map[], ctx, [a, b]) == RowsOne()
  {
    hide MultiplicityOf, KeyOf, Norm, StepMemories, AfterSteps, StepsReady;
    EmployerIsOne();
    LetterNorm("a");
    LetterNorm("b");
    var ms: map<Uuid, Memory> := map[];
    var k := KeyOf("user", "employer");
    assert Group(ms, ALICE, k) == map[];
    Coexists(ms, ctx, a);
    var ms1 := StepMemories(ms, ctx, a);
    assert ms1 == map[10 := Row("employer", "a", "s1", 1, None, true)];
    assert Group(ms1, ALICE, k) == ms1;
    Replaces(ms1, ctx, b, 10);
    assert StepMemories(ms1, ctx, b) == RowsOne();
    TwoSteps(ms, ctx, a, b);
  }

  lemma OneStep(ms: map<Uuid, Memory>, ctx: Context, a: Step)
    ensures AfterSteps(ms, ctx, [a]) == StepMemories(ms, ctx, a)
    ensures StepsReady(ms, ctx, [a]) <==> StepReady(ms, ctx, a)
  {
    hide StepMemories, StepReady;
    assert [a][..0] == [];
    assert AfterSteps(ms, ctx, []) == ms;
  }

  lemma TwoSteps(ms: map<Uuid, Memory>, ctx: Context, a: Step, b: Step)
    ensures AfterSteps(ms, ctx, [a, b]) == StepMemories(StepMemories(ms, ctx, a), ctx, b)
    ensures StepsReady(ms, ctx, [a, b]) <==> StepReady(ms, ctx, a) && StepReady(StepMemories(ms, ctx, a), ctx, b)
  {
    hide StepMemories, StepReady;
    OneStep(ms, ctx, a);
    assert [a, b][..1] == [a];
  }

  lemma SecondReady(ctx: Context, c: Step)
    requires ctx == Context(ALICE, "s2", 2, 0) && c == Step(Fact("employer", "c"), [11, 10], 12, [])
    ensures Group(RowsOne(), ALICE, KeyOf("user", "employer")) == RowsOne() && StepReady(RowsOne(), ctx, c)
  {
    hide KeyOf;
    assert Group(RowsOne(), ALICE, KeyOf("user", "employer")) == RowsOne();
  }

  lemma AfterSecond(ctx: Context, c: Step)
    requires ctx == Context(ALICE, "s2", 2, 0) && c == Step(Fact("employer", "c"), [11, 10], 12, [])
    ensures StepsReady(RowsOne(), ctx, [c]) && AfterSteps(RowsOne(), ctx, [c]) == RowsTwo()
  {
    hide MultiplicityOf, KeyOf, Norm, StepReady, StepMemories, AfterSteps, StepsReady;
    EmployerIsOne();
    LetterNorm("b");
    LetterNorm("c");
    SecondReady(ctx, c);
    Replaces(RowsOne(), ctx, c, 11);
    OneStep(RowsOne(), ctx, c);
  }

  lemma AfterThird(ctx: Context, d: Step)
    requires ctx == Context(ALICE, "s3", 3, 0) && d == Step(Fact("lives_in", "d"), [], 13, [])
    ensures StepsReady(RowsTwo(), ctx, [d]) && AfterSteps(RowsTwo(), ctx, [d]) == RowsThree()
  {
    hide MultiplicityOf, KeyOf, Norm, StepMemories, AfterSteps, StepsReady;
    EmployerIsOne();
    var ms := RowsTwo();
    assert Group(ms, ALICE, KeyOf("user", "lives_in")) == map[];
    Coexists(ms, ctx, d);
    OneStep(ms, ctx, d);
  }

  /** One ingest whose steps are known. */
  lemma IngestSnoc(evs: seq<Event>, ev: Event, ms: map<Uuid, Memory>)
    requires ValidRun(evs) && ev.Ingest? && ev.turn !in Run(evs).turns && NoEntities(ev.steps)
    requires StepsReady(Run(evs).memories, EventContext(ev), ev.steps)
    requires AfterSteps(Run(evs).memories, EventContext(ev), ev.steps) == ms
    ensures ValidRun(evs + [ev]) && Run(evs + [ev]).memories == ms
    ensures Run(evs + [ev]).turns.Keys == Run(evs).turns.Keys + {ev.turn}
  {
    hide StepsReady, AfterSteps, NoEntities, LoopReady, AfterLoop, LinkTurn;
    var db := Run(evs);
    RunSnoc(evs, ev);
    NoEntitiesReady(AddTurn(db, ev.session, ev.user, ev.timestamp, ev.turn), EventContext(ev), ev.steps);
    IngestMemories(db, ev.session, ev.user, ev.timestamp, ev.turn, ev.now, ev.steps);
  }

  lemma TwoTurns(none: seq<Event>) returns (evs: seq<Event>)
    requires ValidRun(none) && Run(none) == EMPTY
    ensures ValidRun(evs) && Run(evs).memories == RowsTwo() && Run(evs).turns.Keys == {1, 2}
  {
    hide StepsReady, AfterSteps, RowsOne, RowsTwo, Run, ValidRun;
    AfterFirst(Context(ALICE, "s1", 1, 0), FirstTurn().steps[0], FirstTurn().steps[1]);
    IngestSnoc(none, FirstTurn(), RowsOne());
    AfterSecond(Context(ALICE, "s2", 2, 0), SecondTurn().steps[0]);
    IngestSnoc(none + [FirstTurn()], SecondTurn(), RowsTwo());
    evs := none + [FirstTurn()] + [SecondTurn()];
  }

  lemma NoTurns() returns (evs: seq<Event>)
    ensures evs == [] && ValidRun(evs) && Run(evs) == EMPTY
  {
    evs := [];
  }

  lemma ThreeTurns() returns (evs: seq<Event>)
    ensures ValidRun(evs) && Run(evs).memories == RowsThree() && Edge(10, 13, SameSubject) !in Run(evs).edges
  {
    hide StepsReady, AfterSteps, RowsTwo, RowsThree, Run, ValidRun;
    var none := NoTurns();
    var two := TwoTurns(none);
    AfterThird(Context(ALICE, "s3", 3, 0), ThirdTurn().steps[0]);
    IngestSnoc(two, ThirdTurn(), RowsThree());
    RowsTenThirteen();
    NoEdgeToInactive(two, ThirdTurn(), 10, 13);
    evs := two + [ThirdTurn()];
  }

  lemma RowsTenThirteen()
    ensures 10 in RowsTwo() && 13 !in RowsTwo() && 10 in RowsThree() && !RowsThree()[10].active
  {
  }

  /** A turn links no new row to an old one that is inactive. */
  lemma NoEdgeToInactive(evs: seq<Event>, ev: Event, a: Uuid, b: Uuid)
    requires ev.Ingest? && ValidRun(evs) && ValidRun(evs + [ev])
    requires a in Run(evs).memories && b !in Run(evs).memories
    requires a in Run(evs + [ev]).memories && !Run(evs + [ev]).memories[a].active
    ensures Edge(a, b, SameSubject) !in Run(evs + [ev]).edges
  {
    var e := Edge(a, b, SameSubject);
    var ids := InsertedSet(Run(evs).memories, EventContext(ev), ev.steps);
    hide StepsReady, AfterSteps, InsertedSet, Run, ValidRun, Valid, IngestTurn, Apply;
    RunSnoc(evs, ev);
    OldEdgesJoinOldRows(evs, e);
    RunAddsOnly(Run(evs), ev);
    assert !IsNewEdge(Apply(Run(evs), ev).memories, EventContext(ev).scope, ids, e);
    EdgesOfIngest(Run(evs), ev, ids, e);
  }

  /** An edge is new only if the turn's loops insert it. */
  lemma EdgesOfIngest(db: Db, ev: Event, ids: set<Uuid>, e: Edge)
    requires ev.Ingest? && ids == InsertedSet(db.memories, EventContext(ev), ev.steps) && e !in db.edges
    requires !IsNewEdge(Apply(db, ev).memories, EventContext(ev).scope, ids, e)
    ensures e !in Apply(db, ev).edges
  {
    hide AfterSteps, InsertedSet, IsNewEdge;
    AfterLoopMemories(AddTurn(db, ev.session, ev.user, ev.timestamp, ev.turn), EventContext(ev), ev.steps);
  }

  lemma OldEdgesJoinOldRows(evs: seq<Event>, e: Edge)
    requires ValidRun(evs) && e.dst !in Run(evs).memories
    ensures e !in Run(evs).edges
  {
    RunGraphSound(evs);
    assert e in Run(evs).edges ==> EdgeSound(Run(evs), e);
  }

  lemma RunAddsOnly(db: Db, ev: Event)
    requires ev.Ingest? && Valid(db, ev)
    ensures InsertedSet(db.memories, EventContext(ev), ev.steps) !! db.memories.Keys
  {
    hide StepsReady, AfterSteps, LoopReady;
    IngestMemories(db, ev.session, ev.user, ev.timestamp, ev.turn, ev.now, ev.steps);
    InsertedAreNew(db.memories, EventContext(ev), ev.steps);
  }

  /**
   * With equal stamps a session delete brings a superseded row back: row 11 supersedes row 10, which is
   * active again. And the row that came back is not linked to an active row of its subject that was
   * added in the meantime.
   */
  lemma SupersededRowReturns() returns (evs: seq<Event>)
    ensures ValidRun(evs)
    ensures var ms := Run(evs).memories; 10 in ms && ms[10].active && Supersedes(ms, 11, 10)
    ensures !SubjectsLinked(Run(evs))
  {
    hide RowsThree, Run, ValidRun, Valid, SubjectsLinked, DropSession;
    var three := ThreeTurns();
    var picks := map[GroupKey(ALICE, KeyOf("user", "employer")) := 10];
    RunSnoc(three, DeleteSession("s2", picks));
    TraceableRun(three);
    DeletionReactivates(Run(three), picks);
    evs := three + [DeleteSession("s2", picks)];
  }

  lemma TraceableRun(evs: seq<Event>)
    requires ValidRun(evs)
    ensures Traceable(Run(evs))
  {
    RunConsistent(evs);
  }

  lemma DeletionReactivates(db: Db, picks: map<GroupKey, Uuid>)
    requires Traceable(db) && db.memories == RowsThree() && Edge(10, 13, SameSubject) !in db.edges
    requires picks == map[GroupKey(ALICE, KeyOf("user", "employer")) := 10]
    ensures Valid(db, DeleteSession("s2", picks))
    ensures var db' := DropSession(db, "s2", picks);
      10 in db'.memories && db'.memories[10].active && Supersedes(db'.memories, 11, 10) && !SubjectsLinked(db')
  {
    hide RowsThree, SessionMemories, Affected, Traceable, WithoutSession, WithoutMemories, Recompute, PicksValid, KeyOf;
    var gk := GroupKey(ALICE, KeyOf("user", "employer"));
    var ms := WithoutMemories(RowsThree(), {12});
    DropSessionMemories(db, "s2");
    WhatGoes(db, gk);
    WhatStays(ms, gk, picks);
    var db' := DropSession(db, "s2", picks);
    assert db'.memories == Recompute(ms, {gk}, picks);
    assert Edge(10, 13, SameSubject) !in db'.edges by {
      FewerEdges(db, "s2", picks);
    }
  }

  lemma FewerEdges(db: Db, session: string, picks: map<GroupKey, Uuid>)
    ensures forall e | e in DropSession(db, session, picks).edges :: e in db.edges
  {
  }

  lemma WhatGoes(db: Db, gk: GroupKey)
    requires db.memories == RowsThree() && gk == GroupKey(ALICE, KeyOf("user", "employer"))
    ensures SessionMemories(db, "s2") == {12} && Affected(db, "s2") == {gk}
  {
    hide KeyOf;
  }

  lemma WhatStays(ms: map<Uuid, Memory>, gk: GroupKey, picks: map<GroupKey, Uuid>)
    requires ms == WithoutMemories(RowsThree(), {12}) && gk == GroupKey(ALICE, KeyOf("user", "employer"))
    requires picks == map[gk := 10]
    ensures PicksValid(ms, {gk}, picks)
    ensures var ms' := Recompute(ms, {gk}, picks);
      && ms'.Keys == {10, 11, 13} && Supersedes(ms', 11, 10) && ms'[10].active && ms'[13].active
      && ms'[10].scope == ms'[13].scope && ms'[10].subject == ms'[13].subject
  {
    hide KeyOf, MultiplicityOf, PicksValid;
    EmployerIsOne();
    PickOfTie(ms, gk, picks);
  }

  lemma PickOfTie(ms: map<Uuid, Memory>, gk: GroupKey, picks: map<GroupKey, Uuid>)
    requires ms == WithoutMemories(RowsThree(), {12}) && gk == GroupKey(ALICE, KeyOf("user", "employer"))
    requires picks == map[gk := 10]
    ensures PicksValid(ms, {gk}, picks)
  {
    hide KeyOf, MultiplicityOf;
    EmployerIsOne();
    var g := Group(ms, gk.scope, gk.key);
    assert g.Keys == {10, 11};
    assert IsPick(g, Some(10));
  }

  // ---------------------------------------------------------------- a restored row is not linked

  function EmployerA(): Event {
    Ingest("s1", Some("alice"), 0, 1, 0, [Step(Fact("employer", "a"), [], 10, [])])
  }

  /** A later session replaces the employer. */
  function EmployerB(): Event {
    Ingest("s2", Some("alice"), 0, 2, 1, [Step(Fact("employer", "b"), [10], 11, [])])
  }

  /** And a still later one adds another fact of the subject, while the first employer is inactive. */
  function HomeD(): Event {
    Ingest("s3", Some("alice"), 0, 3, 2, [Step(Fact("lives_in", "d"), [], 12, [])])
  }

  function StampedOne(): map<Uuid, Memory> {
    map[10 := RowAt("employer", "a", "s1", 1, 0, None, true)]
  }

  function StampedTwo(): map<Uuid, Memory> {
    map[10 := RowAt("employer", "a", "s1", 1, 0, None, false), 11 := RowAt("employer", "b", "s2", 2, 1, Some(10), true)]
  }

  function StampedThree(): map<Uuid, Memory> {
    StampedTwo()[12 := RowAt("lives_in", "d", "s3", 3, 2, None, true)]
  }

  lemma StampedA()
    ensures var ms, ctx, st := map[], EventContext(EmployerA()), EmployerA().steps[0];
      StepReady(ms, ctx, st) && StepMemories(ms, ctx, st) == StampedOne()
  {
    hide MultiplicityOf, KeyOf, Norm, StepMemories;
    var ms: map<Uuid, Memory> := map[];
    assert Group(ms, ALICE, KeyOf("user", "employer")) == map[];
    Coexists(ms, EventContext(EmployerA()), EmployerA().steps[0]);
  }

  lemma StampedB()
    ensures var ms, ctx, st := StampedOne(), EventContext(EmployerB()), EmployerB().steps[0];
      StepReady(ms, ctx, st) && StepMemories(ms, ctx, st) == StampedTwo()
  {
    hide MultiplicityOf, KeyOf, Norm, StepMemories;
    EmployerIsOne();
    LetterNorm("a");
    LetterNorm("b");
    var ms := StampedOne();
    assert Group(ms, ALICE, KeyOf("user", "employer")) == ms;
    Replaces(ms, EventContext(EmployerB()), EmployerB().steps[0], 10);
  }

  lemma StampedD()
    ensures var ms, ctx, st := StampedTwo(), EventContext(HomeD()), HomeD().steps[0];
      StepReady(ms, ctx, st) && StepMemories(ms, ctx, st) == StampedThree()
  {
    hide MultiplicityOf, KeyOf, Norm, StepMemories;
    EmployerIsOne();
    var ms := StampedTwo();
    assert Group(ms, ALICE, KeyOf("user", "lives_in")) == map[];
    Coexists(ms, EventContext(HomeD()), HomeD().steps[0]);
  }

  /** Each turn has one candidate, and starts after every row there is was stamped. */
  ghost predicate Stamped(evs: seq<Event>) {
    forall i | 0 <= i < |evs| && evs[i].Ingest? ::
      |evs[i].steps| == 1 && Later(Run(evs[..i]).memories, evs[i].now)
  }

  lemma StampedSnoc(evs: seq<Event>, ev: Event)
    requires Stamped(evs)
    requires ev.Ingest? ==> |ev.steps| == 1 && Later(Run(evs).memories, ev.now)
    ensures Stamped(evs + [ev])
  {
    hide Run;
    var all := evs + [ev];
    assert all[..|evs|] == evs;
    assert forall i | 0 <= i < |evs| :: all[i] == evs[i] && all[..i] == evs[..i];
  }

  lemma StampedIncreases(evs: seq<Event>, s: Scope, k: string)
    requires Stamped(evs)
    ensures IncreasingStamps(evs, s, k)
  {
    hide Run, DecisionOf;
    forall i, j | 0 <= i < |evs| && evs[i].Ingest? && 0 <= j < |evs[i].steps|
      ensures var ms := AfterSteps(Run(evs[..i]).memories, EventContext(evs[i]), evs[i].steps[..j]);
        Later(Group(ms, s, k), evs[i].now)
    {
      assert evs[i].steps[..j] == [];
    }
  }

  lemma StampedTurns(none: seq<Event>) returns (evs: seq<Event>)
    requires none == [] && ValidRun(none) && Run(none) == EMPTY
    ensures ValidRun(evs) && Stamped(evs) && Run(evs).memories == StampedThree()
    ensures Edge(10, 12, SameSubject) !in Run(evs).edges
  {
    hide StepReady, StepMemories, StepsReady, AfterSteps, StampedOne, StampedTwo, StampedThree, Run, ValidRun, Stamped;
    hide Group, EffectOn, Deactivated;
    StampedA();
    StampedB();
    StampedD();
    StampedRows();
    NoneStamped(none);
    var one, two := none + [EmployerA()], none + [EmployerA()] + [EmployerB()];
    OneStep(map[], EventContext(EmployerA()), EmployerA().steps[0]);
    IngestSnoc(none, EmployerA(), StampedOne());
    StampedSnoc(none, EmployerA());
    OneStep(StampedOne(), EventContext(EmployerB()), EmployerB().steps[0]);
    IngestSnoc(one, EmployerB(), StampedTwo());
    StampedSnoc(one, EmployerB());
    OneStep(StampedTwo(), EventContext(HomeD()), HomeD().steps[0]);
    IngestSnoc(two, HomeD(), StampedThree());
    StampedSnoc(two, HomeD());
    NoEdgeToInactive(two, HomeD(), 10, 12);
    evs := two + [HomeD()];
  }

  lemma NoneStamped(evs: seq<Event>)
    requires evs == []
    ensures Stamped(evs)
  {
  }

  lemma StampedRows()
    ensures Later(map[], 0) && Later(StampedOne(), 1) && Later(StampedTwo(), 2)
    ensures 10 in StampedTwo() && 12 !in StampedTwo() && 10 in StampedThree() && !StampedThree()[10].active
  {
  }

  /**
   * Links break without any tie: all stamps increase, and deleting the session that named the second
   * employer restores the first, which is not linked to the fact that was added while it was inactive.
   */
  lemma RestoredRowUnlinked() returns (evs: seq<Event>)
    ensures ValidRun(evs) && forall s, k :: IncreasingStamps(evs, s, k)
    ensures !SubjectsLinked(Run(evs))
  {
    hide StampedThree, Run, ValidRun, Valid, SubjectsLinked, DropSession, Stamped, IncreasingStamps;
    var none := NoTurns();
    var three := StampedTurns(none);
    var picks := map[GroupKey(ALICE, KeyOf("user", "employer")) := 10];
    var ev := DeleteSession("s2", picks);
    RunSnoc(three, ev);
    TraceableRun(three);
    RestoringUnlinks(Run(three), picks);
    StampedSnoc(three, ev);
    evs := three + [ev];
    forall s, k ensures IncreasingStamps(evs, s, k) {
      StampedIncreases(evs, s, k);
    }
  }

  lemma RestoringUnlinks(db: Db, picks: map<GroupKey, Uuid>)
    requires Traceable(db) && db.memories == StampedThree() && Edge(10, 12, SameSubject) !in db.edges
    requires picks == map[GroupKey(ALICE, KeyOf("user", "employer")) := 10]
    ensures Valid(db, DeleteSession("s2", picks)) && !SubjectsLinked(DropSession(db, "s2", picks))
  {
    hide StampedThree, Traceable, WithoutSession, WithoutMemories, DropSession, PicksValid, KeyOf, ActiveAfter;
    var gk := GroupKey(ALICE, KeyOf("user", "employer"));
    DropSessionMemories(db, "s2");
    RestorePicks(db, gk, picks);
    DropSessionActive(db, "s2", picks);
    RestoreActive(db, gk, picks);
    FewerEdges(db, "s2", picks);
  }

  lemma RestoreGoes(db: Db, gk: GroupKey)
    requires db.memories == StampedThree() && gk == GroupKey(ALICE, KeyOf("user", "employer"))
    ensures SessionMemories(db, "s2") == {11} && Affected(db, "s2") == {gk}
  {
    hide KeyOf;
  }

  lemma RestorePicks(db: Db, gk: GroupKey, picks: map<GroupKey, Uuid>)
    requires db.memories == StampedThree() && gk == GroupKey(ALICE, KeyOf("user", "employer")) && picks == map[gk := 10]
    ensures PicksValid(WithoutMemories(db.memories, SessionMemories(db, "s2")), Affected(db, "s2"), picks)
  {
    hide SessionMemories, Affected;
    RestoreGoes(db, gk);
    RestorePick(WithoutMemories(db.memories, {11}), gk, picks);
  }

  lemma RestorePick(ms: map<Uuid, Memory>, gk: GroupKey, picks: map<GroupKey, Uuid>)
    requires ms == WithoutMemories(StampedThree(), {11}) && gk == GroupKey(ALICE, KeyOf("user", "employer"))
    requires picks == map[gk := 10]
    ensures PicksValid(ms, {gk}, picks)
  {
    hide KeyOf, MultiplicityOf;
    EmployerIsOne();
    var g := Group(ms, gk.scope, gk.key);
    assert g.Keys == {10};
    assert IsPick(g, Some(10));
  }

  lemma RestoreActive(db: Db, gk: GroupKey, picks: map<GroupKey, Uuid>)
    requires db.memories == StampedThree() && gk == GroupKey(ALICE, KeyOf("user", "employer")) && picks == map[gk := 10]
    ensures 10 in db.memories && ActiveAfter(db, "s2", picks, 10)
    ensures 12 in db.memories && ActiveAfter(db, "s2", picks, 12)
    ensures db.memories[10].scope == db.memories[12].scope && db.memories[10].subject == db.memories[12].subject
  {
    hide KeyOf, MultiplicityOf, Affected, SessionMemories;
    EmployerIsOne();
    RestoreGoes(db, gk);
  }

  // ---------------------------------------------------------------- two subjects under one key

  function Did(subject: string, obj: string): Candidate {
    Candidate(MemoryType.Fact, subject, "did", obj, obj, "", 1.0, [], false)
  }

  /**
   * Whenever a subject extends another, two things that it did are two active rows in the group of a
   * single-valued predicate of that other subject.
   */
  lemma ClashSplits(a: string, b: string) returns (pred: string, evs: seq<Event>)
    requires Taxonomy.Extends(a, b)
    ensures ValidRun(evs) && IsNormal(pred) && MultiplicityOf(pred) == One
    ensures !AtMostOneActive(Group(Run(evs).memories, ALICE, KeyOf(a, pred)))
  {
    hide MultiplicityOf, KeyOf, IsNormal, StepsReady, AfterSteps, Run, ValidRun;
    pred := ExtendsClashes(a, b);
    var x, y := Step(Did(b, "p"), [], 10, []), Step(Did(b, "q"), [10], 11, []);
    var ctx := Context(ALICE, "s1", 1, 0);
    TwoDeedsCoexist(ctx, x, y, b);
    var ev := Ingest("s1", Some("alice"), 0, 1, 0, [x, y]);
    var none := NoTurns();
    IngestSnoc(none, ev, AfterSteps(map[], ctx, [x, y]));
    evs := none + [ev];
    var g := Group(Run(evs).memories, ALICE, KeyOf(a, pred));
    assert 10 in g && 11 in g && g[10].active && g[11].active;
  }

  lemma TwoDeedsCoexist(ctx: Context, x: Step, y: Step, b: string)
    requires ctx == Context(ALICE, "s1", 1, 0)
    requires x == Step(Did(b, "p"), [], 10, []) && y == Step(Did(b, "q"), [10], 11, [])
    ensures StepsReady(map[], ctx, [x, y])
    ensures var ms, k := AfterSteps(map[], ctx, [x, y]), KeyOf(b, "did");
      && 10 in ms && ms[10].scope == ALICE && ms[10].key == k && ms[10].active
      && 11 in ms && ms[11].scope == ALICE && ms[11].key == k && ms[11].active
  {
    hide INDEX, CIRCUMSTANCES, RELATIONS, TASTES;
    var k := KeyOf(b, "did");
    DidIsMany();
    LetterNorm("p");
    LetterNorm("q");
    var ms: map<Uuid, Memory> := map[];
    assert Group(ms, ALICE, k) == map[];
    Coexists(ms, ctx, x);
    var ms1 := StepMemories(ms, ctx, x);
    assert Group(ms1, ALICE, k) == ms1;
    Coexists(ms1, ctx, y);
    TwoSteps(ms, ctx, x, y);
  }
}
