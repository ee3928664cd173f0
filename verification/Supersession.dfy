/** Supersession over whole runs, whatever the stamps: when links stay tidy, and why they never form a cycle. */
module Supersession {
  import opened Tables
  import opened Reconciler
  import opened Groups
  import opened Lifecycle
  import opened Invariants

  // ---------------------------------------------------------------- tidy links

  lemma {:induction false} StepsKeepTidy(ms: map<Uuid, Memory>, ctx: Context, steps: seq<Step>, s: Scope, k: string)
    requires StepsReady(ms, ctx, steps) && Tidy(Group(ms, s, k))
    ensures Tidy(Group(AfterSteps(ms, ctx, steps), s, k))
  {
    hide Tidy, Policy, Written, StepReady, StepMemories, DecisionOf, Concerns, Group;
    if steps == [] {
      return;
    }
    var n := |steps| - 1;
    StepsKeepTidy(ms, ctx, steps[..n], s, k);
    StepKeepsTidy(AfterSteps(ms, ctx, steps[..n]), ctx, steps[n], s, k);
  }

  lemma StepKeepsTidy(ms: map<Uuid, Memory>, ctx: Context, st: Step, s: Scope, k: string)
    requires StepReady(ms, ctx, st) && Tidy(Group(ms, s, k))
    ensures Tidy(Group(StepMemories(ms, ctx, st), s, k))
  {
    hide Tidy, Policy, Written, StepMemories, DecisionOf;
    StepOnGroup(ms, ctx, st, s, k);
    if Concerns(ctx, st, s, k) {
      WriteKeepsTidy(Group(ms, s, k), Group(StepMemories(ms, ctx, st), s, k), ctx, st.cand, DecisionOf(ms, ctx, st),
                     st.id);
    }
  }

  /** The row that the recompute of the group activates is superseded by rows of the deleted session only. */
  ghost predicate PicksUnsuperseded(db: Db, session: string, picks: map<GroupKey, Uuid>, s: Scope, k: string) {
    GroupKey(s, k) in Affected(db, session) && GroupKey(s, k) in picks ==>
      forall a | Supersedes(Group(db.memories, s, k), a, picks[GroupKey(s, k)]) :: db.memories[a].session == session
  }

  lemma DropSessionTidyIff(db: Db, session: string, picks: map<GroupKey, Uuid>, s: Scope, k: string)
    requires Traceable(db) && Tidy(Group(db.memories, s, k)) && Valid(db, DeleteSession(session, picks))
    ensures Tidy(Group(DropSession(db, session, picks).memories, s, k)) <==> PicksUnsuperseded(db, session, picks, s, k)
  {
    hide Tidy, LinksInside, Affected, DropSession, Traceable, Pruned, IsPick, WithoutSession;
    TidyInside(Group(db.memories, s, k));
    DropSessionOnGroup(db, session, picks, s, k);
    if GroupKey(s, k) in Affected(db, session) {
      PruneTidyIff(Group(db.memories, s, k), Group(DropSession(db, session, picks).memories, s, k),
                   SessionMemories(db, session), PickOf(picks, GroupKey(s, k)));
    }
  }

  lemma TidyInside(g: map<Uuid, Memory>)
    requires Tidy(g)
    ensures LinksInside(g)
  {
  }

  /** What a request must meet in order to keep the links of a group tidy; only a session delete can fail to. */
  ghost predicate KeepsTidy(db: Db, ev: Event, s: Scope, k: string) {
    ev.DeleteSession? ==> PicksUnsuperseded(db, ev.session, ev.picks, s, k)
  }

  lemma EventTidyIff(db: Db, ev: Event, s: Scope, k: string)
    requires Consistent(db) && Valid(db, ev) && Tidy(Group(db.memories, s, k))
    ensures Tidy(Group(Apply(db, ev).memories, s, k)) <==> KeepsTidy(db, ev, s, k)
  {
    hide Tidy, PicksUnsuperseded;
    match ev
    case Ingest(session, user, timestamp, turn, now, steps) =>
      IngestMemories(db, session, user, timestamp, turn, now, steps);
      StepsKeepTidy(db.memories, EventContext(ev), steps, s, k);
    case DeleteSession(session, picks) => DropSessionTidyIff(db, session, picks, s, k);
    case DeleteUser(user) =>
      TidyInside(Group(db.memories, s, k));
      DropUserOnGroup(db, user, s, k);
      NoRowsTidy();
  }

  lemma NoRowsTidy()
    ensures Tidy(map[])
  {
  }

  /** The links of the group are tidy at every point of the run. */
  ghost predicate AlwaysTidy(evs: seq<Event>, s: Scope, k: string) {
    forall n | 0 <= n <= |evs| :: Tidy(Group(Run(evs[..n]).memories, s, k))
  }

  /** No session delete of the run activates a row of the group that a row of another session supersedes. */
  ghost predicate RestoresHeads(evs: seq<Event>, s: Scope, k: string) {
    forall i | 0 <= i < |evs| :: KeepsTidy(Run(evs[..i]), evs[i], s, k)
  }

  lemma TidyPrefix(evs: seq<Event>, n: nat, s: Scope, k: string)
    requires |evs| == n + 1
    ensures AlwaysTidy(evs, s, k) <==> AlwaysTidy(evs[..n], s, k) && Tidy(Group(Run(evs).memories, s, k))
    ensures AlwaysTidy(evs[..n], s, k) ==> Tidy(Group(Run(evs[..n]).memories, s, k))
  {
    hide Tidy, Run, Group;
    var p := evs[..n];
    assert forall m | 0 <= m <= n :: p[..m] == evs[..m];
    assert evs[..|evs|] == evs && evs[..n][..n] == p;
  }

  lemma RestoresPrefix(evs: seq<Event>, n: nat, s: Scope, k: string)
    requires |evs| == n + 1
    ensures RestoresHeads(evs, s, k) <==> RestoresHeads(evs[..n], s, k) && KeepsTidy(Run(evs[..n]), evs[n], s, k)
  {
    hide KeepsTidy, Run;
    var p := evs[..n];
    assert forall i | 0 <= i < n :: p[..i] == evs[..i] && p[i] == evs[i];
  }

  /**
   * At every point of a run superseded rows are inactive and none is superseded twice, if and only if no
   * session delete activates a row that a row of another session supersedes.
   */
  lemma {:induction false} RunTidyIff(evs: seq<Event>, s: Scope, k: string)
    requires ValidRun(evs)
    ensures AlwaysTidy(evs, s, k) <==> RestoresHeads(evs, s, k)
  {
    hide Tidy, AlwaysTidy, RestoresHeads, KeepsTidy, Valid, Apply, Consistent, Group;
    if evs == [] {
      NothingTidy(evs, s, k);
      return;
    }
    var n := |evs| - 1;
    TidyPrefix(evs, n, s, k);
    RestoresPrefix(evs, n, s, k);
    RunTidyIff(evs[..n], s, k);
    RunConsistent(evs[..n]);
    if Tidy(Group(Run(evs[..n]).memories, s, k)) {
      EventTidyIff(Run(evs[..n]), evs[n], s, k);
    }
  }

  lemma NothingTidy(evs: seq<Event>, s: Scope, k: string)
    requires evs == []
    ensures AlwaysTidy(evs, s, k) && RestoresHeads(evs, s, k)
  {
    assert evs[..0] == evs && Group(EMPTY.memories, s, k) == map[];
  }

  // ---------------------------------------------------------------- no cycles

  /** The ranks decrease along links. */
  ghost predicate Ordered(g: map<Uuid, Memory>, rank: map<Uuid, nat>) {
    && g.Keys <= rank.Keys
    && forall a, b | Supersedes(g, a, b) && b in g :: rank[b] < rank[a]
  }

  ghost predicate OrderedBelow(g: map<Uuid, Memory>, rank: map<Uuid, nat>, n: nat) {
    Ordered(g, rank) && forall a | a in g :: rank[a] < n
  }

  /** A new row is ranked above all others. */
  lemma WriteKeepsOrder(g: map<Uuid, Memory>, g': map<Uuid, Memory>, ctx: Context, c: Candidate, d: Decision, id: Uuid,
                        rank: map<Uuid, nat>, n: nat)
    requires Policy(g, c, d) && Written(g, g', ctx, c, d, id) && id !in g && LinksInside(g)
    requires OrderedBelow(g, rank, n)
    ensures OrderedBelow(g', rank[id := n], n + 1)
  {
    hide Policy;
    if d.insert {
      InsertedLinks(g, g', ctx, c, d, id);
    }
  }

  lemma PruneKeepsOrder(g: map<Uuid, Memory>, g': map<Uuid, Memory>, dead: set<Uuid>, pick: Option<Uuid>,
                        rank: map<Uuid, nat>, n: nat)
    requires Pruned(g, g', dead, pick) && OrderedBelow(g, rank, n)
    ensures OrderedBelow(g', rank, n)
  {
    PrunedLinks(g, g', dead, pick);
  }

  lemma StepKeepsOrder(ms: map<Uuid, Memory>, ctx: Context, st: Step, s: Scope, k: string, rank: map<Uuid, nat>, n: nat)
    returns (rank': map<Uuid, nat>)
    requires StepReady(ms, ctx, st) && Sound(Group(ms, s, k)) && OrderedBelow(Group(ms, s, k), rank, n)
    ensures OrderedBelow(Group(StepMemories(ms, ctx, st), s, k), rank', n + 1)
    ensures Sound(Group(StepMemories(ms, ctx, st), s, k))
  {
    hide Policy, Written, StepMemories, DecisionOf, Ordered, ActiveObjectsDiffer, SomeActive;
    StepOnGroup(ms, ctx, st, s, k);
    rank' := rank;
    if Concerns(ctx, st, s, k) {
      var g, g', d := Group(ms, s, k), Group(StepMemories(ms, ctx, st), s, k), DecisionOf(ms, ctx, st);
      WriteKeepsOrder(g, g', ctx, st.cand, d, st.id, rank, n);
      WriteKeepsSound(g, g', ctx, st.cand, d, st.id);
      rank' := rank[st.id := n];
    }
  }

  lemma {:induction false} StepsKeepOrder(
    ms: map<Uuid, Memory>, ctx: Context, steps: seq<Step>, s: Scope, k: string, rank: map<Uuid, nat>, n: nat)
    returns (rank': map<Uuid, nat>)
    requires StepsReady(ms, ctx, steps) && Sound(Group(ms, s, k)) && OrderedBelow(Group(ms, s, k), rank, n)
    ensures OrderedBelow(Group(AfterSteps(ms, ctx, steps), s, k), rank', n + |steps|)
    ensures Sound(Group(AfterSteps(ms, ctx, steps), s, k))
  {
    hide OrderedBelow, Sound, StepReady, StepMemories, Group;
    if steps == [] {
      return rank;
    }
    var m := |steps| - 1;
    rank' := StepsKeepOrder(ms, ctx, steps[..m], s, k, rank, n);
    rank' := StepKeepsOrder(AfterSteps(ms, ctx, steps[..m]), ctx, steps[m], s, k, rank', n + m);
  }

  lemma EventKeepsOrder(db: Db, ev: Event, s: Scope, k: string, rank: map<Uuid, nat>, n: nat)
    returns (rank': map<Uuid, nat>, n': nat)
    requires Consistent(db) && Valid(db, ev) && OrderedBelow(Group(db.memories, s, k), rank, n)
    ensures OrderedBelow(Group(Apply(db, ev).memories, s, k), rank', n')
  {
    hide OrderedBelow, Sound, Pruned, IsPick, Affected, SessionMemories;
    rank', n' := rank, n;
    assert Sound(Group(db.memories, s, k));
    SoundInside(Group(db.memories, s, k));
    match ev
    case Ingest(session, user, timestamp, turn, now, steps) =>
      IngestMemories(db, session, user, timestamp, turn, now, steps);
      rank' := StepsKeepOrder(db.memories, EventContext(ev), steps, s, k, rank, n);
      n' := n + |steps|;
    case DeleteSession(session, picks) =>
      DropSessionOnGroup(db, session, picks, s, k);
      if GroupKey(s, k) in Affected(db, session) {
        PruneKeepsOrder(Group(db.memories, s, k), Group(Apply(db, ev).memories, s, k), SessionMemories(db, session),
                        PickOf(picks, GroupKey(s, k)), rank, n);
      }
    case DeleteUser(user) =>
      DropUserOnGroup(db, user, s, k);
      NoRowsOrdered(rank, n);
  }

  lemma SoundInside(g: map<Uuid, Memory>)
    requires Sound(g)
    ensures LinksInside(g)
  {
  }

  lemma NoRowsOrdered(rank: map<Uuid, nat>, n: nat)
    ensures OrderedBelow(map[], rank, n)
  {
  }

  /** In every reachable state the links of a group follow some order of its rows, so they form no cycle. */
  lemma {:induction false} RunOrdered(evs: seq<Event>, s: Scope, k: string) returns (rank: map<Uuid, nat>, n: nat)
    requires ValidRun(evs)
    ensures OrderedBelow(Group(Run(evs).memories, s, k), rank, n)
  {
    hide OrderedBelow, Valid, Apply, Consistent, Group;
    if evs == [] {
      rank, n := map[], 0;
      EmptyOrdered(s, k, rank, n);
      return;
    }
    var p := evs[..|evs| - 1];
    rank, n := RunOrdered(p, s, k);
    RunConsistent(p);
    rank, n := EventKeepsOrder(Run(p), evs[|evs| - 1], s, k, rank, n);
  }

  lemma EmptyOrdered(s: Scope, k: string, rank: map<Uuid, nat>, n: nat)
    ensures OrderedBelow(Group(EMPTY.memories, s, k), rank, n)
  {
    assert Group(EMPTY.memories, s, k) == map[];
  }
}
