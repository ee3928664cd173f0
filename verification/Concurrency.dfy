/**
 * Interleaved ingest transactions under advisory locks. Each transaction takes the lock of a candidate,
 * fetches the group as it sees it (committed rows and its own), decides, deactivates, inserts, and so on
 * for the next candidate; locks are held until commit or abort.
 */
module Concurrency {
  import opened Tables
  import opened Taxonomy
  import opened Reconciler
  import opened Groups
  import opened Lifecycle
  import opened Invariants

  /** The string that `acquire_lock` hashes. */
  function LockName(s: Scope, key: string): string {
    match s
    case User(id) => "user:" + id + ":" + key
    case Session(id) => "session:" + id + ":" + key
  }

  /** The hash is any function: different groups may well share a lock. */
  type Hash = string -> int

  function LockOf(h: Hash, s: Scope, key: string): int {
    h(LockName(s, key))
  }

  datatype Phase =
    | Idle
    | Locked
    | Fetched(ids: seq<Uuid>, decision: Decision)
    | Updated(ids: seq<Uuid>, decision: Decision)

  datatype Txn = Txn(
    ctx: Context, cands: seq<Candidate>, done: seq<Step>, phase: Phase, locks: set<int>, writes: map<Uuid, Memory>)

  datatype Committed = Committed(ctx: Context, cands: seq<Candidate>, steps: seq<Step>)

  datatype World = World(
    committed: map<Uuid, Memory>, running: map<nat, Txn>, used: set<Uuid>, turns: set<Uuid>, log: seq<Committed>)

  datatype Action =
    | Begin(ctx: Context, cands: seq<Candidate>)
    | Lock
    | Fetch(ids: seq<Uuid>)
    | Deactivate
    | Insert(id: Uuid)
    | Commit
    | Abort

  /** What a transaction reads: committed rows, overridden by its own writes. */
  function View(w: World, x: Txn): map<Uuid, Memory> {
    w.committed + x.writes
  }

  function Next(x: Txn): Candidate
    requires |x.done| < |x.cands|
  {
    x.cands[|x.done|]
  }

  function NextLock(h: Hash, x: Txn): int
    requires |x.done| < |x.cands|
  {
    LockOf(h, x.ctx.scope, Next(x).Key())
  }

  /** The scope is that of the session or of a user who is named. */
  predicate IsIngestContext(ctx: Context) {
    match ctx.scope
    case User(id) => id != ""
    case Session(id) => id == ctx.session
  }

  ghost predicate Enabled(h: Hash, w: World, t: nat, a: Action) {
    if a.Begin? then t !in w.running && IsIngestContext(a.ctx) && a.ctx.turn !in w.turns
    else
      t in w.running &&
      var x := w.running[t];
      match a
      case Lock => x.phase == Idle && |x.done| < |x.cands|
        && forall u | u in w.running && u != t :: NextLock(h, x) !in w.running[u].locks
      case Fetch(ids) => x.phase == Locked && |x.done| < |x.cands|
        && IsFetch(Group(View(w, x), x.ctx.scope, Next(x).Key()), ids)
      case Deactivate => x.phase.Fetched?
      case Insert(id) => x.phase.Updated? && |x.done| < |x.cands| && id !in w.used
      case Commit => x.phase == Idle && |x.done| == |x.cands|
      case Abort => true
      case Begin(_, _) => false
  }

  function Update(w: World, t: nat, x: Txn): World {
    w.(running := w.running[t := x])
  }

  /** `UPDATE memories SET active = false WHERE id = ANY(ids)`: the rows it writes. */
  function SetInactive(v: map<Uuid, Memory>, ids: seq<Uuid>): map<Uuid, Memory> {
    map id | id in ids && id in v :: v[id].(active := false)
  }

  ghost function Do(h: Hash, w: World, t: nat, a: Action): World
    requires Enabled(h, w, t, a)
  {
    if a.Begin? then Update(w, t, Txn(a.ctx, a.cands, [], Idle, {}, map[])).(turns := w.turns + {a.ctx.turn})
    else
      var x := w.running[t];
      match a
      case Lock => Update(w, t, x.(locks := x.locks + {NextLock(h, x)}, phase := Locked))
      case Fetch(ids) =>
        Update(w, t, x.(phase := Fetched(ids, Decide(Group(View(w, x), x.ctx.scope, Next(x).Key()), ids, Next(x)))))
      case Deactivate =>
        var off := SetInactive(View(w, x), x.phase.decision.deactivate);
        Update(w, t, x.(writes := x.writes + off, phase := Updated(x.phase.ids, x.phase.decision)))
      case Insert(id) =>
        var d := x.phase.decision;
        var st := Step(Next(x), x.phase.ids, id, []);
        var writes := if d.insert then x.writes[id := NewRow(x.ctx, Next(x), d)] else x.writes;
        Update(w, t, x.(writes := writes, done := x.done + [st], phase := Idle)).(used := w.used + {id})
      case Commit =>
        w.(committed := w.committed + x.writes, running := w.running - {t}, 
            log := w.log + [Committed(x.ctx, x.cands, x.done)])
      case Abort => w.(running := w.running - {t})
  }

  /** A schedule names, one after another, the transaction that moves and what it does. */
  ghost predicate Legal(h: Hash, w: World, schedule: seq<(nat, Action)>)
    decreases |schedule|, 0
  {
    schedule == [] ||
    (var n := |schedule| - 1;
     Legal(h, w, schedule[..n]) && Enabled(h, After(h, w, schedule[..n]), schedule[n].0, schedule[n].1))
  }

  ghost function After(h: Hash, w: World, schedule: seq<(nat, Action)>): World
    requires Legal(h, w, schedule)
    decreases |schedule|, 1
  {
    if schedule == [] then w
    else
      var n := |schedule| - 1;
      Do(h, After(h, w, schedule[..n]), schedule[n].0, schedule[n].1)
  }

  function Start(ms: map<Uuid, Memory>, turns: set<Uuid>): World {
    World(ms, map[], ms.Keys, turns, [])
  }

  // ---------------------------------------------------------------- the serial execution

  /** Running the committed transactions one after another, each with its own uuids and stamps. */
  function Replay(ms: map<Uuid, Memory>, log: seq<Committed>): map<Uuid, Memory> {
    if log == [] then ms
    else AfterSteps(Replay(ms, log[..|log| - 1]), log[|log| - 1].ctx, log[|log| - 1].steps)
  }

  /** Each of them is then a legal execution: its fetches are what the serial state would answer. */
  ghost predicate ReplayReady(ms: map<Uuid, Memory>, log: seq<Committed>) {
    log == [] ||
    (var n := |log| - 1;
     ReplayReady(ms, log[..n]) && StepsReady(Replay(ms, log[..n]), log[n].ctx, log[n].steps))
  }

  // ---------------------------------------------------------------- what one transaction writes

  /** The rows a prefix of a transaction has written, as a function of the committed table. */
  function WritesOf(ms: map<Uuid, Memory>, ctx: Context, steps: seq<Step>): map<Uuid, Memory> {
    if steps == [] then map[]
    else
      var p, st := steps[..|steps| - 1], steps[|steps| - 1];
      var w := WritesOf(ms, ctx, p);
      w + EffectOn(ms + w, ctx, st)
  }

  lemma UnionAssociative(a: map<Uuid, Memory>, b: map<Uuid, Memory>, c: map<Uuid, Memory>)
    ensures (a + b) + c == a + (b + c)
  {
  }

  lemma {:induction false} WritesGiveSteps(ms: map<Uuid, Memory>, ctx: Context, steps: seq<Step>)
    ensures AfterSteps(ms, ctx, steps) == ms + WritesOf(ms, ctx, steps)
  {
    if steps != [] {
      var p, st := steps[..|steps| - 1], steps[|steps| - 1];
      WritesGiveSteps(ms, ctx, p);
      var w := WritesOf(ms, ctx, p);
      UnionAssociative(ms, w, EffectOn(ms + w, ctx, st));
    }
  }

  lemma LastReady(ms: map<Uuid, Memory>, ctx: Context, steps: seq<Step>, n: nat)
    requires |steps| == n + 1
    ensures StepsReady(ms, ctx, steps)
      <==> StepsReady(ms, ctx, steps[..n]) && StepReady(ms + WritesOf(ms, ctx, steps[..n]), ctx, steps[n])
  {
    WritesGiveSteps(ms, ctx, steps[..n]);
  }

  lemma LastWrites(a: map<Uuid, Memory>, b: map<Uuid, Memory>, ctx: Context, steps: seq<Step>, n: nat,
                   w: map<Uuid, Memory>)
    requires |steps| == n + 1 && WritesOf(a, ctx, steps[..n]) == w && WritesOf(b, ctx, steps[..n]) == w
    requires EffectOn(a + w, ctx, steps[n]) == EffectOn(b + w, ctx, steps[n])
    ensures WritesOf(a, ctx, steps) == WritesOf(b, ctx, steps)
  {
  }

  ghost predicate HoldsLocks(h: Hash, ctx: Context, steps: seq<Step>, locks: set<int>) {
    forall i | 0 <= i < |steps| :: LockOf(h, ctx.scope, steps[i].cand.Key()) in locks
  }

  function Drawn(steps: seq<Step>): set<Uuid> {
    set i | 0 <= i < |steps| :: steps[i].id
  }

  /** The tables hold the same rows in every group whose lock is among `locks`. */
  ghost predicate Agree(h: Hash, a: map<Uuid, Memory>, b: map<Uuid, Memory>, locks: set<int>) {
    forall s, k | LockOf(h, s, k) in locks :: Group(a, s, k) == Group(b, s, k)
  }

  lemma GroupOfUnion(a: map<Uuid, Memory>, w: map<Uuid, Memory>, s: Scope, k: string)
    ensures Group(a + w, s, k) == (Group(a, s, k) - w.Keys) + Group(w, s, k)
  {
  }

  /** What a step reads and writes depends on its group alone. */
  lemma StepSameOnGroup(a: map<Uuid, Memory>, b: map<Uuid, Memory>, ctx: Context, st: Step)
    requires StepReady(a, ctx, st) && st.id !in b
    requires Group(a, ctx.scope, st.cand.Key()) == Group(b, ctx.scope, st.cand.Key())
    ensures StepReady(b, ctx, st) && EffectOn(b, ctx, st) == EffectOn(a, ctx, st)
  {
  }

  lemma SameGroupOfUnion(
    h: Hash, a: map<Uuid, Memory>, b: map<Uuid, Memory>, w: map<Uuid, Memory>, locks: set<int>, s: Scope, k: string)
    requires Agree(h, a, b, locks) && LockOf(h, s, k) in locks
    ensures Group(a + w, s, k) == Group(b + w, s, k)
  {
    GroupOfUnion(a, w, s, k);
    GroupOfUnion(b, w, s, k);
  }

  lemma NextSameOnAgreeing(h: Hash, a: map<Uuid, Memory>, b: map<Uuid, Memory>, w: map<Uuid, Memory>,
                           ctx: Context, st: Step, locks: set<int>)
    requires StepReady(a + w, ctx, st) && LockOf(h, ctx.scope, st.cand.Key()) in locks && Agree(h, a, b, locks)
    requires st.id !in b
    ensures StepReady(b + w, ctx, st) && EffectOn(b + w, ctx, st) == EffectOn(a + w, ctx, st)
  {
    SameGroupOfUnion(h, a, b, w, locks, ctx.scope, st.cand.Key());
    StepSameOnGroup(a + w, b + w, ctx, st);
  }

  lemma PrefixOf(h: Hash, ctx: Context, steps: seq<Step>, locks: set<int>, n: nat)
    requires n < |steps|
    ensures Drawn(steps[..n]) <= Drawn(steps) && steps[n].id in Drawn(steps)
    ensures HoldsLocks(h, ctx, steps, locks) ==>
      HoldsLocks(h, ctx, steps[..n], locks) && LockOf(h, ctx.scope, steps[n].cand.Key()) in locks
  {
    assert forall i | 0 <= i < n :: steps[..n][i] == steps[i];
  }

  /** A transaction reads and writes only groups it has locked, so it does the same on any agreeing table. */
  lemma {:induction false} SameOnAgreeing(
    h: Hash, a: map<Uuid, Memory>, b: map<Uuid, Memory>, ctx: Context, steps: seq<Step>, locks: set<int>)
    requires StepsReady(a, ctx, steps) && HoldsLocks(h, ctx, steps, locks) && Agree(h, a, b, locks)
    requires Drawn(steps) !! b.Keys
    ensures StepsReady(b, ctx, steps) && WritesOf(b, ctx, steps) == WritesOf(a, ctx, steps)
  {
    if steps != [] {
      var n := |steps| - 1;
      PrefixOf(h, ctx, steps, locks, n);
      LastReady(a, ctx, steps, n);
      LastReady(b, ctx, steps, n);
      SameOnAgreeing(h, a, b, ctx, steps[..n], locks);
      var w, st := WritesOf(a, ctx, steps[..n]), steps[n];
      NextSameOnAgreeing(h, a, b, w, ctx, st, locks);
      LastWrites(a, b, ctx, steps, n, w);
    }
  }

  /** Every row written belongs to a locked group, and keeps its group if it was committed before. */
  ghost predicate WritesLocked(h: Hash, ms: map<Uuid, Memory>, w: map<Uuid, Memory>, locks: set<int>, drawn: set<Uuid>)
  {
    forall id | id in w ::
      && LockOf(h, w[id].scope, w[id].key) in locks
      && (if id in ms then ms[id].scope == w[id].scope && ms[id].key == w[id].key else id in drawn)
  }

  /** One step writes rows of its group: some that are there, and its own uuid. */
  lemma EffectRows(ms: map<Uuid, Memory>, ctx: Context, st: Step)
    ensures forall id | id in EffectOn(ms, ctx, st) ::
      var m := EffectOn(ms, ctx, st)[id];
      m.scope == ctx.scope && m.key == st.cand.Key() && (id == st.id || id in Group(ms, ctx.scope, st.cand.Key()))
  {
  }

  lemma {:induction false} StepsWriteLocked(h: Hash, ms: map<Uuid, Memory>, ctx: Context, steps: seq<Step>,
                                            locks: set<int>)
    requires StepsReady(ms, ctx, steps) && HoldsLocks(h, ctx, steps, locks)
    ensures WritesLocked(h, ms, WritesOf(ms, ctx, steps), locks, Drawn(steps))
  {
    if steps != [] {
      var n := |steps| - 1;
      PrefixOf(h, ctx, steps, locks, n);
      StepsWriteLocked(h, ms, ctx, steps[..n], locks);
      WritesGiveSteps(ms, ctx, steps[..n]);
      NextWritesLocked(h, ms, WritesOf(ms, ctx, steps[..n]), ctx, steps[n], locks, Drawn(steps[..n]), Drawn(steps));
    }
  }

  lemma NextWritesLocked(h: Hash, ms: map<Uuid, Memory>, w: map<Uuid, Memory>, ctx: Context, st: Step, locks: set<int>,
                         drawn: set<Uuid>, drawn': set<Uuid>)
    requires WritesLocked(h, ms, w, locks, drawn) && drawn <= drawn' && st.id in drawn' && st.id !in ms
    requires LockOf(h, ctx.scope, st.cand.Key()) in locks
    ensures WritesLocked(h, ms, w + EffectOn(ms + w, ctx, st), locks, drawn')
  {
    EffectRows(ms + w, ctx, st);
    LockedUnion(h, ms, w, EffectOn(ms + w, ctx, st), locks, drawn, drawn', ctx.scope, st.cand.Key(), st.id);
  }

  lemma LockedUnion(h: Hash, ms: map<Uuid, Memory>, w: map<Uuid, Memory>, e: map<Uuid, Memory>, locks: set<int>,
                    drawn: set<Uuid>, drawn': set<Uuid>, s: Scope, k: string, own: Uuid)
    requires WritesLocked(h, ms, w, locks, drawn) && drawn <= drawn' && own in drawn' && own !in ms
    requires LockOf(h, s, k) in locks
    requires forall id | id in e :: e[id].scope == s && e[id].key == k && (id == own || id in Group(ms + w, s, k))
    ensures WritesLocked(h, ms, w + e, locks, drawn')
  {
  }

  // ---------------------------------------------------------------- the invariant

  /** The table as the transaction would see it after its finished steps, were it alone. */
  function WorkingRows(ms: map<Uuid, Memory>, x: Txn): map<Uuid, Memory> {
    ms + WritesOf(ms, x.ctx, x.done)
  }

  function NextGroup(ms: map<Uuid, Memory>, x: Txn): map<Uuid, Memory>
    requires |x.done| < |x.cands|
  {
    Group(WorkingRows(ms, x), x.ctx.scope, Next(x).Key())
  }

  ghost predicate HasDecided(ms: map<Uuid, Memory>, x: Txn, ids: seq<Uuid>, d: Decision)
    requires |x.done| < |x.cands|
  {
    IsFetch(NextGroup(ms, x), ids) && d == Decide(NextGroup(ms, x), ids, Next(x))
  }

  /** What the phase of a transaction says about its writes. */
  ghost predicate PhaseOk(h: Hash, ms: map<Uuid, Memory>, x: Txn) {
    var w := WritesOf(ms, x.ctx, x.done);
    && (x.phase != Idle ==> |x.done| < |x.cands| && NextLock(h, x) in x.locks)
    && match x.phase
       case Idle => x.writes == w
       case Locked => x.writes == w
       case Fetched(ids, d) => HasDecided(ms, x, ids, d) && x.writes == w
       case Updated(ids, d) =>
         HasDecided(ms, x, ids, d) && x.writes == w + Deactivated(NextGroup(ms, x), d.deactivate)
  }

  ghost predicate Follows(cands: seq<Candidate>, steps: seq<Step>) {
    |steps| <= |cands| && forall i | 0 <= i < |steps| :: steps[i].cand == cands[i]
  }

  ghost predicate TxnOk(h: Hash, ms: map<Uuid, Memory>, x: Txn) {
    && Follows(x.cands, x.done)
    && StepsReady(ms, x.ctx, x.done)
    && HoldsLocks(h, x.ctx, x.done, x.locks)
    && Drawn(x.done) !! ms.Keys
    && PhaseOk(h, ms, x)
  }

  ghost predicate Apart(x: Txn, y: Txn) {
    x.locks !! y.locks && Drawn(x.done) !! Drawn(y.done)
  }

  ghost predicate RunningOk(h: Hash, w: World) {
    && (forall t | t in w.running :: TxnOk(h, w.committed, w.running[t]) && Drawn(w.running[t].done) <= w.used)
    && (forall t, u | t in w.running && u in w.running && t != u :: Apart(w.running[t], w.running[u]))
    && w.committed.Keys <= w.used
  }

  ghost predicate LogOk(ms: map<Uuid, Memory>, w: World) {
    && ReplayReady(ms, w.log) && w.committed == Replay(ms, w.log)
    && forall c | c in w.log :: |c.steps| == |c.cands| && Follows(c.cands, c.steps)
  }

  // ---------------------------------------------------------------- steps of one transaction

  lemma LockKeepsTxn(h: Hash, ms: map<Uuid, Memory>, x: Txn)
    requires TxnOk(h, ms, x) && x.phase == Idle && |x.done| < |x.cands|
    ensures TxnOk(h, ms, x.(locks := x.locks + {NextLock(h, x)}, phase := Locked))
  {
  }

  lemma FetchKeepsTxn(h: Hash, ms: map<Uuid, Memory>, x: Txn, ids: seq<Uuid>)
    requires TxnOk(h, ms, x) && x.phase == Locked
    requires IsFetch(Group(ms + x.writes, x.ctx.scope, Next(x).Key()), ids)
    ensures TxnOk(h, ms, x.(phase := Fetched(ids,
              Decide(Group(ms + x.writes, x.ctx.scope, Next(x).Key()), ids, Next(x)))))
  {
  }

  /** The `UPDATE` by id touches the rows of the group that were to be deactivated, and only those. */
  lemma UpdateIsDeactivated(v: map<Uuid, Memory>, s: Scope, k: string, ids: seq<Uuid>)
    requires forall id | id in ids :: id in Group(v, s, k)
    ensures SetInactive(v, ids) == Deactivated(Group(v, s, k), ids)
  {
  }

  lemma DeactivateKeepsTxn(h: Hash, ms: map<Uuid, Memory>, x: Txn, off: map<Uuid, Memory>)
    requires TxnOk(h, ms, x) && x.phase.Fetched?
    requires off == Deactivated(NextGroup(ms, x), x.phase.decision.deactivate)
    ensures TxnOk(h, ms, x.(writes := x.writes + off, phase := Updated(x.phase.ids, x.phase.decision)))
  {
    hide StepsReady, WritesOf, IsFetch, Decide, Deactivated, HoldsLocks, Follows;
    var y := x.(writes := x.writes + off, phase := Updated(x.phase.ids, x.phase.decision));
    assert NextGroup(ms, y) == NextGroup(ms, x);
    assert HasDecided(ms, y, x.phase.ids, x.phase.decision);
  }

  /** The last action on a candidate completes a step of the serial execution. */
  lemma InsertKeepsTxn(h: Hash, ms: map<Uuid, Memory>, x: Txn, id: Uuid)
    requires TxnOk(h, ms, x) && x.phase.Updated? && id !in ms && id !in Drawn(x.done)
    ensures var d := x.phase.decision;
            var st := Step(Next(x), x.phase.ids, id, []);
            TxnOk(h, ms, x.(writes := (if d.insert then x.writes[id := NewRow(x.ctx, Next(x), d)] else x.writes),
                            done := x.done + [st], phase := Idle))
  {
    var c, ids, d := Next(x), x.phase.ids, x.phase.decision;
    var st := Step(c, ids, id, []);
    var w := WritesOf(ms, x.ctx, x.done);
    StepsWriteLocked(h, ms, x.ctx, x.done, x.locks);
    assert id !in w;
    var writes := if d.insert then x.writes[id := NewRow(x.ctx, c, d)] else x.writes;
    StepWrites(ms + w, w, x.ctx, c, ids, d, id, x.writes, writes);
    DoneMore(h, ms, x, st, writes);
  }

  lemma ReadyMore(ms: map<Uuid, Memory>, ctx: Context, p: seq<Step>, st: Step)
    requires StepsReady(ms, ctx, p) && StepReady(ms + WritesOf(ms, ctx, p), ctx, st)
    ensures StepsReady(ms, ctx, p + [st])
  {
    var q := p + [st];
    assert q[..|p|] == p;
    WritesGiveSteps(ms, ctx, p);
  }

  lemma WritesMore(ms: map<Uuid, Memory>, ctx: Context, p: seq<Step>, st: Step)
    ensures WritesOf(ms, ctx, p + [st]) == WritesOf(ms, ctx, p) + EffectOn(ms + WritesOf(ms, ctx, p), ctx, st)
  {
    var q := p + [st];
    assert q[..|p|] == p && q[|q| - 1] == st;
  }

  /** Finishing a step, stated for any transaction record. */
  lemma DoneMore(h: Hash, ms: map<Uuid, Memory>, x: Txn, st: Step, writes: map<Uuid, Memory>)
    requires Follows(x.cands, x.done) && StepsReady(ms, x.ctx, x.done) && HoldsLocks(h, x.ctx, x.done, x.locks)
    requires |x.done| < |x.cands| && st.cand == Next(x) && NextLock(h, x) in x.locks
    requires StepReady(WorkingRows(ms, x), x.ctx, st) && Drawn(x.done) !! ms.Keys && st.id !in ms
    requires writes == WritesOf(ms, x.ctx, x.done) + EffectOn(WorkingRows(ms, x), x.ctx, st)
    ensures TxnOk(h, ms, x.(writes := writes, done := x.done + [st], phase := Idle))
  {
    var done := x.done + [st];
    ReadyMore(ms, x.ctx, x.done, st);
    WritesMore(ms, x.ctx, x.done, st);
    DrawnMore(x.done, st);
    ListsMore(h, x, st);
    var y := x.(writes := writes, done := done, phase := Idle);
    assert PhaseOk(h, ms, y);
  }

  lemma ListsMore(h: Hash, x: Txn, st: Step)
    requires Follows(x.cands, x.done) && HoldsLocks(h, x.ctx, x.done, x.locks)
    requires |x.done| < |x.cands| && st.cand == Next(x) && NextLock(h, x) in x.locks
    ensures Follows(x.cands, x.done + [st]) && HoldsLocks(h, x.ctx, x.done + [st], x.locks)
  {
  }

  lemma DrawnMore(steps: seq<Step>, st: Step)
    ensures Drawn(steps + [st]) == Drawn(steps) + {st.id}
  {
    var more := steps + [st];
    assert more[|steps|] == st;
    assert forall i | 0 <= i < |steps| :: more[i] == steps[i];
  }

  lemma StepWrites(v: map<Uuid, Memory>, w: map<Uuid, Memory>, ctx: Context, c: Candidate, ids: seq<Uuid>, d: Decision,
                   id: Uuid, before: map<Uuid, Memory>, after: map<Uuid, Memory>)
    requires var g := Group(v, ctx.scope, c.Key());
      IsFetch(g, ids) && d == Decide(g, ids, c) && before == w + Deactivated(g, d.deactivate)
    requires after == if d.insert then before[id := NewRow(ctx, c, d)] else before
    ensures w + EffectOn(v, ctx, Step(c, ids, id, [])) == after
  {
    var g := Group(v, ctx.scope, c.Key());
    EffectOfDecision(v, ctx, Step(c, ids, id, []), d);
    WritesInTwo(g, w, ctx, c, d, id);
  }

  // ---------------------------------------------------------------- commit

  /** What a transaction commits lies outside every group another one has locked. */
  lemma CommitAgrees(h: Hash, ms: map<Uuid, Memory>, w: map<Uuid, Memory>, locks: set<int>, drawn: set<Uuid>,
                     others: set<int>)
    requires WritesLocked(h, ms, w, locks, drawn) && locks !! others
    ensures Agree(h, ms, ms + w, others)
  {
    forall s, k | LockOf(h, s, k) in others ensures Group(ms, s, k) == Group(ms + w, s, k) {
      GroupOfUnion(ms, w, s, k);
      assert Group(w, s, k) == map[];
      assert Group(ms, s, k).Keys !! w.Keys;
    }
  }

  lemma AgreeingKeepsTxn(h: Hash, a: map<Uuid, Memory>, b: map<Uuid, Memory>, x: Txn)
    requires TxnOk(h, a, x) && Agree(h, a, b, x.locks) && Drawn(x.done) !! b.Keys
    ensures TxnOk(h, b, x)
  {
    SameOnAgreeing(h, a, b, x.ctx, x.done, x.locks);
    if x.phase != Idle {
      SameNextGroup(h, a, b, x);
    }
  }

  lemma SameNextGroup(h: Hash, a: map<Uuid, Memory>, b: map<Uuid, Memory>, x: Txn)
    requires |x.done| < |x.cands| && NextLock(h, x) in x.locks && Agree(h, a, b, x.locks)
    requires WritesOf(a, x.ctx, x.done) == WritesOf(b, x.ctx, x.done)
    ensures NextGroup(a, x) == NextGroup(b, x)
  {
    SameGroupOfUnion(h, a, b, WritesOf(a, x.ctx, x.done), x.locks, x.ctx.scope, Next(x).Key());
  }

  // ---------------------------------------------------------------- steps of the world

  /** The committed table is what the serial execution of the log yields, and running transactions keep apart. */
  ghost predicate WorldOk(h: Hash, ms: map<Uuid, Memory>, w: World) {
    LogOk(ms, w) && RunningOk(h, w)
  }

  /** Replacing one running transaction by a record that is sound and keeps apart from the others. */
  lemma UpdateKeepsRunning(h: Hash, w: World, t: nat, x: Txn, used: set<Uuid>)
    requires RunningOk(h, w) && TxnOk(h, w.committed, x) && w.used <= used && Drawn(x.done) <= used
    requires forall u | u in w.running && u != t :: Apart(x, w.running[u])
    ensures RunningOk(h, Update(w, t, x).(used := used))
  {
    var w' := Update(w, t, x).(used := used);
    forall u, v | u in w'.running && v in w'.running && u != v ensures Apart(w'.running[u], w'.running[v]) {
      assert u != t && v != t ==> Apart(w.running[u], w.running[v]);
    }
  }

  lemma RemoveKeepsRunning(h: Hash, w: World, t: nat)
    requires RunningOk(h, w)
    ensures RunningOk(h, w.(running := w.running - {t}))
  {
    var w' := w.(running := w.running - {t});
    forall u, v | u in w'.running && v in w'.running && u != v ensures Apart(w'.running[u], w'.running[v]) {
      assert Apart(w.running[u], w.running[v]);
    }
  }

  lemma BeginKeepsRunning(h: Hash, w: World, t: nat, ctx: Context, cands: seq<Candidate>)
    requires RunningOk(h, w) && Enabled(h, w, t, Begin(ctx, cands))
    ensures RunningOk(h, Do(h, w, t, Begin(ctx, cands)))
  {
    UpdateKeepsRunning(h, w, t, Txn(ctx, cands, [], Idle, {}, map[]), w.used);
    OtherTurns(h, Update(w, t, Txn(ctx, cands, [], Idle, {}, map[])), w.turns + {ctx.turn});
  }

  lemma OtherTurns(h: Hash, w: World, turns: set<Uuid>)
    requires RunningOk(h, w)
    ensures RunningOk(h, w.(turns := turns))
  {
    hide TxnOk, Apart;
  }

  lemma LockKeepsRunning(h: Hash, w: World, t: nat)
    requires RunningOk(h, w) && Enabled(h, w, t, Lock)
    ensures RunningOk(h, Do(h, w, t, Lock))
  {
    hide TxnOk;
    var x := w.running[t];
    var y := x.(locks := x.locks + {NextLock(h, x)}, phase := Locked);
    LockKeepsTxn(h, w.committed, x);
    forall u | u in w.running && u != t ensures Apart(y, w.running[u]) {
      assert Apart(x, w.running[u]);
    }
    UpdateKeepsRunning(h, w, t, y, w.used);
  }

  lemma FetchKeepsRunning(h: Hash, w: World, t: nat, ids: seq<Uuid>)
    requires RunningOk(h, w) && Enabled(h, w, t, Fetch(ids))
    ensures RunningOk(h, Do(h, w, t, Fetch(ids)))
  {
    var x := w.running[t];
    var y := Do(h, w, t, Fetch(ids)).running[t];
    FetchKeepsTxn(h, w.committed, x, ids);
    forall u | u in w.running && u != t ensures Apart(y, w.running[u]) {
      assert Apart(x, w.running[u]);
    }
    UpdateKeepsRunning(h, w, t, y, w.used);
  }

  lemma DecidedInGroup(ms: map<Uuid, Memory>, x: Txn, ids: seq<Uuid>, d: Decision)
    requires |x.done| < |x.cands| && HasDecided(ms, x, ids, d)
    ensures forall i | i in d.deactivate :: i in NextGroup(ms, x)
  {
  }

  lemma DeactivateWrites(h: Hash, w: World, t: nat, g: map<Uuid, Memory>)
    requires Enabled(h, w, t, Deactivate) && |w.running[t].done| < |w.running[t].cands|
    requires var x := w.running[t]; g == Group(View(w, x), x.ctx.scope, Next(x).Key())
    requires forall i | i in w.running[t].phase.decision.deactivate :: i in g
    ensures var x := w.running[t];
      Do(h, w, t, Deactivate)
        == Update(w, t, x.(writes := x.writes + Deactivated(g, x.phase.decision.deactivate),
                           phase := Updated(x.phase.ids, x.phase.decision)))
  {
    var x := w.running[t];
    UpdateIsDeactivated(View(w, x), x.ctx.scope, Next(x).Key(), x.phase.decision.deactivate);
  }

  lemma DeactivateKeepsRunning(h: Hash, w: World, t: nat)
    requires RunningOk(h, w) && Enabled(h, w, t, Deactivate)
    ensures RunningOk(h, Do(h, w, t, Deactivate))
  {
    var x := w.running[t];
    assert TxnOk(h, w.committed, x);
    var g := NextGroup(w.committed, x);
    DecidedInGroup(w.committed, x, x.phase.ids, x.phase.decision);
    DeactivateWrites(h, w, t, g);
    var off := Deactivated(g, x.phase.decision.deactivate);
    DeactivateKeepsTxn(h, w.committed, x, off);
    var y := x.(writes := x.writes + off, phase := Updated(x.phase.ids, x.phase.decision));
    forall u | u in w.running && u != t ensures Apart(y, w.running[u]) {
      assert Apart(x, w.running[u]);
    }
    UpdateKeepsRunning(h, w, t, y, w.used);
  }

  lemma InsertKeepsRunning(h: Hash, w: World, t: nat, id: Uuid)
    requires RunningOk(h, w) && Enabled(h, w, t, Insert(id))
    ensures RunningOk(h, Do(h, w, t, Insert(id)))
  {
    var x := w.running[t];
    var st := Step(Next(x), x.phase.ids, id, []);
    InsertKeepsTxn(h, w.committed, x, id);
    DrawnMore(x.done, st);
    var y := Do(h, w, t, Insert(id)).running[t];
    forall u | u in w.running && u != t ensures Apart(y, w.running[u]) {
      assert Apart(x, w.running[u]) && Drawn(w.running[u].done) <= w.used;
    }
    UpdateKeepsRunning(h, w, t, y, w.used + {id});
  }

  lemma CommitKeepsRunning(h: Hash, w: World, t: nat)
    requires RunningOk(h, w) && Enabled(h, w, t, Commit)
    ensures RunningOk(h, Do(h, w, t, Commit))
  {
    var x := w.running[t];
    var w' := Do(h, w, t, Commit);
    assert TxnOk(h, w.committed, x);
    StepsWriteLocked(h, w.committed, x.ctx, x.done, x.locks);
    forall u | u in w'.running ensures TxnOk(h, w'.committed, w'.running[u]) {
      var y := w.running[u];
      assert Apart(x, y) && TxnOk(h, w.committed, y);
      CommitAgrees(h, w.committed, x.writes, x.locks, Drawn(x.done), y.locks);
      AgreeingKeepsTxn(h, w.committed, w'.committed, y);
    }
    forall u, v | u in w'.running && v in w'.running && u != v ensures Apart(w'.running[u], w'.running[v]) {
      assert Apart(w.running[u], w.running[v]);
    }
  }

  lemma CommitKeepsLog(h: Hash, ms: map<Uuid, Memory>, w: World, t: nat)
    requires LogOk(ms, w) && RunningOk(h, w) && Enabled(h, w, t, Commit)
    ensures LogOk(ms, Do(h, w, t, Commit))
  {
    var x := w.running[t];
    assert TxnOk(h, w.committed, x);
    WritesGiveSteps(w.committed, x.ctx, x.done);
    var log := w.log + [Committed(x.ctx, x.cands, x.done)];
    assert log[..|w.log|] == w.log;
  }

  lemma ActionKeepsWorld(h: Hash, ms: map<Uuid, Memory>, w: World, t: nat, a: Action)
    requires WorldOk(h, ms, w) && Enabled(h, w, t, a)
    ensures WorldOk(h, ms, Do(h, w, t, a))
  {
    match a
    case Begin(ctx, cands) => BeginKeepsRunning(h, w, t, ctx, cands);
    case Lock => LockKeepsRunning(h, w, t);
    case Fetch(ids) => FetchKeepsRunning(h, w, t, ids);
    case Deactivate => DeactivateKeepsRunning(h, w, t);
    case Insert(id) => InsertKeepsRunning(h, w, t, id);
    case Commit =>
      CommitKeepsRunning(h, w, t);
      CommitKeepsLog(h, ms, w, t);
    case Abort => RemoveKeepsRunning(h, w, t);
  }

  // ---------------------------------------------------------------- the theorems

  /**
   * Serializability. Whatever the hash and however the transactions interleave, abort or stay
   * unfinished, the committed table is the result of running the committed transactions one after
   * another in commit order, each on its whole candidate list, with its own uuids, stamps and fetches,
   * and every such serial run is legal.
   */
  lemma {:induction false} Serializable(
    h: Hash, ms: map<Uuid, Memory>, turns: set<Uuid>, schedule: seq<(nat, Action)>)
    requires Legal(h, Start(ms, turns), schedule)
    ensures var w := After(h, Start(ms, turns), schedule);
      && w.committed == Replay(ms, w.log) && ReplayReady(ms, w.log)
      && forall c | c in w.log :: |c.steps| == |c.cands| && Follows(c.cands, c.steps)
    ensures WorldOk(h, ms, After(h, Start(ms, turns), schedule))
  {
    if schedule != [] {
      var n := |schedule| - 1;
      Serializable(h, ms, turns, schedule[..n]);
      ActionKeepsWorld(h, ms, After(h, Start(ms, turns), schedule[..n]), schedule[n].0, schedule[n].1);
    }
  }

  /** The conditional invariants of a group survive serial replay. */
  lemma {:induction false} ReplayKeepsGood(ms: map<Uuid, Memory>, log: seq<Committed>, s: Scope, k: string,
                                           single: bool)
    requires ReplayReady(ms, log) && Good(Group(ms, s, k), single, false)
    requires forall c, j | c in log && single && 0 <= j < |c.steps| && Concerns(c.ctx, c.steps[j], s, k) ::
      MultiplicityOf(c.steps[j].cand.pred) == One
    ensures Good(Group(Replay(ms, log), s, k), single, false)
  {
    if log != [] {
      var n := |log| - 1;
      assert forall c | c in log[..n] :: c in log;
      assert log[n] in log;
      ReplayKeepsGood(ms, log[..n], s, k, single);
      StepsKeepGood(Replay(ms, log[..n]), log[n].ctx, log[n].steps, s, k, single, false);
    }
  }

  /** No concurrent ingest splits the active row of a single-valued group, nor leaves two equal active objects. */
  lemma NoSplitActiveRow(
    h: Hash, ms: map<Uuid, Memory>, turns: set<Uuid>, schedule: seq<(nat, Action)>, s: Scope, k: string)
    requires Legal(h, Start(ms, turns), schedule) && Sound(Group(ms, s, k))
    ensures var w := After(h, Start(ms, turns), schedule);
      && Sound(Group(w.committed, s, k))
      && (AtMostOneActive(Group(ms, s, k))
          && (forall c, j | c in w.log && 0 <= j < |c.steps| && Concerns(c.ctx, c.steps[j], s, k) ::
                MultiplicityOf(c.steps[j].cand.pred) == One)
          ==> AtMostOneActive(Group(w.committed, s, k)))
  {
    Serializable(h, ms, turns, schedule);
    var w := After(h, Start(ms, turns), schedule);
    ReplayKeepsGood(ms, w.log, s, k, false);
    if AtMostOneActive(Group(ms, s, k))
      && forall c, j | c in w.log && 0 <= j < |c.steps| && Concerns(c.ctx, c.steps[j], s, k) ::
           MultiplicityOf(c.steps[j].cand.pred) == One
    {
      ReplayKeepsGood(ms, w.log, s, k, true);
    }
  }
}
