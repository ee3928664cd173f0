/** Nothing that happens in other scopes changes what recall returns in this one. */
module Isolation {
  import opened Tables
  import opened Lifecycle
  import opened Invariants
  import opened Graph
  import opened Frames
  import opened Fusion
  import opened Ranking
  import opened Queries
  import opened Recall

  lemma HitFromSlice(db: Db, db': Db, s: Scope, source: string, id: Uuid, score: real, dateOf: int -> string)
    requires Consistent(db) && Slice(db, s) == Slice(db', s) && InScope(db.memories, id, s)
    ensures id in db'.memories && HitOf(db', source, id, score, dateOf) == HitOf(db, source, id, score, dateOf)
  {
    hide Slice, Consistent;
    SameRow(db, db', s, id);
    FactFromSlice(db, db', s, id, dateOf);
  }

  lemma RetrievedFromSlice(db: Db, db': Db, s: Scope, h: Hit, dateOf: int -> string)
    requires Consistent(db) && Slice(db, s) == Slice(db', s) && IsRetrieved(db, s, h, dateOf)
    ensures IsRetrieved(db', s, h, dateOf)
  {
    hide Slice, Consistent, HitOf;
    match h.kind
    case TurnHit => SameTurn(db, db', s, h.id);
    case MemoryHit =>
      SameRow(db, db', s, h.id);
      HitFromSlice(db, db', s, h.source, h.id, h.score, dateOf);
  }

  lemma MatchedFromSlice(db: Db, db': Db, r: Request)
    requires Slice(db, r.scope) == Slice(db', r.scope)
    ensures Matched(db', r) == Matched(db, r) && EntitiesIn(db, Matched(db, r), r.scope)
  {
    hide IsNamed, Slice;
    NamedFromSlice(db, db', r.scope, r.names);
  }

  /** What is pooled before the edge hop is the same. */
  lemma BaseFromSlice(db: Db, db': Db, r: Request, a: Answers, dateOf: int -> string)
    requires Consistent(db) && GraphSound(db) && Slice(db, r.scope) == Slice(db', r.scope) && Honest(db, r, a, dateOf)
    ensures forall id | id in a.mentioning :: id in db'.memories && IsMentioning(db', Matched(db', r), id)
    ensures Base(db', a, dateOf) == Base(db, a, dateOf)
  {
    hide Slice, Consistent, GraphSound, HitOf, Matched, Distinct;
    MatchedFromSlice(db, db', r);
    forall id | id in a.mentioning
      ensures InScope(db.memories, id, r.scope) && id in db'.memories && IsMentioning(db', Matched(db', r), id)
    {
      MentioningInScope(db, Matched(db, r), r.scope, id);
      MentioningFromSlice(db, db', r.scope, Matched(db, r), id);
    }
    var ids := Distinct(a.mentioning);
    assert forall id | id in ids :: id in db.memories && id in db'.memories;
    forall i | 0 <= i < |ids|
      ensures HitOf(db', "graph", ids[i], 0.9, dateOf) == HitOf(db, "graph", ids[i], 0.9, dateOf)
    {
      assert ids[i] in ids;
      HitFromSlice(db, db', r.scope, "graph", ids[i], 0.9, dateOf);
    }
    assert GraphHits(db', ids, dateOf) == GraphHits(db, ids, dateOf);
  }

  /** And so is what the edge hop adds. */
  lemma HopsFromSlice(db: Db, db': Db, s: Scope, seeds: set<Uuid>, ids: seq<Uuid>, dateOf: int -> string)
    requires Consistent(db) && GraphSound(db) && Slice(db, s) == Slice(db', s) && SeedsIn(db, seeds, s)
    requires forall id | id in ids :: id in db.memories && IsNeighbour(db, seeds, id)
    ensures forall id | id in ids :: id in db'.memories && IsNeighbour(db', seeds, id)
    ensures HopHits(db', seeds, ids, dateOf) == HopHits(db, seeds, ids, dateOf)
  {
    hide Slice, Consistent, GraphSound, HitOf, HopScore;
    forall id | id in ids
      ensures InScope(db.memories, id, s) && id in db'.memories
      ensures IsNeighbour(db', seeds, id) && HopScore(db', seeds, id) == HopScore(db, seeds, id)
    {
      NeighbourInScope(db, seeds, s, id);
      NeighbourFromSlice(db, db', s, seeds, id);
    }
    forall i | 0 <= i < |ids|
      ensures HitOf(db', EDGE_HOP, ids[i], HopScore(db', seeds, ids[i]), dateOf)
           == HitOf(db, EDGE_HOP, ids[i], HopScore(db, seeds, ids[i]), dateOf)
    {
      assert ids[i] in ids;
      HitFromSlice(db, db', s, EDGE_HOP, ids[i], HopScore(db, seeds, ids[i]), dateOf);
    }
  }

  lemma FactsFromSlice(db: Db, db': Db, s: Scope, ids: seq<Uuid>, dateOf: int -> string)
    requires Consistent(db) && Slice(db, s) == Slice(db', s)
    requires forall id | id in ids :: id in db.memories && IsStable(db, s, id)
    ensures forall id | id in ids :: id in db'.memories && IsStable(db', s, id)
    ensures Facts(db', ids, dateOf) == Facts(db, ids, dateOf)
  {
    hide Slice, Consistent, FactOf;
    forall id | id in ids ensures id in db'.memories && IsStable(db', s, id) {
      SameRow(db, db', s, id);
    }
    forall i | 0 <= i < |ids| ensures FactOf(db', ids[i], dateOf) == FactOf(db, ids[i], dateOf) {
      assert ids[i] in ids;
      FactFromSlice(db, db', s, ids[i], dateOf);
    }
  }

  /** Answers that were honest stay honest, and lead to the same material, hence to the same context and citations. */
  lemma RecallFromSlice(db: Db, db': Db, r: Request, a: Answers, dateOf: int -> string)
    requires Consistent(db) && GraphSound(db) && Slice(db, r.scope) == Slice(db', r.scope) && Honest(db, r, a, dateOf)
    ensures Honest(db', r, a, dateOf)
    ensures forall id | id in a.facts + a.mentioning + a.neighbours :: id in db.memories && id in db'.memories
    ensures MaterialOf(db', r, a, dateOf) == MaterialOf(db, r, a, dateOf)
  {
    hide Slice, Consistent, GraphSound, IsRetrieved, IsStable, IsNeighbour, IsMentioning, Base, Seeds, Facts, HopHits;
    HonestRows(db, r, a, dateOf);
    assert forall id | id in a.facts :: id in a.facts + a.mentioning + a.neighbours;
    assert forall id | id in a.neighbours :: id in a.facts + a.mentioning + a.neighbours;
    forall h | h in a.retrieved ensures IsRetrieved(db', r.scope, h, dateOf) {
      RetrievedFromSlice(db, db', r.scope, h, dateOf);
    }
    FactsFromSlice(db, db', r.scope, a.facts, dateOf);
    BaseFromSlice(db, db', r, a, dateOf);
    MatchedFromSlice(db, db', r);
    BaseBacked(db, r, a, dateOf);
    HopsFromSlice(db, db', r.scope, Seeds(Base(db, a, dateOf)), a.neighbours, dateOf);
  }

  /**
   * End to end: whatever was requested before, a request of somebody else changes neither what the
   * database may answer to a recall in this scope nor the context and citations made of the answers.
   */
  lemma OthersChangeNoRecall(evs: seq<Event>, ev: Event, r: Request, a: Answers, dateOf: int -> string)
    requires ValidRun(evs) && Valid(Run(evs), ev) && Elsewhere(Run(evs), ev, r.scope)
    ensures Honest(Run(evs), r, a, dateOf) <==> Honest(Apply(Run(evs), ev), r, a, dateOf)
    ensures Honest(Run(evs), r, a, dateOf) ==>
      && (forall id | id in a.facts + a.mentioning + a.neighbours ::
            id in Run(evs).memories && id in Apply(Run(evs), ev).memories)
      && MaterialOf(Apply(Run(evs), ev), r, a, dateOf) == MaterialOf(Run(evs), r, a, dateOf)
  {
    hide Slice, Consistent, GraphSound, Valid, Apply, Honest, MaterialOf, Elsewhere;
    var db, db' := Run(evs), Apply(Run(evs), ev);
    RunConsistent(evs);
    RunGraphSound(evs);
    EventKeepsConsistent(db, ev);
    ElsewhereFrame(evs, ev, r.scope);
    if Honest(db, r, a, dateOf) {
      RecallFromSlice(db, db', r, a, dateOf);
    }
    if Honest(db', r, a, dateOf) {
      RecallFromSlice(db', db, r, a, dateOf);
    }
  }

  /**
   * An entity mentioned by memories of a deleted session only, outside the scope of the session itself,
   * is still found by its name when nothing mentions it any more, and opens the gate.
   */
  lemma LeftBehindOpensGate(
    db: Db, session: string, picks: map<GroupKey, Uuid>, r: Request, e: Uuid, memory: bool, turn: bool)
    requires e in Matched(db, r) && r.scope != Session(session)
    requires forall m | m in db.mentions && m.entity == e :: m.memory in SessionMemories(db, session)
    ensures var db' := DropSession(db, session, picks);
      && Unmentioned(db', e) && e in Matched(db', r)
      && DecideGate(r.profile, IsOpenEnded(r), memory, turn, Matched(db', r) != {}) == Gate(r.profile, true)
  {
    LeftUnmentionedIff(db, session, picks, e);
    assert e in Matched(DropSession(db, session, picks), r);
  }
}
