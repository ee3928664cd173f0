/** Recall from the retrieved hits to the cited context. */
module Recall {
  import opened Tables
  import opened Invariants
  import opened Graph
  import opened Frames
  import opened Fusion
  import opened Ranking
  import opened Assembler
  import opened Budget
  import opened Queries

  datatype Intent = FactoidAboutUser | FactoidGeneral | Exploratory | RecentContext | Cold

  /** A query as the analyzer understood it, with the scope of the caller and the settings. */
  datatype Request = Request(
    scope: Scope, profile: bool, intent: Intent, names: seq<string>, k: nat, cosineMin: real, maxTokens: int)

  /** What the retrievers and the queries answered: any rows that satisfy their WHERE clauses, in any order. */
  datatype Answers = Answers(retrieved: seq<Hit>, facts: seq<Uuid>, mentioning: seq<Uuid>, neighbours: seq<Uuid>)

  /** The entities the query names. */
  function Matched(db: Db, r: Request): set<Uuid> {
    EntitiesNamed(db, r.scope, r.names)
  }

  predicate IsOpenEnded(r: Request) {
    r.profile && (r.intent == Exploratory || r.intent == RecentContext)
  }

  predicate RendersArc(r: Request) {
    r.intent == Exploratory || r.intent == FactoidAboutUser
  }

  /** The four retrievers filter by scope, and those over memories return active rows. */
  predicate IsRetrieved(db: Db, s: Scope, h: Hit, dateOf: int -> string) {
    match h.kind
    case TurnHit =>
      (h.source == "turn_vector" || h.source == "turn_fts") && h.id in db.turns && db.turns[h.id].scope == s
    case MemoryHit =>
      && (h.source == "memory_vector" || h.source == "memory_fts")
      && InScope(db.memories, h.id, s) && db.memories[h.id].active
      && h == HitOf(db, h.source, h.id, h.score, dateOf)
  }

  // ---------------------------------------------------------------- pooling

  /** Each row once, in the order first seen. */
  function Distinct(rows: seq<Uuid>): (r: seq<Uuid>)
    ensures forall id :: id in r <==> id in rows
  {
    if rows == [] then []
    else
      var p, id := Distinct(rows[..|rows| - 1]), rows[|rows| - 1];
      if id in p then p else p + [id]
  }

  lemma {:induction false} DistinctOnce(rows: seq<Uuid>)
    ensures forall i, j | 0 <= i < j < |Distinct(rows)| :: Distinct(rows)[i] != Distinct(rows)[j]
  {
    if rows != [] {
      DistinctOnce(rows[..|rows| - 1]);
    }
  }

  function GraphHits(db: Db, ids: seq<Uuid>, dateOf: int -> string): (r: seq<Hit>)
    requires forall id | id in ids :: id in db.memories
    ensures forall h | h in r :: h.kind == MemoryHit && h.id in ids && h == HitOf(db, "graph", h.id, h.score, dateOf)
  {
    seq(|ids|, i requires 0 <= i < |ids| => HitOf(db, "graph", ids[i], 0.9, dateOf))
  }

  function HopHits(db: Db, seeds: set<Uuid>, ids: seq<Uuid>, dateOf: int -> string): (r: seq<Hit>)
    requires forall id | id in ids :: id in db.memories
    ensures forall h | h in r :: h.kind == MemoryHit && h.id in ids && h == HitOf(db, EDGE_HOP, h.id, h.score, dateOf)
  {
    seq(|ids|, i requires 0 <= i < |ids| => HitOf(db, EDGE_HOP, ids[i], HopScore(db, seeds, ids[i]), dateOf))
  }

  function MemoryIds(pool: seq<Hit>): (r: seq<Uuid>)
    ensures forall id | id in r :: exists h :: h in pool && h.kind == MemoryHit && h.id == id
  {
    if pool == [] then []
    else MemoryIds(pool[..|pool| - 1]) + if pool[|pool| - 1].kind == MemoryHit then [pool[|pool| - 1].id] else []
  }

  function Take(ids: seq<Uuid>, n: nat): (r: seq<Uuid>)
    ensures forall id | id in r :: id in ids
  {
    if |ids| <= n then ids else ids[..n]
  }

  /** The first eight memories of the pool. */
  function Seeds(pool: seq<Hit>): (r: set<Uuid>)
    ensures forall id | id in r :: exists h :: h in pool && h.kind == MemoryHit && h.id == id
  {
    set id | id in Take(MemoryIds(pool), 8)
  }

  /** What is pooled before the edge hop. */
  function Base(db: Db, a: Answers, dateOf: int -> string): seq<Hit>
    requires forall id | id in a.mentioning :: id in db.memories
  {
    a.retrieved + GraphHits(db, Distinct(a.mentioning), dateOf)
  }

  /** The answers satisfy the WHERE clauses. */
  ghost predicate Honest(db: Db, r: Request, a: Answers, dateOf: int -> string) {
    && (forall h | h in a.retrieved :: IsRetrieved(db, r.scope, h, dateOf))
    && (forall id | id in a.facts :: IsStable(db, r.scope, id))
    && (forall id | id in a.mentioning :: IsMentioning(db, Matched(db, r), id))
    && (forall id | id in a.neighbours :: IsNeighbour(db, Seeds(Base(db, a, dateOf)), id))
  }

  function Pool(db: Db, a: Answers, dateOf: int -> string): seq<Hit>
    requires forall id | id in a.mentioning + a.neighbours :: id in db.memories
  {
    var base := Base(db, a, dateOf);
    base + HopHits(db, Seeds(base), a.neighbours, dateOf)
  }

  function Facts(db: Db, ids: seq<Uuid>, dateOf: int -> string): (r: seq<StableFact>)
    requires forall id | id in ids :: id in db.memories
    ensures forall f | f in r :: exists id :: id in ids && f == FactOf(db, id, dateOf)
  {
    seq(|ids|, i requires 0 <= i < |ids| => FactOf(db, ids[i], dateOf))
  }

  function HitsOf(xs: seq<Scored>): (r: seq<Hit>)
    ensures |r| == |xs| && forall i | 0 <= i < |xs| :: r[i] == xs[i].hit
  {
    seq(|xs|, i requires 0 <= i < |xs| => xs[i].hit)
  }

  /** The fused hits of one kind, best first. */
  function Fused(pool: seq<Hit>, k: nat, kind: Kind): seq<Hit> {
    HitsOf(OfKind(Fuse(Buckets(pool), k), kind))
  }

  // ---------------------------------------------------------------- everything shown is the caller's

  /** A hit on a live row of the scope. */
  predicate Backed(db: Db, s: Scope, h: Hit) {
    match h.kind
    case TurnHit => h.id in db.turns && db.turns[h.id].scope == s
    case MemoryHit => InScope(db.memories, h.id, s) && h.sourceTurn == db.memories[h.id].sourceTurn
  }

  lemma BaseBacked(db: Db, r: Request, a: Answers, dateOf: int -> string)
    requires GraphSound(db) && Honest(db, r, a, dateOf)
    ensures forall h | h in Base(db, a, dateOf) :: Backed(db, r.scope, h) && h.source != EDGE_HOP
    ensures SeedsIn(db, Seeds(Base(db, a, dateOf)), r.scope)
  {
    hide GraphSound, HitOf;
    forall h | h in Base(db, a, dateOf) ensures Backed(db, r.scope, h) && h.source != EDGE_HOP {
      if h in a.retrieved {
        assert IsRetrieved(db, r.scope, h, dateOf);
        HitSource(db, h, dateOf);
      } else {
        assert h in GraphHits(db, Distinct(a.mentioning), dateOf);
        MentioningInScope(db, Matched(db, r), r.scope, h.id);
        SourceOfHit(db, "graph", h.id, h.score, dateOf);
      }
    }
  }

  lemma SourceOfHit(db: Db, source: string, id: Uuid, score: real, dateOf: int -> string)
    requires id in db.memories
    ensures var h := HitOf(db, source, id, score, dateOf);
      h.source == source && h.sourceTurn == db.memories[id].sourceTurn
  {
  }

  lemma HitSource(db: Db, h: Hit, dateOf: int -> string)
    ensures h.id in db.memories && h == HitOf(db, h.source, h.id, h.score, dateOf)
      ==> h.sourceTurn == db.memories[h.id].sourceTurn
  {
  }

  lemma PoolBacked(db: Db, r: Request, a: Answers, dateOf: int -> string)
    requires GraphSound(db) && Honest(db, r, a, dateOf)
    ensures forall h | h in Pool(db, a, dateOf) ::
      Backed(db, r.scope, h) && (h.source == EDGE_HOP ==> h.kind == MemoryHit)
  {
    hide GraphSound, HitOf, Seeds, Base;
    BaseBacked(db, r, a, dateOf);
    var base := Base(db, a, dateOf);
    forall h | h in Pool(db, a, dateOf)
      ensures Backed(db, r.scope, h) && (h.source == EDGE_HOP ==> h.kind == MemoryHit)
    {
      if h !in base {
        assert h in HopHits(db, Seeds(base), a.neighbours, dateOf);
        NeighbourInScope(db, Seeds(base), r.scope, h.id);
        SourceOfHit(db, EDGE_HOP, h.id, h.score, dateOf);
      }
    }
  }

  /** Fusion shows nothing that was not pooled. */
  lemma FusedFromPool(pool: seq<Hit>, k: nat, kind: Kind)
    ensures forall h | h in Fused(pool, k, kind) :: h in pool && h.kind == kind
  {
    hide Fuse, Buckets, Shares;
    var buckets := Buckets(pool);
    var fused, shares := Fuse(buckets, k), Shares(buckets, k);
    FusionMeaning(buckets, k);
    OfKindMembers(fused, kind);
    BucketMembers(pool);
    ShareMembers(buckets, k);
    forall h | h in Fused(pool, k, kind) ensures h in pool && h.kind == kind {
      var n :| 0 <= n < |Fused(pool, k, kind)| && Fused(pool, k, kind)[n] == h;
      var x := OfKind(fused, kind)[n];
      assert x in fused;
      var i :| IsBest(shares, HitKeyOf(x.hit), i) && shares[i].hit == x.hit;
      assert shares[i] in shares;
    }
  }

  /** A citation of a live turn of the scope. */
  predicate Resolvable(db: Db, s: Scope, c: Citation) {
    c.turn in db.turns && db.turns[c.turn].scope == s
  }

  lemma HitCitationResolvable(db: Db, s: Scope, h: Hit)
    requires Traceable(db) && Backed(db, s, h)
    ensures Resolvable(db, s, HitCitation(h))
  {
    assert h.kind == MemoryHit ==> HasSource(db, db.memories[h.id]);
  }

  lemma FactTraceable(db: Db, s: Scope, ids: seq<Uuid>, dateOf: int -> string)
    requires Traceable(db) && forall id | id in ids :: id in db.memories && db.memories[id].scope == s
    ensures forall f | f in Facts(db, ids, dateOf) ::
      f.sourceTurn.Some? && f.sourceTurn.value in db.turns && db.turns[f.sourceTurn.value].scope == s
  {
    forall f | f in Facts(db, ids, dateOf)
      ensures f.sourceTurn.Some? && f.sourceTurn.value in db.turns && db.turns[f.sourceTurn.value].scope == s
    {
      var id :| id in ids && f == FactOf(db, id, dateOf);
      assert HasSource(db, db.memories[id]);
    }
  }

  /** How many lines the context shows. */
  function LineCount(facts: seq<StableFact>, memories: seq<Hit>, turns: seq<Hit>, gate: Gate, maxTokens: int, arc: bool)
    : nat
  {
    var p := PlanOf(facts, memories, turns, gate, maxTokens, arc);
    p.facts + p.memories + p.turns
  }

  /** One citation per line, and each names a live turn of the scope. */
  lemma CitationsResolvable(db: Db, s: Scope, facts: seq<StableFact>, memories: seq<Hit>, turns: seq<Hit>, gate: Gate,
                            maxTokens: int, arc: bool)
    requires Traceable(db)
    requires forall f | f in facts ::
      f.sourceTurn.Some? && f.sourceTurn.value in db.turns && db.turns[f.sourceTurn.value].scope == s
    requires forall h | h in memories + turns :: Backed(db, s, h)
    ensures var cs := CitationsOf(facts, memories, turns, gate, maxTokens, arc);
      |cs| == LineCount(facts, memories, turns, gate, maxTokens, arc) && forall c | c in cs :: Resolvable(db, s, c)
  {
    hide Traceable, Backed, CitationsOf, PlanOf, HitCitation, Kept;
    var cs := CitationsOf(facts, memories, turns, gate, maxTokens, arc);
    var p := PlanOf(facts, memories, turns, gate, maxTokens, arc);
    var kept := Kept(facts, memories, gate);
    OneCitationPerLine(facts, memories, turns, gate, maxTokens, arc);
    KeptAreHits(facts, memories, gate);
    forall c | c in cs ensures Resolvable(db, s, c) {
      var i :| 0 <= i < |cs| && cs[i] == c;
      if i < p.facts {
        assert facts[i] in facts;
      } else if i < p.facts + p.memories {
        assert c == HitCitation(kept[i - p.facts]) && kept[i - p.facts] in kept;
        HitCitationResolvable(db, s, kept[i - p.facts]);
      } else {
        var j := i - p.facts - p.memories;
        assert c == HitCitation(turns[j]) && turns[j] in turns;
        HitCitationResolvable(db, s, turns[j]);
      }
    }
  }

  lemma KeptAreHits(facts: seq<StableFact>, hits: seq<Hit>, gate: Gate)
    ensures forall h | h in Kept(facts, hits, gate) :: h in hits
  {
    FreshMeaning(facts, hits);
  }

  // ---------------------------------------------------------------- the gate

  lemma OfKindHits(xs: seq<Scored>, kind: Kind, cosineMin: real)
    ensures (exists h :: h in HitsOf(OfKind(xs, kind)) && IsSignal(h, cosineMin))
      <==> (exists x :: x in OfKind(xs, kind) && IsSignal(x.hit, cosineMin))
    ensures forall h | h in HitsOf(OfKind(xs, kind)) :: h.kind == kind
  {
    var ys := OfKind(xs, kind);
    OfKindMembers(xs, kind);
    if h :| h in HitsOf(ys) && IsSignal(h, cosineMin) {
      var i :| 0 <= i < |ys| && ys[i].hit == h;
      assert ys[i] in ys;
    }
    if x :| x in ys && IsSignal(x.hit, cosineMin) {
      var i :| 0 <= i < |ys| && ys[i] == x;
      assert HitsOf(ys)[i] in HitsOf(ys);
    }
  }

  lemma {:induction false} WithoutHopsSplit(a: seq<Hit>, b: seq<Hit>)
    ensures WithoutHops(a + b) == WithoutHops(a) + WithoutHops(b)
  {
    if b == [] {
      assert a + b == a;
    } else {
      var n := |b| - 1;
      assert (a + b)[..|a + b| - 1] == a + b[..n];
      WithoutHopsSplit(a, b[..n]);
    }
  }

  lemma {:induction false} NoHops(a: seq<Hit>)
    ensures (forall h | h in a :: h.source == EDGE_HOP) ==> WithoutHops(a) == []
  {
    if a != [] {
      NoHops(a[..|a| - 1]);
    }
  }

  /** The gate opens as if there had been no edge hop. */
  lemma GateOfBase(db: Db, r: Request, a: Answers, dateOf: int -> string)
    requires GraphSound(db) && Honest(db, r, a, dateOf)
    ensures PoolGate(Pool(db, a, dateOf), r.k, r.cosineMin, r.profile, IsOpenEnded(r), Matched(db, r) != {})
         == PoolGate(Base(db, a, dateOf), r.k, r.cosineMin, r.profile, IsOpenEnded(r), Matched(db, r) != {})
  {
    hide GraphSound, HitOf, Seeds, Base, PoolGate;
    BaseBacked(db, r, a, dateOf);
    PoolBacked(db, r, a, dateOf);
    var base, pool := Base(db, a, dateOf), Pool(db, a, dateOf);
    var hops := HopHits(db, Seeds(base), a.neighbours, dateOf);
    forall h | h in hops ensures h.source == EDGE_HOP {
      SourceOfHit(db, EDGE_HOP, h.id, h.score, dateOf);
    }
    NoHops(hops);
    WithoutHopsSplit(base, hops);
    GateIgnoresHops(pool, base, r.k, r.cosineMin, r.profile, IsOpenEnded(r), Matched(db, r) != {});
  }

  // ---------------------------------------------------------------- the steps

  /**
   * The loop of `memories_mentioning_entities` over the joined rows,
   * which repeat a memory for each entity it mentions.
   */
  method MemoriesMentioning(db: Db, rows: seq<Uuid>, dateOf: int -> string) returns (hits: seq<Hit>)
    requires forall id | id in rows :: id in db.memories
    ensures hits == GraphHits(db, Distinct(rows), dateOf)
  {
    hits := [];
    var seen: set<Uuid> := {};
    for i := 0 to |rows|
      invariant seen == set id | id in rows[..i]
      invariant forall id | id in Distinct(rows[..i]) :: id in db.memories
      invariant hits == GraphHits(db, Distinct(rows[..i]), dateOf)
    {
      assert rows[..i + 1][..i] == rows[..i];
      if rows[i] !in seen {
        seen := seen + {rows[i]};
        hits := hits + [HitOf(db, "graph", rows[i], 0.9, dateOf)];
      }
    }
    assert rows[..|rows|] == rows;
  }

  /** `max(e.weight)` over the edges from the seeds. */
  method MaxWeight(db: Db, seeds: set<Uuid>, id: Uuid) returns (w: real)
    requires EdgesSound(db) && IsNeighbour(db, seeds, id)
    ensures w == HopScore(db, seeds, id)
    ensures exists e | e in db.edges :: LeadsTo(db, seeds, id, e) && db.edges[e] == w
    ensures forall e | LeadsTo(db, seeds, id, e) :: db.edges[e] <= w
  {
    var todo := set e | e in db.edges && LeadsTo(db, seeds, id, e);
    var first: Edge :| first in db.edges && LeadsTo(db, seeds, id, first);
    w := db.edges[first];
    ghost var best := first;
    while todo != {}
      invariant forall e | e in todo :: LeadsTo(db, seeds, id, e)
      invariant LeadsTo(db, seeds, id, best) && w == db.edges[best]
      invariant forall e | LeadsTo(db, seeds, id, e) && e !in todo :: db.edges[e] <= w
    {
      var e :| e in todo;
      if db.edges[e] > w {
        w, best := db.edges[e], e;
      }
      todo := todo - {e};
    }
    assert forall e | e in db.edges :: db.edges[e] == WeightOf(e.relation);
  }

  method MemoriesViaEdges(db: Db, seeds: set<Uuid>, rows: seq<Uuid>, dateOf: int -> string) returns (hits: seq<Hit>)
    requires EdgesSound(db) && forall id | id in rows :: id in db.memories && IsNeighbour(db, seeds, id)
    ensures hits == HopHits(db, seeds, rows, dateOf)
  {
    hits := [];
    for i := 0 to |rows|
      invariant hits == HopHits(db, seeds, rows[..i], dateOf)
    {
      var w := MaxWeight(db, seeds, rows[i]);
      hits := hits + [HitOf(db, EDGE_HOP, rows[i], w, dateOf)];
    }
    assert rows[..|rows|] == rows;
  }

  method PoolHits(db: Db, r: Request, a: Answers, dateOf: int -> string) returns (pool: seq<Hit>)
    requires EdgesSound(db) && Honest(db, r, a, dateOf)
    ensures pool == Pool(db, a, dateOf)
  {
    var hits := MemoriesMentioning(db, a.mentioning, dateOf);
    pool := a.retrieved + hits;
    hits := MemoriesViaEdges(db, Seeds(pool), a.neighbours, dateOf);
    pool := pool + hits;
  }

  /** Fuse, sort memories first, split by kind: sorting changes neither list. */
  method Rank(pool: seq<Hit>, k: nat) returns (memories: seq<Hit>, turns: seq<Hit>)
    ensures memories == Fused(pool, k, MemoryHit) && turns == Fused(pool, k, TurnHit)
  {
    hide Fuse, Buckets, SortBy;
    var buckets := GroupBySource(pool);
    var fused := RrfFuse(buckets, k);
    FusionMeaning(buckets, k);
    MemoryFirstThenFilter(fused, MemoryHit);
    MemoryFirstThenFilter(fused, TurnHit);
    fused := SortBy(MemoryFirst, fused);
    memories, turns := HitsOf(OfKind(fused, MemoryHit)), HitsOf(OfKind(fused, TurnHit));
  }

  /** What the signal tests see in the list of a kind is what the gate of the pool is defined by. */
  lemma SignalOfFused(pool: seq<Hit>, k: nat, kind: Kind, cosineMin: real)
    ensures (exists h :: h in Fused(pool, k, kind) && IsSignal(h, cosineMin)) <==> HasSignal(pool, k, kind, cosineMin)
  {
    hide Fuse, Buckets, SortBy, IsSignal;
    var fused := Fuse(Buckets(pool), k);
    FusionMeaning(Buckets(pool), k);
    MemoryFirstThenFilter(fused, kind);
    OfKindHits(fused, kind, cosineMin);
  }

  method OpenGate(r: Request, memories: seq<Hit>, turns: seq<Hit>, entityMatch: bool, ghost pool: seq<Hit>)
    returns (gate: Gate)
    requires memories == Fused(pool, r.k, MemoryHit) && turns == Fused(pool, r.k, TurnHit)
    ensures gate == PoolGate(pool, r.k, r.cosineMin, r.profile, IsOpenEnded(r), entityMatch)
    ensures var known := exists h ::
        h in memories
        && (h.source == "graph" || (h.source == "memory_vector" && h.score >= r.cosineMin)
            || (h.source == "memory_fts" && h.score >= 0.01));
      var said := exists h ::
        h in turns
        && ((h.source == "turn_vector" && h.score >= r.cosineMin) || (h.source == "turn_fts" && h.score >= 0.05));
      var asked := r.profile && (r.intent == Exploratory || r.intent == RecentContext);
      && (gate.tier1 <==> r.profile && (entityMatch || known || asked))
      && (gate.tier2 <==> entityMatch || known || (said && !asked))
  {
    hide Fused, HasSignal;
    SignalOfFused(pool, r.k, MemoryHit, r.cosineMin);
    SignalOfFused(pool, r.k, TurnHit, r.cosineMin);
    FusedFromPool(pool, r.k, MemoryHit);
    FusedFromPool(pool, r.k, TurnHit);
    var memorySignal := HasMemorySignal(memories, r.cosineMin);
    var turnSignal := HasTurnSignal(turns, r.cosineMin);
    assert forall h | h in memories :: IsSignal(h, r.cosineMin) == IsMemorySignal(h, r.cosineMin);
    assert forall h | h in turns :: IsSignal(h, r.cosineMin) == IsTurnSignal(h, r.cosineMin);
    gate := DecideGate(r.profile, IsOpenEnded(r), memorySignal, turnSignal, entityMatch);
  }

  /** The lists that are assembled, and the gate, as functions of the store and the answers. */
  datatype Material = Material(facts: seq<StableFact>, memories: seq<Hit>, turns: seq<Hit>, gate: Gate)

  ghost function MaterialOf(db: Db, r: Request, a: Answers, dateOf: int -> string): Material
    requires forall id | id in a.facts + a.mentioning + a.neighbours :: id in db.memories
  {
    var pool := Pool(db, a, dateOf);
    Material(Facts(db, a.facts, dateOf), Fused(pool, r.k, MemoryHit), Fused(pool, r.k, TurnHit),
            PoolGate(Base(db, a, dateOf), r.k, r.cosineMin, r.profile, IsOpenEnded(r), Matched(db, r) != {}))
  }

  lemma HonestRows(db: Db, r: Request, a: Answers, dateOf: int -> string)
    requires Honest(db, r, a, dateOf)
    ensures forall id | id in a.facts + a.mentioning + a.neighbours :: id in db.memories
  {
  }

  lemma MaterialCited(db: Db, r: Request, a: Answers, dateOf: int -> string, gate: Gate)
    requires Consistent(db) && GraphSound(db) && Honest(db, r, a, dateOf)
    ensures var pool := Pool(db, a, dateOf);
      var facts, memories, turns := Facts(db, a.facts, dateOf), Fused(pool, r.k, MemoryHit), Fused(pool, r.k, TurnHit);
      var cs := CitationsOf(facts, memories, turns, gate, r.maxTokens, RendersArc(r));
      && |cs| == LineCount(facts, memories, turns, gate, r.maxTokens, RendersArc(r))
      && forall c | c in cs :: Resolvable(db, r.scope, c)
  {
    hide GraphSound, GroupsSound, Fused, Pool, CitationsOf, LineCount, Facts, Backed, HasSource;
    var pool := Pool(db, a, dateOf);
    var facts, memories, turns := Facts(db, a.facts, dateOf), Fused(pool, r.k, MemoryHit), Fused(pool, r.k, TurnHit);
    PoolBacked(db, r, a, dateOf);
    FusedFromPool(pool, r.k, MemoryHit);
    FusedFromPool(pool, r.k, TurnHit);
    FactTraceable(db, r.scope, a.facts, dateOf);
    CitationsResolvable(db, r.scope, facts, memories, turns, gate, r.maxTokens, RendersArc(r));
  }

  /** Evidence of a kind among the hits pooled before the edge hop. */
  ghost predicate Evidence(db: Db, r: Request, a: Answers, dateOf: int -> string, kind: Kind)
    requires forall id | id in a.mentioning :: id in db.memories
  {
    HasSignal(Base(db, a, dateOf), r.k, kind, r.cosineMin)
  }

  /**
   * Empty over wrong. Facts are shown only to a query about the user that names an entity, has memory
   * evidence or is open-ended, never to one that is merely about the user; hits only on an entity or
   * evidence; and where no line is shown, context and citations are empty.
   */
  lemma EmptyOverWrong(db: Db, r: Request, a: Answers, dateOf: int -> string)
    requires forall id | id in a.facts + a.mentioning + a.neighbours :: id in db.memories
    ensures var x := MaterialOf(db, r, a, dateOf);
      var p := PlanOf(x.facts, x.memories, x.turns, x.gate, r.maxTokens, RendersArc(r));
      && (p.facts > 0 ==>
            r.profile && (Matched(db, r) != {} || Evidence(db, r, a, dateOf, MemoryHit) || IsOpenEnded(r)))
      && (p.memories + p.turns > 0 ==>
            Matched(db, r) != {} || Evidence(db, r, a, dateOf, MemoryHit) || Evidence(db, r, a, dateOf, TurnHit))
      && (p.facts + p.memories + p.turns == 0 ==>
            && ContextText(x.facts, x.memories, x.turns, x.gate, r.maxTokens, RendersArc(r)) == ""
            && CitationsOf(x.facts, x.memories, x.turns, x.gate, r.maxTokens, RendersArc(r)) == [])
  {
    hide HasSignal, Base, Pool, Fused, Facts, Shown, Spent, FactLine, MemoryLine, TurnLine, Kept;
    var x := MaterialOf(db, r, a, dateOf);
    NoLines(x.facts, x.memories, x.turns, x.gate, r.maxTokens, RendersArc(r));
  }

  /**
   * Nothing found, nothing shown: without an entity of the query, an open-ended intent or a retrieved hit
   * that is evidence and of the heaviest source for its row, recall returns an empty context, whatever facts
   * and neighbours there are.
   */
  lemma NothingFoundNothingShown(db: Db, r: Request, a: Answers, dateOf: int -> string)
    requires Honest(db, r, a, dateOf) && Matched(db, r) == {} && !IsOpenEnded(r)
    requires forall h | Heaviest(a.retrieved, h) :: !IsSignal(h, r.cosineMin)
    ensures forall id | id in a.facts + a.mentioning + a.neighbours :: id in db.memories
    ensures var x := MaterialOf(db, r, a, dateOf);
      && ContextText(x.facts, x.memories, x.turns, x.gate, r.maxTokens, RendersArc(r)) == ""
      && CitationsOf(x.facts, x.memories, x.turns, x.gate, r.maxTokens, RendersArc(r)) == []
  {
    hide HasSignal, Pool, Fused, Facts, IsSignal, ContextText, CitationsOf, IsRetrieved, IsStable, IsNeighbour;
    HonestRows(db, r, a, dateOf);
    OnlyRetrieved(db, r, a, dateOf);
    forall kind ensures !Evidence(db, r, a, dateOf, kind) {
      if Evidence(db, r, a, dateOf, kind) {
        SignalIsHeaviest(a.retrieved, r.k, kind, r.cosineMin);
      }
    }
    EmptyOverWrong(db, r, a, dateOf);
  }

  /** Without an entity no row mentions one. */
  lemma OnlyRetrieved(db: Db, r: Request, a: Answers, dateOf: int -> string)
    requires Honest(db, r, a, dateOf) && Matched(db, r) == {}
    ensures a.mentioning == [] && Base(db, a, dateOf) == a.retrieved
  {
    assert forall id :: !IsMentioning(db, Matched(db, r), id);
    FirstIn(a.mentioning);
  }

  lemma NoLines(facts: seq<StableFact>, memories: seq<Hit>, turns: seq<Hit>, gate: Gate, maxTokens: int, arc: bool)
    ensures LineCount(facts, memories, turns, gate, maxTokens, arc) == 0 ==>
      && ContextText(facts, memories, turns, gate, maxTokens, arc) == ""
      && CitationsOf(facts, memories, turns, gate, maxTokens, arc) == []
  {
    hide Shown, Spent, FactLine, MemoryLine, TurnLine, Kept, PlanLines;
  }

  /**
   * `recall`, after the query was analyzed. Sorting memories first changes neither list, the gate is
   * that of the pool without the edge hop, the context keeps to the budget, and each line it shows is
   * cited by a live turn of the caller's scope.
   */
  method Recall(db: Db, r: Request, a: Answers, dateOf: int -> string)
    returns (context: string, citations: seq<Citation>)
    requires Consistent(db) && GraphSound(db) && Honest(db, r, a, dateOf)
    ensures forall id | id in a.facts + a.mentioning + a.neighbours :: id in db.memories
    ensures var x := MaterialOf(db, r, a, dateOf);
      && context == ContextText(x.facts, x.memories, x.turns, x.gate, r.maxTokens, RendersArc(r))
      && citations == CitationsOf(x.facts, x.memories, x.turns, x.gate, r.maxTokens, RendersArc(r))
      && |citations| == LineCount(x.facts, x.memories, x.turns, x.gate, r.maxTokens, RendersArc(r))
    ensures context != "" ==> |context| <= 4 * r.maxTokens - 2
    ensures forall c | c in citations :: Resolvable(db, r.scope, c)
  {
    hide GraphSound, Consistent, Honest, Pool, Base, Fused, PoolGate, Facts,
         ContextText, CitationsOf, LineCount, Resolvable;
    HonestRows(db, r, a, dateOf);
    SoundEdges(db);
    var pool := PoolHits(db, r, a, dateOf);
    var memories, turns := Rank(pool, r.k);
    var gate := OpenGate(r, memories, turns, Matched(db, r) != {}, pool);
    GateOfBase(db, r, a, dateOf);
    var facts := Facts(db, a.facts, dateOf);
    context, citations := Assemble(facts, memories, turns, gate, r.maxTokens, RendersArc(r));
    ContextBound(facts, memories, turns, gate, r.maxTokens, RendersArc(r));
    MaterialCited(db, r, a, dateOf, gate);
  }

  lemma SoundEdges(db: Db)
    requires GraphSound(db)
    ensures EdgesSound(db)
  {
  }
}
