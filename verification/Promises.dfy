/** What recall promises its caller, in terms of rows, texts and numbers. */
module Promises {
  import opened Tables
  import opened Text
  import opened Invariants
  import opened Graph
  import opened Fusion
  import opened Ranking
  import opened Assembler
  import opened Budget
  import opened Rendering
  import opened Queries
  import opened Recall

  // ---------------------------------------------------------------- when the tiers open

  /**
   * Facts are open to a query about the user that names an entity, finds memory evidence or is open-ended;
   * hits to one that names an entity or finds memory evidence, and on the evidence of a turn to one that is
   * not open-ended about the user. Evidence is a hit shown that clears the floor of its source.
   */
  lemma GateIff(db: Db, r: Request, a: Answers, dateOf: int -> string)
    requires GraphSound(db) && Honest(db, r, a, dateOf)
    ensures forall id | id in a.facts + a.mentioning + a.neighbours :: id in db.memories
    ensures var x := MaterialOf(db, r, a, dateOf);
      var named := exists e, n ::
        e in db.entities && n in r.names && n != ""
        && db.entities[e].scope == r.scope && Lower(db.entities[e].name) == Lower(n);
      var known := exists h ::
        h in x.memories
        && (h.source == "graph" || (h.source == "memory_vector" && h.score >= r.cosineMin)
            || (h.source == "memory_fts" && h.score >= 0.01));
      var said := exists h ::
        h in x.turns
        && ((h.source == "turn_vector" && h.score >= r.cosineMin) || (h.source == "turn_fts" && h.score >= 0.05));
      var asked := r.profile && (r.intent == Exploratory || r.intent == RecentContext);
      && (x.gate.tier1 <==> r.profile && (named || known || asked))
      && (x.gate.tier2 <==> named || known || (said && !asked))
  {
    hide Fused, HasSignal, Pool, Base, GraphSound, Honest, Lower, Facts, Matched;
    HonestRows(db, r, a, dateOf);
    GateOfBase(db, r, a, dateOf);
    MatchedIff(db, r);
    var pool := Pool(db, a, dateOf);
    SignalOfFused(pool, r.k, MemoryHit, r.cosineMin);
    SignalOfFused(pool, r.k, TurnHit, r.cosineMin);
    FusedFromPool(pool, r.k, MemoryHit);
    FusedFromPool(pool, r.k, TurnHit);
    var x := MaterialOf(db, r, a, dateOf);
    assert forall h | h in x.memories :: IsSignal(h, r.cosineMin) == IsMemorySignal(h, r.cosineMin);
    assert forall h | h in x.turns :: IsSignal(h, r.cosineMin) == IsTurnSignal(h, r.cosineMin);
  }

  lemma MatchedIff(db: Db, r: Request)
    ensures Matched(db, r) != {} <==>
      exists e, n :: e in db.entities && n in r.names && n != ""
        && db.entities[e].scope == r.scope && Lower(db.entities[e].name) == Lower(n)
  {
    hide Lower;
    if Matched(db, r) != {} {
      var e :| e in Matched(db, r);
      var i :| 0 <= i < |r.names| && r.names[i] != "" && Lower(r.names[i]) == Lower(db.entities[e].name);
      assert r.names[i] in r.names;
    }
    if e, n :|
      e in db.entities && n in r.names && n != ""
      && db.entities[e].scope == r.scope && Lower(db.entities[e].name) == Lower(n) {
      var i :| 0 <= i < |r.names| && r.names[i] == n;
      assert IsNamed(db.entities[e], r.names);
      assert e in Matched(db, r);
    }
  }

  // ---------------------------------------------------------------- something found, something shown

  /** The vector index found the turn well, or only the words did, and they did well. */
  ghost predicate FoundWell(hits: seq<Hit>, turn: Uuid, cosineMin: real) {
    && (exists h :: h in hits && h.kind == TurnHit && h.id == turn)
    && (forall h | h in hits && h.kind == TurnHit && h.id == turn && h.source == "turn_vector" :: h.score >= cosineMin)
    && ((forall h | h in hits && h.kind == TurnHit && h.id == turn :: h.source != "turn_vector") ==>
          forall h | h in hits && h.kind == TurnHit && h.id == turn && h.source == "turn_fts" :: h.score >= 0.05)
  }

  /** The line of a turn, which is cut to 640 characters, fits into the budget with its heading. */
  predicate TurnFits(h: Hit, maxTokens: int) {
    var date := if h.date == None then 0 else |h.date.value| + 3;
    maxTokens >= 10 && 2 + date + (if |h.content| <= 640 then |h.content| else 640) <= 4 * (maxTokens - 9)
  }

  lemma BaseTurns(db: Db, r: Request, a: Answers, dateOf: int -> string, h: Hit)
    requires Honest(db, r, a, dateOf) && h.kind == TurnHit
    ensures h in Base(db, a, dateOf) <==> h in a.retrieved
    ensures h in Pool(db, a, dateOf) <==> h in a.retrieved
    ensures h in a.retrieved ==> h.source == "turn_vector" || h.source == "turn_fts"
  {
    hide HitOf, Seeds, IsStable, IsNeighbour, IsMentioning;
    HonestRows(db, r, a, dateOf);
    assert h in a.retrieved ==> IsRetrieved(db, r.scope, h, dateOf);
  }

  /** A turn that was found well is evidence. */
  lemma FoundIsEvidence(db: Db, r: Request, a: Answers, dateOf: int -> string, turn: Uuid)
    requires Honest(db, r, a, dateOf) && FoundWell(a.retrieved, turn, r.cosineMin)
    ensures HasSignal(Base(db, a, dateOf), r.k, TurnHit, r.cosineMin)
  {
    hide Base, Pool, Honest, HasSignal;
    HonestRows(db, r, a, dateOf);
    var base := Base(db, a, dateOf);
    var h :| h in a.retrieved && h.kind == TurnHit && h.id == turn;
    BaseTurns(db, r, a, dateOf, h);
    forall o | Heaviest(base, o) && HitKeyOf(o) == HitKeyOf(h) ensures IsSignal(o, r.cosineMin) {
      BaseTurns(db, r, a, dateOf, o);
      if o.source != "turn_vector" {
        forall v | v in a.retrieved && v.kind == TurnHit && v.id == turn ensures v.source != "turn_vector" {
          BaseTurns(db, r, a, dateOf, v);
          assert SourceWeight(v.source) <= SourceWeight(o.source);
        }
      }
    }
    HeaviestIsSignal(base, r.k, h, r.cosineMin);
  }

  /** Whatever was pooled of a kind, something of that kind is shown to the assembler. */
  lemma PooledIsFused(pool: seq<Hit>, k: nat, h: Hit)
    requires h in pool
    ensures Fused(pool, k, h.kind) != []
  {
    hide Fuse, Buckets, Shares, Best, SortBy;
    var j := PooledHasShare(pool, k, h);
    NoBest(Shares(Buckets(pool), k), HitKeyOf(h));
    RankedKeeps(pool, k, h.kind);
    FusionMeaning(Buckets(pool), k);
    MemoryFirstThenFilter(Fuse(Buckets(pool), k), h.kind);
  }

  lemma TurnLineLength(h: Hit)
    ensures |TurnLine(h)| <= 2 + (if h.date == None then 0 else |h.date.value| + 3)
                             + (if |h.content| <= 640 then |h.content| else 640)
  {
    hide TurnLine, Strip;
    TurnQuotes(h);
    var i, j := StripMeaning(h.content);
  }

  /**
   * Something found, something shown: unless the query is open-ended about the user, a turn that was found
   * well makes a context that is not empty, if turns fit into the budget at all.
   */
  lemma SomethingFoundSomethingShown(db: Db, r: Request, a: Answers, dateOf: int -> string, turn: Uuid)
    requires GraphSound(db) && Honest(db, r, a, dateOf) && FoundWell(a.retrieved, turn, r.cosineMin)
    requires !(r.profile && (r.intent == Exploratory || r.intent == RecentContext))
    requires forall h | h in a.retrieved && h.kind == TurnHit :: TurnFits(h, r.maxTokens)
    ensures forall id | id in a.facts + a.mentioning + a.neighbours :: id in db.memories
    ensures var x := MaterialOf(db, r, a, dateOf);
      ContextText(x.facts, x.memories, x.turns, x.gate, r.maxTokens, RendersArc(r)) != ""
  {
    hide Fused, HasSignal, Pool, Base, GraphSound, Honest, FoundWell, Facts, ContextText, TurnLine, FactLine,
         MemoryLine, Kept;
    HonestRows(db, r, a, dateOf);
    FoundIsEvidence(db, r, a, dateOf, turn);
    var x, pool := MaterialOf(db, r, a, dateOf), Pool(db, a, dateOf);
    var h := FoundTurn(a.retrieved, turn, r.cosineMin);
    BaseTurns(db, r, a, dateOf, h);
    PooledIsFused(pool, r.k, h);
    FusedFromPool(pool, r.k, TurnHit);
    var first := x.turns[0];
    assert first in x.turns;
    BaseTurns(db, r, a, dateOf, first);
    TurnLineLength(first);
    EmptyIff(x.facts, x.memories, x.turns, x.gate, r.maxTokens, RendersArc(r));
  }

  lemma FoundTurn(hits: seq<Hit>, turn: Uuid, cosineMin: real) returns (h: Hit)
    requires FoundWell(hits, turn, cosineMin)
    ensures h in hits && h.kind == TurnHit
  {
    h :| h in hits && h.kind == TurnHit && h.id == turn;
  }

  // ---------------------------------------------------------------- what is shown is current

  /** The superseded row that is carried along, with the date of the turn in which the newer fact was stated. */
  predicate PriorIs(db: Db, m: Memory, prior: Option<Prior>, dateOf: int -> string) {
    if m.supersedes == None then prior == None
    else
      && m.supersedes.value in db.memories && m.sourceTurn.Some? && m.sourceTurn.value in db.turns
      && prior == Some(Prior(db.memories[m.supersedes.value].value,
                             Some(dateOf(db.turns[m.sourceTurn.value].timestamp))))
  }

  /** The fact is an active row of the scope, no event, held with confidence. */
  predicate IsCurrentFact(db: Db, s: Scope, f: StableFact, id: Uuid, dateOf: int -> string) {
    && id in db.memories
    && var m := db.memories[id];
       && m.scope == s && m.active && m.kind != MemoryType.Event && m.confidence >= 0.5
       && f.value == m.value && f.confidence == m.confidence && f.sourceTurn == m.sourceTurn
       && f.updated == Some(dateOf(m.createdAt)) && PriorIs(db, m, f.prior, dateOf)
  }

  /** The hit is an active row of the scope. */
  predicate IsCurrentHit(db: Db, s: Scope, h: Hit, dateOf: int -> string) {
    && h.kind == MemoryHit && h.id in db.memories
    && var m := db.memories[h.id];
       && m.scope == s && m.active && h.content == m.value && h.sourceTurn == m.sourceTurn
       && PriorIs(db, m, h.prior, dateOf) && (h.source == "graph" ==> h.score == 0.9)
       && (h.source == "edge_hop" ==> h.score == 0.7 || h.score == 0.5)
  }

  lemma PriorIsJoin(db: Db, id: Uuid, dateOf: int -> string)
    requires Consistent(db) && id in db.memories
    ensures PriorIs(db, db.memories[id], PriorOf(db, db.memories[id], dateOf), dateOf)
  {
    hide GroupsSound;
    var m := db.memories[id];
    assert HasSource(db, m);
    if m.supersedes.Some? {
      LinkIsLive(db, id);
    }
  }

  lemma LinkIsLive(db: Db, id: Uuid)
    requires GroupsSound(db.memories) && id in db.memories && db.memories[id].supersedes.Some?
    ensures db.memories[id].supersedes.value in db.memories
  {
    var m := db.memories[id];
    var g := Group(db.memories, m.scope, m.key);
    assert Groups.Sound(g);
    assert Groups.Supersedes(g, id, m.supersedes.value);
  }

  lemma FactsAreCurrent(db: Db, r: Request, a: Answers, dateOf: int -> string)
    requires Consistent(db) && Honest(db, r, a, dateOf)
    ensures forall id | id in a.facts :: id in db.memories
    ensures var facts := Facts(db, a.facts, dateOf);
      |facts| == |a.facts| && forall i | 0 <= i < |facts| :: IsCurrentFact(db, r.scope, facts[i], a.facts[i], dateOf)
  {
    hide Consistent, PriorOf, PriorIs, IsRetrieved, IsNeighbour, IsMentioning;
    HonestRows(db, r, a, dateOf);
    var facts := Facts(db, a.facts, dateOf);
    forall i | 0 <= i < |facts| ensures IsCurrentFact(db, r.scope, facts[i], a.facts[i], dateOf) {
      assert a.facts[i] in a.facts && IsStable(db, r.scope, a.facts[i]);
      PriorIsJoin(db, a.facts[i], dateOf);
    }
  }

  lemma RowHitIsCurrent(db: Db, s: Scope, h: Hit, dateOf: int -> string)
    requires Consistent(db) && h.id in db.memories && db.memories[h.id].scope == s && db.memories[h.id].active
    requires h == HitOf(db, h.source, h.id, h.score, dateOf) && (h.source == "graph" ==> h.score == 0.9)
    requires h.source == "edge_hop" ==> h.score == 0.7 || h.score == 0.5
    ensures IsCurrentHit(db, s, h, dateOf)
  {
    hide Consistent, PriorOf, PriorIs;
    PriorIsJoin(db, h.id, dateOf);
  }

  lemma PooledAreCurrent(db: Db, r: Request, a: Answers, dateOf: int -> string, h: Hit)
    requires Consistent(db) && GraphSound(db) && Honest(db, r, a, dateOf)
    requires h.kind == MemoryHit && h in Pool(db, a, dateOf)
    ensures IsCurrentHit(db, r.scope, h, dateOf)
  {
    hide Consistent, GraphSound, Seeds, PriorOf, IsCurrentHit, HopScore;
    HonestRows(db, r, a, dateOf);
    PoolBacked(db, r, a, dateOf);
    var base := Base(db, a, dateOf);
    if h in a.retrieved {
      assert IsRetrieved(db, r.scope, h, dateOf);
    } else if h in base {
      var i :| 0 <= i < |Distinct(a.mentioning)| && h == HitOf(db, "graph", Distinct(a.mentioning)[i], 0.9, dateOf);
      assert IsMentioning(db, Matched(db, r), h.id);
    } else {
      var i :| 0 <= i < |a.neighbours| && h == HitOf(db, EDGE_HOP, a.neighbours[i],
                                                     HopScore(db, Seeds(base), a.neighbours[i]), dateOf);
      assert IsNeighbour(db, Seeds(base), h.id);
      HopScores(db, Seeds(base), a.neighbours[i]);
    }
    RowHitIsCurrent(db, r.scope, h, dateOf);
  }

  lemma HopScores(db: Db, seeds: set<Uuid>, id: Uuid)
    ensures HopScore(db, seeds, id) == 0.7 || HopScore(db, seeds, id) == 0.5
  {
  }

  /**
   * Everything recall may show is a row of the caller's scope as it stands now, the facts are those the query
   * returned, and nothing that was retrieved, mentions a named entity or is a neighbour is lost.
   */
  lemma MaterialIsCurrent(db: Db, r: Request, a: Answers, dateOf: int -> string)
    requires Consistent(db) && GraphSound(db) && Honest(db, r, a, dateOf)
    ensures forall id | id in a.facts + a.mentioning + a.neighbours :: id in db.memories
    ensures var x := MaterialOf(db, r, a, dateOf);
      && |x.facts| == |a.facts|
      && (forall i | 0 <= i < |x.facts| :: IsCurrentFact(db, r.scope, x.facts[i], a.facts[i], dateOf))
      && (forall h | h in x.memories :: IsCurrentHit(db, r.scope, h, dateOf))
      && (forall h | h in x.turns :: h.kind == TurnHit && h.id in db.turns && db.turns[h.id].scope == r.scope)
      && (forall o | o in a.retrieved && o.kind == TurnHit :: exists h :: h in x.turns && h.id == o.id)
      && (forall o | o in a.retrieved && o.kind == MemoryHit :: exists h :: h in x.memories && h.id == o.id)
      && (forall id | id in a.mentioning :: exists h :: h in x.memories && h.id == id && h.source == "graph")
      && (forall id | id in a.neighbours :: exists h :: h in x.memories && h.id == id)
  {
    hide Consistent, GraphSound, Honest, Pool, Fused, Facts, IsCurrentFact, IsCurrentHit;
    HonestRows(db, r, a, dateOf);
    FactsAreCurrent(db, r, a, dateOf);
    var pool := Pool(db, a, dateOf);
    FusedFromPool(pool, r.k, MemoryHit);
    FusedFromPool(pool, r.k, TurnHit);
    PoolBacked(db, r, a, dateOf);
    forall h | h in Fused(pool, r.k, MemoryHit) ensures IsCurrentHit(db, r.scope, h, dateOf) {
      PooledAreCurrent(db, r, a, dateOf, h);
    }
    NothingLost(db, r, a, dateOf);
  }

  /** A row that was pooled is among the fused hits of its kind. */
  lemma PooledIsOffered(pool: seq<Hit>, k: nat, o: Hit) returns (h: Hit)
    requires o in pool
    ensures h in Fused(pool, k, o.kind) && h.id == o.id && h.kind == o.kind && Heaviest(pool, h)
  {
    hide Fuse, Buckets, Shares, Best, SortBy;
    var shares, key := Shares(Buckets(pool), k), HitKeyOf(o);
    var j := PooledHasShare(pool, k, o);
    NoBest(shares, key);
    KeptIsHeaviest(pool, k, key);
    RankedKeeps(pool, k, o.kind);
    FusionMeaning(Buckets(pool), k);
    MemoryFirstThenFilter(Fuse(Buckets(pool), k), o.kind);
    var xs := OfKind(Fuse(Buckets(pool), k), o.kind);
    var x :| x in xs && x.hit == Best(shares, key).value.hit;
    var i :| 0 <= i < |xs| && xs[i] == x;
    assert HitsOf(xs)[i] in HitsOf(xs);
    h := x.hit;
  }

  lemma MentioningIsOffered(db: Db, r: Request, a: Answers, dateOf: int -> string, i: nat) returns (h: Hit)
    requires Honest(db, r, a, dateOf) && i < |a.mentioning|
    ensures h in Fused(Pool(db, a, dateOf), r.k, MemoryHit) && h.id == a.mentioning[i] && h.source == "graph"
  {
    hide Fused, Seeds, IsRetrieved, IsStable, IsNeighbour, IsMentioning, SourceWeight, PriorOf, HopScore;
    HonestRows(db, r, a, dateOf);
    var ids := Distinct(a.mentioning);
    assert a.mentioning[i] in ids;
    var c :| 0 <= c < |ids| && ids[c] == a.mentioning[i];
    var o := HitOf(db, "graph", ids[c], 0.9, dateOf);
    assert GraphHits(db, ids, dateOf)[c] == o;
    h := PooledIsOffered(Pool(db, a, dateOf), r.k, o);
    GraphIsHeaviest(h.source);
  }

  lemma GraphIsHeaviest(source: string)
    ensures SourceWeight("graph") <= SourceWeight(source) ==> source == "graph"
  {
  }

  lemma NeighbourIsOffered(db: Db, r: Request, a: Answers, dateOf: int -> string, i: nat) returns (h: Hit)
    requires Honest(db, r, a, dateOf) && i < |a.neighbours|
    ensures h in Fused(Pool(db, a, dateOf), r.k, MemoryHit) && h.id == a.neighbours[i]
  {
    hide Fused, Seeds, IsRetrieved, IsStable, IsNeighbour, IsMentioning, Heaviest, PriorOf, HopScore;
    HonestRows(db, r, a, dateOf);
    var seeds := Seeds(Base(db, a, dateOf));
    var o := HitOf(db, EDGE_HOP, a.neighbours[i], HopScore(db, seeds, a.neighbours[i]), dateOf);
    assert HopHits(db, seeds, a.neighbours, dateOf)[i] == o;
    h := PooledIsOffered(Pool(db, a, dateOf), r.k, o);
  }

  lemma NothingLost(db: Db, r: Request, a: Answers, dateOf: int -> string)
    requires Honest(db, r, a, dateOf)
    ensures forall id | id in a.mentioning + a.neighbours :: id in db.memories
    ensures forall o | o in a.retrieved :: exists h :: h in Fused(Pool(db, a, dateOf), r.k, o.kind) && h.id == o.id
    ensures forall id | id in a.mentioning ::
      exists h :: h in Fused(Pool(db, a, dateOf), r.k, MemoryHit) && h.id == id && h.source == "graph"
    ensures forall id | id in a.neighbours ::
      exists h :: h in Fused(Pool(db, a, dateOf), r.k, MemoryHit) && h.id == id
  {
    hide Honest, Fused;
    HonestRows(db, r, a, dateOf);
    var pool := Pool(db, a, dateOf);
    forall o | o in a.retrieved ensures exists h :: h in Fused(pool, r.k, o.kind) && h.id == o.id {
      var h := PooledIsOffered(pool, r.k, o);
    }
    forall id | id in a.mentioning
      ensures exists h :: h in Fused(pool, r.k, MemoryHit) && h.id == id && h.source == "graph"
    {
      var i :| 0 <= i < |a.mentioning| && a.mentioning[i] == id;
      var h := MentioningIsOffered(db, r, a, dateOf, i);
    }
    forall id | id in a.neighbours ensures exists h :: h in Fused(pool, r.k, MemoryHit) && h.id == id {
      var i :| 0 <= i < |a.neighbours| && a.neighbours[i] == id;
      var h := NeighbourIsOffered(db, r, a, dateOf, i);
    }
  }

  // ---------------------------------------------------------------- what the context says

  /**
   * The line states an active row of the caller's scope: its value, and behind it the one it replaced to a
   * query that asks how things were; it cites the turn in which the row was stated.
   */
  ghost predicate States(db: Db, r: Request, line: string, c: Citation, id: Uuid, dated: bool, dateOf: int -> string) {
    && id in db.memories
    && var m := db.memories[id];
       && m.scope == r.scope && m.active && m.sourceTurn == Some(c.turn)
       && exists prior ::
            PriorIs(db, m, prior, dateOf)
            && Says(line, m.value, prior, r.intent == Exploratory || r.intent == FactoidAboutUser,
                    if dated then Some(dateOf(m.createdAt)) else None)
  }

  ghost predicate RowStated(db: Db, r: Request, line: string, c: Citation, dated: bool, dateOf: int -> string) {
    exists id :: States(db, r, line, c, id, dated, dateOf)
  }

  /** The line quotes a turn of the caller's scope that was retrieved, and cites it. */
  ghost predicate QuotesTurn(db: Db, r: Request, hits: seq<Hit>, line: string, c: Citation) {
    && c.turn in db.turns && db.turns[c.turn].scope == r.scope
    && exists h :: h in hits && h.kind == TurnHit && h.id == c.turn && Quotes(line, h)
  }

  /** What a context of these lines says, citation by citation. */
  ghost predicate ContextStates(db: Db, r: Request, hits: seq<Hit>, context: string, cs: seq<Citation>, p: Plan,
                                lines: seq<string>, at: seq<nat>, dateOf: int -> string)
  {
    && Placed(context, lines, at) && |cs| == |lines| == p.facts + p.memories + p.turns
    && (forall n | 0 <= n < p.facts :: RowStated(db, r, lines[n], cs[n], true, dateOf))
    && (forall n | p.facts <= n < p.facts + p.memories :: RowStated(db, r, lines[n], cs[n], false, dateOf))
    && (forall n | p.facts + p.memories <= n < |lines| :: QuotesTurn(db, r, hits, lines[n], cs[n]))
  }

  lemma FactStates(db: Db, r: Request, f: StableFact, line: string, c: Citation, dateOf: int -> string)
    requires Consistent(db) && exists id :: IsCurrentFact(db, r.scope, f, id, dateOf)
    requires Says(line, f.value, f.prior, RendersArc(r), f.updated) && f.sourceTurn == Some(c.turn)
    ensures RowStated(db, r, line, c, true, dateOf)
  {
    hide Consistent, PriorIs, Says;
    var id :| IsCurrentFact(db, r.scope, f, id, dateOf);
    assert States(db, r, line, c, id, true, dateOf);
  }

  lemma HitStates(db: Db, r: Request, h: Hit, line: string, c: Citation, dateOf: int -> string)
    requires Consistent(db) && IsCurrentHit(db, r.scope, h, dateOf)
    requires Says(line, h.content, h.prior, RendersArc(r), None) && c.turn == TurnOfHit(h)
    ensures RowStated(db, r, line, c, false, dateOf)
  {
    hide GroupsSound, KeysGenerated, PriorIs, Says;
    assert HasSource(db, db.memories[h.id]);
    assert States(db, r, line, c, h.id, false, dateOf);
  }

  /** The lists that are assembled are of rows as they stand now, and the turns among them were retrieved. */
  ghost predicate CurrentLists(db: Db, r: Request, hits: seq<Hit>, facts: seq<StableFact>, memories: seq<Hit>,
                               turns: seq<Hit>, dateOf: int -> string)
  {
    && (forall f | f in facts :: exists id :: IsCurrentFact(db, r.scope, f, id, dateOf))
    && (forall h | h in memories :: IsCurrentHit(db, r.scope, h, dateOf))
    && (forall h | h in turns :: h.kind == TurnHit && h in hits && h.id in db.turns && db.turns[h.id].scope == r.scope)
  }

  lemma CurrentStates(
    db: Db, r: Request, hits: seq<Hit>, facts: seq<StableFact>, kept: seq<Hit>, turns: seq<Hit>, context: string,
    cs: seq<Citation>, p: Plan, lines: seq<string>, at: seq<nat>, dateOf: int -> string)
    requires Consistent(db) && CurrentLists(db, r, hits, facts, kept, turns, dateOf)
    requires p.facts <= |facts| && p.memories <= |kept| && p.turns <= |turns|
    requires Shows(lines, p, facts, kept, turns, RendersArc(r)) && Cited(cs, lines, p, facts, kept, turns)
    requires Placed(context, lines, at)
    ensures ContextStates(db, r, hits, context, cs, p, lines, at, dateOf)
  {
    hide Consistent, Placed, IsCurrentFact, IsCurrentHit, Says, Quotes, RowStated, RendersArc;
    forall n | 0 <= n < p.facts ensures RowStated(db, r, lines[n], cs[n], true, dateOf) {
      assert facts[n] in facts;
      FactStates(db, r, facts[n], lines[n], cs[n], dateOf);
    }
    forall n | p.facts <= n < p.facts + p.memories
      ensures RowStated(db, r, lines[n], cs[n], false, dateOf)
    {
      var i := n - p.facts;
      assert kept[i] in kept && lines[p.facts + i] == lines[n] && cs[p.facts + i] == cs[n];
      HitStates(db, r, kept[i], lines[n], cs[n], dateOf);
    }
    forall n | p.facts + p.memories <= n < |lines| ensures QuotesTurn(db, r, hits, lines[n], cs[n]) {
      var i := n - p.facts - p.memories;
      assert turns[i] in turns && lines[p.facts + p.memories + i] == lines[n] && cs[p.facts + p.memories + i] == cs[n];
      assert Quotes(lines[n], turns[i]) && cs[n].turn == turns[i].id;
    }
  }

  lemma KeptAreCurrent(db: Db, r: Request, hits: seq<Hit>, x: Material, dateOf: int -> string)
    requires CurrentLists(db, r, hits, x.facts, x.memories, x.turns, dateOf)
    ensures CurrentLists(db, r, hits, x.facts, Kept(x.facts, x.memories, x.gate), x.turns, dateOf)
  {
    hide IsCurrentFact, IsCurrentHit, Kept;
    KeptAreHits(x.facts, x.memories, x.gate);
  }

  lemma CurrentFactsHaveSources(db: Db, r: Request, hits: seq<Hit>, x: Material, dateOf: int -> string)
    requires Consistent(db) && CurrentLists(db, r, hits, x.facts, x.memories, x.turns, dateOf)
    ensures forall f | f in x.facts :: f.sourceTurn.Some?
  {
    hide GroupsSound, KeysGenerated, PriorIs, IsCurrentHit;
    forall f | f in x.facts ensures f.sourceTurn.Some? {
      var id :| IsCurrentFact(db, r.scope, f, id, dateOf);
      assert HasSource(db, db.memories[id]);
    }
  }

  lemma MaterialLists(db: Db, r: Request, a: Answers, dateOf: int -> string)
    requires Consistent(db) && GraphSound(db) && Honest(db, r, a, dateOf)
    ensures forall id | id in a.facts + a.mentioning + a.neighbours :: id in db.memories
    ensures var x := MaterialOf(db, r, a, dateOf);
      CurrentLists(db, r, a.retrieved, x.facts, x.memories, x.turns, dateOf)
  {
    hide Consistent, GraphSound, Honest, Pool, Fused, Facts, IsCurrentFact, IsCurrentHit, PoolGate;
    MaterialIsCurrent(db, r, a, dateOf);
    FusedFromPool(Pool(db, a, dateOf), r.k, TurnHit);
    forall h | h in Fused(Pool(db, a, dateOf), r.k, TurnHit) ensures h in a.retrieved {
      BaseTurns(db, r, a, dateOf, h);
    }
  }

  /**
   * Every line of the context is a statement of an active row of the caller's scope, or quotes one of the
   * caller's turns, and the n-th citation names the source turn of the row or that turn.
   */
  lemma ContextSays(db: Db, r: Request, a: Answers, dateOf: int -> string) returns (lines: seq<string>, at: seq<nat>)
    requires Consistent(db) && GraphSound(db) && Honest(db, r, a, dateOf)
    ensures forall id | id in a.facts + a.mentioning + a.neighbours :: id in db.memories
    ensures var x := MaterialOf(db, r, a, dateOf);
      ContextStates(db, r, a.retrieved,
                    ContextText(x.facts, x.memories, x.turns, x.gate, r.maxTokens, RendersArc(r)),
                    CitationsOf(x.facts, x.memories, x.turns, x.gate, r.maxTokens, RendersArc(r)),
                    PlanOf(x.facts, x.memories, x.turns, x.gate, r.maxTokens, RendersArc(r)), lines, at, dateOf)
  {
    hide Consistent, GraphSound, Honest, Placed, CurrentLists, Shows, Cited, ContextStates, ContextText, CitationsOf,
         PlanOf, Kept, MaterialOf, RendersArc;
    MaterialLists(db, r, a, dateOf);
    var x, arc := MaterialOf(db, r, a, dateOf), RendersArc(r);
    KeptAreCurrent(db, r, a.retrieved, x, dateOf);
    CurrentFactsHaveSources(db, r, a.retrieved, x, dateOf);
    lines, at := ContextLines(x.facts, x.memories, x.turns, x.gate, r.maxTokens, arc);
    CurrentStates(db, r, a.retrieved, x.facts, Kept(x.facts, x.memories, x.gate), x.turns,
                  ContextText(x.facts, x.memories, x.turns, x.gate, r.maxTokens, arc),
                  CitationsOf(x.facts, x.memories, x.turns, x.gate, r.maxTokens, arc),
                  PlanOf(x.facts, x.memories, x.turns, x.gate, r.maxTokens, arc), lines, at, dateOf);
  }

  // ---------------------------------------------------------------- where the edge hop starts, and the order shown

  function MemoriesBefore(pool: seq<Hit>, i: nat): set<nat>
    requires i <= |pool|
  {
    set j: nat | j < i && pool[j].kind == MemoryHit
  }

  lemma {:induction false} MemoryIdsCount(pool: seq<Hit>, i: nat)
    requires i <= |pool|
    ensures |MemoryIds(pool[..i])| == |MemoriesBefore(pool, i)|
  {
    if i == 0 {
      assert MemoriesBefore(pool, i) == {};
    } else {
      MemoryIdsCount(pool, i - 1);
      assert pool[..i][..i - 1] == pool[..i - 1];
      var p := MemoriesBefore(pool, i - 1);
      assert MemoriesBefore(pool, i) == p + if pool[i - 1].kind == MemoryHit then {i - 1} else {};
    }
  }

  lemma {:induction false} MemoryIdsGrow(pool: seq<Hit>, i: nat)
    requires i <= |pool|
    ensures MemoryIds(pool[..i]) <= MemoryIds(pool)
    decreases |pool|
  {
    if i == |pool| {
      assert pool[..i] == pool;
    } else {
      var p := pool[..|pool| - 1];
      MemoryIdsGrow(p, i);
      assert p[..i] == pool[..i];
    }
  }

  lemma MemoryIdsAt(pool: seq<Hit>, i: nat)
    requires i < |pool| && pool[i].kind == MemoryHit
    ensures var c := |MemoriesBefore(pool, i)|; c < |MemoryIds(pool)| && MemoryIds(pool)[c] == pool[i].id
  {
    MemoryIdsCount(pool, i);
    MemoryIdsGrow(pool, i + 1);
    assert pool[..i + 1][..i] == pool[..i];
    assert MemoryIds(pool[..i + 1]) == MemoryIds(pool[..i]) + [pool[i].id];
  }

  lemma {:induction false} MemoryIdFrom(pool: seq<Hit>, c: nat) returns (i: nat)
    requires c < |MemoryIds(pool)|
    ensures i < |pool| && pool[i].kind == MemoryHit && pool[i].id == MemoryIds(pool)[c]
    ensures |MemoriesBefore(pool, i)| == c
    decreases |pool|
  {
    var n := |pool| - 1;
    if c < |MemoryIds(pool[..n])| {
      i := MemoryIdFrom(pool[..n], c);
      assert MemoriesBefore(pool[..n], i) == MemoriesBefore(pool, i);
    } else {
      i := n;
      MemoryIdsCount(pool, n);
    }
  }

  /** The edge hop starts from the rows of the first eight memory hits of the pool. */
  lemma SeedsIff(pool: seq<Hit>, id: Uuid)
    ensures id in Seeds(pool) <==>
      exists i: nat :: i < |pool| && pool[i].kind == MemoryHit && pool[i].id == id && |MemoriesBefore(pool, i)| < 8
  {
    hide MemoryIds, MemoriesBefore;
    var ids := MemoryIds(pool);
    if id in Seeds(pool) {
      var c :| 0 <= c < |ids| && c < 8 && ids[c] == id;
      var i := MemoryIdFrom(pool, c);
    }
    if i: nat :| i < |pool| && pool[i].kind == MemoryHit && pool[i].id == id && |MemoriesBefore(pool, i)| < 8 {
      MemoryIdsAt(pool, i);
      assert Take(ids, 8)[|MemoriesBefore(pool, i)|] == id;
    }
  }

  /** A row is a neighbour if an edge leads to it from such a start, and it is active and no start itself. */
  lemma HopIff(db: Db, pool: seq<Hit>, id: Uuid)
    ensures IsNeighbour(db, Seeds(pool), id) <==>
      && id in db.memories && db.memories[id].active && !IsStart(pool, id)
      && exists e :: e in db.edges && e.dst == id && IsStart(pool, e.src)
  {
    hide Seeds, IsStart;
    forall x ensures x in Seeds(pool) <==> IsStart(pool, x) {
      StartIff(pool, x);
    }
    if e :| e in db.edges && e.dst == id && IsStart(pool, e.src) {
      assert LeadsTo(db, Seeds(pool), id, e);
    }
  }

  ghost predicate IsStart(pool: seq<Hit>, id: Uuid) {
    exists i: nat :: i < |pool| && pool[i].kind == MemoryHit && pool[i].id == id && |MemoriesBefore(pool, i)| < 8
  }

  lemma StartIff(pool: seq<Hit>, id: Uuid)
    ensures id in Seeds(pool) <==> IsStart(pool, id)
  {
    SeedsIff(pool, id);
  }

  /** The hits of a kind come in descending order of their scores. */
  lemma FusedDescends(pool: seq<Hit>, k: nat, kind: Kind, i: nat, j: nat)
    requires i < j < |Fused(pool, k, kind)|
    ensures var hits, bs := Fused(pool, k, kind), Buckets(pool);
      Score(bs, k, HitKeyOf(hits[i])) >= Score(bs, k, HitKeyOf(hits[j]))
  {
    hide Buckets, Fuse, Score, Shares, Sorted;
    var bs := Buckets(pool);
    var fused := Fuse(bs, k);
    FusionMeaning(bs, k);
    OfKindSorted(ByScore, fused, kind);
    OfKindMembers(fused, kind);
    var xs := OfKind(fused, kind);
    ByScoreDescends(xs);
    assert xs[i] in fused && xs[j] in fused;
  }
}
