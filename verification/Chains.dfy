/** Following `supersedes` from a row: the chains of one group are finite, disjoint, and cover it. */
module Chains {
  import opened Tables
  import opened Groups
  import opened Lifecycle
  import opened Invariants
  import opened Supersession

  /** Links lead to rows of the group along some order, and no row is superseded twice. */
  ghost predicate Linked(g: map<Uuid, Memory>, rank: map<Uuid, nat>) {
    LinksInside(g) && OneSuperseder(g) && Ordered(g, rank)
  }

  /** The row, the row it supersedes, and so on. */
  ghost function Chain(g: map<Uuid, Memory>, rank: map<Uuid, nat>, id: Uuid): seq<Uuid>
    requires id in g && Linked(g, rank)
    decreases rank[id]
  {
    if g[id].supersedes.None? then [id]
    else
      assert Supersedes(g, id, g[id].supersedes.value);
      [id] + Chain(g, rank, g[id].supersedes.value)
  }

  ghost predicate IsHead(g: map<Uuid, Memory>, id: Uuid) {
    id in g && forall a :: !Supersedes(g, a, id)
  }

  /** Consecutive members of a chain are linked. */
  lemma {:induction false} ChainLinks(g: map<Uuid, Memory>, rank: map<Uuid, nat>, id: Uuid, i: nat)
    requires id in g && Linked(g, rank) && i < |Chain(g, rank, id)|
    ensures Chain(g, rank, id)[0] == id && Chain(g, rank, id)[i] in g
    ensures i > 0 ==> Supersedes(g, Chain(g, rank, id)[i - 1], Chain(g, rank, id)[i])
    decreases i
  {
    if i > 0 {
      var t := g[id].supersedes.value;
      assert Supersedes(g, id, t);
      ChainLinks(g, rank, t, i - 1);
      assert Chain(g, rank, id)[i] == Chain(g, rank, t)[i - 1];
    }
  }

  /** Chains that start at different heads share no row. */
  lemma {:induction false} ChainsDisjoint(
    g: map<Uuid, Memory>, rank: map<Uuid, nat>, h1: Uuid, h2: Uuid, i: nat, j: nat)
    requires Linked(g, rank) && IsHead(g, h1) && IsHead(g, h2)
    requires i < |Chain(g, rank, h1)| && j < |Chain(g, rank, h2)| && Chain(g, rank, h1)[i] == Chain(g, rank, h2)[j]
    ensures h1 == h2
    decreases i
  {
    ChainLinks(g, rank, h1, i);
    ChainLinks(g, rank, h2, j);
    if i > 0 && j > 0 {
      ChainsDisjoint(g, rank, h1, h2, i - 1, j - 1);
    }
  }

  ghost function Above(g: map<Uuid, Memory>, rank: map<Uuid, nat>, id: Uuid): set<Uuid>
    requires id in g && g.Keys <= rank.Keys
  {
    set x | x in g && rank[id] < rank[x]
  }

  lemma FewerAbove(g: map<Uuid, Memory>, rank: map<Uuid, nat>, a: Uuid, b: Uuid)
    requires Linked(g, rank) && Supersedes(g, a, b)
    ensures b in g && |Above(g, rank, a)| < |Above(g, rank, b)|
  {
    assert a in Above(g, rank, b) - Above(g, rank, a);
    assert Above(g, rank, b) == Above(g, rank, a) + (Above(g, rank, b) - Above(g, rank, a));
  }

  /** Every row is on the chain of some head. */
  lemma {:induction false} ChainsCover(g: map<Uuid, Memory>, rank: map<Uuid, nat>, id: Uuid) returns (h: Uuid)
    requires id in g && Linked(g, rank)
    ensures IsHead(g, h) && id in Chain(g, rank, h)
    decreases |Above(g, rank, id)|
  {
    if IsHead(g, id) {
      h := id;
    } else {
      var a :| Supersedes(g, a, id);
      FewerAbove(g, rank, a, id);
      h := ChainsCover(g, rank, a);
      ChainExtends(g, rank, h, a, id);
    }
  }

  lemma {:induction false} ChainExtends(g: map<Uuid, Memory>, rank: map<Uuid, nat>, h: Uuid, a: Uuid, b: Uuid)
    requires h in g && Linked(g, rank) && a in Chain(g, rank, h) && Supersedes(g, a, b)
    ensures b in Chain(g, rank, h)
    decreases rank[h]
  {
    if a == h {
      assert Chain(g, rank, b)[0] == b;
    } else {
      var t := g[h].supersedes.value;
      assert Supersedes(g, h, t);
      ChainExtends(g, rank, t, a, b);
    }
  }

  /** Along a chain the ranks decrease, so no row comes twice. */
  lemma {:induction false} ChainDescends(g: map<Uuid, Memory>, rank: map<Uuid, nat>, id: Uuid, i: nat, j: nat)
    requires id in g && Linked(g, rank) && i < j < |Chain(g, rank, id)|
    ensures Chain(g, rank, id)[i] in g && Chain(g, rank, id)[j] in g
    ensures rank[Chain(g, rank, id)[j]] < rank[Chain(g, rank, id)[i]]
    ensures Chained(g) ==> g[Chain(g, rank, id)[j]].createdAt < g[Chain(g, rank, id)[i]].createdAt
    decreases j
  {
    ChainLinks(g, rank, id, i);
    ChainLinks(g, rank, id, j);
    ChainLinks(g, rank, id, j - 1);
    if i < j - 1 {
      ChainDescends(g, rank, id, i, j - 1);
    }
  }

  ghost predicate OnChain(g: map<Uuid, Memory>, rank: map<Uuid, nat>, h: Uuid, id: Uuid)
    requires Linked(g, rank)
  {
    IsHead(g, h) && id in Chain(g, rank, h)
  }

  ghost predicate Descends(g: map<Uuid, Memory>, ids: seq<Uuid>) {
    && (forall i | 0 <= i < |ids| :: ids[i] in g)
    && (forall i, j | 0 <= i < j < |ids| :: g[ids[j]].createdAt < g[ids[i]].createdAt)
  }

  /** Each row is on the chain of exactly one head, no chain meets a row twice, and active rows are heads. */
  ghost predicate DisjointChains(g: map<Uuid, Memory>, rank: map<Uuid, nat>) {
    && Linked(g, rank)
    && (forall id | id in g :: exists h :: OnChain(g, rank, h, id))
    && (forall id, h, o | OnChain(g, rank, h, id) && OnChain(g, rank, o, id) :: h == o)
    && (forall id | id in g :: NoneTwice(Chain(g, rank, id)))
    && (forall id | id in g && g[id].active :: IsHead(g, id))
  }

  ghost predicate NoneTwice(ids: seq<Uuid>) {
    forall i, j | 0 <= i < j < |ids| :: ids[i] != ids[j]
  }

  lemma OneHead(g: map<Uuid, Memory>, rank: map<Uuid, nat>, id: Uuid, h: Uuid, o: Uuid)
    requires Linked(g, rank) && OnChain(g, rank, h, id) && OnChain(g, rank, o, id)
    ensures h == o
  {
    hide Linked;
    var i :| 0 <= i < |Chain(g, rank, h)| && Chain(g, rank, h)[i] == id;
    var j :| 0 <= j < |Chain(g, rank, o)| && Chain(g, rank, o)[j] == id;
    ChainsDisjoint(g, rank, h, o, i, j);
  }

  lemma ChainDistinct(g: map<Uuid, Memory>, rank: map<Uuid, nat>, id: Uuid)
    requires id in g && Linked(g, rank)
    ensures NoneTwice(Chain(g, rank, id))
    ensures Chained(g) ==> Descends(g, Chain(g, rank, id))
  {
    hide Linked, Chained, Chain;
    var ids := Chain(g, rank, id);
    forall i | 0 <= i < |ids| ensures ids[i] in g {
      ChainLinks(g, rank, id, i);
    }
    forall i, j | 0 <= i < j < |ids|
      ensures ids[i] != ids[j] && (Chained(g) ==> g[ids[j]].createdAt < g[ids[i]].createdAt)
    {
      ChainDescends(g, rank, id, i, j);
    }
  }

  /** Tidy links form disjoint chains, in whatever order the rows came. */
  lemma TidyFormsChains(g: map<Uuid, Memory>, rank: map<Uuid, nat>)
    requires Tidy(g) && Ordered(g, rank)
    ensures DisjointChains(g, rank)
  {
    hide Chain, NoneTwice;
    forall id | id in g ensures exists h :: OnChain(g, rank, h, id) {
      var h := ChainsCover(g, rank, id);
      assert OnChain(g, rank, h, id);
    }
    forall id, h, o | OnChain(g, rank, h, id) && OnChain(g, rank, o, id) ensures h == o {
      OneHead(g, rank, id, h, o);
    }
    forall id | id in g ensures NoneTwice(Chain(g, rank, id)) {
      ChainDistinct(g, rank, id);
    }
  }

  /**
   * Over every run, ties included, supersession forms disjoint finite chains in a group as long as no
   * session delete activates a row that a row of another session supersedes.
   */
  lemma RunChains(evs: seq<Event>, s: Scope, k: string) returns (rank: map<Uuid, nat>)
    requires ValidRun(evs) && RestoresHeads(evs, s, k)
    ensures DisjointChains(Group(Run(evs).memories, s, k), rank)
  {
    hide DisjointChains, RestoresHeads, Tidy, Ordered;
    var n;
    rank, n := RunOrdered(evs, s, k);
    RunTidyIff(evs, s, k);
    assert evs[..|evs|] == evs;
    TidyFormsChains(Group(Run(evs).memories, s, k), rank);
  }

  lemma ChainedIsTidy(g: map<Uuid, Memory>)
    requires Chained(g)
    ensures Tidy(g)
  {
  }

  /** Increasing stamps rule out such a delete. */
  lemma {:induction false} StampedAlwaysTidy(evs: seq<Event>, s: Scope, k: string)
    requires ValidRun(evs) && IncreasingStamps(evs, s, k)
    ensures AlwaysTidy(evs, s, k)
  {
    hide Tidy, AlwaysTidy, Chained, IncreasingStamps, Group, Valid, Apply, RestoresHeads;
    if evs == [] {
      NothingTidy(evs, s, k);
      return;
    }
    var n := |evs| - 1;
    PrefixFits(evs, n, s, k);
    StampedAlwaysTidy(evs[..n], s, k);
    SupersessionChains(evs, s, k);
    ChainedIsTidy(Group(Run(evs).memories, s, k));
    TidyPrefix(evs, n, s, k);
  }

  /** With increasing stamps the chains also descend in time. */
  lemma StampedChains(evs: seq<Event>, s: Scope, k: string) returns (rank: map<Uuid, nat>)
    requires ValidRun(evs) && IncreasingStamps(evs, s, k)
    ensures RestoresHeads(evs, s, k)
    ensures var g := Group(Run(evs).memories, s, k);
      DisjointChains(g, rank) && forall id | id in g :: Descends(g, Chain(g, rank, id))
  {
    hide Tidy, Ordered, Chained, Descends, Chain, IncreasingStamps, AlwaysTidy, RestoresHeads;
    var g := Group(Run(evs).memories, s, k);
    StampedAlwaysTidy(evs, s, k);
    RunTidyIff(evs, s, k);
    rank := RunChains(evs, s, k);
    SupersessionChains(evs, s, k);
    forall id | id in g ensures Descends(g, Chain(g, rank, id)) {
      ChainDistinct(g, rank, id);
    }
  }
}
