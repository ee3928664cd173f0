/** What fusion computes, and what the evidence gate reads from it. */
module Ranking {
  import opened Tables
  import opened Fusion

  // ---------------------------------------------------------------- the score as a sum

  /** What one source contributes to a key: over the first `n` ranks, weight / (k + rank + 1) for each occurrence. */
  function SourceScore(b: Bucket, k: nat, key: HitKey, n: nat): real
    requires n <= |b.hits|
  {
    if n == 0 then 0.0
    else
      var here := if HitKeyOf(b.hits[n - 1]) == key then SourceWeight(b.source) / ((k + n) as real) else 0.0;
      SourceScore(b, k, key, n - 1) + here
  }

  function Score(buckets: seq<Bucket>, k: nat, key: HitKey): real {
    if buckets == [] then 0.0
    else SourceScore(buckets[0], k, key, |buckets[0].hits|) + Score(buckets[1..], k, key)
  }

  lemma {:induction false} ScoreSplit(a: seq<Bucket>, b: seq<Bucket>, k: nat, key: HitKey)
    ensures Score(a + b, k, key) == Score(a, k, key) + Score(b, k, key)
  {
    if a == [] {
      assert a + b == b;
    } else {
      assert (a + b)[1..] == a[1..] + b;
      ScoreSplit(a[1..], b, k, key);
    }
  }

  lemma TakeOut(bs: seq<Bucket>, i: nat, k: nat, key: HitKey)
    requires i < |bs|
    ensures multiset(bs) == multiset{bs[i]} + multiset(bs[..i] + bs[i + 1..])
    ensures Score(bs, k, key) == SourceScore(bs[i], k, key, |bs[i].hits|) + Score(bs[..i] + bs[i + 1..], k, key)
  {
    hide SourceScore;
    var x, y := bs[..i], bs[i + 1..];
    assert bs == x + [bs[i]] + y;
    assert multiset(bs) == multiset(x) + multiset{bs[i]} + multiset(y);
    assert bs == x + bs[i..] && bs[i..][1..] == y;
    ScoreSplit(x, bs[i..], k, key);
    ScoreSplit(x, y, k, key);
  }

  /** Scores do not depend on the order of the sources. */
  lemma {:induction false} ScoreOrderFree(a: seq<Bucket>, b: seq<Bucket>, k: nat, key: HitKey)
    requires multiset(a) == multiset(b)
    ensures Score(a, k, key) == Score(b, k, key)
  {
    hide Score, SourceScore;
    assert |multiset(a)| == |a| && |multiset(b)| == |b|;
    if a == [] {
      return;
    }
    var i := Find(b, a[0]) by {
      assert a[0] in multiset(a);
    }
    TakeOut(a, 0, k, key);
    TakeOut(b, i, k, key);
    var a', b' := a[..0] + a[1..], b[..i] + b[i + 1..];
    assert multiset(a') == multiset(a) - multiset{a[0]};
    assert multiset(b') == multiset(b) - multiset{a[0]};
    assert |a'| < |a|;
    ScoreOrderFree(a', b', k, key);
  }

  lemma Find(bs: seq<Bucket>, x: Bucket) returns (i: nat)
    requires x in multiset(bs)
    ensures i < |bs| && bs[i] == x
  {
    i :| 0 <= i < |bs| && bs[i] == x;
  }

  lemma {:induction false} TotalSplit(a: seq<Share>, b: seq<Share>, key: HitKey)
    ensures Total(a + b, key) == Total(a, key) + Total(b, key)
  {
    if b == [] {
      assert a + b == a;
    } else {
      var n := |b| - 1;
      assert (a + b)[..|a + b| - 1] == a + b[..n];
      TotalSplit(a, b[..n], key);
    }
  }

  lemma {:induction false} BucketTotal(b: Bucket, k: nat, key: HitKey, n: nat)
    requires n <= |b.hits|
    ensures Total(BucketShares(b, k, n), key) == SourceScore(b, k, key, n)
  {
    if n > 0 {
      BucketTotal(b, k, key, n - 1);
      assert BucketShares(b, k, n)[..n - 1] == BucketShares(b, k, n - 1);
    }
  }

  /** The accumulated score is the sum over all occurrences. */
  lemma {:induction false} TotalIsScore(buckets: seq<Bucket>, k: nat, key: HitKey)
    ensures Total(Shares(buckets, k), key) == Score(buckets, k, key)
  {
    if buckets != [] {
      var n := |buckets| - 1;
      var b := buckets[n];
      TotalIsScore(buckets[..n], k, key);
      BucketTotal(b, k, key, |b.hits|);
      TotalSplit(Shares(buckets[..n], k), BucketShares(b, k, |b.hits|), key);
      ScoreSplit(buckets[..n], [b], k, key);
      assert buckets == buckets[..n] + [b];
      assert [b][1..] == [];
    }
  }

  // ---------------------------------------------------------------- each key exactly once

  lemma {:induction false} ListingMeaning(shares: seq<Share>, keys: seq<HitKey>)
    requires forall key | key in keys :: Best(shares, key).Some?
    ensures |Listing(shares, keys)| == |keys|
    ensures forall i | 0 <= i < |keys| :: Listing(shares, keys)[i] == FusedOf(shares, keys[i])
  {
    if keys != [] {
      ListingMeaning(shares, keys[..|keys| - 1]);
    }
  }

  lemma {:induction false} ListedOnce(xs: seq<Scored>, x: Scored)
    requires forall i, j | 0 <= i < j < |xs| :: xs[i] != xs[j]
    ensures multiset(xs)[x] <= 1
  {
    if xs != [] {
      ListedOnce(xs[1..], x);
      assert xs == [xs[0]] + xs[1..];
      if x == xs[0] {
        assert x !in xs[1..];
      }
    }
  }

  lemma TwiceTwo(xs: seq<Scored>, i: nat, j: nat)
    requires i < j < |xs| && xs[i] == xs[j]
    ensures multiset(xs)[xs[i]] >= 2
  {
    assert xs == xs[..j] + xs[j..];
    assert xs[i] in xs[..j] && xs[j] in xs[j..];
  }

  lemma KeyHasBest(shares: seq<Share>, key: HitKey)
    ensures key in Keys(shares) ==> Best(shares, key).Some? && HitKeyOf(Best(shares, key).value.hit) == key
  {
    hide Best, Keys;
    KeysMeaning(shares);
    if key in Keys(shares) {
      NoBest(shares, key);
      var i := BestMeaning(shares, key);
    }
  }

  /** Each key is listed once, with its best occurrence and its total. */
  lemma FusedKeys(shares: seq<Share>)
    ensures var xs := Listing(shares, Keys(shares));
      && (forall x | x in xs :: Best(shares, HitKeyOf(x.hit)).Some? && x == FusedOf(shares, HitKeyOf(x.hit)))
      && (forall i, j | 0 <= i < j < |xs| :: HitKeyOf(xs[i].hit) != HitKeyOf(xs[j].hit))
      && (forall key, i | Occurs(shares, key, i) :: exists x :: x in xs && HitKeyOf(x.hit) == key)
  {
    hide Best, Keys, Listing, Total, Occurs;
    var keys := Keys(shares);
    KeysMeaning(shares);
    forall key | key in keys ensures Best(shares, key).Some? && HitKeyOf(Best(shares, key).value.hit) == key {
      KeyHasBest(shares, key);
    }
    ListingMeaning(shares, keys);
    var xs := Listing(shares, keys);
    forall key, i | Occurs(shares, key, i) ensures exists x :: x in xs && HitKeyOf(x.hit) == key {
      assert key in keys;
      var j :| 0 <= j < |keys| && keys[j] == key;
      assert xs[j] in xs && HitKeyOf(xs[j].hit) == key;
    }
  }

  /** A permutation of a list with different keys has different keys. */
  lemma PermutedKeys(a: seq<Scored>, b: seq<Scored>)
    requires multiset(a) == multiset(b)
    requires forall i, j | 0 <= i < j < |a| :: HitKeyOf(a[i].hit) != HitKeyOf(a[j].hit)
    ensures forall i, j | 0 <= i < j < |b| :: HitKeyOf(b[i].hit) != HitKeyOf(b[j].hit)
  {
    SameElements(a, b);
    forall i, j | 0 <= i < j < |b| ensures HitKeyOf(b[i].hit) != HitKeyOf(b[j].hit) {
      assert b[i] in b && b[j] in b;
      if HitKeyOf(b[i].hit) == HitKeyOf(b[j].hit) {
        var m :| 0 <= m < |a| && a[m] == b[i];
        var n :| 0 <= n < |a| && a[n] == b[j];
        TwiceTwo(b, i, j);
        ListedOnce(a, b[i]);
      }
    }
  }

  /** The hit shown is the first occurrence of its key in a heaviest source. */
  ghost predicate ShowsBest(shares: seq<Share>, x: Scored) {
    exists i :: IsBest(shares, HitKeyOf(x.hit), i) && shares[i].hit == x.hit
  }

  /**
   * Fusion lists every key that occurs exactly once, in descending order of score. The score is the sum
   * over all its occurrences, and the hit shown is its first occurrence in a heaviest source.
   */
  lemma FusionMeaning(buckets: seq<Bucket>, k: nat)
    ensures var fused, shares := Fuse(buckets, k), Shares(buckets, k);
      && Sorted(ByScore, fused)
      && (forall i, j | 0 <= i < j < |fused| :: fused[i].score >= fused[j].score)
      && (forall i, j | 0 <= i < j < |fused| :: HitKeyOf(fused[i].hit) != HitKeyOf(fused[j].hit))
      && (forall key, i | Occurs(shares, key, i) :: exists x :: x in fused && HitKeyOf(x.hit) == key)
      && (forall x | x in fused ::
            x.score == Score(buckets, k, HitKeyOf(x.hit)) && ShowsBest(shares, x))
  {
    hide SortBy, Sorted, Shares, Listing, Keys, Best, Total, Score;
    var shares := Shares(buckets, k);
    var xs := Listing(shares, Keys(shares));
    var fused := Fuse(buckets, k);
    FusedKeys(shares);
    SortMeaning(ByScore, xs);
    ByScoreDescends(fused);
    SameElements(fused, xs);
    PermutedKeys(xs, fused);
    forall x | x in fused
      ensures x.score == Score(buckets, k, HitKeyOf(x.hit)) && ShowsBest(shares, x)
    {
      assert x in xs;
      TotalIsScore(buckets, k, HitKeyOf(x.hit));
      var i := BestMeaning(shares, HitKeyOf(x.hit));
    }
  }

  // ---------------------------------------------------------------- the evidence gate

  datatype Gate = Gate(tier1: bool, tier2: bool)

  function DecideGate(profile: bool, openEnded: bool, memorySignal: bool, turnSignal: bool, entityMatch: bool): Gate {
    if entityMatch then Gate(profile, true)
    else if memorySignal && profile then Gate(true, true)
    else if memorySignal then Gate(false, true)
    else if openEnded then Gate(true, false)
    else if turnSignal then Gate(false, true)
    else Gate(false, false)
  }

  predicate IsMemorySignal(h: Hit, cosineMin: real) {
    || (h.source == "memory_vector" && h.score >= cosineMin)
    || (h.source == "memory_fts" && h.score >= 0.01)
    || h.source == "graph"
  }

  predicate IsTurnSignal(h: Hit, cosineMin: real) {
    || (h.source == "turn_vector" && h.score >= cosineMin)
    || (h.source == "turn_fts" && h.score >= 0.05)
  }

  predicate IsSignal(h: Hit, cosineMin: real) {
    match h.kind
    case MemoryHit => IsMemorySignal(h, cosineMin)
    case TurnHit => IsTurnSignal(h, cosineMin)
  }

  method HasMemorySignal(hits: seq<Hit>, cosineMin: real) returns (r: bool)
    ensures r <==> exists h :: h in hits && IsMemorySignal(h, cosineMin)
  {
    for i := 0 to |hits|
      invariant forall j | 0 <= j < i :: !IsMemorySignal(hits[j], cosineMin)
    {
      if hits[i].source == "memory_vector" && hits[i].score >= cosineMin {
        assert hits[i] in hits && IsMemorySignal(hits[i], cosineMin);
        return true;
      }
      if hits[i].source == "memory_fts" && hits[i].score >= 0.01 {
        assert hits[i] in hits && IsMemorySignal(hits[i], cosineMin);
        return true;
      }
      if hits[i].source == "graph" {
        assert hits[i] in hits && IsMemorySignal(hits[i], cosineMin);
        return true;
      }
    }
    return false;
  }

  method HasTurnSignal(hits: seq<Hit>, cosineMin: real) returns (r: bool)
    ensures r <==> exists h :: h in hits && IsTurnSignal(h, cosineMin)
  {
    for i := 0 to |hits|
      invariant forall j | 0 <= j < i :: !IsTurnSignal(hits[j], cosineMin)
    {
      if hits[i].source == "turn_vector" && hits[i].score >= cosineMin {
        assert hits[i] in hits && IsTurnSignal(hits[i], cosineMin);
        return true;
      }
      if hits[i].source == "turn_fts" && hits[i].score >= 0.05 {
        assert hits[i] in hits && IsTurnSignal(hits[i], cosineMin);
        return true;
      }
    }
    return false;
  }

  // ---------------------------------------------------------------- adding edge-hop hits

  const EDGE_HOP := "edge_hop"

  /** The pool without its edge-hop hits. */
  function WithoutHops(pool: seq<Hit>): seq<Hit> {
    if pool == [] then []
    else
      var n := |pool| - 1;
      if pool[n].source == EDGE_HOP then WithoutHops(pool[..n]) else WithoutHops(pool[..n]) + [pool[n]]
  }

  function BucketsWithoutHops(bs: seq<Bucket>): seq<Bucket> {
    if bs == [] then []
    else if bs[0].source == EDGE_HOP then BucketsWithoutHops(bs[1..])
    else [bs[0]] + BucketsWithoutHops(bs[1..])
  }

  lemma {:induction false} AddHitWithoutHops(bs: seq<Bucket>, h: Hit)
    ensures BucketsWithoutHops(AddHit(bs, h))
         == if h.source == EDGE_HOP then BucketsWithoutHops(bs) else AddHit(BucketsWithoutHops(bs), h)
  {
    if bs != [] {
      AddHitWithoutHops(bs[1..], h);
      var bs' := AddHit(bs, h);
      assert bs'[1..] == if bs[0].source == h.source then bs[1..] else AddHit(bs[1..], h);
    }
  }

  /** Leaving out the hops before or after grouping comes to the same. */
  lemma {:induction false} BucketsOfPool(pool: seq<Hit>)
    ensures BucketsWithoutHops(Buckets(pool)) == Buckets(WithoutHops(pool))
  {
    if pool != [] {
      var n := |pool| - 1;
      BucketsOfPool(pool[..n]);
      AddHitWithoutHops(Buckets(pool[..n]), pool[n]);
      assert (WithoutHops(pool[..n]) + [pool[n]])[..|WithoutHops(pool[..n])|] == WithoutHops(pool[..n]);
    }
  }

  /** Every hit sits in the bucket of its own source. */
  ghost predicate WellSourced(bs: seq<Bucket>) {
    forall b, h | b in bs && h in b.hits :: h.source == b.source
  }

  lemma {:induction false} AddHitWellSourced(bs: seq<Bucket>, h: Hit)
    requires WellSourced(bs)
    ensures WellSourced(AddHit(bs, h))
  {
    if bs != [] {
      assert forall b | b in bs[1..] :: b in bs;
      AddHitWellSourced(bs[1..], h);
      assert bs[0] in bs;
    }
  }

  lemma {:induction false} BucketsWellSourced(pool: seq<Hit>)
    ensures WellSourced(Buckets(pool))
  {
    if pool != [] {
      BucketsWellSourced(pool[..|pool| - 1]);
      AddHitWellSourced(Buckets(pool[..|pool| - 1]), pool[|pool| - 1]);
    }
  }

  predicate IsHop(s: Share) {
    s.hit.source == EDGE_HOP
  }

  /** The occurrences that are no edge-hop hits. */
  function SharesWithoutHops(shares: seq<Share>): seq<Share> {
    if shares == [] then []
    else
      var n := |shares| - 1;
      if IsHop(shares[n]) then SharesWithoutHops(shares[..n]) else SharesWithoutHops(shares[..n]) + [shares[n]]
  }

  lemma {:induction false} SharesWithoutHopsSplit(a: seq<Share>, b: seq<Share>)
    ensures SharesWithoutHops(a + b) == SharesWithoutHops(a) + SharesWithoutHops(b)
  {
    if b == [] {
      assert a + b == a;
    } else {
      var n := |b| - 1;
      assert (a + b)[..|a + b| - 1] == a + b[..n];
      SharesWithoutHopsSplit(a, b[..n]);
    }
  }

  lemma {:induction false} BucketSharesWithoutHops(b: Bucket, k: nat, n: nat)
    requires n <= |b.hits| && forall h | h in b.hits :: h.source == b.source
    ensures SharesWithoutHops(BucketShares(b, k, n)) == if b.source == EDGE_HOP then [] else BucketShares(b, k, n)
  {
    if n > 0 {
      BucketSharesWithoutHops(b, k, n - 1);
      assert BucketShares(b, k, n)[..n - 1] == BucketShares(b, k, n - 1);
    }
  }

  lemma SharesMore(bs: seq<Bucket>, b: Bucket, k: nat)
    ensures Shares(bs + [b], k) == Shares(bs, k) + BucketShares(b, k, |b.hits|)
  {
    assert (bs + [b])[..|bs|] == bs;
  }

  lemma {:induction false} SharesSplit(a: seq<Bucket>, b: seq<Bucket>, k: nat)
    ensures Shares(a + b, k) == Shares(a, k) + Shares(b, k)
  {
    hide Shares, BucketShares;
    if b == [] {
      assert a + b == a;
      NoShares(b, k);
    } else {
      var n := |b| - 1;
      SharesSplit(a, b[..n], k);
      SharesMore(a + b[..n], b[n], k);
      SharesMore(b[..n], b[n], k);
      assert a + b == (a + b[..n]) + [b[n]] && b == b[..n] + [b[n]];
    }
  }

  lemma NoShares(bs: seq<Bucket>, k: nat)
    requires bs == []
    ensures Shares(bs, k) == []
  {
  }

  lemma {:induction false} SharesOfBuckets(bs: seq<Bucket>, k: nat)
    requires WellSourced(bs)
    ensures SharesWithoutHops(Shares(bs, k)) == Shares(BucketsWithoutHops(bs), k)
  {
    if bs != [] {
      var b := bs[0];
      assert bs == [b] + bs[1..];
      assert b in bs && forall x | x in bs[1..] :: x in bs;
      SharesOfBuckets(bs[1..], k);
      SharesSplit([b], bs[1..], k);
      assert [b][..0] == [];
      assert Shares([b], k) == BucketShares(b, k, |b.hits|);
      BucketSharesWithoutHops(b, k, |b.hits|);
      SharesWithoutHopsSplit(Shares([b], k), Shares(bs[1..], k));
      SharesSplit([b], BucketsWithoutHops(bs[1..]), k);
    }
  }

  /** Every share has the weight of the source its hit names. */
  ghost predicate Weighted(shares: seq<Share>) {
    forall s | s in shares :: s.weight == SourceWeight(s.hit.source)
  }

  lemma {:induction false} SharesWeighted(bs: seq<Bucket>, k: nat)
    requires WellSourced(bs)
    ensures Weighted(Shares(bs, k))
  {
    if bs != [] {
      var n := |bs| - 1;
      assert forall x | x in bs[..n] :: x in bs;
      SharesWeighted(bs[..n], k);
      assert bs[n] in bs;
    }
  }

  /** Hops are of kind memory, as recall makes them. */
  ghost predicate HopsAreMemories(shares: seq<Share>) {
    forall s | s in shares && IsHop(s) :: s.hit.kind == MemoryHit
  }

  /**
   * With and without hops the kept occurrence is the same, or it is a hop that displaced nothing
   * heavier than itself.
   */
  ghost predicate SameOrHop(full: Option<Share>, part: Option<Share>) {
    full == part
    || (full.Some? && IsHop(full.value) && full.value.weight == 0.9 && (part.None? || part.value.weight <= 0.9))
  }

  lemma {:induction false} BestWithoutHops(shares: seq<Share>, key: HitKey)
    requires Weighted(shares) && HopsAreMemories(shares)
    ensures SameOrHop(Best(shares, key), Best(SharesWithoutHops(shares), key))
    ensures key.kind == TurnHit ==> Best(shares, key) == Best(SharesWithoutHops(shares), key)
  {
    if shares != [] {
      var n := |shares| - 1;
      var p := shares[..n];
      BestWithoutHops(p, key);
      assert shares[n] in shares;
      var q := SharesWithoutHops(p);
      assert (q + [shares[n]])[..|q|] == q;
    }
  }

  /** A signal never comes from a hop, nor from a source lighter than one if it is a memory. */
  lemma SignalWeights(h: Hit, cosineMin: real)
    requires IsSignal(h, cosineMin)
    ensures h.source != EDGE_HOP && (h.kind == MemoryHit ==> SourceWeight(h.source) > 0.9)
  {
  }

  /** A signal of the given kind is among the kept occurrences. */
  ghost predicate KeepsSignal(shares: seq<Share>, kind: Kind, cosineMin: real) {
    exists key: HitKey :: key.kind == kind && Best(shares, key).Some?
      && IsSignal(Best(shares, key).value.hit, cosineMin)
  }

  lemma {:induction false} BestHasKey(shares: seq<Share>, key: HitKey)
    requires Best(shares, key).Some?
    ensures HitKeyOf(Best(shares, key).value.hit) == key && Best(shares, key).value in shares
  {
    var i := BestMeaning(shares, key);
  }

  lemma SignalsWithoutHops(shares: seq<Share>, kind: Kind, cosineMin: real)
    requires Weighted(shares) && HopsAreMemories(shares) && Weighted(SharesWithoutHops(shares))
    ensures KeepsSignal(shares, kind, cosineMin) == KeepsSignal(SharesWithoutHops(shares), kind, cosineMin)
  {
    var part := SharesWithoutHops(shares);
    forall key: HitKey | key.kind == kind
      ensures (Best(shares, key).Some? && IsSignal(Best(shares, key).value.hit, cosineMin))
         <==> (Best(part, key).Some? && IsSignal(Best(part, key).value.hit, cosineMin))
    {
      SameSignal(shares, key, cosineMin);
    }
  }

  lemma SameSignal(shares: seq<Share>, key: HitKey, cosineMin: real)
    requires Weighted(shares) && HopsAreMemories(shares) && Weighted(SharesWithoutHops(shares))
    ensures var part := SharesWithoutHops(shares);
      (Best(shares, key).Some? && IsSignal(Best(shares, key).value.hit, cosineMin))
      <==> (Best(part, key).Some? && IsSignal(Best(part, key).value.hit, cosineMin))
  {
    var part := SharesWithoutHops(shares);
    BestWithoutHops(shares, key);
    if Best(shares, key).Some? && IsSignal(Best(shares, key).value.hit, cosineMin) {
      SignalWeights(Best(shares, key).value.hit, cosineMin);
    }
    if Best(part, key).Some? && IsSignal(Best(part, key).value.hit, cosineMin) {
      BestHasKey(part, key);
      SignalWeights(Best(part, key).value.hit, cosineMin);
    }
  }

  // ---------------------------------------------------------------- from the pool to the gate

  /** Fusing a pool and sorting memories first. */
  function Ranked(pool: seq<Hit>, k: nat): seq<Scored> {
    SortBy(MemoryFirst, Fuse(Buckets(pool), k))
  }

  /** No turn stands before a memory, and within a kind the scores fall. */
  lemma RankedOrder(pool: seq<Hit>, k: nat)
    ensures var xs := Ranked(pool, k);
      && multiset(xs) == multiset(Fuse(Buckets(pool), k))
      && (forall i, j | 0 <= i < j < |xs| :: xs[j].hit.kind == MemoryHit ==> xs[i].hit.kind == MemoryHit)
      && (forall i, j | 0 <= i < j < |xs| && xs[i].hit.kind == xs[j].hit.kind :: xs[i].score >= xs[j].score)
  {
    hide Fuse, Buckets, Sorted;
    SortMeaning(MemoryFirst, Fuse(Buckets(pool), k));
    MemoryFirstOrder(Ranked(pool, k));
  }

  /** What the signal tests see: whether a ranked hit of the kind is evidence. */
  ghost predicate HasSignal(pool: seq<Hit>, k: nat, kind: Kind, cosineMin: real) {
    exists x :: x in OfKind(Ranked(pool, k), kind) && IsSignal(x.hit, cosineMin)
  }

  ghost function PoolGate(pool: seq<Hit>, k: nat, cosineMin: real, profile: bool, openEnded: bool, entityMatch: bool)
    : Gate
  {
    DecideGate(profile, openEnded, HasSignal(pool, k, MemoryHit, cosineMin), HasSignal(pool, k, TurnHit, cosineMin),
               entityMatch)
  }

  lemma {:induction false} OfKindHas(xs: seq<Scored>, kind: Kind)
    ensures forall x :: x in OfKind(xs, kind) <==> x in xs && x.hit.kind == kind
  {
    if xs != [] {
      OfKindHas(xs[1..], kind);
      assert xs == [xs[0]] + xs[1..];
    }
  }

  /** The ranked hits of a kind are the kept occurrences of the keys of that kind. */
  lemma RankedKeeps(pool: seq<Hit>, k: nat, kind: Kind)
    ensures var shares := Shares(Buckets(pool), k);
      && (forall x | x in OfKind(Ranked(pool, k), kind) ::
            Best(shares, HitKeyOf(x.hit)).Some? && Best(shares, HitKeyOf(x.hit)).value.hit == x.hit
            && x.hit.kind == kind)
      && (forall key: HitKey | key.kind == kind && Best(shares, key).Some? ::
            exists x :: x in OfKind(Ranked(pool, k), kind) && x.hit == Best(shares, key).value.hit)
  {
    var shares := Shares(Buckets(pool), k);
    var xs := Listing(shares, Keys(shares));
    var fused := Fuse(Buckets(pool), k);
    FusedKeys(shares);
    SortMeaning(ByScore, xs);
    MemoryFirstThenFilter(fused, kind);
    OfKindHas(fused, kind);
    SameElements(fused, xs);
    forall key: HitKey | key.kind == kind && Best(shares, key).Some?
      ensures exists x :: x in OfKind(Ranked(pool, k), kind) && x.hit == Best(shares, key).value.hit
    {
      BestHasKey(shares, key);
      NoBest(shares, key);
      var i :| Occurs(shares, key, i);
      var x :| x in xs && HitKeyOf(x.hit) == key;
      assert x in fused;
    }
  }

  lemma SameElements(a: seq<Scored>, b: seq<Scored>)
    requires multiset(a) == multiset(b)
    ensures forall x :: x in a <==> x in b
  {
    forall x ensures x in a <==> x in b {
      assert x in a <==> x in multiset(a);
      assert x in b <==> x in multiset(b);
    }
  }

  lemma SignalIsKept(pool: seq<Hit>, k: nat, kind: Kind, cosineMin: real)
    ensures HasSignal(pool, k, kind, cosineMin) == KeepsSignal(Shares(Buckets(pool), k), kind, cosineMin)
  {
    var shares := Shares(Buckets(pool), k);
    RankedKeeps(pool, k, kind);
    if x :| x in OfKind(Ranked(pool, k), kind) && IsSignal(x.hit, cosineMin) {
      assert HitKeyOf(x.hit).kind == kind;
    }
  }

  ghost predicate HopsInPoolAreMemories(pool: seq<Hit>) {
    forall h | h in pool && h.source == EDGE_HOP :: h.kind == MemoryHit
  }

  lemma {:induction false} AddHitMembers(bs: seq<Bucket>, h: Hit)
    ensures forall b, x | b in AddHit(bs, h) && x in b.hits :: x == h || exists c :: c in bs && x in c.hits
  {
    if bs != [] {
      AddHitMembers(bs[1..], h);
      assert forall c | c in bs[1..] :: c in bs;
      assert bs[0] in bs;
    }
  }

  lemma {:induction false} BucketMembers(pool: seq<Hit>)
    ensures forall b, x | b in Buckets(pool) && x in b.hits :: x in pool
  {
    if pool != [] {
      var n := |pool| - 1;
      BucketMembers(pool[..n]);
      AddHitMembers(Buckets(pool[..n]), pool[n]);
      forall b, x | b in Buckets(pool) && x in b.hits ensures x in pool {
        if x != pool[n] {
          var c :| c in Buckets(pool[..n]) && x in c.hits;
          assert x in pool[..n];
        }
      }
    }
  }

  lemma {:induction false} ShareMembers(bs: seq<Bucket>, k: nat)
    ensures forall s | s in Shares(bs, k) :: exists b :: b in bs && s.hit in b.hits
  {
    if bs != [] {
      var n := |bs| - 1;
      ShareMembers(bs[..n], k);
      assert forall b | b in bs[..n] :: b in bs;
      assert bs[n] in bs;
    }
  }

  lemma SignalOfPool(pool: seq<Hit>, k: nat, kind: Kind, cosineMin: real)
    requires HopsInPoolAreMemories(pool)
    ensures HasSignal(pool, k, kind, cosineMin) == KeepsSignal(Shares(Buckets(WithoutHops(pool)), k), kind, cosineMin)
  {
    var bs := Buckets(pool);
    SignalIsKept(pool, k, kind, cosineMin);
    BucketsWellSourced(pool);
    BucketsWellSourced(WithoutHops(pool));
    BucketMembers(pool);
    ShareMembers(bs, k);
    SharesWeighted(bs, k);
    BucketsOfPool(pool);
    SharesOfBuckets(bs, k);
    SharesWeighted(Buckets(WithoutHops(pool)), k);
    SignalsWithoutHops(Shares(bs, k), kind, cosineMin);
  }

  /**
   * Adding edge-hop hits to a pool, removing or rearranging them, never changes the gate: two pools
   * that agree once their hops are left out open the same tiers.
   */
  lemma GateIgnoresHops(a: seq<Hit>, b: seq<Hit>, k: nat, cosineMin: real, profile: bool, openEnded: bool,
                        entityMatch: bool)
    requires HopsInPoolAreMemories(a) && HopsInPoolAreMemories(b) && WithoutHops(a) == WithoutHops(b)
    ensures PoolGate(a, k, cosineMin, profile, openEnded, entityMatch)
         == PoolGate(b, k, cosineMin, profile, openEnded, entityMatch)
  {
    SignalOfPool(a, k, MemoryHit, cosineMin);
    SignalOfPool(b, k, MemoryHit, cosineMin);
    SignalOfPool(a, k, TurnHit, cosineMin);
    SignalOfPool(b, k, TurnHit, cosineMin);
  }

  /** A hit of the pool occurs among the shares of its bucket. */
  lemma {:induction false} PoolInBuckets(pool: seq<Hit>, i: nat)
    requires i < |pool|
    ensures exists b :: b in Buckets(pool) && pool[i] in b.hits
  {
    var n := |pool| - 1;
    if i < n {
      PoolInBuckets(pool[..n], i);
      AddHitKeeps(Buckets(pool[..n]), pool[n], pool[i]);
    } else {
      AddHitAdds(Buckets(pool[..n]), pool[n]);
    }
  }

  lemma {:induction false} AddHitKeeps(bs: seq<Bucket>, h: Hit, x: Hit)
    requires exists b :: b in bs && x in b.hits
    ensures exists b :: b in AddHit(bs, h) && x in b.hits
  {
    var b :| b in bs && x in b.hits;
    var bs' := AddHit(bs, h);
    if x in bs[0].hits {
      assert bs'[0] in bs' && x in bs'[0].hits;
    } else {
      assert b in bs[1..];
      AddHitKeeps(bs[1..], h, x);
      var t := if bs[0].source == h.source then bs[1..] else AddHit(bs[1..], h);
      assert bs'[1..] == t;
      var c :| c in t && x in c.hits;
      assert c in bs';
    }
  }

  lemma {:induction false} AddHitAdds(bs: seq<Bucket>, h: Hit)
    ensures exists b :: b in AddHit(bs, h) && h in b.hits
  {
    var bs' := AddHit(bs, h);
    if bs == [] || bs[0].source == h.source {
      assert bs'[0] in bs' && h in bs'[0].hits;
    } else {
      AddHitAdds(bs[1..], h);
      var c :| c in AddHit(bs[1..], h) && h in c.hits;
      assert c in bs';
    }
  }

  lemma {:induction false} SharesHave(bs: seq<Bucket>, k: nat, b: Bucket, h: Hit)
    requires b in bs && h in b.hits
    ensures exists i :: 0 <= i < |Shares(bs, k)| && Shares(bs, k)[i].hit == h
  {
    var n := |bs| - 1;
    var p := Shares(bs[..n], k);
    if b == bs[n] {
      var r :| 0 <= r < |b.hits| && b.hits[r] == h;
      assert Shares(bs, k)[|p| + r].hit == h;
    } else {
      assert b in bs[..n];
      SharesHave(bs[..n], k, b, h);
      var i :| 0 <= i < |p| && p[i].hit == h;
      assert Shares(bs, k)[i].hit == h;
    }
  }

  predicate IsGraphHitFor(x: Scored, h: Hit) {
    HitKeyOf(x.hit) == HitKeyOf(h) && x.hit.source == "graph"
  }

  /** A memory found through an entity is shown as such, and is always evidence. */
  lemma GraphForcesSignal(pool: seq<Hit>, k: nat, cosineMin: real, i: nat)
    requires i < |pool| && pool[i].source == "graph" && pool[i].kind == MemoryHit
    ensures exists x :: x in OfKind(Ranked(pool, k), MemoryHit) && IsGraphHitFor(x, pool[i])
    ensures HasSignal(pool, k, MemoryHit, cosineMin)
  {
    var h := pool[i];
    var shares := Shares(Buckets(pool), k);
    PoolInBuckets(pool, i);
    var b :| b in Buckets(pool) && h in b.hits;
    SharesHave(Buckets(pool), k, b, h);
    var j :| 0 <= j < |shares| && shares[j].hit == h;
    assert Occurs(shares, HitKeyOf(h), j);
    NoBest(shares, HitKeyOf(h));
    var best := BestMeaning(shares, HitKeyOf(h));
    BucketsWellSourced(pool);
    SharesWeighted(Buckets(pool), k);
    assert shares[j] in shares && shares[best] in shares;
    OnlyGraphIsHeaviest(shares[best].hit.source);
    RankedKeeps(pool, k, MemoryHit);
    var x :| x in OfKind(Ranked(pool, k), MemoryHit) && x.hit == Best(shares, HitKeyOf(h)).value.hit;
    assert IsSignal(x.hit, cosineMin);
  }

  lemma OnlyGraphIsHeaviest(source: string)
    ensures SourceWeight(source) >= 1.5 ==> source == "graph"
  {
  }

  // ---------------------------------------------------------------- which hits are seen

  /** No hit on the same row comes from a heavier source. */
  predicate Heaviest(pool: seq<Hit>, h: Hit) {
    && h in pool
    && forall o | o in pool && HitKeyOf(o) == HitKeyOf(h) :: SourceWeight(o.source) <= SourceWeight(h.source)
  }

  /** Every pooled hit has an occurrence, weighted by its source. */
  lemma PooledHasShare(pool: seq<Hit>, k: nat, h: Hit) returns (j: int)
    requires h in pool
    ensures var shares := Shares(Buckets(pool), k);
      Occurs(shares, HitKeyOf(h), j) && shares[j].weight == SourceWeight(h.source)
  {
    hide Buckets, Shares;
    var shares := Shares(Buckets(pool), k);
    var i :| 0 <= i < |pool| && pool[i] == h;
    PoolInBuckets(pool, i);
    var b :| b in Buckets(pool) && h in b.hits;
    SharesHave(Buckets(pool), k, b, h);
    j :| 0 <= j < |shares| && shares[j].hit == h;
    BucketsWellSourced(pool);
    SharesWeighted(Buckets(pool), k);
    assert shares[j] in shares;
  }

  /** The occurrence kept is a pooled hit of a heaviest source. */
  lemma KeptIsHeaviest(pool: seq<Hit>, k: nat, key: HitKey)
    requires Best(Shares(Buckets(pool), k), key).Some?
    ensures var h := Best(Shares(Buckets(pool), k), key).value.hit; HitKeyOf(h) == key && Heaviest(pool, h)
  {
    hide Buckets, Shares, Best, SourceWeight;
    var shares := Shares(Buckets(pool), k);
    var i := BestMeaning(shares, key);
    ShareMembers(Buckets(pool), k);
    BucketMembers(pool);
    BucketsWellSourced(pool);
    SharesWeighted(Buckets(pool), k);
    assert shares[i] in shares;
    forall o | o in pool && HitKeyOf(o) == key ensures SourceWeight(o.source) <= SourceWeight(shares[i].hit.source) {
      var j := PooledHasShare(pool, k, o);
    }
  }

  /** Evidence is a pooled hit that no hit on the same row from a heavier source displaces. */
  lemma SignalIsHeaviest(pool: seq<Hit>, k: nat, kind: Kind, cosineMin: real)
    requires HasSignal(pool, k, kind, cosineMin)
    ensures exists h :: Heaviest(pool, h) && h.kind == kind && IsSignal(h, cosineMin)
  {
    hide Ranked, IsSignal, Buckets, Shares, Best, Heaviest;
    var shares := Shares(Buckets(pool), k);
    RankedKeeps(pool, k, kind);
    var x :| x in OfKind(Ranked(pool, k), kind) && IsSignal(x.hit, cosineMin);
    KeptIsHeaviest(pool, k, HitKeyOf(x.hit));
  }

  /** And a row all of whose heaviest hits are evidence is seen as evidence. */
  lemma HeaviestIsSignal(pool: seq<Hit>, k: nat, h: Hit, cosineMin: real)
    requires h in pool
    requires forall o | Heaviest(pool, o) && HitKeyOf(o) == HitKeyOf(h) :: IsSignal(o, cosineMin)
    ensures HasSignal(pool, k, h.kind, cosineMin)
  {
    hide Ranked, IsSignal, Buckets, Shares, Best, Heaviest;
    var shares, key := Shares(Buckets(pool), k), HitKeyOf(h);
    var j := PooledHasShare(pool, k, h);
    NoBest(shares, key);
    KeptIsHeaviest(pool, k, key);
    RankedKeeps(pool, k, h.kind);
  }

  /**
   * So a full-text hit on a memory counts for nothing, however strong, when the vector index found the same
   * memory weakly; by itself it counts.
   */
  lemma SignalDisplaced(f: Hit, v: Hit, k: nat, cosineMin: real)
    requires f.kind == MemoryHit && HitKeyOf(f) == HitKeyOf(v)
    requires f.source == "memory_fts" && v.source == "memory_vector"
    requires v.score < cosineMin
    ensures !HasSignal([f, v], k, MemoryHit, cosineMin) && !HasSignal([v, f], k, MemoryHit, cosineMin)
    ensures IsSignal(f, cosineMin) ==> HasSignal([f], k, MemoryHit, cosineMin)
  {
    hide HasSignal;
    NoneHeaviest([f, v], f, v, cosineMin);
    NoneHeaviest([v, f], f, v, cosineMin);
    if HasSignal([f, v], k, MemoryHit, cosineMin) {
      SignalIsHeaviest([f, v], k, MemoryHit, cosineMin);
    }
    if HasSignal([v, f], k, MemoryHit, cosineMin) {
      SignalIsHeaviest([v, f], k, MemoryHit, cosineMin);
    }
    if IsSignal(f, cosineMin) {
      HeaviestIsSignal([f], k, f, cosineMin);
    }
  }

  lemma NoneHeaviest(pool: seq<Hit>, f: Hit, v: Hit, cosineMin: real)
    requires pool == [f, v] || pool == [v, f]
    requires f.kind == MemoryHit && HitKeyOf(f) == HitKeyOf(v)
    requires f.source == "memory_fts" && v.source == "memory_vector"
    requires v.score < cosineMin
    ensures forall h | Heaviest(pool, h) :: !IsSignal(h, cosineMin)
  {
    assert v in pool && forall h | h in pool :: h == f || h == v;
  }

  // ---------------------------------------------------------------- weights in numbers

  /** The weights of the sources in which a hit may be found. */
  predicate Weighs(source: string, w: real) {
    || (source == "graph" && w == 1.5) || (source == "memory_vector" && w == 1.4)
    || (source == "memory_fts" && w == 1.1) || (source == "turn_vector" && w == 1.0)
    || (source == "edge_hop" && w == 0.9) || (source == "turn_fts" && w == 0.7)
  }

  lemma {:induction false} SourceScoreOnce(b: Bucket, k: nat, key: HitKey, n: nat, r: nat)
    requires n <= |b.hits| && r < |b.hits| && HitKeyOf(b.hits[r]) == key
    requires forall i | 0 <= i < |b.hits| && i != r :: HitKeyOf(b.hits[i]) != key
    ensures SourceScore(b, k, key, n) == if r < n then SourceWeight(b.source) / ((k + r + 1) as real) else 0.0
  {
    if n > 0 {
      SourceScoreOnce(b, k, key, n - 1, r);
    }
  }

  /** One more source that lists a hit at rank `r` adds its weight over `k + r + 1` to the score. */
  lemma SourceAdds(buckets: seq<Bucket>, b: Bucket, k: nat, key: HitKey, r: nat, w: real)
    requires r < |b.hits| && HitKeyOf(b.hits[r]) == key && Weighs(b.source, w)
    requires forall i | 0 <= i < |b.hits| && i != r :: HitKeyOf(b.hits[i]) != key
    ensures Score([b] + buckets, k, key) == Score(buckets, k, key) + w / ((k + r + 1) as real)
  {
    SourceScoreOnce(b, k, key, |b.hits|, r);
    assert ([b] + buckets)[1..] == buckets;
  }

  /** The six sources; those of turns list turns, the others memories. */
  predicate KnownSource(h: Hit) {
    match h.kind
    case TurnHit => h.source == "turn_vector" || h.source == "turn_fts"
    case MemoryHit =>
      h.source == "graph" || h.source == "memory_vector" || h.source == "memory_fts" || h.source == "edge_hop"
  }

  /**
   * Which hit is shown for a row found several times: a turn is shown as the vector index found it, if it
   * did; a memory as found through an entity, else by the vector index, else by its words, else by a hop.
   */
  lemma ShownSource(pool: seq<Hit>, k: nat, x: Scored, o: Hit)
    requires forall h | h in pool :: KnownSource(h)
    requires x in Ranked(pool, k) && o in pool && o.kind == x.hit.kind && o.id == x.hit.id
    ensures x.hit in pool
    ensures o.source == "turn_vector" ==> x.hit.source == "turn_vector"
    ensures o.source == "graph" ==> x.hit.source == "graph"
    ensures o.source == "memory_vector" ==> x.hit.source == "graph" || x.hit.source == "memory_vector"
    ensures o.source == "memory_fts" ==> x.hit.source != "edge_hop"
  {
    hide Ranked, Buckets, Shares, Best;
    var kind, key := x.hit.kind, HitKeyOf(x.hit);
    RankedKeeps(pool, k, kind);
    OfKindHas(Ranked(pool, k), kind);
    KeptIsHeaviest(pool, k, key);
    assert Heaviest(pool, x.hit) && HitKeyOf(o) == key;
    assert KnownSource(x.hit) && KnownSource(o);
  }
}
