/** What holds inside one `(scope, key)` group, and why every write to the group keeps it. */
module Groups {
  import opened Tables
  import opened Text
  import opened Taxonomy
  import opened Reconciler

  // ---------------------------------------------------------------- the two kinds of write

  /** Row by row, what carrying out a decision does to the group. */
  ghost predicate Written(g: map<Uuid, Memory>, g': map<Uuid, Memory>, ctx: Context, c: Candidate, d: Decision,
                          id: Uuid)
  {
    if !d.insert then g' == g
    else
      && g'.Keys == g.Keys + {id}
      && g'[id] == NewRow(ctx, c, d)
      && forall a | a in g :: g'[a] == g[a].(active := g[a].active && a !in d.deactivate)
  }

  lemma WritesAreWritten(g: map<Uuid, Memory>, ctx: Context, c: Candidate, d: Decision, id: Uuid)
    requires Policy(g, c, d) && id !in g
    ensures Written(g, g + Writes(g, ctx, c, d, id), ctx, c, d, id)
  {
    hide MultiplicityOf, ActiveSet, MentionedSet;
    hide SameObject, NewRow, IsLatestIn;
    if !d.insert {
      assert Deactivated(g, d.deactivate) == map[];
      return;
    }
    forall a | a in g ensures (g + Writes(g, ctx, c, d, id))[a] == g[a].(active := g[a].active && a !in d.deactivate) {
    }
  }

  /** `recompute_active` on a group, given the row its `LIMIT 1` returns. */
  function RecomputeGroup(g: map<Uuid, Memory>, pick: Option<Uuid>): map<Uuid, Memory> {
    map id | id in g :: g[id].(active := pick == Some(id))
  }

  /** Any row with the greatest stamp may be the one returned; none is exactly when the group is empty. */
  ghost predicate IsPick(g: map<Uuid, Memory>, pick: Option<Uuid>) {
    if pick.None? then g.Keys == {} else IsLatestIn(g, g.Keys, pick.value)
  }

  /** Row by row, what deleting `dead` and recomputing does. */
  ghost predicate Pruned(g: map<Uuid, Memory>, g': map<Uuid, Memory>, dead: set<Uuid>, pick: Option<Uuid>) {
    && g'.Keys == g.Keys - dead
    && forall a | a in g' ::
         g'[a] == g[a].(supersedes := SetNull(g[a].supersedes, dead), active := pick == Some(a))
  }

  // ---------------------------------------------------------------- active rows

  ghost predicate SomeActive(g: map<Uuid, Memory>) {
    g.Keys == {} || exists id :: id in g && g[id].active
  }

  ghost predicate AtMostOneActive(g: map<Uuid, Memory>) {
    forall a, b | a in g && b in g && g[a].active && g[b].active :: a == b
  }

  ghost predicate ActiveObjectsDiffer(g: map<Uuid, Memory>) {
    forall a, b | a in g && b in g && g[a].active && g[b].active && a != b :: !SameObject(g[a], g[b].obj)
  }

  predicate Supersedes(g: map<Uuid, Memory>, a: Uuid, b: Uuid) {
    a in g && g[a].supersedes == Some(b)
  }

  /** `supersedes` names a row of the same group, and not the row itself. */
  ghost predicate LinksInside(g: map<Uuid, Memory>) {
    forall a, b | Supersedes(g, a, b) :: b in g && a != b
  }

  ghost predicate Sound(g: map<Uuid, Memory>) {
    SomeActive(g) && ActiveObjectsDiffer(g) && LinksInside(g)
  }

  lemma WrittenLinks(g: map<Uuid, Memory>, g': map<Uuid, Memory>, ctx: Context, c: Candidate, d: Decision, id: Uuid)
    requires Written(g, g', ctx, c, d, id) && id !in g
    ensures forall a: Uuid, b: Uuid | Supersedes(g', a, b) ::
      if d.insert && a == id then d.supersedes == Some(b) else Supersedes(g, a, b)
  {
  }

  lemma PrunedLinks(g: map<Uuid, Memory>, g': map<Uuid, Memory>, dead: set<Uuid>, pick: Option<Uuid>)
    requires Pruned(g, g', dead, pick)
    ensures forall a, b | Supersedes(g', a, b) :: Supersedes(g, a, b) && b !in dead
  {
  }

  lemma WriteKeepsSound(g: map<Uuid, Memory>, g': map<Uuid, Memory>, ctx: Context, c: Candidate, d: Decision, id: Uuid)
    requires Policy(g, c, d) && Written(g, g', ctx, c, d, id) && id !in g && Sound(g)
    ensures Sound(g')
  {
    WrittenLinks(g, g', ctx, c, d, id);
    if d.insert {
      assert g'[id].active;
      SameObjectSymmetric(g, c.obj);
    }
  }

  lemma SameObjectSymmetric(g: map<Uuid, Memory>, obj: string)
    ensures forall id, m: Memory | id in g && m.obj == obj :: SameObject(m, g[id].obj) == SameObject(g[id], obj)
  {
  }

  lemma SingleWriteKeepsOne(g: map<Uuid, Memory>, g': map<Uuid, Memory>, ctx: Context, c: Candidate, d: Decision,
                            id: Uuid)
    requires Policy(g, c, d) && Written(g, g', ctx, c, d, id) && id !in g
    requires AtMostOneActive(g) && MultiplicityOf(c.pred) == One
    ensures AtMostOneActive(g')
  {
    if d.insert {
      SingleReplacesAll(g, c, d);
    }
  }

  lemma SingleReplacesAll(g: map<Uuid, Memory>, c: Candidate, d: Decision)
    requires Policy(g, c, d) && d.insert && MultiplicityOf(c.pred) == One
    ensures forall a | a in g && g[a].active :: a in d.deactivate
  {
    assert forall a | a in g && g[a].active :: a in ActiveSet(g);
  }

  lemma PruneMakesSound(g: map<Uuid, Memory>, g': map<Uuid, Memory>, dead: set<Uuid>, pick: Option<Uuid>)
    requires LinksInside(g) && Pruned(g, g', dead, pick) && IsPick(g', pick)
    ensures Sound(g') && AtMostOneActive(g')
  {
    PrunedLinks(g, g', dead, pick);
    if pick.Some? {
      assert g'[pick.value].active;
    }
  }

  // ---------------------------------------------------------------- chains

  ghost predicate StampsDiffer(g: map<Uuid, Memory>) {
    forall a, b | a in g && b in g && a != b :: g[a].createdAt != g[b].createdAt
  }

  /** Superseded rows are older and inactive, and no row is superseded twice. */
  ghost predicate Chained(g: map<Uuid, Memory>) {
    && LinksInside(g)
    && (forall a, b | Supersedes(g, a, b) && b in g :: g[b].createdAt < g[a].createdAt && !g[b].active)
    && (forall a, a', b | Supersedes(g, a, b) && Supersedes(g, a', b) :: a == a')
  }

  /** In a single-valued group the active row is the latest one. */
  ghost predicate LatestIsActive(g: map<Uuid, Memory>) {
    forall id | id in g :: g[id].active <==> IsLatestIn(g, g.Keys, id)
  }

  /** A link of a single-valued group goes to the row just before, and changes the object. */
  ghost predicate LinksToPrevious(g: map<Uuid, Memory>) {
    forall a, b | Supersedes(g, a, b) && b in g ::
      && !SameObject(g[b], g[a].obj)
      && forall x | x in g :: !(g[b].createdAt < g[x].createdAt < g[a].createdAt)
  }

  /** The writing transaction starts after every row of the group was stamped. */
  ghost predicate Later(g: map<Uuid, Memory>, now: int) {
    forall id | id in g :: g[id].createdAt < now
  }

  /** What the two chain lemmas below use of an insertion: who links to whom, and the row superseded. */
  lemma InsertedLinks(g: map<Uuid, Memory>, g': map<Uuid, Memory>, ctx: Context, c: Candidate, d: Decision, id: Uuid)
    requires Policy(g, c, d) && Written(g, g', ctx, c, d, id) && id !in g && LinksInside(g) && d.insert
    ensures forall a, b | Supersedes(g', a, b) ::
      && b in g
      && (if a == id then g[b].active && b in d.deactivate else Supersedes(g, a, b))
  {
    WrittenLinks(g, g', ctx, c, d, id);
  }

  lemma WriteKeepsChained(g: map<Uuid, Memory>, g': map<Uuid, Memory>, ctx: Context, c: Candidate, d: Decision,
                          id: Uuid)
    requires Policy(g, c, d) && Written(g, g', ctx, c, d, id) && id !in g
    requires Chained(g) && StampsDiffer(g) && (d.insert ==> Later(g, ctx.now))
    ensures Chained(g') && StampsDiffer(g')
  {
    if d.insert {
      InsertedLinks(g, g', ctx, c, d, id);
      InsertKeepsChained(g, g', d.deactivate, ctx.now, id);
    }
  }

  lemma InsertKeepsChained(g: map<Uuid, Memory>, g': map<Uuid, Memory>, off: seq<Uuid>, now: int, id: Uuid)
    requires Chained(g) && StampsDiffer(g) && Later(g, now)
    requires g'.Keys == g.Keys + {id} && id !in g && g'[id].createdAt == now
    requires forall a | a in g :: g'[a] == g[a].(active := g[a].active && a !in off)
    requires forall a, b | Supersedes(g', a, b) ::
      b in g && if a == id then g[b].active && b in off else Supersedes(g, a, b)
    ensures Chained(g') && StampsDiffer(g')
  {
  }

  lemma SingleWriteKeepsPrevious(
    g: map<Uuid, Memory>, g': map<Uuid, Memory>, ctx: Context, c: Candidate, d: Decision, id: Uuid)
    requires Policy(g, c, d) && Written(g, g', ctx, c, d, id) && id !in g
    requires LinksInside(g) && LatestIsActive(g) && LinksToPrevious(g) && MultiplicityOf(c.pred) == One
    requires d.insert ==> Later(g, ctx.now)
    ensures LatestIsActive(g') && LinksToPrevious(g')
  {
    if d.insert {
      InsertedLinks(g, g', ctx, c, d, id);
      SingleReplacesAll(g, c, d);
      assert forall a | a in g && g[a].active :: !SameObject(g[a], g'[id].obj);
      InsertKeepsPrevious(g, g', ctx.now, id);
    }
  }

  lemma InsertKeepsPrevious(g: map<Uuid, Memory>, g': map<Uuid, Memory>, now: int, id: Uuid)
    requires LatestIsActive(g) && LinksToPrevious(g) && Later(g, now)
    requires g'.Keys == g.Keys + {id} && id !in g && g'[id].createdAt == now && g'[id].active
    requires forall a | a in g :: g'[a] == g[a].(active := false)
    requires forall a | a in g && g[a].active :: !SameObject(g[a], g'[id].obj)
    requires forall a, b | Supersedes(g', a, b) :: b in g && if a == id then g[b].active else Supersedes(g, a, b)
    ensures LatestIsActive(g') && LinksToPrevious(g')
  {
    hide Norm;
    assert IsLatestIn(g', g'.Keys, id);
    forall a, b | Supersedes(g', a, b) && b in g'
      ensures !SameObject(g'[b], g'[a].obj)
        && forall x | x in g' :: !(g'[b].createdAt < g'[x].createdAt < g'[a].createdAt)
    {
      if a == id {
        assert IsLatestIn(g, g.Keys, b);
      } else {
        assert Supersedes(g, a, b);
      }
    }
  }

  /** Deleting rows and recomputing keeps chains, whichever rows go. */
  lemma PruneKeepsChained(g: map<Uuid, Memory>, g': map<Uuid, Memory>, dead: set<Uuid>, pick: Option<Uuid>)
    requires Chained(g) && StampsDiffer(g) && Pruned(g, g', dead, pick) && IsPick(g', pick)
    ensures Chained(g') && StampsDiffer(g') && LatestIsActive(g')
  {
    PrunedLinks(g, g', dead, pick);
  }

  lemma PruneKeepsPrevious(g: map<Uuid, Memory>, g': map<Uuid, Memory>, dead: set<Uuid>, pick: Option<Uuid>)
    requires LinksInside(g) && LinksToPrevious(g) && Pruned(g, g', dead, pick)
    ensures LinksToPrevious(g')
  {
    PrunedLinks(g, g', dead, pick);
  }

  ghost predicate SupersededInactive(g: map<Uuid, Memory>) {
    forall a, b | Supersedes(g, a, b) && b in g :: !g[b].active
  }

  /**
   * Without strictly increasing stamps, recomputing may reactivate a superseded row: exactly when
   * such a row bears the greatest stamp of its group.
   */
  lemma RecomputeReactivatesIff(g: map<Uuid, Memory>)
    requires LinksInside(g)
    ensures (forall pick | IsPick(g, pick) :: SupersededInactive(RecomputeGroup(g, pick)))
      <==> (forall a, b | Supersedes(g, a, b) :: !IsLatestIn(g, g.Keys, b))
  {
    forall a, b | Supersedes(g, a, b) && IsLatestIn(g, g.Keys, b)
      ensures exists pick :: IsPick(g, pick) && !SupersededInactive(RecomputeGroup(g, pick))
    {
      var g' := RecomputeGroup(g, Some(b));
      assert Supersedes(g', a, b);
      assert IsPick(g, Some(b));
    }
    if forall a, b | Supersedes(g, a, b) :: !IsLatestIn(g, g.Keys, b) {
      forall pick | IsPick(g, pick) ensures SupersededInactive(RecomputeGroup(g, pick)) {
        var g' := RecomputeGroup(g, pick);
        assert forall a, b | Supersedes(g', a, b) :: Supersedes(g, a, b);
      }
    }
  }

  // ---------------------------------------------------------------- tidy links

  ghost predicate OneSuperseder(g: map<Uuid, Memory>) {
    forall a, a', b | Supersedes(g, a, b) && Supersedes(g, a', b) :: a == a'
  }

  /** What supersession is for, without any word about stamps. */
  ghost predicate Tidy(g: map<Uuid, Memory>) {
    LinksInside(g) && SupersededInactive(g) && OneSuperseder(g)
  }

  /** An insertion supersedes an active row, which no other row supersedes then, and makes it inactive. */
  lemma WriteKeepsTidy(g: map<Uuid, Memory>, g': map<Uuid, Memory>, ctx: Context, c: Candidate, d: Decision, id: Uuid)
    requires Policy(g, c, d) && Written(g, g', ctx, c, d, id) && id !in g && Tidy(g)
    ensures Tidy(g')
  {
    if d.insert {
      InsertedLinks(g, g', ctx, c, d, id);
      InsertKeepsTidy(g, g', d.deactivate, id);
    }
  }

  lemma InsertKeepsTidy(g: map<Uuid, Memory>, g': map<Uuid, Memory>, off: seq<Uuid>, id: Uuid)
    requires Tidy(g) && g'.Keys == g.Keys + {id} && id !in g
    requires forall a | a in g :: g'[a] == g[a].(active := g[a].active && a !in off)
    requires forall a, b | Supersedes(g', a, b) ::
      b in g && if a == id then g[b].active && b in off else Supersedes(g, a, b)
    ensures Tidy(g')
  {
  }

  /** Deleting rows and recomputing keeps links tidy if and only if no surviving row supersedes the row picked. */
  lemma PruneTidyIff(g: map<Uuid, Memory>, g': map<Uuid, Memory>, dead: set<Uuid>, pick: Option<Uuid>)
    requires Tidy(g) && Pruned(g, g', dead, pick) && IsPick(g', pick)
    ensures Tidy(g') <==> pick.None? || forall a | Supersedes(g, a, pick.value) :: a in dead
  {
    PrunedLinks(g, g', dead, pick);
    if pick.Some? {
      forall a | Supersedes(g, a, pick.value) && a !in dead ensures Supersedes(g', a, pick.value) {
      }
    }
  }
}
