/** Supersession policy: what one candidate does to the rows of its `(scope, key)` group. */
module Reconciler {
  import opened Tables
  import opened Text
  import opened Taxonomy

  datatype EntityMention = EntityMention(name: string, kind: Option<string>)

  /** `corrects` says whether a correction marker occurs in the quote. */
  datatype Candidate = Candidate(
    kind: MemoryType, subject: string, pred: string, obj: string, value: string, quote: string,
    confidence: real, entities: seq<EntityMention>, corrects: bool)
  {
    function Key(): string {
      KeyOf(subject, pred)
    }
  }

  datatype Decision = Decision(insert: bool, active: bool, supersedes: Option<Uuid>, deactivate: seq<Uuid>)

  const SKIP := Decision(false, false, None, [])

  /** What an ingest knows before its loop: scope, session and turn of the payload, start of the transaction. */
  datatype Context = Context(scope: Scope, session: string, turn: Uuid, now: int)

  /** One pass of the candidate loop with the choices made in it: order of the fetched rows, the uuids drawn. */
  datatype Step = Step(cand: Candidate, fetched: seq<Uuid>, id: Uuid, entityIds: seq<Uuid>)

  /** `SELECT ... WHERE scope = .. AND key = .. ORDER BY created_at DESC`: any order among equal stamps. */
  ghost predicate IsFetch(g: map<Uuid, Memory>, ids: seq<Uuid>) {
    && (forall id | id in ids :: id in g)
    && (forall id | id in g :: id in ids)
    && (forall i, j :: 0 <= i < j < |ids| ==> ids[i] != ids[j])
    && NewestFirst(g, ids)
  }

  ghost predicate NewestFirst(g: map<Uuid, Memory>, ids: seq<Uuid>)
    requires forall id | id in ids :: id in g
  {
    forall i, j :: 0 <= i < j < |ids| ==> g[ids[i]].createdAt >= g[ids[j]].createdAt
  }

  predicate SameObject(m: Memory, obj: string) {
    Norm(m.obj) == Norm(obj)
  }

  /** The active rows, in the order fetched. */
  function ActiveIds(g: map<Uuid, Memory>, ids: seq<Uuid>): (r: seq<Uuid>)
    requires forall id | id in ids :: id in g
    ensures forall id :: id in r <==> id in ids && g[id].active
  {
    if ids == [] then []
    else if g[ids[0]].active then [ids[0]] + ActiveIds(g, ids[1..])
    else ActiveIds(g, ids[1..])
  }

  /** The quote mentions the object of the row. */
  predicate Mentions(quote: string, m: Memory) {
    Strip(m.obj) != "" && Contains(Lower(quote), Norm(m.obj))
  }

  function Targets(g: map<Uuid, Memory>, ids: seq<Uuid>, quote: string): (r: seq<Uuid>)
    requires forall id | id in ids :: id in g
    ensures forall id :: id in r <==> id in ids && Mentions(quote, g[id])
  {
    if ids == [] then []
    else if Mentions(quote, g[ids[0]]) then [ids[0]] + Targets(g, ids[1..], quote)
    else Targets(g, ids[1..], quote)
  }

  function First(ids: seq<Uuid>): Option<Uuid> {
    if ids == [] then None else Some(ids[0])
  }

  /** The decision as a function of the rows fetched. */
  function Decide(g: map<Uuid, Memory>, ids: seq<Uuid>, c: Candidate): (d: Decision)
    requires forall id | id in ids :: id in g
    ensures forall id | id in d.deactivate :: id in ids && g[id].active
    ensures d.supersedes.Some? ==> d.supersedes.value in d.deactivate && d.insert
    ensures !d.insert ==> d == SKIP
  {
    var act := ActiveIds(g, ids);
    if exists i :: 0 <= i < |act| && SameObject(g[act[i]], c.obj) then SKIP
    else if MultiplicityOf(c.pred) == One then Decision(true, true, First(act), act)
    else if c.corrects && Targets(g, act, c.quote) != [] then
      var targets := Targets(g, act, c.quote);
      Decision(true, true, First(targets), targets)
    else if c.corrects && act != [] then Decision(true, true, Some(act[0]), [act[0]])
    else Decision(true, true, None, [])
  }

  function NewRow(ctx: Context, c: Candidate, d: Decision): Memory {
    Memory(ctx.scope, c.kind, c.subject, c.pred, c.obj, c.Key(), c.value,
           if c.quote == "" then None else Some(c.quote), c.confidence, ctx.session, Some(ctx.turn),
           ctx.now, d.supersedes, d.active)
  }

  function Deactivated(g: map<Uuid, Memory>, ids: seq<Uuid>): (r: map<Uuid, Memory>)
    requires forall id | id in ids :: id in g
  {
    map id | id in ids :: g[id].(active := false)
  }

  /** The rows a decision writes: those it deactivates and the one it inserts. */
  function Writes(g: map<Uuid, Memory>, ctx: Context, c: Candidate, d: Decision, id: Uuid): map<Uuid, Memory>
    requires forall i | i in d.deactivate :: i in g
  {
    var off := Deactivated(g, d.deactivate);
    if d.insert then off[id := NewRow(ctx, c, d)] else off
  }

  /** The rows one step writes. */
  function Effect(g: map<Uuid, Memory>, ctx: Context, st: Step): map<Uuid, Memory>
    requires forall id | id in st.fetched :: id in g
  {
    Writes(g, ctx, st.cand, Decide(g, st.fetched, st.cand), st.id)
  }

  lemma NewestCons(g: map<Uuid, Memory>, id: Uuid, ids: seq<Uuid>)
    requires id in g && (forall x | x in ids :: x in g) && NewestFirst(g, ids)
    requires forall x | x in ids :: g[id].createdAt >= g[x].createdAt
    ensures NewestFirst(g, [id] + ids)
  {
  }

  lemma NewestTail(g: map<Uuid, Memory>, ids: seq<Uuid>)
    requires ids != [] && (forall x | x in ids :: x in g) && NewestFirst(g, ids)
    ensures NewestFirst(g, ids[1..]) && forall x | x in ids[1..] :: g[ids[0]].createdAt >= g[x].createdAt
  {
  }

  /** The active rows come in the order of the fetch. */
  lemma {:induction false} ActiveNewestFirst(g: map<Uuid, Memory>, ids: seq<Uuid>)
    requires (forall id | id in ids :: id in g) && NewestFirst(g, ids)
    ensures NewestFirst(g, ActiveIds(g, ids))
  {
    if ids == [] {
      return;
    }
    NewestTail(g, ids);
    ActiveNewestFirst(g, ids[1..]);
    if g[ids[0]].active {
      NewestCons(g, ids[0], ActiveIds(g, ids[1..]));
    }
  }

  /** So do the rows a correction targets. */
  lemma {:induction false} TargetsNewestFirst(g: map<Uuid, Memory>, ids: seq<Uuid>, quote: string)
    requires (forall id | id in ids :: id in g) && NewestFirst(g, ids)
    ensures NewestFirst(g, Targets(g, ids, quote))
  {
    hide Mentions;
    if ids == [] {
      return;
    }
    NewestTail(g, ids);
    TargetsNewestFirst(g, ids[1..], quote);
    if Mentions(quote, g[ids[0]]) {
      NewestCons(g, ids[0], Targets(g, ids[1..], quote));
    }
  }

  ghost predicate IsLatestIn(g: map<Uuid, Memory>, ids: set<Uuid>, id: Uuid) {
    id in ids && id in g && forall o | o in ids && o in g :: g[o].createdAt <= g[id].createdAt
  }

  ghost function ActiveSet(g: map<Uuid, Memory>): set<Uuid> {
    set id | id in g && g[id].active
  }

  ghost function MentionedSet(g: map<Uuid, Memory>, quote: string): set<Uuid> {
    set id | id in g && g[id].active && Mentions(quote, g[id])
  }

  /**
   * The policy, in terms of the group alone. A candidate whose object is active already is skipped.
   * A single-valued one replaces every active row; a correction replaces the active rows its quote
   * mentions, or else a latest one; anything else coexists. The superseded row is a latest replaced one.
   */
  ghost predicate Policy(g: map<Uuid, Memory>, c: Candidate, d: Decision) {
    var act, hit, off := ActiveSet(g), MentionedSet(g, c.quote), set id | id in d.deactivate;
    && (forall id | id in d.deactivate :: id in g && g[id].active)
    && (d.insert <==> forall id | id in g && g[id].active :: !SameObject(g[id], c.obj))
    && d.active == d.insert
    && (d.supersedes.None? <==> d.deactivate == [])
    && (d.supersedes.Some? ==> IsLatestIn(g, off, d.supersedes.value))
    && (if !d.insert then d == SKIP
        else if MultiplicityOf(c.pred) == One then off == act
        else if !c.corrects then off == {}
        else if hit != {} then off == hit
        else if act != {} then |d.deactivate| == 1 && IsLatestIn(g, act, d.deactivate[0])
        else off == {})
  }

  /** Every order a fetch may return leads to a decision that follows the policy. */
  lemma DecideFollowsPolicy(g: map<Uuid, Memory>, ids: seq<Uuid>, c: Candidate)
    requires IsFetch(g, ids)
    ensures Policy(g, c, Decide(g, ids, c))
  {
    hide MultiplicityOf, Mentions, SameObject, NewestFirst, ActiveIds, Targets;
    var act := ActiveIds(g, ids);
    var d := Decide(g, ids, c);
    ActiveNewestFirst(g, ids);
    LatestOf(g, act, ActiveSet(g));
    if c.corrects {
      var ts := Targets(g, act, c.quote);
      TargetsNewestFirst(g, act, c.quote);
      LatestOf(g, ts, MentionedSet(g, c.quote));
    }
    assert d.insert <==> forall id | id in g && g[id].active :: !SameObject(g[id], c.obj) by {
      assert forall id | id in g && g[id].active :: id in act;
    }
  }

  /** The head of a list that is newest first is a latest row of the set listed. */
  lemma LatestOf(g: map<Uuid, Memory>, ids: seq<Uuid>, s: set<Uuid>)
    requires (forall id | id in ids :: id in g) && NewestFirst(g, ids)
    requires forall id :: id in ids <==> id in s
    ensures (set id | id in ids) == s
    ensures if ids == [] then s == {} else IsLatestIn(g, s, ids[0]) && s != {}
  {
    if ids != [] {
      assert ids[0] in s;
    }
  }

  // ---------------------------------------------------------------- the decision in plain terms

  lemma ContainsIff(hay: string, needle: string)
    ensures Contains(hay, needle) <==> exists x, y :: hay == x + needle + y
  {
    if i :| 0 <= i <= |hay| && needle <= hay[i..] {
      assert hay == hay[..i] + needle + hay[i + |needle|..];
    }
    if x, y :| hay == x + needle + y {
      assert hay[|x|..] == needle + y;
    }
  }

  /**
   * When a candidate is inserted and what it replaces, in terms of rows and texts: it is skipped if and
   * only if an active row has its object up to case and surrounding white space, it replaces active rows
   * only, all of them if it is single-valued and none if it is neither that nor a correction, and it
   * supersedes a latest of those it replaces.
   */
  lemma DecideMeaning(g: map<Uuid, Memory>, ids: seq<Uuid>, c: Candidate)
    requires IsFetch(g, ids)
    ensures var d := Decide(g, ids, c);
      && (d.insert <==> forall id | id in g && g[id].active :: Lower(Strip(g[id].obj)) != Lower(Strip(c.obj)))
      && d.active == d.insert
      && (forall id | id in d.deactivate :: d.insert && id in g && g[id].active)
      && (d.insert && MultiplicityOf(c.pred) == One ==> forall id | id in g && g[id].active :: id in d.deactivate)
      && (MultiplicityOf(c.pred) == Many && !c.corrects ==> d.deactivate == [])
      && (d.supersedes.None? <==> d.deactivate == [])
      && (d.supersedes.Some? ==> d.supersedes.value in d.deactivate)
      && (d.supersedes.Some? ==> forall id | id in d.deactivate :: g[id].createdAt <= g[d.supersedes.value].createdAt)
  {
    hide MultiplicityOf, MentionedSet, Decide;
    var d := Decide(g, ids, c);
    DecideFollowsPolicy(g, ids, c);
    assert forall id | id in d.deactivate :: id in (set i | i in d.deactivate);
    assert forall id | id in g && g[id].active :: id in ActiveSet(g);
  }

  /**
   * What a correction of a many-valued predicate replaces: the active rows whose object occurs in its
   * quote, up to case, or if there are none, one latest active row.
   */
  lemma CorrectionReplaces(g: map<Uuid, Memory>, ids: seq<Uuid>, c: Candidate)
    requires IsFetch(g, ids) && c.corrects && MultiplicityOf(c.pred) == Many
    requires forall id | id in g && g[id].active :: Lower(Strip(g[id].obj)) != Lower(Strip(c.obj))
    ensures var d := Decide(g, ids, c);
      var quoted := set id | id in g && g[id].active && Strip(g[id].obj) != ""
                       && exists x, y :: Lower(c.quote) == x + Lower(Strip(g[id].obj)) + y;
      && (quoted != {} ==> forall id :: id in d.deactivate <==> id in quoted)
      && (quoted == {} && (exists id :: id in g && g[id].active) ==>
            && |d.deactivate| == 1
            && forall id | id in g && g[id].active :: g[id].createdAt <= g[d.deactivate[0]].createdAt)
  {
    hide MultiplicityOf, Decide, Contains, Lower, Strip;
    var d := Decide(g, ids, c);
    var quoted := set id | id in g && g[id].active && Strip(g[id].obj) != ""
                     && exists x, y :: Lower(c.quote) == x + Lower(Strip(g[id].obj)) + y;
    DecideMeaning(g, ids, c);
    DecideFollowsPolicy(g, ids, c);
    forall id | id in g ensures id in MentionedSet(g, c.quote) <==> id in quoted {
      ContainsIff(Lower(c.quote), Norm(g[id].obj));
    }
    assert MentionedSet(g, c.quote) == quoted;
    var off := set id | id in d.deactivate;
    assert forall id :: id in d.deactivate <==> id in off;
    if exists id :: id in g && g[id].active {
      var id :| id in g && g[id].active;
      assert id in ActiveSet(g);
    }
  }
}
