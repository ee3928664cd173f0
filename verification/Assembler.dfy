/** The tiered context under a token budget, with the count of four characters to a token. */
module Assembler {
  import opened Tables
  import opened Text
  import opened Fusion
  import opened Ranking

  function Tokens(s: string): nat {
    if |s| / 4 >= 1 then |s| / 4 else 1
  }

  function Trim(s: string, maxTokens: int): string {
    if maxTokens <= 0 then "" else if |s| <= maxTokens * 4 then s else s[..maxTokens * 4]
  }

  /** `int(max_tokens * 0.4)`, which truncates toward zero. */
  function TierCap(maxTokens: int): int {
    if maxTokens >= 0 then 2 * maxTokens / 5 else -(2 * -maxTokens / 5)
  }

  /** What a line or header costs: its tokens and one more for the separator. */
  function Cost(s: string): nat {
    Tokens(s) + 1
  }

  // ---------------------------------------------------------------- lines

  datatype StableFact = StableFact(
    value: string, confidence: real, sourceTurn: Option<Uuid>, updated: Option<string>, prior: Option<Prior>)

  function Until(p: Prior): string {
    if p.until.Some? then ", until " + p.until.value else ""
  }

  function Arc(val: string, p: Prior): string {
    "- " + val + " (previously: " + Strip(p.value) + Until(p) + ")"
  }

  predicate HasArc(prior: Option<Prior>, arc: bool) {
    arc && prior.Some? && Strip(prior.value.value) != ""
  }

  function FactLine(f: StableFact, arc: bool): string {
    var val := Strip(f.value);
    if HasArc(f.prior, arc) then Arc(val, f.prior.value)
    else if f.updated.Some? then "- " + val + " (updated " + f.updated.value + ")"
    else "- " + val
  }

  function MemoryLine(h: Hit, arc: bool): string {
    var val := Strip(h.content);
    if HasArc(h.prior, arc) then Arc(val, h.prior.value) else "- " + val
  }

  function TurnLine(h: Hit): string {
    var snippet := Trim(Replace(Strip(h.content), '\n', ' '), 160);
    if h.date.Some? then "- [" + h.date.value + "] " + snippet else "- " + snippet
  }

  datatype Citation = Citation(turn: Uuid, score: real, snippet: string)

  function FactCitations(f: StableFact, line: string): seq<Citation> {
    if f.sourceTurn.None? then []
    else [Citation(f.sourceTurn.value, f.confidence, if "- " <= line then line[2..] else line)]
  }

  function HitCitation(h: Hit): Citation {
    var turn := if h.kind == TurnHit then h.id else if h.sourceTurn.Some? then h.sourceTurn.value else h.id;
    Citation(turn, h.score, Strip(h.content))
  }

  // ---------------------------------------------------------------- how many lines fit

  function CostSum(lines: seq<string>): nat {
    if lines == [] then 0 else CostSum(lines[..|lines| - 1]) + Cost(lines[|lines| - 1])
  }

  /**
   * The test a loop makes for its n-th line. In tier 1 earlier lines count once; `_fit_lines` counts
   * them twice, through `used` and through `per_item_used`.
   */
  predicate Fits(header: string, lines: seq<string>, n: nat, room: int, times: nat)
    requires n <= |lines|
  {
    n == 0 || Cost(header) + times * CostSum(lines[..n - 1]) + Cost(lines[n - 1]) <= room
  }

  /** Nothing after the first line that does not fit is shown. */
  function Shown(header: string, lines: seq<string>, from: nat, room: int, times: nat): (n: nat)
    requires from <= |lines|
    ensures from <= n <= |lines|
    decreases |lines| - from
  {
    if from < |lines| && Fits(header, lines, from + 1, room, times) then Shown(header, lines, from + 1, room, times)
    else from
  }

  lemma {:induction false} FitsLess(header: string, lines: seq<string>, m: nat, n: nat, room: int, times: nat)
    requires m <= n <= |lines| && Fits(header, lines, n, room, times) && times >= 1
    ensures Fits(header, lines, m, room, times)
    decreases n
  {
    if m < n {
      if n >= 2 {
        var p := lines[..n - 1];
        assert p[..n - 2] == lines[..n - 2];
        assert CostSum(p) == CostSum(lines[..n - 2]) + Cost(lines[n - 2]);
        assert times * CostSum(p) >= times * CostSum(lines[..n - 2]) + Cost(lines[n - 2]) by {
          Distribute(times, CostSum(lines[..n - 2]), Cost(lines[n - 2]));
        }
      }
      FitsLess(header, lines, m, n - 1, room, times);
    }
  }

  lemma Distribute(t: nat, a: nat, b: nat)
    requires t >= 1
    ensures t * (a + b) >= t * a + b
  {
  }

  lemma {:induction false} ShownMeaning(header: string, lines: seq<string>, from: nat, room: int, times: nat)
    requires from <= |lines| && Fits(header, lines, from, room, times) && times >= 1
    ensures var n := Shown(header, lines, from, room, times);
      forall m | 0 <= m <= |lines| :: Fits(header, lines, m, room, times) <==> m <= n
    decreases |lines| - from
  {
    if from < |lines| && Fits(header, lines, from + 1, room, times) {
      ShownMeaning(header, lines, from + 1, room, times);
    } else {
      forall m | 0 <= m <= |lines| ensures Fits(header, lines, m, room, times) <==> m <= from {
        if m <= from {
          FitsLess(header, lines, m, from, room, times);
        } else if Fits(header, lines, m, room, times) {
          FitsLess(header, lines, from + 1, m, room, times);
        }
      }
    }
  }

  /** Exactly the longest prefix whose last line passes the test is shown. */
  lemma LongestPrefix(header: string, lines: seq<string>, room: int, times: nat)
    requires times >= 1
    ensures var n := Shown(header, lines, 0, room, times);
      forall m | 0 <= m <= |lines| :: Fits(header, lines, m, room, times) <==> m <= n
  {
    ShownMeaning(header, lines, 0, room, times);
  }

  /** What a tier adds to the tokens used. */
  function Spent(header: string, lines: seq<string>, n: nat): nat
    requires n <= |lines|
  {
    if n == 0 then 0 else Cost(header) + CostSum(lines[..n])
  }

  /** A tier never spends more than its room. */
  lemma SpentWithinRoom(header: string, lines: seq<string>, room: int, times: nat)
    requires times >= 1
    ensures var n := Shown(header, lines, 0, room, times); n > 0 ==> Spent(header, lines, n) <= room
  {
    LongestPrefix(header, lines, room, times);
    var n := Shown(header, lines, 0, room, times);
    if n > 0 {
      CostSumMore(lines, n - 1);
      assert Fits(header, lines, n, room, times);
      assert times * CostSum(lines[..n - 1]) >= CostSum(lines[..n - 1]) by {
        Distribute(times, 0, CostSum(lines[..n - 1]));
      }
    }
  }

  lemma CostSumMore(lines: seq<string>, i: nat)
    requires i < |lines|
    ensures CostSum(lines[..i + 1]) == CostSum(lines[..i]) + Cost(lines[i])
  {
    assert lines[..i + 1][..i] == lines[..i];
  }

  function Section(header: string, lines: seq<string>): string {
    header + Join(lines, "\n")
  }

  lemma {:induction false} JoinLength(lines: seq<string>, sep: string)
    ensures |lines| > 0 ==> |Join(lines, sep)| == Lengths(lines) + (|lines| - 1) * |sep|
  {
    if |lines| > 1 {
      JoinLength(lines[1..], sep);
      assert (|lines| - 1) * |sep| == (|lines| - 2) * |sep| + |sep|;
    }
  }

  function Lengths(lines: seq<string>): nat {
    if lines == [] then 0 else |lines[0]| + Lengths(lines[1..])
  }

  // ---------------------------------------------------------------- the three tiers

  const FACTS := "## Known facts about this user\n"
  const MEMORIES := "## Relevant memories\n"
  const TURNS := "## From recent conversations\n"

  function Min(a: int, b: int): int {
    if a <= b then a else b
  }

  function FactLines(facts: seq<StableFact>, arc: bool): seq<string> {
    seq(|facts|, i requires 0 <= i < |facts| => FactLine(facts[i], arc))
  }

  function MemoryLines(hits: seq<Hit>, arc: bool): seq<string> {
    seq(|hits|, i requires 0 <= i < |hits| => MemoryLine(hits[i], arc))
  }

  function TurnLines(hits: seq<Hit>): seq<string> {
    seq(|hits|, i requires 0 <= i < |hits| => TurnLine(hits[i]))
  }

  predicate Repeats(facts: seq<StableFact>, h: Hit) {
    exists i :: 0 <= i < |facts| && Strip(facts[i].value) == Strip(h.content)
  }

  /** Memory hits whose text is not that of a stable fact. */
  function Fresh(facts: seq<StableFact>, hits: seq<Hit>): seq<Hit> {
    if hits == [] then []
    else
      var n := |hits| - 1;
      if Repeats(facts, hits[n]) then Fresh(facts, hits[..n]) else Fresh(facts, hits[..n]) + [hits[n]]
  }

  function Kept(facts: seq<StableFact>, hits: seq<Hit>, gate: Gate): seq<Hit> {
    if gate.tier1 then Fresh(facts, hits) else hits
  }

  function FactCitationsOf(facts: seq<StableFact>, lines: seq<string>, n: nat): seq<Citation>
    requires n <= |facts| == |lines|
  {
    if n == 0 then [] else FactCitationsOf(facts, lines, n - 1) + FactCitations(facts[n - 1], lines[n - 1])
  }

  function HitCitationsOf(hits: seq<Hit>, n: nat): seq<Citation>
    requires n <= |hits|
  {
    seq(n, i requires 0 <= i < n => HitCitation(hits[i]))
  }

  /** The lines a tier shows if it is open. */
  function TierSize(open: bool, header: string, lines: seq<string>, room: int, times: nat): (n: nat)
    ensures n <= |lines|
  {
    if open then Shown(header, lines, 0, room, times) else 0
  }

  /** How many lines each tier shows. */
  datatype Plan = Plan(facts: nat, memories: nat, turns: nat)

  function PlanLines(l1: seq<string>, l2: seq<string>, l3: seq<string>, gate: Gate, maxTokens: int): (p: Plan)
    ensures p.facts <= |l1| && p.memories <= |l2| && p.turns <= |l3|
  {
    var n1 := TierSize(gate.tier1, FACTS, l1, Min(TierCap(maxTokens), maxTokens), 1);
    var used1 := Spent(FACTS, l1, n1);
    var n2 := TierSize(gate.tier2, MEMORIES, l2, Min(TierCap(maxTokens), maxTokens - used1), 2);
    var used2 := used1 + Spent(MEMORIES, l2, n2);
    var n3 := TierSize(gate.tier2, TURNS, l3, maxTokens - used2, 2);
    Plan(n1, n2, n3)
  }

  function PlanOf(facts: seq<StableFact>, memories: seq<Hit>, turns: seq<Hit>, gate: Gate, maxTokens: int, arc: bool)
    : (p: Plan)
    ensures p.facts <= |facts| && p.memories <= |Kept(facts, memories, gate)| && p.turns <= |turns|
  {
    PlanLines(FactLines(facts, arc), MemoryLines(Kept(facts, memories, gate), arc), TurnLines(turns), gate, maxTokens)
  }

  function SectionOf(header: string, lines: seq<string>, n: nat): seq<string>
    requires n <= |lines|
  {
    if n == 0 then [] else [Section(header, lines[..n])]
  }

  function Sections(l1: seq<string>, l2: seq<string>, l3: seq<string>, p: Plan): seq<string>
    requires p.facts <= |l1| && p.memories <= |l2| && p.turns <= |l3|
  {
    SectionOf(FACTS, l1, p.facts) + SectionOf(MEMORIES, l2, p.memories) + SectionOf(TURNS, l3, p.turns)
  }

  function ContextText(
    facts: seq<StableFact>, memories: seq<Hit>, turns: seq<Hit>, gate: Gate, maxTokens: int, arc: bool): string
  {
    var p := PlanOf(facts, memories, turns, gate, maxTokens, arc);
    Join(Sections(FactLines(facts, arc), MemoryLines(Kept(facts, memories, gate), arc), TurnLines(turns), p), "\n\n")
  }

  function CitationsOf(
    facts: seq<StableFact>, memories: seq<Hit>, turns: seq<Hit>, gate: Gate, maxTokens: int, arc: bool): seq<Citation>
  {
    var p := PlanOf(facts, memories, turns, gate, maxTokens, arc);
    FactCitationsOf(facts, FactLines(facts, arc), p.facts)
    + HitCitationsOf(Kept(facts, memories, gate), p.memories) + HitCitationsOf(turns, p.turns)
  }

  // ---------------------------------------------------------------- the loops

  /** `_fit_lines`, with the variables it shares with `assemble` passed in and out. */
  method FitLines(header: string, lines: seq<string>, hits: seq<Hit>, softCap: int, maxTokens: int, used0: int)
    returns (used: int, section: seq<string>, citations: seq<Citation>)
    requires |lines| == |hits|
    ensures var n := Shown(header, lines, 0, Min(softCap, maxTokens - used0), 2);
      && used == used0 + Spent(header, lines, n)
      && section == SectionOf(header, lines, n) && citations == HitCitationsOf(hits, n)
  {
    var cap := Min(used0 + softCap, maxTokens);
    ghost var room := Min(softCap, maxTokens - used0);
    var perItem := 0;
    var local: seq<string> := [];
    used, section, citations := used0, [], [];
    var i := 0;
    while i < |lines|
      invariant i <= |lines|
      invariant local == lines[..i] && perItem == CostSum(lines[..i])
      invariant used == used0 + Spent(header, lines, i)
      invariant Shown(header, lines, 0, room, 2) == Shown(header, lines, i, room, 2)
      invariant citations == HitCitationsOf(hits, i)
    {
      var overhead := if i == 0 && local == [] then Cost(header) else 0;
      CostSumMore(lines, i);
      if used + overhead + perItem + Cost(lines[i]) > cap {
        break;
      }
      local := local + [lines[i]];
      perItem := perItem + Cost(lines[i]);
      used := used + Cost(lines[i]) + overhead;
      citations := citations + [HitCitation(hits[i])];
      i := i + 1;
    }
    if local != [] {
      section := [header + Join(local, "\n")];
    }
  }

  /** The loop of tier 1. */
  method FitFacts(header: string, lines: seq<string>, facts: seq<StableFact>, cap: int)
    returns (used: int, section: seq<string>, citations: seq<Citation>)
    requires |lines| == |facts|
    ensures var n := Shown(header, lines, 0, cap, 1);
      && used == Spent(header, lines, n)
      && section == SectionOf(header, lines, n) && citations == FactCitationsOf(facts, lines, n)
  {
    var local: seq<string> := [];
    used, section, citations := 0, [], [];
    var i := 0;
    while i < |lines|
      invariant i <= |lines|
      invariant local == lines[..i]
      invariant used == Spent(header, lines, i)
      invariant Shown(header, lines, 0, cap, 1) == Shown(header, lines, i, cap, 1)
      invariant citations == FactCitationsOf(facts, lines, i)
    {
      var overhead := if local == [] then Cost(header) else 0;
      CostSumMore(lines, i);
      if used + overhead + Cost(lines[i]) > cap {
        break;
      }
      local := local + [lines[i]];
      used := used + Cost(lines[i]) + overhead;
      citations := citations + FactCitations(facts[i], lines[i]);
      i := i + 1;
    }
    if local != [] {
      section := [header + Join(local, "\n")];
    }
  }

  /** The loop that drops hits already shown as facts. */
  method DropRepeats(facts: seq<StableFact>, hits: seq<Hit>) returns (kept: seq<Hit>)
    ensures kept == Fresh(facts, hits)
  {
    kept := [];
    for i := 0 to |hits|
      invariant kept == Fresh(facts, hits[..i])
    {
      assert hits[..i + 1][..i] == hits[..i];
      if !Repeats(facts, hits[i]) {
        kept := kept + [hits[i]];
      }
    }
    assert hits[..|hits|] == hits;
  }

  /** A tier of hits: nothing if it is closed or has no items. */
  method FitTier(open: bool, header: string, lines: seq<string>, hits: seq<Hit>, softCap: int, maxTokens: int,
                 used0: int)
    returns (used: int, section: seq<string>, citations: seq<Citation>)
    requires |lines| == |hits|
    ensures var n := TierSize(open, header, lines, Min(softCap, maxTokens - used0), 2);
      && used == used0 + Spent(header, lines, n)
      && section == SectionOf(header, lines, n) && citations == HitCitationsOf(hits, n)
  {
    if open && hits != [] {
      used, section, citations := FitLines(header, lines, hits, softCap, maxTokens, used0);
    } else {
      used, section, citations := used0, [], [];
    }
  }

  /** The first tier: nothing if it is closed or there are no facts. */
  method FitFirst(open: bool, header: string, lines: seq<string>, facts: seq<StableFact>, cap: int)
    returns (used: int, section: seq<string>, citations: seq<Citation>)
    requires |lines| == |facts|
    ensures var n := TierSize(open, header, lines, cap, 1);
      && used == Spent(header, lines, n)
      && section == SectionOf(header, lines, n) && citations == FactCitationsOf(facts, lines, n)
  {
    if open && facts != [] {
      used, section, citations := FitFacts(header, lines, facts, cap);
    } else {
      used, section, citations := 0, [], [];
    }
  }

  method AssembleTiers(l1: seq<string>, l2: seq<string>, l3: seq<string>, facts: seq<StableFact>, kept: seq<Hit>,
                       turns: seq<Hit>, gate: Gate, maxTokens: int)
    returns (sections: seq<string>, citations: seq<Citation>)
    requires |l1| == |facts| && |l2| == |kept| && |l3| == |turns|
    ensures var p := PlanLines(l1, l2, l3, gate, maxTokens);
      && sections == Sections(l1, l2, l3, p)
      && citations == FactCitationsOf(facts, l1, p.facts)
                      + HitCitationsOf(kept, p.memories) + HitCitationsOf(turns, p.turns)
  {
    hide Shown, Spent, SectionOf, FactCitationsOf, HitCitationsOf;
    var used1, section1, citations1 := FitFirst(gate.tier1, FACTS, l1, facts, Min(TierCap(maxTokens), maxTokens));
    var used2, section2, citations2 :=
      FitTier(gate.tier2, MEMORIES, l2, kept, TierCap(maxTokens), maxTokens, used1);
    var remaining := if maxTokens - used2 >= 0 then maxTokens - used2 else 0;
    var used3, section3, citations3 := FitTier(gate.tier2, TURNS, l3, turns, remaining, maxTokens, used2);
    sections := section1 + section2 + section3;
    citations := citations1 + citations2 + citations3;
  }

  /** `assemble`. */
  method Assemble(facts: seq<StableFact>, memories: seq<Hit>, turns: seq<Hit>, gate: Gate, maxTokens: int, arc: bool)
    returns (context: string, citations: seq<Citation>)
    ensures context == ContextText(facts, memories, turns, gate, maxTokens, arc)
    ensures citations == CitationsOf(facts, memories, turns, gate, maxTokens, arc)
  {
    var kept := memories;
    if gate.tier1 {
      kept := DropRepeats(facts, memories);
    }
    var sections;
    sections, citations :=
      AssembleTiers(FactLines(facts, arc), MemoryLines(kept, arc), TurnLines(turns),
                    facts, kept, turns, gate, maxTokens);
    context := Join(sections, "\n\n");
  }
}
