/** What the assembled context promises: its length, its budgets, its citations. */
module Budget {
  import opened Text
  import opened Fusion
  import opened Ranking
  import opened Assembler

  // ---------------------------------------------------------------- characters per token

  lemma LineLength(s: string)
    ensures |s| + 1 <= 4 * Cost(s)
  {
  }

  lemma {:induction false} LengthsMore(lines: seq<string>, x: string)
    ensures Lengths(lines + [x]) == Lengths(lines) + |x|
  {
    if lines == [] {
      assert [] + [x] == [x];
      assert [x][1..] == [];
    } else {
      assert (lines + [x])[1..] == lines[1..] + [x];
      LengthsMore(lines[1..], x);
    }
  }

  lemma {:induction false} LinesLength(lines: seq<string>)
    ensures Lengths(lines) + |lines| <= 4 * CostSum(lines)
  {
    if lines != [] {
      var n := |lines| - 1;
      LinesLength(lines[..n]);
      LengthsMore(lines[..n], lines[n]);
      assert lines == lines[..n] + [lines[n]];
      LineLength(lines[n]);
    }
  }

  lemma SectionLength(header: string, lines: seq<string>, n: nat)
    requires 0 < n <= |lines|
    ensures |Section(header, lines[..n])| + 2 <= 4 * Spent(header, lines, n)
  {
    LineLength(header);
    LinesLength(lines[..n]);
    JoinLength(lines[..n], "\n");
  }

  /** One if the tier shows something. */
  function Has(n: nat): nat {
    if n > 0 then 1 else 0
  }

  lemma SectionOfLength(header: string, lines: seq<string>, n: nat)
    requires n <= |lines|
    ensures |SectionOf(header, lines, n)| == Has(n)
    ensures Lengths(SectionOf(header, lines, n)) + 2 * Has(n) <= 4 * Spent(header, lines, n)
    ensures 2 * Has(n) <= Spent(header, lines, n)
  {
    if n > 0 {
      SectionLength(header, lines, n);
      assert [Section(header, lines[..n])][1..] == [];
    }
  }

  lemma {:induction false} LengthsSplit(a: seq<string>, b: seq<string>)
    ensures Lengths(a + b) == Lengths(a) + Lengths(b)
  {
    if a == [] {
      assert a + b == b;
    } else {
      assert (a + b)[1..] == a[1..] + b;
      LengthsSplit(a[1..], b);
    }
  }

  /** Tokens accounted for over all tiers. */
  function TotalSpent(l1: seq<string>, l2: seq<string>, l3: seq<string>, p: Plan): nat
    requires p.facts <= |l1| && p.memories <= |l2| && p.turns <= |l3|
  {
    Spent(FACTS, l1, p.facts) + Spent(MEMORIES, l2, p.memories) + Spent(TURNS, l3, p.turns)
  }

  lemma SectionsLength(l1: seq<string>, l2: seq<string>, l3: seq<string>, p: Plan)
    requires p.facts <= |l1| && p.memories <= |l2| && p.turns <= |l3|
    ensures var sections := Sections(l1, l2, l3, p);
      && |sections| == Has(p.facts) + Has(p.memories) + Has(p.turns)
      && Lengths(sections) + 2 * |sections| <= 4 * TotalSpent(l1, l2, l3, p)
      && 2 * |sections| <= TotalSpent(l1, l2, l3, p)
  {
    var s1, s2, s3 := SectionOf(FACTS, l1, p.facts), SectionOf(MEMORIES, l2, p.memories), SectionOf(TURNS, l3, p.turns);
    SectionOfLength(FACTS, l1, p.facts);
    SectionOfLength(MEMORIES, l2, p.memories);
    SectionOfLength(TURNS, l3, p.turns);
    LengthsSplit(s1 + s2, s3);
    LengthsSplit(s1, s2);
  }

  /** A closed or empty tier spends nothing; an open one stays within its room. */
  lemma TierWithinRoom(open: bool, header: string, lines: seq<string>, room: int, times: nat)
    requires times >= 1
    ensures var n := TierSize(open, header, lines, room, times);
      if n == 0 then Spent(header, lines, n) == 0 else Spent(header, lines, n) <= room
  {
    SpentWithinRoom(header, lines, room, times);
  }

  /** Each of the first two tiers stays within its cap, and all three together within the budget. */
  lemma PlanWithinBudget(l1: seq<string>, l2: seq<string>, l3: seq<string>, gate: Gate, maxTokens: int)
    ensures var p := PlanLines(l1, l2, l3, gate, maxTokens);
      && (p.facts > 0 ==> Spent(FACTS, l1, p.facts) <= TierCap(maxTokens))
      && (p.memories > 0 ==> Spent(MEMORIES, l2, p.memories) <= TierCap(maxTokens))
      && (p.facts + p.memories + p.turns > 0 ==> TotalSpent(l1, l2, l3, p) <= maxTokens)
  {
    var p := PlanLines(l1, l2, l3, gate, maxTokens);
    var used1 := Spent(FACTS, l1, p.facts);
    var used2 := used1 + Spent(MEMORIES, l2, p.memories);
    TierWithinRoom(gate.tier1, FACTS, l1, Min(TierCap(maxTokens), maxTokens), 1);
    TierWithinRoom(gate.tier2, MEMORIES, l2, Min(TierCap(maxTokens), maxTokens - used1), 2);
    TierWithinRoom(gate.tier2, TURNS, l3, maxTokens - used2, 2);
  }

  /** In numbers: facts and memories each take at most two fifths of the budget. */
  lemma TwoFifthsEach(l1: seq<string>, l2: seq<string>, l3: seq<string>, gate: Gate, maxTokens: int)
    ensures var p := PlanLines(l1, l2, l3, gate, maxTokens);
      && 5 * Spent(FACTS, l1, p.facts) <= 2 * (if maxTokens >= 0 then maxTokens else 0)
      && 5 * Spent(MEMORIES, l2, p.memories) <= 2 * (if maxTokens >= 0 then maxTokens else 0)
  {
    hide PlanLines;
    PlanWithinBudget(l1, l2, l3, gate, maxTokens);
  }

  /**
   * The hard bound: whatever the inputs, a non-empty context has at most `4 * maxTokens - 2` characters,
   * headers and separators included, so its own token count is below the budget.
   */
  lemma ContextBound(facts: seq<StableFact>, memories: seq<Hit>, turns: seq<Hit>, gate: Gate, maxTokens: int, arc: bool)
    ensures var context := ContextText(facts, memories, turns, gate, maxTokens, arc);
      context != "" ==> |context| <= 4 * maxTokens - 2 && Tokens(context) < maxTokens
  {
    hide Shown, Spent, SectionOf, FactLine, MemoryLine, TurnLine, PlanLines, Sections;
    var l1, l2, l3 := FactLines(facts, arc), MemoryLines(Kept(facts, memories, gate), arc), TurnLines(turns);
    var p := PlanLines(l1, l2, l3, gate, maxTokens);
    var sections := Sections(l1, l2, l3, p);
    SectionsLength(l1, l2, l3, p);
    PlanWithinBudget(l1, l2, l3, gate, maxTokens);
    JoinLength(sections, "\n\n");
  }

  /** `n` is the length of the longest prefix whose last line passes the test. */
  predicate IsLongest(header: string, lines: seq<string>, room: int, times: nat, n: nat) {
    forall m | 0 <= m <= |lines| :: Fits(header, lines, m, room, times) <==> m <= n
  }

  /**
   * Tier 1 shows the longest prefix that fits when every line counts once,
   * the others when earlier lines count twice.
   */
  lemma TiersAreLongest(l1: seq<string>, l2: seq<string>, l3: seq<string>, gate: Gate, maxTokens: int)
    ensures var p := PlanLines(l1, l2, l3, gate, maxTokens);
      var used1 := Spent(FACTS, l1, p.facts);
      var used2 := used1 + Spent(MEMORIES, l2, p.memories);
      && (gate.tier1 ==> IsLongest(FACTS, l1, Min(TierCap(maxTokens), maxTokens), 1, p.facts))
      && (gate.tier2 ==> IsLongest(MEMORIES, l2, Min(TierCap(maxTokens), maxTokens - used1), 2, p.memories))
      && (gate.tier2 ==> IsLongest(TURNS, l3, maxTokens - used2, 2, p.turns))
  {
    hide Fits, Shown, Spent;
    var p := PlanLines(l1, l2, l3, gate, maxTokens);
    var used1 := Spent(FACTS, l1, p.facts);
    var used2 := used1 + Spent(MEMORIES, l2, p.memories);
    LongestPrefix(FACTS, l1, Min(TierCap(maxTokens), maxTokens), 1);
    LongestPrefix(MEMORIES, l2, Min(TierCap(maxTokens), maxTokens - used1), 2);
    LongestPrefix(TURNS, l3, maxTokens - used2, 2);
  }

  /**
   * Counting earlier lines twice shows no more lines than counting them once, and
   * as many exactly if the last one still fits.
   */
  lemma DoubleCountingStopsIff(header: string, lines: seq<string>, room: int)
    ensures var once, twice := Shown(header, lines, 0, room, 1), Shown(header, lines, 0, room, 2);
      && twice <= once
      && (twice == once <==> Fits(header, lines, once, room, 2))
  {
    var once, twice := Shown(header, lines, 0, room, 1), Shown(header, lines, 0, room, 2);
    LongestPrefix(header, lines, room, 1);
    LongestPrefix(header, lines, room, 2);
    assert Fits(header, lines, twice, room, 2);
    assert Fits(header, lines, twice, room, 1);
  }

  /** And it does stop early: of three short lines that fit, two are shown. */
  lemma DoubleCountingStopsEarly(lines: seq<string>)
    requires lines == ["- a", "- b", "- c"]
    ensures Shown(MEMORIES, lines, 0, 12, 1) == 3 && Shown(MEMORIES, lines, 0, 12, 2) == 2
  {
    LongestPrefix(MEMORIES, lines, 12, 1);
    LongestPrefix(MEMORIES, lines, 12, 2);
    CostSumMore(lines, 0);
    CostSumMore(lines, 1);
    assert CostSum(lines[..0]) == 0 && CostSum(lines[..1]) == 2 && CostSum(lines[..2]) == 4;
    assert Cost(MEMORIES) == 6 && Cost(lines[1]) == 2 && Cost(lines[2]) == 2;
    assert Fits(MEMORIES, lines, 3, 12, 1);
    assert Fits(MEMORIES, lines, 2, 12, 2);
    assert !Fits(MEMORIES, lines, 3, 12, 2);
  }

  // ---------------------------------------------------------------- when anything is shown

  /** A heading of cost `h` and the line, at four characters to a token, are within `n / d` tokens. */
  predicate FirstFits(h: nat, line: string, n: int, d: nat) {
    d * (h + (if |line| < 4 then 1 else |line| / 4) + 1) <= n
  }

  lemma ShownSome(header: string, lines: seq<string>, room: int, times: nat)
    ensures Shown(header, lines, 0, room, times) > 0 <==> lines != [] && Cost(header) + Cost(lines[0]) <= room
  {
    if lines != [] {
      assert CostSum(lines[..0]) == 0 && times * CostSum(lines[..0]) == 0;
    }
  }

  lemma TwoFifths(x: nat, maxTokens: int)
    ensures x > 0 ==> (x <= Min(TierCap(maxTokens), maxTokens) <==> 5 * x <= 2 * maxTokens)
  {
  }

  lemma HeaderCosts()
    ensures Cost(FACTS) == 8 && Cost(MEMORIES) == 6 && Cost(TURNS) == 8
  {
  }

  /** The context says something if and only if a tier shows a line. */
  lemma SilentIff(l1: seq<string>, l2: seq<string>, l3: seq<string>, p: Plan)
    requires p.facts <= |l1| && p.memories <= |l2| && p.turns <= |l3|
    ensures Join(Sections(l1, l2, l3, p), "\n\n") == "" <==> p.facts + p.memories + p.turns == 0
  {
    hide Spent;
    var sections := Sections(l1, l2, l3, p);
    if sections != [] {
      assert |sections[0]| > 0;
    }
  }

  /**
   * When the context is empty, in numbers: if and only if each tier is closed, has nothing to show, or its
   * first line does not fit with the heading, into two fifths of the budget for facts and memories and into
   * the whole of it for turns.
   */
  lemma EmptyIff(facts: seq<StableFact>, memories: seq<Hit>, turns: seq<Hit>, gate: Gate, maxTokens: int, arc: bool)
    ensures var kept := Kept(facts, memories, gate);
      ContextText(facts, memories, turns, gate, maxTokens, arc) == "" <==>
        && !(gate.tier1 && facts != [] && FirstFits(8, FactLine(facts[0], arc), 2 * maxTokens, 5))
        && !(gate.tier2 && kept != [] && FirstFits(6, MemoryLine(kept[0], arc), 2 * maxTokens, 5))
        && !(gate.tier2 && turns != [] && FirstFits(8, TurnLine(turns[0]), maxTokens, 1))
  {
    hide Shown, Spent, FactLine, MemoryLine, TurnLine, Kept, Sections;
    var kept := Kept(facts, memories, gate);
    PlanEmptyIff(FactLines(facts, arc), MemoryLines(kept, arc), TurnLines(turns), gate, maxTokens);
    SilentIff(FactLines(facts, arc), MemoryLines(kept, arc), TurnLines(turns),
              PlanOf(facts, memories, turns, gate, maxTokens, arc));
  }

  lemma PlanEmptyIff(l1: seq<string>, l2: seq<string>, l3: seq<string>, gate: Gate, maxTokens: int)
    ensures var p := PlanLines(l1, l2, l3, gate, maxTokens);
      p.facts + p.memories + p.turns == 0 <==>
        && !(gate.tier1 && l1 != [] && FirstFits(8, l1[0], 2 * maxTokens, 5))
        && !(gate.tier2 && l2 != [] && FirstFits(6, l2[0], 2 * maxTokens, 5))
        && !(gate.tier2 && l3 != [] && FirstFits(8, l3[0], maxTokens, 1))
  {
    hide Shown, TierCap;
    HeaderCosts();
    ShownSome(FACTS, l1, Min(TierCap(maxTokens), maxTokens), 1);
    ShownSome(MEMORIES, l2, Min(TierCap(maxTokens), maxTokens), 2);
    ShownSome(TURNS, l3, maxTokens, 2);
    if l1 != [] {
      TwoFifths(8 + Cost(l1[0]), maxTokens);
    }
    if l2 != [] {
      TwoFifths(6 + Cost(l2[0]), maxTokens);
    }
  }

  // ---------------------------------------------------------------- tier 2 repeats nothing

  lemma {:induction false} FreshMeaning(facts: seq<StableFact>, hits: seq<Hit>)
    ensures forall h :: h in Fresh(facts, hits) <==> h in hits && !Repeats(facts, h)
  {
    if hits != [] {
      FreshMeaning(facts, hits[..|hits| - 1]);
      assert hits == hits[..|hits| - 1] + [hits[|hits| - 1]];
    }
  }

  /** Tier 2 draws on exactly the hits whose text is, if tier 1 is open, no stable fact's value. */
  lemma NoRepeats(facts: seq<StableFact>, hits: seq<Hit>, gate: Gate, h: Hit)
    ensures h in Kept(facts, hits, gate)
      <==> h in hits && (gate.tier1 ==> forall i | 0 <= i < |facts| :: Strip(facts[i].value) != Strip(h.content))
  {
    FreshMeaning(facts, hits);
  }

  /** The first fact whose value is the text of the hit. */
  predicate FirstRepeated(facts: seq<StableFact>, h: Hit, i: nat) {
    && i < |facts| && Strip(facts[i].value) == Strip(h.content)
    && forall j | 0 <= j < i :: Strip(facts[j].value) != Strip(h.content)
  }

  /**
   * A hit is dropped for a fact whether or not that fact is shown. The text of a dropped hit is shown
   * as a fact if and only if the first fact it repeats still fits tier 1.
   */
  lemma DroppedIsShownIff(
    facts: seq<StableFact>, memories: seq<Hit>, turns: seq<Hit>, gate: Gate, maxTokens: int, arc: bool, h: Hit, i: nat)
    requires gate.tier1 && FirstRepeated(facts, h, i)
    ensures h !in Kept(facts, memories, gate)
    ensures (exists j :: 0 <= j < PlanOf(facts, memories, turns, gate, maxTokens, arc).facts
                && Strip(facts[j].value) == Strip(h.content))
      <==> Fits(FACTS, FactLines(facts, arc), i + 1, Min(TierCap(maxTokens), maxTokens), 1)
  {
    hide Shown, Spent, FactLine, MemoryLine, TurnLine, Fits;
    NoRepeats(facts, memories, gate, h);
    LongestPrefix(FACTS, FactLines(facts, arc), Min(TierCap(maxTokens), maxTokens), 1);
    assert (exists j :: 0 <= j < PlanOf(facts, memories, turns, gate, maxTokens, arc).facts
                && Strip(facts[j].value) == Strip(h.content))
      <==> i < PlanOf(facts, memories, turns, gate, maxTokens, arc).facts;
  }

  /**
   * With little room a hit is dropped for a fact that is not shown:
   * nothing is left of a context that would have held it.
   */
  lemma DroppedUnseen(f: StableFact, h: Hit, gate: Gate)
    requires f.value == "x" && f.updated.None? && h.content == "x" && gate == Gate(true, true)
    ensures ContextText([f], [h], [], gate, 20, false) == ""
    ensures ContextText([], [h], [], gate, 20, false) == MEMORIES + "- x"
  {
    StripIsStripped(f.value);
    assert Strip(f.value) == "x" && Strip(h.content) == "x";
    var l1, l2 := FactLines([f], false), MemoryLines([h], false);
    assert FactLine(f, false) == "- " + "x" == "- x";
    assert MemoryLine(h, false) == "- " + "x";
    assert l1 == ["- x"] && l2 == ["- x"];
    assert Cost(FACTS) == 8 && Cost(MEMORIES) == 6 && Cost("- x") == 2 && TierCap(20) == 8;
    NoLine(FACTS, l1, 8, 1);
    OneShown(MEMORIES, l2, 8, 2);
    assert Repeats([f], h) by {
      assert Strip([f][0].value) == Strip(h.content);
    }
    assert Fresh([f], [h]) == [] by {
      assert [h][..0] == [];
    }
    assert Fresh([], [h]) == [h] by {
      assert [h][..0] == [];
    }
    assert l2[..1] == l2;
  }

  lemma NoLine(header: string, lines: seq<string>, room: int, times: nat)
    requires |lines| == 1 && Cost(header) + Cost(lines[0]) > room
    ensures Shown(header, lines, 0, room, times) == 0
  {
    assert lines[..0] == [];
  }

  lemma OneShown(header: string, lines: seq<string>, room: int, times: nat)
    requires |lines| == 1 && Cost(header) + Cost(lines[0]) <= room
    ensures Shown(header, lines, 0, room, times) == 1
  {
    assert lines[..0] == [];
  }

  // ---------------------------------------------------------------- citations

  lemma {:induction false} FactCitationsOne(facts: seq<StableFact>, lines: seq<string>, n: nat)
    requires n <= |facts| == |lines| && forall i | 0 <= i < n :: facts[i].sourceTurn.Some?
    ensures |FactCitationsOf(facts, lines, n)| == n
    ensures forall i | 0 <= i < n :: FactCitationsOf(facts, lines, n)[i].turn == facts[i].sourceTurn.value
  {
    if n > 0 {
      FactCitationsOne(facts, lines, n - 1);
    }
  }

  /** If every fact has a source turn, there is one citation for each line shown, in the order of the lines. */
  lemma OneCitationPerLine(facts: seq<StableFact>, memories: seq<Hit>, turns: seq<Hit>, gate: Gate, maxTokens: int,
                           arc: bool)
    requires forall f | f in facts :: f.sourceTurn.Some?
    ensures var p := PlanOf(facts, memories, turns, gate, maxTokens, arc);
      var kept := Kept(facts, memories, gate);
      var cs := CitationsOf(facts, memories, turns, gate, maxTokens, arc);
      && |cs| == p.facts + p.memories + p.turns
      && (forall i | 0 <= i < p.facts :: cs[i].turn == facts[i].sourceTurn.value)
      && (forall i | 0 <= i < p.memories :: cs[p.facts + i] == HitCitation(kept[i]))
      && (forall i | 0 <= i < p.turns :: cs[p.facts + p.memories + i] == HitCitation(turns[i]))
  {
    hide PlanLines, Shown, FactCitationsOf, HitCitation, FactLine;
    var p := PlanOf(facts, memories, turns, gate, maxTokens, arc);
    FactCitationsOne(facts, FactLines(facts, arc), p.facts);
  }
}
