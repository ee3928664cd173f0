/** What the context says, line by line, and where in it each line stands. */
module Rendering {
  import opened Tables
  import opened Text
  import opened Fusion
  import opened Ranking
  import opened Assembler

  // ---------------------------------------------------------------- what a line says

  /** What follows the current value: the one it replaced if that is asked for, else when it was updated. */
  function TailOf(prior: Option<Prior>, arc: bool, updated: Option<string>): string {
    if arc && prior.Some? && Strip(prior.value.value) != "" then
      " (previously: " + Strip(prior.value.value)
      + (if prior.value.until == None then "" else ", until " + prior.value.until.value) + ")"
    else if updated.Some? then " (updated " + updated.value + ")"
    else ""
  }

  /** The line begins with the current value. */
  predicate Says(line: string, value: string, prior: Option<Prior>, arc: bool, updated: Option<string>) {
    line == "- " + Strip(value) + TailOf(prior, arc, updated)
  }

  /** The line shows the beginning of what was said, on one line, behind its date. */
  predicate Quotes(line: string, h: Hit) {
    var s, head := Strip(h.content), if h.date == None then "- " else "- [" + h.date.value + "] ";
    && head <= line && |line| == |head| + (if |s| <= 640 then |s| else 640)
    && forall i | |head| <= i < |line| :: line[i] == if s[i - |head|] == '\n' then ' ' else s[i - |head|]
  }

  lemma FactSays(f: StableFact, arc: bool)
    ensures Says(FactLine(f, arc), f.value, f.prior, arc, f.updated)
  {
    hide Strip;
  }

  lemma MemorySays(h: Hit, arc: bool)
    ensures Says(MemoryLine(h, arc), h.content, h.prior, arc, None)
  {
    hide Strip;
  }

  lemma TurnQuotes(h: Hit)
    ensures Quotes(TurnLine(h), h)
  {
    hide Strip;
    var r := Replace(Strip(h.content), '\n', ' ');
    assert |r| == |Strip(h.content)|;
  }

  // ---------------------------------------------------------------- where a line stands

  /** The lines stand in the text at these positions, one after the other and apart. */
  ghost predicate Placed(text: string, lines: seq<string>, at: seq<nat>) {
    && |at| == |lines|
    && (forall n | 0 <= n < |lines| :: at[n] + |lines[n]| <= |text| && text[at[n]..at[n] + |lines[n]|] == lines[n])
    && forall m, n | 0 <= m < n < |lines| :: at[m] + |lines[m]| < at[n]
  }

  function Shift(at: seq<nat>, d: nat): seq<nat> {
    seq(|at|, n requires 0 <= n < |at| => at[n] + d)
  }

  lemma PlacedWithin(a: string, text: string, b: string, lines: seq<string>, at: seq<nat>)
    requires Placed(text, lines, at)
    ensures Placed(a + text + b, lines, Shift(at, |a|))
  {
    var t := a + text + b;
    forall n | 0 <= n < |lines| ensures t[at[n] + |a|..at[n] + |a| + |lines[n]|] == lines[n] {
      assert t[|a|..|a| + |text|] == text;
      assert t[at[n] + |a|..at[n] + |a| + |lines[n]|] == text[at[n]..at[n] + |lines[n]|];
    }
  }

  lemma PlacedBoth(text: string, l1: seq<string>, at1: seq<nat>, l2: seq<string>, at2: seq<nat>, k: nat)
    requires Placed(text, l1, at1) && Placed(text, l2, at2)
    requires forall n | 0 <= n < |l1| :: at1[n] + |l1[n]| < k
    requires forall n | 0 <= n < |l2| :: k <= at2[n]
    ensures Placed(text, l1 + l2, at1 + at2)
  {
    var ls, at, c := l1 + l2, at1 + at2, |l1|;
    assert forall n | c <= n < |ls| :: ls[n] == l2[n - c] && at[n] == at2[n - c];
    forall m, n | 0 <= m < n < |ls| ensures at[m] + |ls[m]| < at[n] {
      if n < c {
        assert at1[m] + |l1[m]| < at1[n];
      } else if m >= c {
        assert at2[m - c] + |l2[m - c]| < at2[n - c];
      }
    }
  }

  lemma NonePlaced(text: string)
    ensures Placed(text, [], [])
  {
  }

  lemma {:induction false} PlacedJoined(lines: seq<string>, sep: string) returns (at: seq<nat>)
    requires sep != ""
    ensures Placed(Join(lines, sep), lines, at)
  {
    hide Placed;
    if lines == [] {
      at := [];
      NonePlaced(Join(lines, sep));
      return;
    }
    var rest := PlacedJoined(lines[1..], sep);
    assert [lines[0]] + lines[1..] == lines;
    if |lines| == 1 {
      at := [0];
      PlacedFirst(lines[0], "");
      assert lines[0] + "" == Join(lines, sep) && [lines[0]] == lines;
    } else {
      at := PlacedBefore(lines[0], sep, Join(lines[1..], sep), lines[1..], rest);
    }
  }

  /** A line and a separator in front of the others. */
  lemma PlacedBefore(line: string, sep: string, text: string, lines: seq<string>, rest: seq<nat>) returns (at: seq<nat>)
    requires sep != "" && Placed(text, lines, rest)
    ensures Placed(line + sep + text, [line] + lines, at)
  {
    var a := line + sep;
    PlacedWithin(a, text, "", lines, rest);
    assert a + text + "" == line + sep + text;
    PlacedFirst(line, sep + text);
    assert line + (sep + text) == line + sep + text;
    at := [0] + Shift(rest, |a|);
    PlacedBoth(line + sep + text, [line], [0], lines, Shift(rest, |a|), |a|);
  }

  lemma PlacedFirst(a: string, b: string)
    ensures Placed(a + b, [a], [0])
  {
  }

  /** A heading and the lines under it. */
  datatype Block = Block(header: string, lines: seq<string>)

  function Texts(bs: seq<Block>): seq<string> {
    seq(|bs|, i requires 0 <= i < |bs| => bs[i].header + Join(bs[i].lines, "\n"))
  }

  function AllLines(bs: seq<Block>): seq<string> {
    if bs == [] then [] else bs[0].lines + AllLines(bs[1..])
  }

  lemma {:induction false} PlacedBlocks(bs: seq<Block>) returns (at: seq<nat>)
    ensures Placed(Join(Texts(bs), "\n\n"), AllLines(bs), at)
  {
    hide Placed;
    if bs == [] {
      at := [];
      NonePlaced(Join(Texts(bs), "\n\n"));
      return;
    }
    var h, ls := bs[0].header, bs[0].lines;
    var first := h + Join(ls, "\n");
    var inner := PlacedJoined(ls, "\n");
    var rest := PlacedBlocks(bs[1..]);
    var more := Join(Texts(bs[1..]), "\n\n");
    assert Texts(bs)[1..] == Texts(bs[1..]);
    if |bs| == 1 {
      PlacedWithin(h, Join(ls, "\n"), "", ls, inner);
      assert h + Join(ls, "\n") + "" == Join(Texts(bs), "\n\n");
      assert AllLines(bs[1..]) == [] && ls + [] == ls;
      at := Shift(inner, |h|);
    } else {
      assert first + "\n\n" + more == Join(Texts(bs), "\n\n");
      at := PlacedTwo(h, ls, inner, more, AllLines(bs[1..]), rest);
    }
  }

  lemma PlacedTwo(h: string, ls: seq<string>, inner: seq<nat>, more: string, lines: seq<string>, rest: seq<nat>)
    returns (at: seq<nat>)
    requires Placed(Join(ls, "\n"), ls, inner) && Placed(more, lines, rest)
    ensures Placed(h + Join(ls, "\n") + "\n\n" + more, ls + lines, at)
  {
    var body := Join(ls, "\n");
    var a := h + body + "\n\n";
    PlacedWithin(h, body, "\n\n" + more, ls, inner);
    PlacedWithin(a, more, "", lines, rest);
    var text := h + body + "\n\n" + more;
    assert h + body + ("\n\n" + more) == text && a + more + "" == text;
    at := Shift(inner, |h|) + Shift(rest, |a|);
    PlacedBoth(text, ls, Shift(inner, |h|), lines, Shift(rest, |a|), |a|);
  }

  // ---------------------------------------------------------------- the context

  function BlockOf(header: string, lines: seq<string>): seq<Block> {
    if lines == [] then [] else [Block(header, lines)]
  }

  /** The headings of the three tiers. */
  function Blocks(l1: seq<string>, l2: seq<string>, l3: seq<string>): seq<Block> {
    BlockOf("## Known facts about this user\n", l1) + BlockOf("## Relevant memories\n", l2)
    + BlockOf("## From recent conversations\n", l3)
  }

  lemma LinesOfBlocks(l1: seq<string>, l2: seq<string>, l3: seq<string>)
    ensures AllLines(Blocks(l1, l2, l3)) == l1 + l2 + l3
  {
    LinesOfTwo(BlockOf("## Known facts about this user\n", l1) + BlockOf("## Relevant memories\n", l2),
               BlockOf("## From recent conversations\n", l3));
    LinesOfTwo(BlockOf("## Known facts about this user\n", l1), BlockOf("## Relevant memories\n", l2));
    LinesOfBlock("## Known facts about this user\n", l1);
    LinesOfBlock("## Relevant memories\n", l2);
    LinesOfBlock("## From recent conversations\n", l3);
  }

  lemma LinesOfBlock(header: string, lines: seq<string>)
    ensures AllLines(BlockOf(header, lines)) == lines
  {
    assert lines + [] == lines;
  }

  lemma {:induction false} LinesOfTwo(a: seq<Block>, b: seq<Block>)
    ensures AllLines(a + b) == AllLines(a) + AllLines(b)
  {
    if a == [] {
      assert a + b == b;
    } else {
      assert (a + b)[1..] == a[1..] + b;
      LinesOfTwo(a[1..], b);
    }
  }

  lemma TextsOfBlocks(l1: seq<string>, l2: seq<string>, l3: seq<string>, p: Plan)
    requires p.facts <= |l1| && p.memories <= |l2| && p.turns <= |l3|
    ensures Texts(Blocks(l1[..p.facts], l2[..p.memories], l3[..p.turns])) == Sections(l1, l2, l3, p)
  {
  }

  /** What each citation names: the turn of the fact or memory it stands beside, or that turn itself. */
  predicate Cites(c: Citation, turn: Uuid, score: real, snippet: string) {
    c.turn == turn && c.score == score && c.snippet == snippet
  }

  function TurnOfHit(h: Hit): Uuid {
    if h.kind == MemoryHit && h.sourceTurn.Some? then h.sourceTurn.value else h.id
  }

  lemma {:induction false} FactsCited(facts: seq<StableFact>, lines: seq<string>, n: nat)
    requires n <= |facts| == |lines| && forall i | 0 <= i < n :: facts[i].sourceTurn.Some?
    requires forall i | 0 <= i < n :: "- " <= lines[i]
    ensures |FactCitationsOf(facts, lines, n)| == n
    ensures forall i | 0 <= i < n ::
      Cites(FactCitationsOf(facts, lines, n)[i], facts[i].sourceTurn.value, facts[i].confidence, lines[i][2..])
  {
    if n > 0 {
      FactsCited(facts, lines, n - 1);
    }
  }

  lemma {:induction false} FreshInOrder(facts: seq<StableFact>, hits: seq<Hit>) returns (at: seq<nat>)
    ensures var kept := Fresh(facts, hits);
      && |at| == |kept|
      && (forall i | 0 <= i < |at| :: at[i] < |hits| && hits[at[i]] == kept[i])
      && (forall i, j | 0 <= i < j < |at| :: at[i] < at[j])
      && (forall k | 0 <= k < |hits| :: k in at <==> !Repeats(facts, hits[k]))
  {
    if hits == [] {
      return [];
    }
    var n := |hits| - 1;
    at := FreshInOrder(facts, hits[..n]);
    if !Repeats(facts, hits[n]) {
      at := at + [n];
    }
  }

  /** The hits kept for tier 2 stand in the order in which they came, and each of them is kept that repeats no fact. */
  lemma KeptInOrder(facts: seq<StableFact>, hits: seq<Hit>, gate: Gate) returns (at: seq<nat>)
    ensures var kept := Kept(facts, hits, gate);
      && |at| == |kept|
      && (forall i | 0 <= i < |at| :: at[i] < |hits| && hits[at[i]] == kept[i])
      && (forall i, j | 0 <= i < j < |at| :: at[i] < at[j])
      && (forall k | 0 <= k < |hits| :: k in at <==>
            (gate.tier1 ==> forall i | 0 <= i < |facts| :: Strip(facts[i].value) != Strip(hits[k].content)))
  {
    if gate.tier1 {
      at := FreshInOrder(facts, hits);
    } else {
      at := seq(|hits|, i => i);
      forall k | 0 <= k < |hits| ensures k in at {
        assert at[k] == k;
      }
    }
  }

  /** The lines that are shown, tier by tier. */
  ghost predicate Shows(lines: seq<string>, p: Plan, facts: seq<StableFact>, kept: seq<Hit>, turns: seq<Hit>, arc: bool)
    requires p.facts <= |facts| && p.memories <= |kept| && p.turns <= |turns|
  {
    && |lines| == p.facts + p.memories + p.turns
    && (forall n | 0 <= n < p.facts :: Says(lines[n], facts[n].value, facts[n].prior, arc, facts[n].updated))
    && (forall n | 0 <= n < p.memories :: Says(lines[p.facts + n], kept[n].content, kept[n].prior, arc, None))
    && (forall n | 0 <= n < p.turns :: Quotes(lines[p.facts + p.memories + n], turns[n]))
  }

  /** The n-th citation is of the n-th line. */
  ghost predicate Cited(cs: seq<Citation>, lines: seq<string>, p: Plan, facts: seq<StableFact>, kept: seq<Hit>,
                        turns: seq<Hit>)
    requires p.facts <= |facts| && p.memories <= |kept| && p.turns <= |turns|
  {
    && |cs| == |lines| == p.facts + p.memories + p.turns
    && (forall n | 0 <= n < p.facts ::
          facts[n].sourceTurn.Some? && 2 <= |lines[n]|
          && Cites(cs[n], facts[n].sourceTurn.value, facts[n].confidence, lines[n][2..]))
    && (forall n | 0 <= n < p.memories ::
          Cites(cs[p.facts + n], TurnOfHit(kept[n]), kept[n].score, Strip(kept[n].content)))
    && (forall n | 0 <= n < p.turns ::
          Cites(cs[p.facts + p.memories + n], TurnOfHit(turns[n]), turns[n].score, Strip(turns[n].content)))
  }

  function PlanLinesShown(l1: seq<string>, l2: seq<string>, l3: seq<string>, p: Plan): seq<string>
    requires p.facts <= |l1| && p.memories <= |l2| && p.turns <= |l3|
  {
    l1[..p.facts] + l2[..p.memories] + l3[..p.turns]
  }

  lemma LinesSay(facts: seq<StableFact>, kept: seq<Hit>, turns: seq<Hit>, arc: bool, p: Plan)
    requires p.facts <= |facts| && p.memories <= |kept| && p.turns <= |turns|
    ensures Shows(PlanLinesShown(FactLines(facts, arc), MemoryLines(kept, arc), TurnLines(turns), p), p, facts, kept,
                  turns, arc)
  {
    hide Says, Quotes, FactLine, MemoryLine, TurnLine;
    forall n | 0 <= n < p.facts
      ensures Says(FactLines(facts, arc)[n], facts[n].value, facts[n].prior, arc, facts[n].updated)
    {
      FactSays(facts[n], arc);
    }
    forall n | 0 <= n < p.memories ensures Says(MemoryLines(kept, arc)[n], kept[n].content, kept[n].prior, arc, None) {
      MemorySays(kept[n], arc);
    }
    forall n | 0 <= n < p.turns ensures Quotes(TurnLines(turns)[n], turns[n]) {
      TurnQuotes(turns[n]);
    }
  }

  /**
   * The context is made of the lines shown under the headings of their tiers and of nothing else. Each line
   * begins with the current value of its own fact or memory, names the value it replaced behind it and only
   * if asked to, or quotes the turn. The lines stand in the context in this order, which is that of the
   * citations.
   */
  lemma ContextLines(facts: seq<StableFact>, memories: seq<Hit>, turns: seq<Hit>, gate: Gate, maxTokens: int, arc: bool)
    returns (lines: seq<string>, at: seq<nat>)
    ensures var context := ContextText(facts, memories, turns, gate, maxTokens, arc);
      var p, kept := PlanOf(facts, memories, turns, gate, maxTokens, arc), Kept(facts, memories, gate);
      && Shows(lines, p, facts, kept, turns, arc)
      && context == Join(Texts(Blocks(lines[..p.facts], lines[p.facts..p.facts + p.memories],
                                      lines[p.facts + p.memories..])), "\n\n")
      && Placed(context, lines, at)
      && ((forall f | f in facts :: f.sourceTurn.Some?) ==>
            Cited(CitationsOf(facts, memories, turns, gate, maxTokens, arc), lines, p, facts, kept, turns))
  {
    hide PlanOf, Kept, FactLine, MemoryLine, TurnLine, Shows, Placed, Sections, Texts, Blocks, AllLines, Cited;
    var p, kept := PlanOf(facts, memories, turns, gate, maxTokens, arc), Kept(facts, memories, gate);
    var l1, l2, l3 := FactLines(facts, arc), MemoryLines(kept, arc), TurnLines(turns);
    lines := PlanLinesShown(l1, l2, l3, p);
    LinesSay(facts, kept, turns, arc, p);
    TextsOfBlocks(l1, l2, l3, p);
    LinesOfBlocks(l1[..p.facts], l2[..p.memories], l3[..p.turns]);
    at := PlacedBlocks(Blocks(l1[..p.facts], l2[..p.memories], l3[..p.turns]));
    assert lines[..p.facts] == l1[..p.facts] && lines[p.facts..p.facts + p.memories] == l2[..p.memories]
           && lines[p.facts + p.memories..] == l3[..p.turns];
    if forall f | f in facts :: f.sourceTurn.Some? {
      LinesCited(facts, memories, turns, gate, maxTokens, arc, lines);
    }
  }

  lemma LinesCited(facts: seq<StableFact>, memories: seq<Hit>, turns: seq<Hit>, gate: Gate, maxTokens: int, arc: bool,
                   lines: seq<string>)
    requires forall f | f in facts :: f.sourceTurn.Some?
    requires var p, kept := PlanOf(facts, memories, turns, gate, maxTokens, arc), Kept(facts, memories, gate);
      lines == PlanLinesShown(FactLines(facts, arc), MemoryLines(kept, arc), TurnLines(turns), p)
    ensures var p, kept := PlanOf(facts, memories, turns, gate, maxTokens, arc), Kept(facts, memories, gate);
      Cited(CitationsOf(facts, memories, turns, gate, maxTokens, arc), lines, p, facts, kept, turns)
  {
    hide PlanOf, Kept, FactLine, MemoryLine, TurnLine, Strip, FactCitationsOf;
    var p := PlanOf(facts, memories, turns, gate, maxTokens, arc);
    forall i | 0 <= i < p.facts ensures "- " <= FactLines(facts, arc)[i] {
      FactSays(facts[i], arc);
    }
    FactsCited(facts, FactLines(facts, arc), p.facts);
  }
}
