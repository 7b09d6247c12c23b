/** What a whole split keeps of its document, and a document for every budget whose split exceeds it. */
module DocumentLaws {
  import opened Results
  import opened Text
  import opened Lines
  import opened Tokens
  import opened Blocks
  import opened Packing
  import opened Sectioner
  import opened SectionerLaws
  import opened Headings
  import opened HeadingLaws
  import opened Records
  import opened Documents

  // ----- Conservation from the document to its sections -----

  /** The groups a heading section is bounded in. */
  function GroupsIn(budget: Budget, raw: RawSection): seq<Group> {
    var groups := SectionGroups(budget, raw.heading, raw.body);
    if groups.Ok? then groups.value else []
  }

  /** The blocks in the groups of all heading sections. */
  function BlocksUnder(budget: Budget, raws: seq<RawSection>): seq<string> {
    if raws == [] then [] else BlocksOf(GroupsIn(budget, raws[0])) + BlocksUnder(budget, raws[1..])
  }

  /** From `start` on, the sections are the texts in order, under one heading, numbered from one. */
  predicate PartsAt(sections: seq<Draft>, start: nat, heading: string, texts: seq<string>) {
    && start + |texts| <= |sections|
    && forall i :: 0 <= i < |texts| ==>
         && sections[start + i].heading == heading
         && sections[start + i].text == Strip(heading + "\n\n" + texts[i])
         && sections[start + i].part == i + 1
         && sections[start + i].partCount == |texts|
  }

  /** From `start` on, the sections are the texts of all groups, heading section by heading section. */
  predicate FollowsGroups(budget: Budget, sections: seq<Draft>, start: nat, raws: seq<RawSection>)
    decreases raws
  {
    if raws == [] then start == |sections|
    else
      var texts := AllTexts(GroupsIn(budget, raws[0]));
      PartsAt(sections, start, raws[0].heading, texts)
      && FollowsGroups(budget, sections, start + |texts|, raws[1..])
  }

  /** What a section shows of its place: heading, text and number. */
  function Shape(sections: seq<Section>): (drafts: seq<Draft>)
    ensures |drafts| == |sections|
    ensures forall i :: 0 <= i < |sections| ==>
              drafts[i] == Draft(sections[i].heading, sections[i].text, sections[i].part, sections[i].partCount)
  {
    seq(|sections|, i requires 0 <= i < |sections| =>
      Draft(sections[i].heading, sections[i].text, sections[i].part, sections[i].partCount))
  }

  function SectionTexts(sections: seq<Section>): (texts: seq<string>)
    ensures |texts| == |sections|
    ensures forall i :: 0 <= i < |sections| ==> texts[i] == sections[i].text
  {
    seq(|sections|, i requires 0 <= i < |sections| => sections[i].text)
  }

  ghost predicate RawCarries(budget: Budget, raw: RawSection) {
    && (forall i :: 0 <= i < |GroupsIn(budget, raw)| ==> GroupCarries(budget, raw.heading, GroupsIn(budget, raw)[i]))
    && GroupsFull(budget, raw.heading, GroupsIn(budget, raw))
  }

  lemma PartsMade(drafts: seq<Draft>, heading: string, texts: seq<string>, all: seq<Draft>)
    requires drafts + DraftsOfParts(heading, texts) <= all
    ensures PartsAt(all, |drafts|, heading, texts)
  {
    hide Strip;
    var made := DraftsOfParts(heading, texts);
    forall i | 0 <= i < |texts| ensures all[|drafts| + i] == made[i] {
      assert (drafts + made)[|drafts| + i] == made[i];
    }
  }

  /** What the drafts made of the heading sections hold. */
  lemma {:induction false} DraftsConserve(budget: Budget, drafts: seq<Draft>, raws: seq<RawSection>)
    requires VisibleSections(raws) && DraftsFrom(budget, drafts, raws).Ok?
    ensures FollowsGroups(budget, DraftsFrom(budget, drafts, raws).value, |drafts|, raws)
    ensures drafts <= DraftsFrom(budget, drafts, raws).value
    ensures forall r :: 0 <= r < |raws| ==> RawCarries(budget, raws[r])
    ensures BlocksUnder(budget, raws) == BlocksOfAll(raws)
    decreases raws
  {
    hide SectionGroups, Blank, DraftsOfParts, AtomicBlocks, BlocksOf, GroupCarries, GroupsFull, PartsAt;
    if raws != [] {
      var raw, rest := raws[0], raws[1..];
      assert raws == [raw] + rest;
      assert forall r :: 0 <= r < |rest| ==> rest[r] == raws[r + 1];
      SectionConserves(budget, raw.heading, raw.body);
      var parts := SectionParts(budget, raw.heading, raw.body).value;
      DraftsConserve(budget, drafts + DraftsOfParts(raw.heading, parts), rest);
      PartsMade(drafts, raw.heading, parts, DraftsFrom(budget, drafts, raws).value);
    }
  }

  /** The blocks of all bodies. */
  function BlocksOfAll(raws: seq<RawSection>): seq<string> {
    if raws == [] then [] else AtomicBlocks(raws[0].body) + BlocksOfAll(raws[1..])
  }

  /** The lines that show something in the bodies are those in their blocks. */
  lemma {:induction false} BodiesShow(raws: seq<RawSection>)
    ensures Shown(Flatten(LinesOf(Bodies(raws)))) == Shown(Flatten(LinesOf(BlocksOfAll(raws))))
  {
    hide SplitLines, AtomicBlocks, Woven;
    if raws != [] {
      var first, blocks := raws[0].body, AtomicBlocks(raws[0].body);
      var bodies, later := Bodies(raws[1..]), BlocksOfAll(raws[1..]);
      BodiesShow(raws[1..]);
      BlocksKeepLines(first);
      assert LinesOf([first] + bodies) == [SplitLines(first)] + LinesOf(bodies) by {
        assert ([first] + bodies)[1..] == bodies;
      }
      ShownConcat(SplitLines(first), Flatten(LinesOf(bodies)));
      LinesOfConcat(blocks, later);
      FlattenConcat(LinesOf(blocks), LinesOf(later));
      ShownConcat(Flatten(LinesOf(blocks)), Flatten(LinesOf(later)));
    }
  }

  /** The lines a split is to keep: all but the headings, or all of a text with nothing else. */
  function KeptText(text: string, defaultHeading: string): seq<string> {
    if HeadingSections(text, defaultHeading) == [] then SplitLines(text) else TextLines(text)
  }

  /**
   Conservation for a whole document: its sections are the texts of groups of blocks, each under its
   heading and numbered within it, each group shows what its blocks show, and every line that shows
   something is whole in one of the blocks, in order.
   */
  lemma SplitConserves(budget: Budget, markdown: string, defaultHeading: string)
    requires SplitSpec(budget, markdown, defaultHeading).Ok?
    ensures var raws := RawSections(Strip(markdown), defaultHeading);
            && FollowsGroups(budget, Shape(SplitSpec(budget, markdown, defaultHeading).value), 0, raws)
            && (forall r :: 0 <= r < |raws| ==> RawCarries(budget, raws[r]))
            && Shown(KeptText(Strip(markdown), defaultHeading)) == Shown(Flatten(LinesOf(BlocksUnder(budget, raws))))
  {
    hide Blank, Strip, HeadingSections, DraftsFrom, RawCarries, FollowsGroups, Shown, Flatten, LinesOf, TextLines,
         BlocksUnder, BlocksOfAll, SplitLines, Woven;
    var text := Strip(markdown);
    var raws := RawSections(text, defaultHeading);
    StripBlank(markdown);
    StripKeepsVisible(markdown);
    RawSectionsVisible(text, defaultHeading);
    DraftsConserve(budget, [], raws);
    var drafts := DraftsFrom(budget, [], raws).value;
    assert Shape(SectionsOf(drafts)) == drafts;
    BodiesShow(raws);
    if HeadingSections(text, defaultHeading) == [] {
      OneBody(raws[0]);
      OneText(text);
    } else {
      BodiesKeepLines(text, defaultHeading);
    }
  }

  lemma OneBody(raw: RawSection)
    ensures Bodies([raw]) == [raw.body]
  {
    assert [raw][1..] == [];
  }

  lemma OneText(text: string)
    ensures Flatten(LinesOf([text])) == SplitLines(text)
  {
    hide SplitLines;
    assert [text][1..] == [];
    assert SplitLines(text) + [] == SplitLines(text);
  }

  // ----- The one way past the budget -----

  /** An opening line with `n` letters after its backticks. */
  function Opening(n: nat): string {
    "```" + Repeat('a', n)
  }

  /** A fenced block with a long opening line and no body. */
  function BareFence(n: nat): string {
    Opening(n) + "\n```"
  }

  lemma OpeningIsFence(n: nat)
    requires n > 0
    ensures FenceOf(Opening(n)) == Some(FenceMark('`', 3, Repeat('a', n)))
    ensures FenceOf("```") == Some(FenceMark('`', 3, ""))
  {
    var line, rest := Opening(n), Repeat('a', n);
    assert line[1..] == "``" + rest && line[1..][1..] == "`" + rest && line[1..][1..][1..] == rest;
    assert RunLength(rest, '`') == 0;
    assert RunLength("`" + rest, '`') == 1;
    assert RunLength("``" + rest, '`') == 2;
    assert line[3..] == rest;
    assert "```"[1..] == "``" && "``"[1..] == "`" && "`"[1..] == "";
    assert RunLength("", '`') == 0;
    assert RunLength("`", '`') == 1;
    assert RunLength("``", '`') == 2;
    assert "```"[3..] == "";
  }

  lemma BareFenceLines(n: nat)
    requires n > 0
    ensures SplitLines(BareFence(n)) == [Opening(n), "```"]
    ensures StripNewlines(BareFence(n)) == BareFence(n) && Strip(BareFence(n)) == BareFence(n)
    ensures Join([Opening(n), "```"], "\n") == BareFence(n)
    ensures SplitKeep(BareFence(n)) == [Opening(n) + "\n", "```"]
  {
    var doc, lines := BareFence(n), [Opening(n), "```"];
    assert lines[1..] == ["```"];
    assert Join(lines, "\n") == doc;
    assert NoBreak(Opening(n));
    assert Trimmed(doc);
    StripTrimmed(doc);
    StripNewlinesKeeps(doc);
    LinesReadBack(lines);
    LineEndOf(Opening(n), "\n```");
    assert doc == Opening(n) + "\n```";
    assert doc[..|Opening(n)| + 1] == Opening(n) + "\n" && doc[|Opening(n)| + 1..] == "```";
    LineEndOf("```", "");
    assert "```" + "" == "```" && "```"[3..] == "";
    assert SplitKeep("```") == ["```"] + SplitKeep("");
  }

  lemma BareFenceIsOneBlock(n: nat)
    requires n > 0
    ensures AtomicBlocks(BareFence(n)) == [BareFence(n)]
  {
    hide FenceOf, StripNewlines, SplitLines, IsList;
    var lines := [Opening(n), "```"];
    BareFenceLines(n);
    OpeningIsFence(n);
    assert lines[1..] == ["```"] && ["```"][1..] == [];
    var fence := NextFence(Outside, lines[0]);
    assert Whole([] + [lines[0]] + ["```"], NextFence(fence, "```"), []);
    assert Whole([] + [lines[0]], fence, ["```"]);
    assert Whole([], Outside, lines);
    GroupsAbsorb([], Outside, lines, []);
    assert [] + lines == lines && lines + [] == lines;
    assert GroupsOf(BareFence(n)) == [lines];
    assert BlockTexts([lines]) == [BlockText(lines)];
  }

  lemma BareFenceIsOneSection(n: nat, title: string)
    requires n > 0
    ensures RawSections(BareFence(n), title) == [RawSection(title, BareFence(n))]
  {
    hide FenceOf, StripNewlines, SplitLines, HeadingOf, SplitKeep;
    var doc, first := BareFence(n), Opening(n) + "\n";
    BareFenceLines(n);
    OpeningIsFence(n);
    FenceOfTrailing(Opening(n), "\n");
    var fence := NextFence(Outside, first);
    assert HeadingAt(Outside, first) == None && HeadingAt(fence, "```") == None;
    assert [first, "```"][1..] == ["```"] && ["```"][1..] == [];
    var all := [] + [first] + ["```"];
    assert Runs([], all, NextFence(fence, "```"), []) == [Run([], all)];
    assert Runs([], [] + [first], fence, ["```"]) == [Run([], all)];
    assert Runs([], [], Outside, [first, "```"]) == [Run([], all)];
    LastRun([], all, Outside, title);
    assert all[1..] == ["```"] && Concat(["```"]) == "```";
    assert Concat(all) == doc;
    assert Body(all) == doc && !Blank(doc);
  }

  lemma BareFenceShell(n: nat)
    requires n > 0
    ensures var lines := [Opening(n), "```"];
            && BodyOf(lines) == [] && ShellOf(lines) == Shell(Opening(n), "```")
            && RenderLines(ShellOf(lines), []) == BareFence(n)
  {
    hide FenceOf, Strip, IsTableSeparator, Join;
    var lines := [Opening(n), "```"];
    BareFenceLines(n);
    OpeningIsFence(n);
    StripTrimmed("```");
    StripTrimmed(Opening(n));
    assert MarkerOf(lines[0]) == "```";
    assert KindOf(lines) == Fenced && HasClosing(lines);
    assert Optional(Opening(n)) + [] + Optional("```") == lines;
  }

  /** The fence has no body, so nothing is divided, and its shell is emitted as it is. */
  lemma BareFenceUnchecked(budget: Budget, n: nat, title: string)
    requires n > 0 && n > budget.chars
    ensures Unchecked(budget, title, BareFence(n)) && !Unsplittable(budget, title, BareFence(n))
  {
    hide SplitLines, Strip, TokenCount, BodyOf, ShellOf, RenderLines;
    var doc := BareFence(n);
    BareFenceLines(n);
    BareFenceShell(n);
    StripShrinks("", title + "\n\n", doc);
    assert "" + doc == doc && "" + (title + "\n\n") + doc == title + "\n\n" + doc;
  }

  /** Whatever the budget, there is a document whose split returns a section that exceeds it. */
  lemma EveryBudgetCanBeExceeded(budget: Budget, title: string) returns (markdown: string)
    ensures SplitSpec(budget, markdown, title).Ok?
    ensures var sections := SplitSpec(budget, markdown, title).value;
            exists i :: 0 <= i < |sections| && !FitsText(sections[i].text, budget)
  {
    hide SplitSpec, TokenCount, Unchecked, Unsplittable, AtomicBlocks, RawSections, Strip, Blank;
    var n := if budget.chars > 0 then budget.chars + 1 else 1;
    markdown := BareFence(n);
    BareFenceLines(n);
    BareFenceIsOneSection(n, title);
    BareFenceIsOneBlock(n);
    BareFenceUnchecked(budget, n, title);
    StripBlank(markdown);
    var raw := RawSection(title, markdown);
    var raws := RawSections(Strip(markdown), title);
    assert raws == [raw] && AtomicBlocks(raw.body) == [markdown];
    assert !RawUnsplittable(budget, raw);
    assert AnyUnchecked(budget, title, [markdown]) by { assert Unchecked(budget, title, [markdown][0]); }
    assert RawUnchecked(budget, raws[0]);
    SplitRaises(budget, markdown, title);
    SplitFits(budget, markdown, title);
  }
}
