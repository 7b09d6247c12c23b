/** Two small kinds of documents, split step by step: a single word, and a section that starts indented. */
module Samples {
  import opened Results
  import opened Text
  import opened Lines
  import opened Tokens
  import opened Blocks
  import opened Packing
  import opened Sectioner
  import opened SectionerLaws
  import opened Headings
  import opened Documents
  import opened DocumentLaws
  import opened Titles

  // ----- Budgets that suffice -----

  lemma {:induction false} StartsAtMost(inWord: bool, s: string)
    ensures Starts(inWord, s) <= |s|
    decreases s
  {
    if s != "" {
      StartsAtMost(IsWord(s[0]), s[1..]);
    }
  }

  /** A text never has more tokens than characters. */
  lemma TokensAtMost(s: string)
    ensures TokenCount(s) <= |s|
  {
    CountIsStarts(s);
    StartsAtMost(false, s);
  }

  predicate RoomFor(budget: Budget, size: nat) {
    size <= budget.tokens && size <= budget.chars
  }

  lemma ShortFits(budget: Budget, heading: string, body: string)
    requires RoomFor(budget, |heading| + 2 + |body|)
    ensures Fits(budget, heading, body)
  {
    hide Strip, TokenCount;
    var s := heading + "\n\n" + body;
    var lead, trail := StripParts(s);
    TokensAtMost(Strip(s));
  }

  // ----- A single word -----

  predicate IsSmall(c: char) {
    'a' <= c <= 'z'
  }

  predicate SmallWord(word: string) {
    word != "" && forall i :: 0 <= i < |word| ==> IsSmall(word[i])
  }

  lemma WordLine(word: string)
    requires SmallWord(word)
    ensures Strip(word) == word && StripNewlines(word) == word && !Blank(word)
    ensures SplitLines(word) == [word] && SplitKeep(word) == [word]
    ensures FenceOf(word).None? && HeadingOf(word).None?
  {
    StripTrimmed(word);
    LineEndOf(word, "");
    assert word + "" == word;
    assert word[|word|..] == "";
    assert SplitLines(word) == [word] + SplitLines("");
    assert SplitKeep(word) == [word] + SplitKeep("");
    assert RunLength(word, '#') == 0;
  }

  lemma WordBlocks(word: string)
    requires SmallWord(word)
    ensures AtomicBlocks(word) == [word]
  {
    hide FenceOf, SplitLines, StripNewlines, Blank;
    WordLine(word);
    assert [word][1..] == [] && [] + [word] == [word];
    assert Groups([word], Outside, []) == [[word]];
    assert GroupsOf(word) == [[word]];
    assert BlockTexts([[word]]) == [BlockText([word])];
    assert Join([word], "\n") == word;
  }

  lemma WordRuns(word: string)
    requires SmallWord(word)
    ensures DocumentRuns(word) == [Run([], [word])] && Body([word]) == word
  {
    hide FenceOf, HeadingOf, SplitKeep, StripNewlines, Blank;
    WordLine(word);
    assert [word][1..] == [] && [] + [word] == [word];
    assert Runs([], [word], Outside, []) == [Run([], [word])];
    assert word + "" == word && Concat([word]) == word;
  }

  /** The word is its own section, labelled with the title. */
  lemma WordSplits(budget: Budget, word: string, title: string)
    requires SmallWord(word) && RoomFor(budget, |title| + 2 + |word|)
    ensures SplitSpec(budget, word, title).Ok? && TitleShows(Strip(word))
  {
    hide SplitSpec, Strip, Blank, Body, DocumentRuns, AtomicBlocks, Fits, Unsplittable, StripNewlines, SplitKeep;
    WordLine(word);
    WordRuns(word);
    WordBlocks(word);
    var run := Run([], [word]);
    assert UsesTitle(DocumentRuns(word)[0]);
    WordSection(word, title);
    ShortFits(budget, title, word);
    assert !Unsplittable(budget, title, word) by { FitsAlready(budget, title, word); }
    SplitRaises(budget, word, title);
  }

  lemma WordSection(word: string, title: string)
    requires SmallWord(word)
    ensures RawSections(word, title) == [RawSection(title, word)]
  {
    hide Blank, Body, Runs, SplitKeep;
    WordLine(word);
    WordRuns(word);
    var run := Run([], [word]);
    assert [run][1..] == [];
    assert SectionsOfRuns([run], title) == SectionOfRun(run, title) + [];
  }

  lemma FitsAlready(budget: Budget, heading: string, block: string)
    requires Fits(budget, heading, block)
    ensures !Unsplittable(budget, heading, block)
  {
  }

  // ----- A section that starts indented -----

  const INDENTED := "# A\n    code\n\nnext"

  const INDENTED_BODY := "    code\n\nnext"

  lemma IndentedLines()
    ensures SplitKeep(INDENTED) == ["# A\n", "    code\n", "\n", "next"]
    ensures Concat(["    code\n", "\n", "next"]) == INDENTED_BODY
  {
    hide SplitKeep, Concat, KeptLines;
    IndentedConcat();
    IndentedKept();
    SplitKeepConcat(["# A\n", "    code\n", "\n", "next"]);
  }

  lemma IndentedConcat()
    ensures Concat(["# A\n", "    code\n", "\n", "next"]) == INDENTED
    ensures Concat(["    code\n", "\n", "next"]) == INDENTED_BODY
  {
    hide Concat;
    var last := ["next"];
    assert Concat([]) == "" by { NothingConcat(); }
    assert ["next"] + [] == last;
    ConcatCons("next", []);
    ConcatCons("\n", last);
    ConcatCons("    code\n", ["\n"] + last);
    ConcatCons("# A\n", ["    code\n"] + (["\n"] + last));
    assert ["# A\n", "    code\n", "\n", "next"] == ["# A\n"] + (["    code\n"] + (["\n"] + last));
    assert ["    code\n", "\n", "next"] == ["    code\n"] + (["\n"] + last);
  }

  lemma FeedLine(content: string, line: string, rest: seq<string>)
    requires NoBreak(content) && line == content + "\n" && KeptLines(rest)
    ensures KeptLines([line] + rest)
  {
    hide KeptLine, Ended, KeptLines;
    FeedIsKept(content);
    assert rest != [] ==> Ended(line, rest[0]);
    KeptLinesCons(line, rest);
  }

  lemma IndentedKept()
    ensures KeptLines(["# A\n", "    code\n", "\n", "next"])
  {
    hide KeptLines;
    var last := ["next"];
    assert KeptLines(last) by { LastLine("next"); }
    FeedLine("", "\n", last);
    FeedLine("    code", "    code\n", ["\n"] + last);
    FeedLine("# A", "# A\n", ["    code\n"] + (["\n"] + last));
    assert ["# A\n", "    code\n", "\n", "next"] == ["# A\n"] + (["    code\n"] + (["\n"] + last));
  }

  lemma LastLine(line: string)
    requires line != "" && NoBreak(line)
    ensures KeptLines([line])
  {
    FeedIsKept(line);
  }

  lemma IndentedHeading()
    ensures HeadingOf("# A\n") == Some(Heading(1, "A")) && FenceOf("# A\n").None?
  {
    assert "# A\n"[1..] == " A\n" && " A\n"[1..] == "A\n";
    assert RunLength(" A\n", '#') == 0;
    assert RunLength("# A\n", '#') == 1;
    assert IndentRun("A\n") == 0;
    assert IndentRun(" A\n") == 1;
    assert "A\n"[..1] == "A" && DropLineFeed("A\n") == "A";
    assert DropIndentRight("A") == "A" && DropHashesRight("A") == "A";
    StripTrimmed("A");
    assert TitleOf("A") == "A";
  }

  lemma IndentedOthers()
    ensures FenceOf("    code\n").None? && FenceOf("\n").None? && FenceOf("next").None?
    ensures HeadingOf("    code\n").None? && HeadingOf("\n").None? && HeadingOf("next").None?
  {
    StripLeftOf("    ", "code\n");
    assert "    " + "code\n" == "    code\n";
    assert "\n"[1..] == "";
    assert RunLength("    code\n", '#') == 0 && RunLength("\n", '#') == 0 && RunLength("next", '#') == 0;
  }

  lemma IndentedLabel(title: string)
    ensures LabelOf([Heading(1, "A")], title) == "A"
  {
    var headings := [Heading(1, "A")];
    assert headings[..0] == [];
    var hierarchy := HierarchyAfter(headings);
    assert hierarchy[..1] == [Some("A")];
    assert [Some("A")][1..] == [];
    assert NonEmpty([Some("A")]) == ["A"] + NonEmpty([]);
    assert Join(["A"], " > ") == "A";
  }

  lemma IndentedSection(title: string)
    ensures RawSections(INDENTED, title) == [RawSection("A", INDENTED_BODY)]
  {
    hide FenceOf, HeadingOf, SplitKeep, Concat, Blank, LabelOf, NextFence;
    IndentedLines();
    IndentedHeading();
    IndentedOthers();
    assert NextFence(Outside, "    code\n") == Outside && NextFence(Outside, "\n") == Outside
        && NextFence(Outside, "next") == Outside by { NoFencesAhead(); }
    var h, body := Heading(1, "A"), ["    code\n", "\n", "next"];
    assert [] + [h] == [h];
    assert [] + ["    code\n"] + ["\n"] + ["next"] == body;
    assert Runs([h], body, Outside, []) == [Run([h], body)];
    assert ["next"][1..] == [];
    assert Runs([h], [] + ["    code\n"] + ["\n"], Outside, ["next"]) == [Run([h], body)];
    assert ["\n", "next"][1..] == ["next"];
    assert Runs([h], [] + ["    code\n"], Outside, ["\n", "next"]) == [Run([h], body)];
    assert body[1..] == ["\n", "next"];
    assert Runs([h], [], Outside, body) == [Run([h], body)];
    var lines := ["# A\n"] + body;
    assert lines[1..] == body && SplitKeep(INDENTED) == lines;
    assert Runs([], [], Outside, lines) == [Run([], [])] + [Run([h], body)];
    IndentedRuns(h, body, title);
  }

  lemma NoFencesAhead()
    ensures NextFence(Outside, "    code\n") == Outside && NextFence(Outside, "\n") == Outside
    ensures NextFence(Outside, "next") == Outside
  {
    hide FenceOf;
    IndentedOthers();
  }

  lemma IndentedRuns(h: Heading, body: seq<string>, title: string)
    requires h == Heading(1, "A") && Concat(body) == INDENTED_BODY
    ensures Leveled([]) && Leveled([h])
    ensures SectionsOfRuns([Run([], [])] + [Run([h], body)], title) == [RawSection("A", INDENTED_BODY)]
  {
    hide LabelOf;
    IndentedLabel(title);
    StripNewlinesKeeps(INDENTED_BODY);
    assert !Blank(INDENTED_BODY) by { assert INDENTED_BODY[4] == 'c'; }
    var first, second := Run([], []), Run([h], body);
    assert Body([]) == "" && SectionOfRun(first, title) == [];
    assert ([first] + [second])[1..] == [second] && [second][1..] == [];
    assert SectionsOfRuns([second], title) == SectionOfRun(second, title) + [];
  }

  /** A plain line is a block of its own. */
  lemma PlainLine(line: string)
    requires !Blank(line) && FenceOf(line).None? && !ListItem(line)
    ensures GoodGroup([line]) && RunFence(Outside, [line]) == Outside && !IsList([line])
  {
    hide FenceOf, Blank, ListItem;
    assert [line][1..] == [];
    assert Whole([] + [line], Outside, []);
  }

  lemma PlainText(line: string)
    requires line != "" && !IsBreak(line[0]) && !IsBreak(line[|line| - 1])
    ensures BlockText([line]) == line
  {
    StripNewlinesKeeps(line);
  }

  lemma IndentedPlain()
    ensures !Blank("    code") && FenceOf("    code").None? && !ListItem("    code")
    ensures !Blank("next") && FenceOf("next").None? && !ListItem("next")
  {
    hide ListItem, FenceOf;
    assert "    code"[4] == 'c' && "next"[0] == 'n';
    LetterLine("    ", "code");
    assert "    " + "code" == "    code";
    LetterLine("", "next");
    assert "" + "next" == "next";
  }

  /** A line whose first visible character is a letter is neither a fence nor an item. */
  lemma LetterLine(lead: string, body: string)
    requires Blank(lead) && body != "" && IsSmall(body[0])
    ensures FenceOf(lead + body).None? && !ListItem(lead + body)
  {
    StripLeftOf(lead, body);
  }

  lemma IndentedChain()
    ensures Chain([["    code"], ["next"]]) && AllNewlineFree([["    code"], ["next"]])
  {
    hide FenceOf, Blank, ListItem, GoodGroup, RunFence, IsList;
    IndentedPlain();
    PlainLine("    code");
    PlainLine("next");
    assert Cut(["    code"], ["next"]);
  }

  lemma IndentedBlocks()
    ensures AtomicBlocks(INDENTED_BODY) == ["    code", "next"]
  {
    hide BlockText, Chain, AtomicBlocks, AllNewlineFree;
    var groups := [["    code"], ["next"]];
    IndentedChain();
    JoinedBlocksReadBack(groups);
    PlainText("    code");
    PlainText("next");
    assert groups[1..] == [["next"]] && [["next"]][1..] == [];
    assert BlockTexts(groups) == ["    code"] + (["next"] + []);
    assert ["    code", "next"][1..] == ["next"];
    assert Join(["    code", "next"], "\n\n") == "    code" + "\n\n" + "next";
    assert "    code" + "\n\n" + "next" == INDENTED_BODY;
  }

  /** Packed with the block after it, an indented block loses its indentation, and with it its meaning. */
  lemma IndentationLost(budget: Budget, title: string)
    requires RoomFor(budget, 18)
    ensures SplitSpec(budget, INDENTED, title).Ok?
    ensures SectionTexts(SplitSpec(budget, INDENTED, title).value) == ["A\n\ncode\n\nnext"]
  {
    hide Strip, RawSections, AtomicBlocks, Fits, SectionParts, DraftsOfParts, SectionTexts;
    StripTrimmed(INDENTED);
    IndentedSection(title);
    IndentedParts(budget);
    var raw := RawSection("A", INDENTED_BODY);
    var drafts := [] + DraftsOfParts("A", ["code\n\nnext"]);
    assert [raw][1..] == [];
    assert DraftsFrom(budget, [], [raw]) == DraftsFrom(budget, drafts, []);
    assert DraftsFrom(budget, drafts, []) == Ok(drafts);
    IndentedDraft(drafts);
  }

  lemma IndentedDraft(drafts: seq<Draft>)
    requires drafts == [] + DraftsOfParts("A", ["code\n\nnext"])
    ensures SectionTexts(SectionsOf(drafts)) == ["A\n\ncode\n\nnext"]
  {
    assert drafts == [Draft("A", SectionText("A", "code\n\nnext"), 1, 1)];
    StripTrimmed("A\n\ncode\n\nnext");
    assert "A" + "\n\n" + "code\n\nnext" == "A\n\ncode\n\nnext";
  }

  /** Two blocks that fit together are packed. */
  lemma PackTwo(budget: Budget, heading: string, text: string, first: string, second: string, packed: string)
    requires AtomicBlocks(text) == [first, second] && first != "" && packed != ""
    requires Fits(budget, heading, first) && Fits(budget, heading, packed)
    requires packed == Strip(first + "\n\n" + second)
    ensures SectionParts(budget, heading, text) == Ok([packed])
  {
    hide Strip, AtomicBlocks, Fits, BlockParts;
    var blocks, group := [first, second], Packed([] + [first] + [second], packed);
    assert blocks[1..] == [second] && [second][1..] == [];
    assert GroupsFrom(budget, heading, [], [] + [first] + [second], packed, []) == Ok([] + [group]);
    assert GroupsFrom(budget, heading, [], [] + [first], first, [second]) == Ok([] + [group]);
    assert GroupsFrom(budget, heading, [], [], "", blocks) == Ok([] + [group]);
    assert ([] + [group])[1..] == [];
    assert SectionGroups(budget, heading, text) == Ok([] + [group]);
    assert [] + [group] == [group] && [group][1..] == [];
    assert AllTexts([group]) == [packed] + [] && [packed] + [] == [packed];
  }

  lemma IndentedStripped()
    ensures Strip("    code" + "\n\n" + "next") == "code\n\nnext"
  {
    hide Strip, StripLeft;
    IndentedPlain();
    StripLeftOf("    ", "code");
    assert "    " + "code" == "    code";
    StripJoined("    code", "next");
    assert StripRight("next") == "next";
    assert "code" + "\n\n" + "next" == "code\n\nnext";
  }

  lemma IndentedParts(budget: Budget)
    requires RoomFor(budget, 18)
    ensures SectionParts(budget, "A", INDENTED_BODY) == Ok(["code\n\nnext"])
  {
    hide Strip, AtomicBlocks, Fits, SectionParts, Blank;
    IndentedBlocks();
    IndentedStripped();
    ShortFits(budget, "A", "    code");
    ShortFits(budget, "A", "code\n\nnext");
    PackTwo(budget, "A", INDENTED_BODY, "    code", "next", "code\n\nnext");
  }
}
