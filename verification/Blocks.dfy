/** Splitting Markdown into atomic blocks, and the largest block prefix within a budget. */
module Blocks {
  import opened Results
  import opened Text
  import opened Lines
  import opened Tokens

  // ----- Fences and list items -----

  /** A fence marker at the start of a line: its character, its run length, what follows it. */
  datatype FenceMark = FenceMark(character: char, length: nat, tail: string)

  datatype FenceState = Outside | Inside(character: char, length: nat)

  function RunLength(s: string, c: char): (n: nat)
    ensures n <= |s|
    ensures n > 0 ==> s[0] == c
  {
    if s != "" && s[0] == c then 1 + RunLength(s[1..], c) else 0
  }

  /** The match of a run of three or more backticks or tildes after optional whitespace. */
  function FenceOf(line: string): (mark: Option<FenceMark>)
    ensures mark.Some? ==> !Blank(line)
  {
    var rest := StripLeft(line);
    if rest != "" && rest[0] in {'`', '~'} && RunLength(rest, rest[0]) >= 3 then
      var n := RunLength(rest, rest[0]);
      assert !Blank(line) by {
        var lead := StripLeftParts(line);
        assert line[|lead|] == rest[0];
      }
      Some(FenceMark(rest[0], n, rest[n..]))
    else None
  }

  /** Whitespace after a run does not lengthen it. */
  lemma {:induction false} RunLengthBefore(s: string, ending: string, c: char)
    requires Blank(ending) && !IsSpace(c)
    ensures RunLength(s + ending, c) == RunLength(s, c)
  {
    if s == "" {
      assert s + ending == ending;
    } else {
      assert (s + ending)[1..] == s[1..] + ending;
      if s[0] == c {
        RunLengthBefore(s[1..], ending, c);
      }
    }
  }

  /** Whitespace after a line does not change the fence marker it starts with. */
  lemma FenceOfTrailing(content: string, ending: string)
    requires Blank(ending)
    ensures FenceOf(content + ending).Some? <==> FenceOf(content).Some?
    ensures FenceOf(content).Some? ==>
              var m, m' := FenceOf(content).value, FenceOf(content + ending).value;
              m'.character == m.character && m'.length == m.length && m'.tail == m.tail + ending
  {
    hide Blank, StripLeft, RunLength;
    var lead := StripLeftParts(content);
    var body := StripLeft(content);
    if body == "" {
      assert content == lead;
      BlankConcat(content, ending);
    } else {
      assert content + ending == lead + (body + ending);
      assert (body + ending)[0] == body[0];
      StripLeftOf(lead, body + ending);
      RunLengthBefore(body, ending, body[0]);
      var n := RunLength(body, body[0]);
      assert (body + ending)[n..] == body[n..] + ending;
    }
  }

  /** The fence state after a line: a fence closes on its own character, at least as long, alone. */
  function NextFence(fence: FenceState, line: string): FenceState {
    match (fence, FenceOf(line))
    case (Outside, Some(mark)) => Inside(mark.character, mark.length)
    case (Inside(character, length), Some(mark)) =>
      if mark.character == character && mark.length >= length && Blank(mark.tail) then Outside else fence
    case (_, None) => fence
  }

  function RunFence(fence: FenceState, lines: seq<string>): FenceState
    decreases lines
  {
    if lines == [] then fence else RunFence(NextFence(fence, lines[0]), lines[1..])
  }

  lemma {:induction false} RunFenceConcat(fence: FenceState, xs: seq<string>, ys: seq<string>)
    ensures RunFence(fence, xs + ys) == RunFence(RunFence(fence, xs), ys)
    decreases xs
  {
    if xs == [] {
      assert xs + ys == ys;
    } else {
      assert (xs + ys)[1..] == xs[1..] + ys;
      RunFenceConcat(NextFence(fence, xs[0]), xs[1..], ys);
    }
  }

  predicate Indents(c: char) {
    c == ' ' || c == '\t'
  }

  /** A bullet or an ordinal at the start of the line, followed by a space or tab. */
  predicate ListItem(line: string) {
    var rest := StripLeft(line);
    var width := if rest != "" && rest[0] in {'-', '+', '*'} then 1
                 else if 0 < DigitRun(rest) < |rest| && rest[DigitRun(rest)] in {'.', ')'} then DigitRun(rest) + 1
                 else 0;
    0 < width < |rest| && Indents(rest[width])
  }

  predicate IsList(current: seq<string>) {
    exists i :: 0 <= i < |current| && !Blank(current[i]) && ListItem(current[i])
  }

  /** Whether a non-blank line after a blank one carries on the list before it. */
  predicate Continues(line: string) {
    ListItem(line) || (line != "" && Indents(line[0]))
  }

  /** The first non-blank line decides whether a list goes on; with none left it does not. */
  predicate ListContinues(lines: seq<string>) {
    lines != [] && if Blank(lines[0]) then ListContinues(lines[1..]) else Continues(lines[0])
  }

  // ----- The block scanner -----

  /** The line groups the scanner cuts, given the open group, the fence state and the lines to come. */
  function Groups(current: seq<string>, fence: FenceState, lines: seq<string>): seq<seq<string>>
    decreases lines
  {
    if lines == [] then (if current == [] then [] else [current])
    else
      var line, rest := lines[0], lines[1..];
      if fence.Outside? && Blank(line) && !(IsList(current) && ListContinues(rest)) then
        (if current == [] then [] else [current]) + Groups([], Outside, rest)
      else
        Groups(current + [line], NextFence(fence, line), rest)
  }

  function BlockText(group: seq<string>): string {
    StripNewlines(Join(group, "\n"))
  }

  function BlockTexts(groups: seq<seq<string>>): (texts: seq<string>)
    ensures |texts| == |groups|
    ensures forall i :: 0 <= i < |groups| ==> texts[i] == BlockText(groups[i])
  {
    if groups == [] then [] else [BlockText(groups[0])] + BlockTexts(groups[1..])
  }

  function GroupsOf(text: string): seq<seq<string>> {
    Groups([], Outside, SplitLines(StripNewlines(text)))
  }

  /** `markdown_atomic_blocks`. */
  function AtomicBlocks(text: string): seq<string> {
    BlockTexts(GroupsOf(text))
  }

  // ----- What every cut respects -----

  /** Scanning `lines` after `current` meets no place to cut, whatever may follow them. */
  predicate Whole(current: seq<string>, fence: FenceState, lines: seq<string>)
    decreases lines
  {
    lines != [] ==>
      var line, rest := lines[0], lines[1..];
      && (fence.Outside? && Blank(line) ==> IsList(current) && ListContinues(rest))
      && Whole(current + [line], NextFence(fence, line), rest)
  }

  /** A cut between two groups lies outside every fence and does not interrupt a list. */
  predicate Cut(group: seq<string>, next: seq<string>) {
    && RunFence(Outside, group) == Outside
    && (next != [] ==> !(IsList(group) && Continues(next[0])))
  }

  predicate GoodGroup(group: seq<string>) {
    group != [] && !Blank(group[0]) && Whole([], Outside, group)
  }

  predicate AllGood(groups: seq<seq<string>>) {
    forall i :: 0 <= i < |groups| ==> GoodGroup(groups[i])
  }

  predicate Chain(groups: seq<seq<string>>) {
    && AllGood(groups)
    && (forall i :: 0 <= i < |groups| - 1 ==> Cut(groups[i], groups[i + 1]))
  }

  lemma {:induction false} ListContinuesPrefix(xs: seq<string>, ys: seq<string>)
    requires ListContinues(xs)
    ensures ListContinues(xs + ys)
  {
    assert (xs + ys)[1..] == xs[1..] + ys;
    if Blank(xs[0]) {
      ListContinuesPrefix(xs[1..], ys);
    }
  }

  /** Lines with no cut in them are absorbed into the open group. */
  lemma {:induction false} GroupsAbsorb(current: seq<string>, fence: FenceState, lines: seq<string>, after: seq<string>)
    requires Whole(current, fence, lines)
    ensures Groups(current, fence, lines + after) == Groups(current + lines, RunFence(fence, lines), after)
    decreases lines
  {
    if lines == [] {
      assert lines + after == after && current + lines == current;
    } else {
      var line, rest := lines[0], lines[1..];
      assert (lines + after)[1..] == rest + after;
      if fence.Outside? && Blank(line) {
        ListContinuesPrefix(rest, after);
      }
      GroupsAbsorb(current + [line], NextFence(fence, line), rest, after);
      assert current + [line] + rest == current + lines;
    }
  }

  lemma {:induction false} OpenGroupStays(current: seq<string>, fence: FenceState, lines: seq<string>)
    requires current != []
    ensures Groups(current, fence, lines) != [] && current <= Groups(current, fence, lines)[0]
    decreases lines
  {
    if lines != [] {
      var line, rest := lines[0], lines[1..];
      if !(fence.Outside? && Blank(line) && !(IsList(current) && ListContinues(rest))) {
        OpenGroupStays(current + [line], NextFence(fence, line), rest);
      }
    }
  }

  function Extension(current: seq<string>, fence: FenceState, lines: seq<string>): seq<string>
    requires current != []
  {
    OpenGroupStays(current, fence, lines);
    Groups(current, fence, lines)[0][|current|..]
  }

  lemma ExtensionStep(current: seq<string>, fence: FenceState, lines: seq<string>)
    requires current != [] && lines != []
    requires !(fence.Outside? && Blank(lines[0]) && !(IsList(current) && ListContinues(lines[1..])))
    ensures Extension(current, fence, lines)
         == [lines[0]] + Extension(current + [lines[0]], NextFence(fence, lines[0]), lines[1..])
  {
    var grown := current + [lines[0]];
    OpenGroupStays(grown, NextFence(fence, lines[0]), lines[1..]);
    var group := Groups(current, fence, lines)[0];
    assert grown <= group;
    assert group[|current|..] == [lines[0]] + group[|grown|..];
  }

  lemma IsListGrows(current: seq<string>, line: string)
    requires IsList(current)
    ensures IsList(current + [line])
  {
    var i :| 0 <= i < |current| && !Blank(current[i]) && ListItem(current[i]);
    assert (current + [line])[i] == current[i];
  }

  /** The line a list continues with ends up in the same group as the list. */
  lemma {:induction false} ContinuationIncluded(current: seq<string>, lines: seq<string>)
    requires IsList(current) && ListContinues(lines)
    ensures current != [] && ListContinues(Extension(current, Outside, lines))
    decreases lines
  {
    ExtensionStep(current, Outside, lines);
    assert Extension(current, Outside, lines)[1..]
        == Extension(current + [lines[0]], NextFence(Outside, lines[0]), lines[1..]);
    if Blank(lines[0]) {
      IsListGrows(current, lines[0]);
      ContinuationIncluded(current + [lines[0]], lines[1..]);
    }
  }

  lemma {:induction false} FirstGroupStart(lines: seq<string>)
    ensures Groups([], Outside, lines) != [] ==>
              && Groups([], Outside, lines)[0] != []
              && !Blank(Groups([], Outside, lines)[0][0])
              && ListContinues(lines) == Continues(Groups([], Outside, lines)[0][0])
  {
    if lines != [] {
      if Blank(lines[0]) {
        FirstGroupStart(lines[1..]);
      } else {
        OpenGroupStays([] + [lines[0]], NextFence(Outside, lines[0]), lines[1..]);
      }
    }
  }

  lemma ChainCons(group: seq<string>, groups: seq<seq<string>>)
    requires GoodGroup(group) && Chain(groups)
    requires groups != [] ==> Cut(group, groups[0])
    ensures Chain([group] + groups)
  {
    var all := [group] + groups;
    assert forall i :: 1 <= i < |all| ==> all[i] == groups[i - 1];
  }

  /** The open group grows without a cut, is cut where a cut is right, and the rest is a chain. */
  lemma {:induction false} OpenGroupChain(current: seq<string>, fence: FenceState, lines: seq<string>)
    requires current != []
    ensures var groups := Groups(current, fence, lines);
            var extension := Extension(current, fence, lines);
            && groups != []
            && groups[0] == current + extension
            && Whole(current, fence, extension)
            && Chain(groups[1..])
            && (|groups| > 1 ==>
                  && RunFence(fence, extension) == Outside
                  && groups[1] != []
                  && !(IsList(groups[0]) && Continues(groups[1][0])))
    decreases lines, 1
  {
    OpenGroupStays(current, fence, lines);
    var groups := Groups(current, fence, lines);
    if lines != [] {
      var line, rest := lines[0], lines[1..];
      if fence.Outside? && Blank(line) && !(IsList(current) && ListContinues(rest)) {
        assert groups[1..] == Groups([], Outside, rest);
        ScanIsChain(rest);
        FirstGroupStart(rest);
      } else {
        OpenGroupChain(current + [line], NextFence(fence, line), rest);
        ExtensionStep(current, fence, lines);
        if fence.Outside? && Blank(line) {
          IsListGrows(current, line);
          ContinuationIncluded(current + [line], rest);
        }
        var inner := Extension(current + [line], NextFence(fence, line), rest);
        assert Extension(current, fence, lines)[1..] == inner;
        assert current + ([line] + inner) == current + [line] + inner;
      }
    }
  }

  /** Every cut the scanner makes is outside fences and between lists that do not go on. */
  lemma {:induction false} ScanIsChain(lines: seq<string>)
    ensures Chain(Groups([], Outside, lines))
    decreases lines, 0
  {
    if lines != [] {
      if Blank(lines[0]) {
        ScanIsChain(lines[1..]);
        assert [] + Groups([], Outside, lines[1..]) == Groups([], Outside, lines[1..]);
      } else {
        var start := [] + [lines[0]];
        var fence := NextFence(Outside, lines[0]);
        OpenGroupChain(start, fence, lines[1..]);
        var groups := Groups(start, fence, lines[1..]);
        var extension := Extension(start, fence, lines[1..]);
        assert groups[0][1..] == extension;
        assert Whole([], Outside, groups[0]);
        assert RunFence(Outside, groups[0]) == RunFence(fence, extension);
        ChainCons(groups[0], groups[1..]);
        assert [groups[0]] + groups[1..] == groups;
      }
    }
  }

  // ----- Reading a chain back -----

  /** The lines of the groups, one empty line between neighbours. */
  function Separated(groups: seq<seq<string>>): seq<string> {
    if |groups| == 0 then []
    else if |groups| == 1 then groups[0]
    else groups[0] + ([""] + Separated(groups[1..]))
  }

  lemma {:induction false} ChainReadsBack(groups: seq<seq<string>>)
    requires Chain(groups)
    ensures Groups([], Outside, Separated(groups)) == groups
  {
    if |groups| == 1 {
      GroupsAbsorb([], Outside, groups[0], []);
      assert groups[0] + [] == groups[0] && [] + groups[0] == groups[0];
      assert groups == [groups[0]];
    } else if |groups| > 1 {
      var rest := Separated(groups[1..]);
      GroupsAbsorb([], Outside, groups[0], [""] + rest);
      assert [] + groups[0] == groups[0];
      assert rest[0] == groups[1][0];
      assert ([""] + rest)[1..] == rest;
      assert Chain(groups[1..]) by {
        assert forall i :: 0 <= i < |groups[1..]| ==> groups[1..][i] == groups[i + 1];
      }
      ChainReadsBack(groups[1..]);
      assert Cut(groups[0], groups[1]);
      assert !(IsList(groups[0]) && ListContinues(rest));
      assert [groups[0]] + groups[1..] == groups;
    }
  }

  // ----- From lines to text and back -----

  predicate NewlineFree(group: seq<string>) {
    forall i :: 0 <= i < |group| ==> NoBreak(group[i])
  }

  predicate AllNewlineFree(groups: seq<seq<string>>) {
    forall i :: 0 <= i < |groups| ==> NewlineFree(groups[i])
  }

  /** The group without the empty lines at its end, which stripping the block text removes. */
  function TrimEnd(group: seq<string>): (trimmed: seq<string>)
    ensures trimmed <= group
    ensures trimmed != [] ==> trimmed[|trimmed| - 1] != ""
  {
    if group != [] && group[|group| - 1] == "" then TrimEnd(group[..|group| - 1]) else group
  }

  lemma TrimEndKeepsStart(group: seq<string>)
    requires group != [] && !Blank(group[0])
    ensures TrimEnd(group) != [] && TrimEnd(group)[0] == group[0]
  {
    if group[|group| - 1] == "" {
      TrimEndKeepsStart(group[..|group| - 1]);
    }
  }

  predicate LineFeeds(s: string) {
    forall i :: 0 <= i < |s| ==> s[i] == '\n'
  }

  lemma {:induction false} DropNewlinesRightOf(s: string, tail: string)
    requires s != "" && s[|s| - 1] !in {'\r', '\n'}
    requires LineFeeds(tail)
    ensures DropNewlinesRight(s + tail) == s
  {
    if tail == "" {
      assert s + tail == s;
    } else {
      assert (s + tail)[..|s + tail| - 1] == s + tail[..|tail| - 1];
      DropNewlinesRightOf(s, tail[..|tail| - 1]);
    }
  }

  lemma {:induction false} JoinEnds(group: seq<string>)
    requires group != [] && group[0] != "" && group[|group| - 1] != ""
    ensures Join(group, "\n") != "" && Join(group, "\n")[0] == group[0][0]
    ensures var last := group[|group| - 1];
            Join(group, "\n")[|Join(group, "\n")| - 1] == last[|last| - 1]
  {
    if |group| > 1 {
      JoinAppend(group[..|group| - 1], group[|group| - 1], "\n");
      assert group[..|group| - 1] + [group[|group| - 1]] == group;
    }
  }

  lemma JoinDropsEmptyLine(group: seq<string>)
    requires |group| > 1 && group[|group| - 1] == ""
    ensures Join(group, "\n") == Join(group[..|group| - 1], "\n") + "\n"
  {
    var front := group[..|group| - 1];
    JoinAppend(front, "", "\n");
    assert group == front + [""];
    assert Join(front, "\n") + "\n" + "" == Join(front, "\n") + "\n";
  }

  lemma {:induction false} JoinTrimEnd(group: seq<string>) returns (tail: string)
    requires group != [] && group[0] != ""
    ensures Join(group, "\n") == Join(TrimEnd(group), "\n") + tail
    ensures LineFeeds(tail)
  {
    hide Join;
    if group[|group| - 1] == "" {
      JoinDropsEmptyLine(group);
      var shorter := JoinTrimEnd(group[..|group| - 1]);
      tail := shorter + "\n";
    } else {
      tail := "";
    }
  }

  /** A block's text is its lines, without empty ones at the end, joined by line feeds. */
  lemma BlockTextLines(group: seq<string>)
    requires group != [] && !Blank(group[0]) && NewlineFree(group)
    ensures TrimEnd(group) != [] && BlockText(group) == Join(TrimEnd(group), "\n")
    ensures !Blank(BlockText(group))
  {
    TrimEndKeepsStart(group);
    var trimmed := TrimEnd(group);
    var tail := JoinTrimEnd(group);
    JoinEnds(trimmed);
    var text := Join(trimmed, "\n");
    assert text[0] == group[0][0] && NoBreak(group[0]);
    var last := trimmed[|trimmed| - 1];
    assert last == group[|trimmed| - 1] && NoBreak(last);
    assert DropNewlinesLeft(text + tail) == text + tail;
    DropNewlinesRightOf(text, tail);
    InkJoin(trimmed, "\n");
    InkBlank(text);
    InkBlank(trimmed[0]);
  }

  lemma {:induction false} WholeEndsVisible(current: seq<string>, fence: FenceState, lines: seq<string>)
    requires Whole(current, fence, lines) && lines != [] && RunFence(fence, lines) == Outside
    ensures lines[|lines| - 1] != ""
    decreases lines
  {
    if |lines| > 1 {
      WholeEndsVisible(current + [lines[0]], NextFence(fence, lines[0]), lines[1..]);
    } else {
      assert lines[1..] == [];
    }
  }

  lemma {:induction false} ListContinuesDrop(lines: seq<string>)
    requires lines != [] && lines[|lines| - 1] == ""
    ensures ListContinues(lines) == ListContinues(lines[..|lines| - 1])
  {
    if |lines| > 1 {
      assert lines[1..][..|lines[1..]| - 1] == lines[..|lines| - 1][1..];
      ListContinuesDrop(lines[1..]);
    } else {
      assert lines[1..] == [];
    }
  }

  lemma {:induction false} WholeDrop(current: seq<string>, fence: FenceState, lines: seq<string>)
    requires Whole(current, fence, lines) && lines != [] && lines[|lines| - 1] == ""
    ensures Whole(current, fence, lines[..|lines| - 1])
    decreases lines
  {
    if |lines| > 1 {
      assert lines[1..][..|lines[1..]| - 1] == lines[..|lines| - 1][1..];
      WholeDrop(current + [lines[0]], NextFence(fence, lines[0]), lines[1..]);
      ListContinuesDrop(lines[1..]);
    }
  }

  lemma {:induction false} GoodGroupTrims(group: seq<string>)
    requires GoodGroup(group)
    ensures GoodGroup(TrimEnd(group))
  {
    var last := |group| - 1;
    if group[last] == "" {
      WholeDrop([], Outside, group);
      assert group[..last][0] == group[0];
      GoodGroupTrims(group[..last]);
    }
  }

  function TrimAll(groups: seq<seq<string>>): (trimmed: seq<seq<string>>)
    ensures |trimmed| == |groups|
    ensures forall i :: 0 <= i < |groups| ==> trimmed[i] == TrimEnd(groups[i])
  {
    if groups == [] then [] else [TrimEnd(groups[0])] + TrimAll(groups[1..])
  }

  lemma CutTrims(group: seq<string>, next: seq<string>)
    requires GoodGroup(group) && GoodGroup(next) && Cut(group, next)
    ensures TrimEnd(group) == group && Cut(group, TrimEnd(next))
  {
    WholeEndsVisible([], Outside, group);
    TrimEndKeepsStart(next);
  }

  lemma ChainTrims(groups: seq<seq<string>>)
    requires Chain(groups)
    ensures Chain(TrimAll(groups))
  {
    var trimmed := TrimAll(groups);
    forall i | 0 <= i < |trimmed| ensures GoodGroup(trimmed[i]) {
      GoodGroupTrims(groups[i]);
    }
    forall i | 0 <= i < |trimmed| - 1 ensures Cut(trimmed[i], trimmed[i + 1]) {
      CutTrims(groups[i], groups[i + 1]);
    }
  }

  lemma {:induction false} GroupsNewlineFree(current: seq<string>, fence: FenceState, lines: seq<string>)
    requires NewlineFree(current) && NewlineFree(lines)
    ensures AllNewlineFree(Groups(current, fence, lines))
    decreases lines
  {
    if lines != [] {
      var line, rest := lines[0], lines[1..];
      assert forall i :: 0 <= i < |rest| ==> rest[i] == lines[i + 1];
      if fence.Outside? && Blank(line) && !(IsList(current) && ListContinues(rest)) {
        GroupsNewlineFree([], Outside, rest);
      } else {
        GroupsNewlineFree(current + [line], NextFence(fence, line), rest);
      }
    }
  }

  /** Everything known of the groups of a text. */
  lemma GroupsOfText(text: string)
    ensures Chain(GroupsOf(text))
    ensures AllNewlineFree(GroupsOf(text))
  {
    ScanIsChain(SplitLines(StripNewlines(text)));
    GroupsNewlineFree([], Outside, SplitLines(StripNewlines(text)));
  }

  /** An empty line between two runs of lines is a blank line between their texts. */
  lemma JoinAroundEmptyLine(first: seq<string>, rest: seq<string>)
    requires first != [] && rest != []
    ensures Join(first + ([""] + rest), "\n") == Join(first, "\n") + "\n\n" + Join(rest, "\n")
  {
    JoinConcat(first, [""] + rest, "\n");
    JoinConcat([""], rest, "\n");
    assert Join([""], "\n") == "";
    var f, r := Join(first, "\n"), Join(rest, "\n");
    assert f + "\n" + ("" + "\n" + r) == f + "\n\n" + r;
  }

  /** Joining block texts by a blank line is joining all their lines with an empty line between groups. */
  lemma {:induction false} JoinBlocks(groups: seq<seq<string>>)
    requires AllGood(groups) && AllNewlineFree(groups)
    ensures Join(BlockTexts(groups), "\n\n") == Join(Separated(TrimAll(groups)), "\n")
    ensures groups != [] ==> Separated(TrimAll(groups)) != []
  {
    if groups != [] {
      BlockTextLines(groups[0]);
      if |groups| > 1 {
        assert forall i :: 0 <= i < |groups[1..]| ==> groups[1..][i] == groups[i + 1];
        JoinBlocks(groups[1..]);
        JoinAroundEmptyLine(TrimEnd(groups[0]), Separated(TrimAll(groups[1..])));
      }
    }
  }

  lemma {:induction false} SeparatedShape(groups: seq<seq<string>>)
    requires groups != [] && forall i :: 0 <= i < |groups| ==>
               NewlineFree(groups[i]) && groups[i] != [] && groups[i][|groups[i]| - 1] != "" && groups[i][0] != ""
    ensures var lines := Separated(groups);
            NewlineFree(lines) && lines != [] && lines[0] != "" && lines[|lines| - 1] != ""
  {
    if |groups| > 1 {
      assert forall i :: 0 <= i < |groups[1..]| ==> groups[1..][i] == groups[i + 1];
      SeparatedShape(groups[1..]);
    }
  }

  /** Reading a chain of groups back from the text their blocks make. */
  lemma JoinedBlocksReadBack(groups: seq<seq<string>>)
    requires Chain(groups) && AllNewlineFree(groups)
    ensures AtomicBlocks(Join(BlockTexts(groups), "\n\n")) == BlockTexts(groups)
  {
    if groups != [] {
      JoinedGroups(groups);
      TrimmedTexts(groups);
    }
  }

  lemma JoinedLines(groups: seq<seq<string>>)
    requires groups != []
    requires Chain(groups) && AllNewlineFree(groups)
    ensures SplitLines(StripNewlines(Join(BlockTexts(groups), "\n\n"))) == Separated(TrimAll(groups))
  {
    TrimmedShape(groups);
    LinesReadBack(Separated(TrimAll(groups)));
    JoinBlocks(groups);
  }

  lemma JoinedGroups(groups: seq<seq<string>>)
    requires groups != []
    requires Chain(groups) && AllNewlineFree(groups)
    ensures GroupsOf(Join(BlockTexts(groups), "\n\n")) == TrimAll(groups)
  {
    JoinedLines(groups);
    ChainTrims(groups);
    ChainReadsBack(TrimAll(groups));
  }

  lemma TrimmedShape(groups: seq<seq<string>>)
    requires groups != []
    requires Chain(groups) && AllNewlineFree(groups)
    ensures var lines := Separated(TrimAll(groups));
            NewlineFree(lines) && lines != [] && lines[0] != "" && lines[|lines| - 1] != ""
  {
    var trimmed := TrimAll(groups);
    forall i | 0 <= i < |trimmed|
      ensures NewlineFree(trimmed[i]) && trimmed[i] != []
      ensures trimmed[i][|trimmed[i]| - 1] != "" && trimmed[i][0] != ""
    {
      TrimEndKeepsStart(groups[i]);
    }
    SeparatedShape(trimmed);
  }

  lemma StripNewlinesKeeps(text: string)
    requires text != "" && !IsBreak(text[0]) && !IsBreak(text[|text| - 1])
    ensures StripNewlines(text) == text
  {
  }

  lemma LinesReadBack(lines: seq<string>)
    requires NewlineFree(lines) && lines != [] && lines[0] != "" && lines[|lines| - 1] != ""
    ensures SplitLines(StripNewlines(Join(lines, "\n"))) == lines
  {
    JoinEnds(lines);
    assert NoBreak(lines[0]);
    assert NoBreak(lines[|lines| - 1]);
    StripNewlinesKeeps(Join(lines, "\n"));
    SplitLinesJoin(lines);
  }

  lemma {:induction false} TrimmedTexts(groups: seq<seq<string>>)
    requires AllGood(groups) && AllNewlineFree(groups)
    ensures BlockTexts(TrimAll(groups)) == BlockTexts(groups)
  {
    if groups != [] {
      BlockTextLines(groups[0]);
      GoodGroupTrims(groups[0]);
      BlockTextLines(TrimEnd(groups[0]));
      assert forall i :: 0 <= i < |groups[1..]| ==> groups[1..][i] == groups[i + 1];
      TrimmedTexts(groups[1..]);
    }
  }

  /** Splitting the blocks joined by a blank line gives back the blocks, and so for every prefix of them. */
  lemma SplitJoinRoundTrip(text: string, k: nat)
    requires k <= |AtomicBlocks(text)|
    ensures AtomicBlocks(Join(AtomicBlocks(text)[..k], "\n\n")) == AtomicBlocks(text)[..k]
  {
    SplitJoinSlice(text, 0, k);
  }

  /** And so does splitting any blocks that follow one another. */
  lemma SplitJoinSlice(text: string, j: nat, k: nat)
    requires j <= k <= |AtomicBlocks(text)|
    ensures AtomicBlocks(Join(AtomicBlocks(text)[j..k], "\n\n")) == AtomicBlocks(text)[j..k]
  {
    GroupsOfText(text);
    var groups := GroupsOf(text);
    assert forall i :: 0 <= i < k - j ==> groups[j..k][i] == groups[j + i];
    assert Chain(groups[j..k]) && AllNewlineFree(groups[j..k]);
    JoinedBlocksReadBack(groups[j..k]);
    assert BlockTexts(groups[j..k]) == AtomicBlocks(text)[j..k];
  }

  // ----- Nothing is lost -----

  /** The lines of a block are those of its group. */
  lemma BlockLines(group: seq<string>)
    requires GoodGroup(group) && NewlineFree(group)
    ensures SplitLines(BlockText(group)) == TrimEnd(group)
  {
    BlockTextLines(group);
    SplitLinesJoin(TrimEnd(group));
  }

  /** The open group and the lines to come are the groups the scanner makes of them, and blank lines. */
  lemma {:induction false} GroupsWoven(current: seq<string>, fence: FenceState, lines: seq<string>)
    ensures Woven(current + lines, Groups(current, fence, lines))
    decreases lines
  {
    hide Woven, NextFence, IsList, ListContinues, Blank;
    if lines == [] {
      OpenWoven(current);
      assert current + lines == current;
    } else {
      var line, rest := lines[0], lines[1..];
      assert lines == [line] + rest;
      if fence.Outside? && Blank(line) && !(IsList(current) && ListContinues(rest)) {
        GroupsWoven([], Outside, rest);
        assert [] + rest == rest;
        CutWoven(current, line, rest, Groups([], Outside, rest));
      } else {
        GroupsWoven(current + [line], NextFence(fence, line), rest);
        assert current + [line] + rest == current + lines;
      }
    }
  }

  lemma CutWoven(current: seq<string>, line: string, rest: seq<string>, groups: seq<seq<string>>)
    requires Blank(line) && Woven(rest, groups)
    ensures Woven(current + ([line] + rest), OpenAsGroup(current) + groups)
  {
    hide Woven, OpenAsGroup, Blank;
    OpenWoven(current);
    assert AllBlank([line]);
    WovenAfterBlank([line], rest, groups);
    WovenConcat(current, OpenAsGroup(current), [line] + rest, groups);
  }

  lemma OpenWoven(current: seq<string>)
    ensures Woven(current, OpenAsGroup(current))
  {
    if current != [] {
      WovenOne([], current, []);
      assert [] + current + [] == current;
    }
  }

  lemma TrimEndRest(group: seq<string>)
    ensures AllBlank(group[|TrimEnd(group)|..])
  {
    if group != [] && group[|group| - 1] == "" {
      TrimEndRest(group[..|group| - 1]);
    }
  }

  lemma {:induction false} TrimmedWoven(lines: seq<string>, groups: seq<seq<string>>)
    requires Woven(lines, groups)
    ensures Woven(lines, TrimAll(groups))
    decreases groups
  {
    hide AllBlank, TrimEnd, RunAt;
    if groups != [] {
      var lead, rest := WovenParts(lines, groups);
      TrimmedWoven(rest, groups[1..]);
      TrimEndRest(groups[0]);
      WovenPrefix(lead, groups[0], rest, TrimEnd(groups[0]), TrimAll(groups[1..]));
    }
  }

  lemma {:induction false} LinesOfBlocks(groups: seq<seq<string>>)
    requires AllGood(groups) && AllNewlineFree(groups)
    ensures LinesOf(BlockTexts(groups)) == TrimAll(groups)
  {
    hide GoodGroup, NewlineFree, SplitLines;
    if groups != [] {
      BlockLines(groups[0]);
      assert forall i :: 0 <= i < |groups[1..]| ==> groups[1..][i] == groups[i + 1];
      LinesOfBlocks(groups[1..]);
      assert BlockTexts(groups)[1..] == BlockTexts(groups[1..]);
    }
  }

  /**
   Every block is a run of whole lines of the text, with its indentation and its blank lines, in order,
   and what lies between the blocks is blank. So no line that shows something is lost, split or changed.
   */
  lemma BlocksKeepLines(text: string)
    ensures Woven(SplitLines(text), LinesOf(AtomicBlocks(text)))
    ensures Shown(SplitLines(text)) == Shown(Flatten(LinesOf(AtomicBlocks(text))))
  {
    hide Woven, SplitLines, StripNewlines, LinesOf, AllEmpty, TrimAll, Chain;
    var lines, pieces := SplitLines(StripNewlines(text)), LinesOf(AtomicBlocks(text));
    GroupsOfText(text);
    GroupsWoven([], Outside, lines);
    assert [] + lines == lines;
    TrimmedWoven(lines, GroupsOf(text));
    AllGoodInChain(GroupsOf(text));
    LinesOfBlocks(GroupsOf(text));
    var lead, trail := StripNewlinesLines(text);
    EmptyInk(lead);
    EmptyInk(trail);
    WovenAfterBlank(lead, lines, pieces);
    NothingWoven(trail);
    WovenConcat(lead + lines, pieces, trail, []);
    assert pieces + [] == pieces;
    WovenShows(SplitLines(text), pieces);
  }

  lemma AllGoodInChain(groups: seq<seq<string>>)
    requires Chain(groups)
    ensures AllGood(groups)
  {
  }

  /** The blocks carry exactly the visible characters of the text, in order. */
  lemma BlocksConserve(text: string)
    ensures InkAll(AtomicBlocks(text)) == Ink(text)
  {
    hide Woven, SplitLines, LinesOf, AtomicBlocks, Ink, InkAll;
    BlocksKeepLines(text);
    WovenInk(SplitLines(text), AtomicBlocks(text));
    InkSplitLines(text);
  }

  /** What holds of one block: visible, line by line well formed, and never to be cut again. */
  lemma BlockShape(text: string, i: nat)
    requires i < |AtomicBlocks(text)|
    ensures var block := AtomicBlocks(text)[i];
            && !Blank(block)
            && SplitLines(block) != [] && !Blank(SplitLines(block)[0])
            && AtomicBlocks(block) == [block]
  {
    GroupsOfText(text);
    var group := GroupsOf(text)[i];
    BlockTextLines(group);
    BlockLines(group);
    TrimEndKeepsStart(group);
    JoinedBlocksReadBack([group]);
    assert BlockTexts([group]) == [BlockText(group)];
  }

  /** Lines scanned without a cut: a blank one among them outside every fence is where a list goes on. */
  lemma {:induction false} WholeAt(current: seq<string>, fence: FenceState, lines: seq<string>, k: nat)
    requires Whole(current, fence, lines) && k < |lines|
    requires RunFence(fence, lines[..k]) == Outside && Blank(lines[k])
    ensures IsList(current + lines[..k]) && ListContinues(lines[k + 1..])
    decreases k
  {
    hide NextFence, IsList, Blank, ListContinues;
    if k == 0 {
      assert current + lines[..0] == current;
    } else {
      assert lines[..k][0] == lines[0] && lines[..k][1..] == lines[1..][..k - 1];
      assert lines[1..][k - 1] == lines[k] && lines[1..][k..] == lines[k + 1..];
      WholeAt(current + [lines[0]], NextFence(fence, lines[0]), lines[1..], k - 1);
      assert current + [lines[0]] + lines[1..][..k - 1] == current + lines[..k];
    }
  }

  /**
   A blank line inside a block is inside a fence, or has a list before it that goes on after it: every
   other one cuts.
   */
  lemma BlocksAreUnbroken(text: string, i: nat, k: nat)
    requires i < |AtomicBlocks(text)| && k < |SplitLines(AtomicBlocks(text)[i])|
    requires Blank(SplitLines(AtomicBlocks(text)[i])[k])
    ensures var lines := SplitLines(AtomicBlocks(text)[i]);
            RunFence(Outside, lines[..k]) != Outside || (IsList(lines[..k]) && ListContinues(lines[k + 1..]))
  {
    hide NextFence, IsList, Blank, ListContinues, SplitLines;
    GroupsOfText(text);
    var group := GroupsOf(text)[i];
    BlockLines(group);
    GoodGroupTrims(group);
    var lines := TrimEnd(group);
    if RunFence(Outside, lines[..k]) == Outside {
      WholeAt([], Outside, lines, k);
      assert [] + lines[..k] == lines[..k];
    }
  }

  /** No boundary between blocks falls inside a fence or before the continuation of a list. */
  lemma BoundariesAreOutsideFences(text: string, i: nat)
    requires i + 1 < |AtomicBlocks(text)|
    ensures var blocks := AtomicBlocks(text);
            Cut(SplitLines(blocks[i]), SplitLines(blocks[i + 1])) && SplitLines(blocks[i + 1]) != []
  {
    GroupsOfText(text);
    var before, after := GroupsOf(text)[i], GroupsOf(text)[i + 1];
    BlockLines(before);
    BlockLines(after);
    CutTrims(before, after);
    TrimEndKeepsStart(after);
  }

  // ----- The scanner as the loop it is -----

  method MarkdownAtomicBlocks(text: string) returns (blocks: seq<string>)
    ensures blocks == AtomicBlocks(text)
  {
    blocks := [];
    var current: seq<string> := [];
    var fence := Outside;
    var lines := SplitLines(StripNewlines(text));
    var index := 0;
    ghost var groups: seq<seq<string>> := [];
    while index < |lines|
      invariant 0 <= index <= |lines|
      invariant OpenGroup(current) && (current == [] ==> fence.Outside?)
      invariant blocks == BlockTexts(groups)
      invariant GroupsOf(text) == groups + Groups(current, fence, lines[index..])
    {
      var line := lines[index];
      var after := lines[index + 1..];
      assert lines[index..] == [line] + after;
      ScanStep(groups, current, fence, line, after);
      if fence.Outside? && FenceOf(line).None? && Blank(line) {
        if IsList(current) && ListContinues(after) {
          current := current + [line];
        } else {
          blocks := FlushBlock(groups, blocks, current);
          groups := groups + OpenAsGroup(current);
          current := [];
        }
      } else {
        current := current + [line];
        fence := NextFence(fence, line);
      }
      index := index + 1;
    }
    assert lines[index..] == [];
    blocks := FlushBlock(groups, blocks, current);
  }

  lemma ScanStep(groups: seq<seq<string>>, current: seq<string>, fence: FenceState, line: string, after: seq<string>)
    ensures groups + Groups(current, fence, [line] + after) ==
            if fence.Outside? && Blank(line) && !(IsList(current) && ListContinues(after)) then
              (groups + OpenAsGroup(current)) + Groups([], Outside, after)
            else
              groups + Groups(current + [line], NextFence(fence, line), after)
  {
    assert ([line] + after)[1..] == after;
    assert groups + (OpenAsGroup(current) + Groups([], Outside, after))
        == (groups + OpenAsGroup(current)) + Groups([], Outside, after);
  }

  /** The lines the scanner holds open: none yet, or a first one that is not blank. */
  ghost predicate OpenGroup(current: seq<string>) {
    NewlineFree(current) && (current != [] ==> !Blank(current[0]))
  }

  ghost function OpenAsGroup(current: seq<string>): seq<seq<string>> {
    if current == [] then [] else [current]
  }

  lemma {:induction false} BlockTextsConcat(xs: seq<seq<string>>, ys: seq<seq<string>>)
    ensures BlockTexts(xs + ys) == BlockTexts(xs) + BlockTexts(ys)
  {
  }

  /** The scanner's `flush`: a blank block leaves no trace, and no open group makes one. */
  method FlushBlock(ghost groups: seq<seq<string>>, blocks: seq<string>, current: seq<string>)
    returns (flushed: seq<string>)
    requires OpenGroup(current) && blocks == BlockTexts(groups)
    ensures flushed == BlockTexts(groups + OpenAsGroup(current))
  {
    BlockTextsConcat(groups, OpenAsGroup(current));
    if current != [] {
      BlockTextLines(current);
    }
    var block := StripNewlines(Join(current, "\n"));
    if !Blank(block) {
      flushed := blocks + [block];
    } else {
      flushed := blocks;
    }
  }

  // ----- The largest block prefix -----

  /** How many of the leading blocks fit together, counting on from the first `k`. */
  function PrefixLength(blocks: seq<string>, k: nat, budget: Budget): (n: nat)
    requires k <= |blocks|
    ensures k <= n <= |blocks|
    decreases |blocks| - k
  {
    if k < |blocks| && FitsText(Join(blocks[..k + 1], "\n\n"), budget) then PrefixLength(blocks, k + 1, budget) else k
  }

  /** `take_markdown_prefix`. */
  function MarkdownPrefix(text: string, budget: Budget): string {
    var blocks := AtomicBlocks(text);
    Join(blocks[..PrefixLength(blocks, 0, budget)], "\n\n")
  }

  method TakeMarkdownPrefix(text: string, budget: Budget) returns (prefix: string)
    ensures prefix == MarkdownPrefix(text, budget)
  {
    var blocks := MarkdownAtomicBlocks(text);
    var accepted: seq<string> := [];
    var i := 0;
    while i < |blocks|
      invariant 0 <= i <= |blocks|
      invariant accepted == blocks[..i]
      invariant PrefixLength(blocks, 0, budget) == PrefixLength(blocks, i, budget)
    {
      var candidate := Join(accepted + [blocks[i]], "\n\n");
      assert blocks[..i] + [blocks[i]] == blocks[..i + 1];
      if !FitsText(candidate, budget) {
        break;
      }
      accepted := accepted + [blocks[i]];
      i := i + 1;
    }
    prefix := Join(accepted, "\n\n");
  }

  lemma JoinPrefix(blocks: seq<string>, j: nat, k: nat) returns (rest: string)
    requires j <= k <= |blocks|
    ensures Join(blocks[..k], "\n\n") == Join(blocks[..j], "\n\n") + rest
  {
    if j == 0 {
      rest := Join(blocks[..k], "\n\n");
    } else if j == k {
      rest := "";
    } else {
      assert blocks[..k] == blocks[..j] + blocks[j..k];
      JoinConcat(blocks[..j], blocks[j..k], "\n\n");
      rest := "\n\n" + Join(blocks[j..k], "\n\n");
      assert Join(blocks[..j], "\n\n") + "\n\n" + Join(blocks[j..k], "\n\n") == Join(blocks[..j], "\n\n") + rest;
    }
  }

  lemma ShorterPrefixFits(blocks: seq<string>, j: nat, k: nat, budget: Budget)
    requires j <= k <= |blocks| && FitsText(Join(blocks[..k], "\n\n"), budget)
    ensures FitsText(Join(blocks[..j], "\n\n"), budget)
  {
    var rest := JoinPrefix(blocks, j, k);
    var short := Join(blocks[..j], "\n\n");
    CountShrinks(short, rest, "");
    assert short + "" == short && short + rest + "" == short + rest;
  }

  lemma {:induction false} PrefixLengthLargest(blocks: seq<string>, k: nat, budget: Budget, n: nat)
    requires k <= n <= |blocks|
    requires k > 0 ==> FitsText(Join(blocks[..k], "\n\n"), budget)
    requires n > 0
    ensures n <= PrefixLength(blocks, k, budget) <==> n == k || FitsText(Join(blocks[..n], "\n\n"), budget)
    decreases |blocks| - k
  {
    if k < n {
      if FitsText(Join(blocks[..k + 1], "\n\n"), budget) {
        PrefixLengthLargest(blocks, k + 1, budget, n);
      } else if FitsText(Join(blocks[..n], "\n\n"), budget) {
        ShorterPrefixFits(blocks, k + 1, n, budget);
      }
    }
  }

  /** The prefix is a prefix of the blocks, and a longer one is within the budget for no length. */
  lemma PrefixIsLargest(text: string, budget: Budget, n: nat)
    requires 0 < n <= |AtomicBlocks(text)|
    ensures var kept := AtomicBlocks(MarkdownPrefix(text, budget));
            && kept <= AtomicBlocks(text) && MarkdownPrefix(text, budget) == Join(kept, "\n\n")
            && (n <= |kept| <==>
                  var joined := Join(AtomicBlocks(text)[..n], "\n\n");
                  |joined| <= budget.chars && TokenCount(joined) <= budget.tokens)
  {
    var blocks := AtomicBlocks(text);
    SplitJoinRoundTrip(text, PrefixLength(blocks, 0, budget));
    PrefixLengthLargest(blocks, 0, budget, n);
  }

  /** The prefix is empty or within both budgets. */
  lemma PrefixFits(text: string, budget: Budget)
    ensures var prefix := MarkdownPrefix(text, budget);
            prefix == "" || (|prefix| <= budget.chars && TokenCount(prefix) <= budget.tokens)
  {
    var blocks := AtomicBlocks(text);
    var n := PrefixLength(blocks, 0, budget);
    if n > 0 {
      PrefixLengthLargest(blocks, 0, budget, n);
    }
  }

  /** Taking the prefix twice changes nothing. */
  lemma PrefixIdempotent(text: string, budget: Budget)
    ensures MarkdownPrefix(MarkdownPrefix(text, budget), budget) == MarkdownPrefix(text, budget)
  {
    var blocks := AtomicBlocks(text);
    var n := PrefixLength(blocks, 0, budget);
    SplitJoinRoundTrip(text, n);
    if n > 0 {
      PrefixLengthLargest(blocks, 0, budget, n);
      assert blocks[..n][..n] == blocks[..n];
      PrefixLengthLargest(blocks[..n], 0, budget, n);
    }
  }
}
