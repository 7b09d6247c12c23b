/** Bounding one heading section: blocks packed together, and blocks that are too large divided. */
module Sectioner {
  import opened Results
  import opened Text
  import opened Tokens
  import opened Blocks
  import opened Packing

  // ----- Tables -----

  function DropPipesLeft(s: string): string {
    if s != "" && s[0] == '|' then DropPipesLeft(s[1..]) else s
  }

  function DropPipesRight(s: string): string {
    if s != "" && s[|s| - 1] == '|' then DropPipesRight(s[..|s| - 1]) else s
  }

  /** The split at every pipe not preceded by a backslash. */
  function SplitPipes(escaped: bool, s: string): (cells: seq<string>)
    ensures cells != []
    decreases s
  {
    if s == "" then [""]
    else if s[0] == '|' && !escaped then [""] + SplitPipes(false, s[1..])
    else
      var rest := SplitPipes(s[0] == '\\', s[1..]);
      [[s[0]] + rest[0]] + rest[1..]
  }

  /** `MarkdownSectioner._markdown_cells`, before each cell is stripped. */
  function TableCells(line: string): (cells: seq<string>)
    ensures Blank(line) ==> |cells| == 1
  {
    var inner := DropPipesRight(DropPipesLeft(Strip(line)));
    assert Blank(line) ==> inner == "" by { StripBlank(line); }
    SplitPipes(false, inner)
  }

  function RemoveSpaces(s: string): string {
    if s == "" then "" else (if s[0] == ' ' then "" else [s[0]]) + RemoveSpaces(s[1..])
  }

  /** A cell of the form `:?-{3,}:?` once its spaces are removed. */
  predicate SeparatorCell(cell: string) {
    var s := RemoveSpaces(Strip(cell));
    var t := if s != "" && s[0] == ':' then s[1..] else s;
    var dashes := if t != "" && t[|t| - 1] == ':' then t[..|t| - 1] else t;
    |dashes| >= 3 && forall i :: 0 <= i < |dashes| ==> dashes[i] == '-'
  }

  predicate IsTableSeparator(line: string) {
    var cells := TableCells(line);
    |cells| >= 2 && forall i :: 0 <= i < |cells| ==> SeparatorCell(cells[i])
  }

  // ----- The shell and the body of a block -----

  datatype BlockKind = Fenced | Table | Plain

  function KindOf(lines: seq<string>): BlockKind {
    if lines != [] && FenceOf(lines[0]).Some? then Fenced
    else if |lines| >= 2 && IsTableSeparator(lines[1]) then Table
    else Plain
  }

  function Repeat(c: char, n: nat): (s: string)
    ensures |s| == n && forall i :: 0 <= i < n ==> s[i] == c
  {
    seq(n, i => c)
  }

  /** The marker of an opening line: its fence characters. */
  function MarkerOf(opening: string): string
    requires FenceOf(opening).Some?
  {
    Repeat(FenceOf(opening).value.character, FenceOf(opening).value.length)
  }

  lemma FenceOfStrip(line: string)
    requires FenceOf(line).Some?
    ensures FenceOf(Strip(line)).Some?
    ensures FenceOf(Strip(line)).value.character == FenceOf(line).value.character
    ensures FenceOf(Strip(line)).value.length == FenceOf(line).value.length
  {
    hide Strip, FenceOf, StripLeft;
    var lead, trail := StripParts(line);
    FenceOfTrailing(lead + Strip(line), trail);
    FenceOfLeading(lead, Strip(line));
  }

  lemma FenceOfLeading(lead: string, body: string)
    requires Blank(lead) && Trimmed(body)
    ensures FenceOf(lead + body) == FenceOf(body)
  {
    hide RunLength, Blank;
    StripLeftOf(lead, body);
  }

  /** Whether the last line of a fenced block starts with the opening marker, and so closes it. */
  predicate HasClosing(lines: seq<string>)
    requires lines != [] && FenceOf(lines[0]).Some?
  {
    |lines| > 1 && MarkerOf(lines[0]) <= Strip(lines[|lines| - 1])
  }

  /** The stripped lines that show something. */
  function VisibleRows(lines: seq<string>): seq<string> {
    if lines == [] then []
    else (if Strip(lines[0]) == "" then [] else [Strip(lines[0])]) + VisibleRows(lines[1..])
  }

  /** What every part of the block repeats. */
  function ShellOf(lines: seq<string>): Shell {
    match KindOf(lines)
    case Fenced => Shell(Strip(lines[0]), if HasClosing(lines) then Strip(lines[|lines| - 1]) else MarkerOf(lines[0]))
    case Table => Shell(Strip(lines[0]) + "\n" + Strip(lines[1]), "")
    case Plain => Shell("", "")
  }

  /** What the parts of the block share out. */
  function BodyOf(lines: seq<string>): seq<string> {
    match KindOf(lines)
    case Fenced => if HasClosing(lines) then lines[1..|lines| - 1] else lines[1..]
    case Table => VisibleRows(lines[2..])
    case Plain => lines
  }

  /** `_split_atomic_block`. */
  function BlockParts(budget: Budget, heading: string, block: string): Result<seq<string>, SplitError> {
    var lines := SplitLines(block);
    PackLines(budget, heading, ShellOf(lines), BodyOf(lines))
  }

  method SplitAtomicBlock(budget: Budget, heading: string, block: string)
    returns (result: Result<seq<string>, SplitError>)
    ensures result == BlockParts(budget, heading, block)
  {
    hide PackLines, IsTableSeparator, FenceOf;
    var lines := SplitLines(block);
    if lines != [] && FenceOf(lines[0]).Some? {
      result := SplitFencedBlock(budget, heading, lines);
    } else if |lines| >= 2 && IsTableSeparator(lines[1]) {
      result := SplitTable(budget, heading, lines);
    } else {
      result := PackIntoParts(budget, heading, Shell("", ""), lines);
    }
  }

  method SplitFencedBlock(budget: Budget, heading: string, lines: seq<string>)
    returns (result: Result<seq<string>, SplitError>)
    requires KindOf(lines).Fenced?
    ensures result == PackLines(budget, heading, ShellOf(lines), BodyOf(lines))
  {
    hide PackLines, IsTableSeparator, FenceOf, Strip;
    var opening := Strip(lines[0]);
    FenceOfStrip(lines[0]);
    var marker := MarkerOf(opening);
    assert marker == MarkerOf(lines[0]);
    var hasClosing := |lines| > 1 && marker <= Strip(lines[|lines| - 1]);
    var closing := if hasClosing then Strip(lines[|lines| - 1]) else marker;
    var bodyLines := if hasClosing then lines[1..|lines| - 1] else lines[1..];
    result := PackIntoParts(budget, heading, Shell(opening, closing), bodyLines);
  }

  method SplitTable(budget: Budget, heading: string, lines: seq<string>)
    returns (result: Result<seq<string>, SplitError>)
    requires KindOf(lines).Table?
    ensures result == PackLines(budget, heading, ShellOf(lines), BodyOf(lines))
  {
    var header, separator := Strip(lines[0]), Strip(lines[1]);
    var prefix := header + "\n" + separator;
    result := PackIntoParts(budget, heading, Shell(prefix, ""), VisibleRows(lines[2..]));
  }

  // ----- A whole heading section -----

  /** One or more parts of a section: blocks packed into one text, or one block divided. */
  datatype Group = Packed(blocks: seq<string>, text: string) | Divided(block: string, parts: seq<string>)

  function TextsOf(group: Group): seq<string> {
    match group
    case Packed(_, text) => [text]
    case Divided(_, parts) => parts
  }

  function AllTexts(groups: seq<Group>): seq<string> {
    if groups == [] then [] else TextsOf(groups[0]) + AllTexts(groups[1..])
  }

  /** The blocks of a section; a text without any is one blank unit. */
  function Units(text: string): seq<string> {
    if AtomicBlocks(text) == [] then [Strip(text)] else AtomicBlocks(text)
  }

  function Candidate(current: string, block: string): string {
    if current == "" then block else Strip(current + "\n\n" + block)
  }

  function Close(groups: seq<Group>, held: seq<string>, current: string): seq<Group> {
    if current == "" then groups else groups + [Packed(held, current)]
  }

  /** `_split_oversized` from a state of its loop; `held` are the blocks that make up `current`. */
  function GroupsFrom(budget: Budget, heading: string, groups: seq<Group>,
                      held: seq<string>, current: string, blocks: seq<string>): Result<seq<Group>, SplitError>
    decreases blocks
  {
    if blocks == [] then Ok(Close(groups, held, current))
    else
      var block, rest := blocks[0], blocks[1..];
      if Fits(budget, heading, Candidate(current, block)) then
        GroupsFrom(budget, heading, groups, held + [block], Candidate(current, block), rest)
      else
        var flushed := Close(groups, held, current);
        if Fits(budget, heading, block) then
          GroupsFrom(budget, heading, flushed, [block], block, rest)
        else
          var parts :- BlockParts(budget, heading, block);
          GroupsFrom(budget, heading, flushed + [Divided(block, parts)], [], "", rest)
  }

  function SectionGroups(budget: Budget, heading: string, text: string): Result<seq<Group>, SplitError> {
    GroupsFrom(budget, heading, [], [], "", Units(text))
  }

  /** `_split_oversized`. */
  function SectionParts(budget: Budget, heading: string, text: string): Result<seq<string>, SplitError> {
    var groups :- SectionGroups(budget, heading, text);
    Ok(AllTexts(groups))
  }

  lemma {:induction false} AllTextsAppend(groups: seq<Group>, group: Group)
    ensures AllTexts(groups + [group]) == AllTexts(groups) + TextsOf(group)
  {
    if groups == [] {
      assert groups + [group] == [group];
      assert TextsOf(group) + [] == TextsOf(group);
    } else {
      assert (groups + [group])[1..] == groups[1..] + [group];
      AllTextsAppend(groups[1..], group);
      assert TextsOf(groups[0]) + (AllTexts(groups[1..]) + TextsOf(group))
          == TextsOf(groups[0]) + AllTexts(groups[1..]) + TextsOf(group);
    }
  }

  method SplitOversized(budget: Budget, heading: string, text: string)
    returns (result: Result<seq<string>, SplitError>)
    ensures result == SectionParts(budget, heading, text)
  {
    hide Fits, BlockParts, AtomicBlocks, Strip;
    var found := MarkdownAtomicBlocks(text);
    var blocks := if found == [] then [Strip(text)] else found;
    assert blocks == Units(text);
    var parts: seq<string>, current := [], "";
    ghost var groups: seq<Group>, held: seq<string> := [], [];
    var i := 0;
    while i < |blocks|
      invariant 0 <= i <= |blocks|
      invariant parts == AllTexts(groups)
      invariant SectionGroups(budget, heading, text) == GroupsFrom(budget, heading, groups, held, current, blocks[i..])
    {
      var block := blocks[i];
      assert blocks[i..][0] == block && blocks[i..][1..] == blocks[i + 1..];
      var candidate := if current != "" then Strip(current + "\n\n" + block) else block;
      i := i + 1;
      if Fits(budget, heading, candidate) {
        current, held := candidate, held + [block];
        continue;
      }
      AllTextsAppend(groups, Packed(held, current));
      groups := Close(groups, held, current);
      if current != "" {
        parts := parts + [current];
        current := "";
      }
      if Fits(budget, heading, block) {
        current, held := block, [block];
      } else {
        var pieces := SplitAtomicBlock(budget, heading, block);
        if pieces.Raised? {
          return pieces;
        }
        AllTextsAppend(groups, Divided(block, pieces.value));
        groups, held := groups + [Divided(block, pieces.value)], [];
        parts := parts + pieces.value;
      }
    }
    assert blocks[i..] == [];
    AllTextsAppend(groups, Packed(held, current));
    if current != "" {
      parts := parts + [current];
    }
    result := Ok(parts);
  }
}
