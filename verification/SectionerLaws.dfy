/** What bounding a heading section guarantees, block by block and for the whole section. */
module SectionerLaws {
  import opened Results
  import opened Text
  import opened Lines
  import opened Tokens
  import opened Blocks
  import opened Packing
  import opened PackingLaws
  import opened Layout
  import opened Sectioner

  // ----- One block -----

  predicate FirstVisible(lines: seq<string>) {
    lines != [] ==> !Blank(lines[0])
  }

  lemma ShellIsGood(lines: seq<string>)
    requires FirstVisible(lines)
    ensures GoodShell(ShellOf(lines))
  {
    hide Strip, Blank, FenceOf, TableCells;
    if KindOf(lines).Fenced? {
      var _, _ := StripParts(lines[0]);
      if HasClosing(lines) {
        var _, _ := StripParts(lines[|lines| - 1]);
      } else {
        MarkerTrimmed(lines[0]);
      }
    } else if KindOf(lines).Table? {
      var _, _ := StripParts(lines[0]);
      var _, _ := StripParts(lines[1]);
      StripBlank(lines[0]);
      StripBlank(lines[1]);
    }
  }

  lemma MarkerTrimmed(line: string)
    requires FenceOf(line).Some?
    ensures Trimmed(MarkerOf(line)) && NoSpace(MarkerOf(line))
  {
  }

  lemma {:induction false} InkVisibleRows(lines: seq<string>)
    ensures InkAll(VisibleRows(lines)) == InkAll(lines)
  {
    hide Strip, Ink, Blank;
    if lines != [] {
      InkVisibleRows(lines[1..]);
      InkStrip(lines[0]);
      if Strip(lines[0]) == "" {
        assert [] + VisibleRows(lines[1..]) == VisibleRows(lines[1..]);
        StripBlank(lines[0]);
        InkBlank(lines[0]);
      }
    }
  }

  /** What a closing line of a fenced block shows; a missing one shows nothing. */
  function ClosingInk(lines: seq<string>): string {
    if KindOf(lines).Fenced? && HasClosing(lines) then Ink(lines[|lines| - 1]) else ""
  }

  lemma InkEnds(first: string, middle: seq<string>, last: string)
    ensures InkAll([first] + middle + [last]) == Ink(first) + InkAll(middle) + Ink(last)
  {
    InkAllAppend([first] + middle, last);
    InkAllConcat([first], middle);
    InkAllOne(first);
  }

  lemma InkFirst(first: string, rest: seq<string>)
    ensures InkAll([first] + rest) == Ink(first) + InkAll(rest)
  {
    InkAllConcat([first], rest);
    InkAllOne(first);
  }

  lemma FencedAccounts(lines: seq<string>)
    requires KindOf(lines).Fenced?
    ensures InkAll(lines) == Ink(ShellOf(lines).prefix) + InkAll(BodyOf(lines)) + ClosingInk(lines)
  {
    hide Strip, FenceOf, IsTableSeparator, InkAll, Ink;
    InkStrip(lines[0]);
    if HasClosing(lines) {
      var last := |lines| - 1;
      assert lines == [lines[0]] + lines[1..last] + [lines[last]];
      InkEnds(lines[0], lines[1..last], lines[last]);
    } else {
      assert lines == [lines[0]] + lines[1..];
      InkFirst(lines[0], lines[1..]);
    }
  }

  lemma TableAccounts(lines: seq<string>)
    requires KindOf(lines).Table?
    ensures InkAll(lines) == Ink(ShellOf(lines).prefix) + InkAll(BodyOf(lines))
  {
    hide Strip, FenceOf, IsTableSeparator, InkAll, Ink, VisibleRows;
    InkVisibleRows(lines[2..]);
    InkStrip(lines[0]);
    InkStrip(lines[1]);
    TwoLines(Strip(lines[0]), Strip(lines[1]));
    assert lines == [lines[0]] + ([lines[1]] + lines[2..]);
    InkFirst(lines[0], [lines[1]] + lines[2..]);
    InkFirst(lines[1], lines[2..]);
  }

  /** A block is its shell's prefix, its body, and the closing line when it has one. */
  lemma BlockAccounts(block: string)
    ensures var lines := SplitLines(block);
            Ink(block) == Ink(ShellOf(lines).prefix) + InkAll(BodyOf(lines)) + ClosingInk(lines)
  {
    hide Strip, FenceOf, IsTableSeparator, InkAll, Ink, SplitLines, HasClosing;
    var lines := SplitLines(block);
    InkSplitLines(block);
    InkBlank("");
    match KindOf(lines)
    case Fenced => FencedAccounts(lines);
    case Table => TableAccounts(lines);
    case Plain =>
  }

  lemma TwoLines(a: string, b: string)
    ensures Ink(a + "\n" + b) == Ink(a) + Ink(b)
  {
    BlankBreak();
    InkAroundBlank(a, "\n", b);
  }

  /** Nothing of a divided block is lost, duplicated or reordered. */
  lemma BlockConserves(budget: Budget, heading: string, block: string)
    requires BlockParts(budget, heading, block).Ok?
    ensures var lines := SplitLines(block);
            Carries(ShellOf(lines), BlockParts(budget, heading, block).value, InkAll(BodyOf(lines)))
  {
    PackConserves(budget, heading, ShellOf(SplitLines(block)), BodyOf(SplitLines(block)));
  }

  /** A block that does not fit although its body shows nothing and cannot be divided. */
  predicate Unchecked(budget: Budget, heading: string, block: string) {
    !Fits(budget, heading, block)
    && BareShell(budget, heading, ShellOf(SplitLines(block)), BodyOf(SplitLines(block)))
  }

  /** A block that cannot be bounded: too large, and no room for one character of its body in its shell. */
  predicate Unsplittable(budget: Budget, heading: string, block: string) {
    && !Fits(budget, heading, block)
    && !AllBlank(BodyOf(SplitLines(block)))
    && !Room(budget, heading, ShellOf(SplitLines(block)))
  }

  // ----- The whole section -----

  predicate AllVisible(blocks: seq<string>) {
    forall i :: 0 <= i < |blocks| ==> !Blank(blocks[i]) && FirstVisible(SplitLines(blocks[i]))
  }

  function BlocksOf(groups: seq<Group>): seq<string> {
    if groups == [] then []
    else BlocksIn(groups[0]) + BlocksOf(groups[1..])
  }

  // ----- The text of packed blocks -----

  /** Each block after an empty line, without whitespace at its end. */
  function Tail(blocks: seq<string>): string {
    if blocks == [] then "" else "\n\n" + StripRight(blocks[0]) + Tail(blocks[1..])
  }

  /**
   What packing makes of blocks: one block stays as it is; of several, the first loses the whitespace it
   starts with, indentation included, and every later one the whitespace it ends with.
   */
  function PackedText(blocks: seq<string>): string {
    if |blocks| == 0 then ""
    else if |blocks| == 1 then blocks[0]
    else StripLeft(blocks[0]) + Tail(blocks[1..])
  }

  lemma {:induction false} TailAppend(blocks: seq<string>, block: string)
    ensures Tail(blocks + [block]) == Tail(blocks) + "\n\n" + StripRight(block)
  {
    hide StripRight;
    if blocks == [] {
      assert blocks + [block] == [block] && [block][1..] == [];
      assert "\n\n" + StripRight(block) + "" == "" + "\n\n" + StripRight(block);
    } else {
      assert (blocks + [block])[1..] == blocks[1..] + [block];
      TailAppend(blocks[1..], block);
      var first, later := "\n\n" + StripRight(blocks[0]), Tail(blocks[1..]);
      assert first + (later + "\n\n" + StripRight(block)) == first + later + "\n\n" + StripRight(block);
    }
  }

  lemma StripRightVisible(front: string, b: string)
    requires !Blank(b)
    ensures StripRight(front + b) == front + StripRight(b)
  {
    hide StripRight;
    var trail := StripRightParts(b);
    assert StripRight(b) != "" by { assert StripRight(b) == "" ==> b == trail; }
    assert front + b == (front + StripRight(b)) + trail;
    StripRightOf(front + StripRight(b), trail);
  }

  /** Joining and stripping two visible texts keeps the inner ends as they are. */
  lemma StripJoined(a: string, b: string)
    requires !Blank(a) && !Blank(b)
    ensures Strip(a + "\n\n" + b) == StripLeft(a) + "\n\n" + StripRight(b)
  {
    hide StripLeft, StripRight, Blank;
    assert a + "\n\n" + b == a + ("\n\n" + b);
    var kept := StripLeftVisible(a, "\n\n" + b);
    assert kept + ("\n\n" + b) == (kept + "\n\n") + b;
    StripRightVisible(kept + "\n\n", b);
  }

  /** One more block joins what is packed. */
  lemma PackOne(held: seq<string>, block: string)
    requires held != [] && (forall i :: 0 <= i < |held| ==> !Blank(held[i])) && !Blank(block)
    requires !Blank(PackedText(held))
    ensures Strip(PackedText(held) + "\n\n" + block) == PackedText(held + [block])
  {
    hide Strip, StripLeft, StripRight, Blank;
    var first, later := held[0], held[1..];
    var front := StripLeft(first);
    StripJoined(PackedText(held), block);
    TailAppend(later, block);
    assert (held + [block])[1..] == later + [block];
    assert front + (Tail(later) + "\n\n" + StripRight(block)) == front + Tail(later) + "\n\n" + StripRight(block);
    if later == [] {
      assert front + "" == front;
    } else {
      StripLeftTwice(first, Tail(later));
    }
  }

  lemma StripLeftTwice(a: string, rest: string)
    requires !Blank(a)
    ensures StripLeft(StripLeft(a) + rest) == StripLeft(a) + rest
  {
    hide StripLeft;
    var lead := StripLeftParts(a);
    assert StripLeft(a) != "" by { assert StripLeft(a) == "" ==> a == lead; }
    assert "" + (StripLeft(a) + rest) == StripLeft(a) + rest;
    StripLeftOf("", StripLeft(a) + rest);
  }

  predicate StartsBare(block: string) {
    block != "" && !IsSpace(block[0])
  }

  predicate EndsBare(block: string) {
    block != "" && !IsSpace(block[|block| - 1])
  }

  /** The later blocks end in something visible. */
  predicate AllEndBare(blocks: seq<string>) {
    forall i :: 0 <= i < |blocks| ==> EndsBare(blocks[i])
  }

  lemma {:induction false} StripLeftShorter(s: string)
    requires s != ""
    ensures |StripLeft(s)| <= |s| && (StripLeft(s) == s <==> StartsBare(s)) && (!StartsBare(s) ==> |StripLeft(s)| < |s|)
  {
    if |s| > 1 { StripLeftShorter(s[1..]); }
  }

  lemma {:induction false} StripRightShorter(s: string)
    requires s != ""
    ensures |StripRight(s)| <= |s| && (StripRight(s) == s <==> EndsBare(s)) && (!EndsBare(s) ==> |StripRight(s)| < |s|)
  {
    if |s| > 1 { StripRightShorter(s[..|s| - 1]); }
  }

  /** The tail is the blocks as they are, each after an empty line, exactly when they end in something visible. */
  lemma {:induction false} TailKeepsIff(blocks: seq<string>)
    requires forall i :: 0 <= i < |blocks| ==> blocks[i] != ""
    ensures blocks == [] ==> Tail(blocks) == ""
    ensures blocks != [] && AllEndBare(blocks) ==> Tail(blocks) == "\n\n" + Join(blocks, "\n\n")
    ensures blocks != [] && !AllEndBare(blocks) ==> |Tail(blocks)| < 2 + |Join(blocks, "\n\n")|
    ensures blocks != [] ==> |Tail(blocks)| <= 2 + |Join(blocks, "\n\n")|
  {
    hide StripRight, EndsBare;
    if blocks != [] {
      var rest := blocks[1..];
      assert blocks == [blocks[0]] + rest;
      assert forall i :: 0 <= i < |rest| ==> rest[i] == blocks[i + 1];
      StripRightShorter(blocks[0]);
      TailKeepsIff(rest);
      if rest == [] {
        assert "\n\n" + StripRight(blocks[0]) + "" == "\n\n" + StripRight(blocks[0]);
      } else {
        var last := Join(rest, "\n\n");
        assert "\n\n" + blocks[0] + ("\n\n" + last) == "\n\n" + (blocks[0] + "\n\n" + last);
      }
    }
  }

  /**
   Packing keeps its blocks character for character, with an empty line between them, if and only if there
   is one block, or the first does not start with whitespace and no later one ends with it.
   */
  lemma PackedKeepsIff(blocks: seq<string>)
    requires blocks != [] && forall i :: 0 <= i < |blocks| ==> blocks[i] != ""
    ensures PackedText(blocks) == Join(blocks, "\n\n")
       <==> |blocks| == 1 || (StartsBare(blocks[0]) && AllEndBare(blocks[1..]))
  {
    hide StripLeft, StripRight, StartsBare, AllEndBare, Tail;
    if |blocks| > 1 {
      var first, rest := blocks[0], blocks[1..];
      assert forall i :: 0 <= i < |rest| ==> rest[i] == blocks[i + 1];
      StripLeftShorter(first);
      TailKeepsIff(rest);
      JoinFirst(first, rest);
      assert blocks == [first] + rest;
      if StartsBare(first) && AllEndBare(rest) {
        assert PackedText(blocks) == first + ("\n\n" + Join(rest, "\n\n"));
      } else {
        assert |PackedText(blocks)| < |first| + (2 + |Join(rest, "\n\n")|);
      }
    }
  }

  /** Blocks of a text that packing keeps are what the packed text splits into, so their lines are whole in it. */
  lemma PackedReadsBack(text: string, j: nat, k: nat)
    requires j < k <= |AtomicBlocks(text)|
    requires k == j + 1 || (StartsBare(AtomicBlocks(text)[j]) && AllEndBare(AtomicBlocks(text)[j + 1..k]))
    ensures var blocks := AtomicBlocks(text)[j..k];
            && AtomicBlocks(PackedText(blocks)) == blocks
            && Woven(SplitLines(PackedText(blocks)), LinesOf(blocks))
  {
    hide AtomicBlocks, Woven, StartsBare, AllEndBare, PackedText, SplitLines;
    var blocks := AtomicBlocks(text)[j..k];
    forall i | 0 <= i < |blocks| ensures blocks[i] != "" {
      BlockShape(text, j + i);
      assert blocks[i] == AtomicBlocks(text)[j + i];
    }
    assert blocks[1..] == AtomicBlocks(text)[j + 1..k];
    PackedKeepsIff(blocks);
    SplitJoinSlice(text, j, k);
    BlocksKeepLines(PackedText(blocks));
  }

  lemma JoinFirst(first: string, rest: seq<string>)
    requires rest != []
    ensures Join([first] + rest, "\n\n") == first + ("\n\n" + Join(rest, "\n\n"))
  {
    assert ([first] + rest)[1..] == rest;
    assert first + "\n\n" + Join(rest, "\n\n") == first + ("\n\n" + Join(rest, "\n\n"));
  }

  // ----- The groups of a section -----

  /** A packed group fits and shows its blocks; a divided block did not fit and was divided as it is. */
  predicate GroupOk(budget: Budget, heading: string, group: Group) {
    match group
    case Packed(blocks, text) =>
      && Fits(budget, heading, text)
      && blocks != [] && text == PackedText(blocks) && Ink(text) == InkAll(blocks)
      && forall i :: 0 <= i < |blocks| ==> !Blank(blocks[i]) && Fits(budget, heading, blocks[i])
    case Divided(block, parts) => !Fits(budget, heading, block) && BlockParts(budget, heading, block) == Ok(parts)
  }

  predicate GroupsOk(budget: Budget, heading: string, groups: seq<Group>) {
    forall i :: 0 <= i < |groups| ==> GroupOk(budget, heading, groups[i])
  }

  /** The loop's open text: empty with nothing held, or visible, fitting, and showing what is held. */
  predicate OpenOk(budget: Budget, heading: string, held: seq<string>, current: string) {
    if current == "" then held == [] else !Blank(current) && GroupOk(budget, heading, Packed(held, current))
  }

  lemma {:induction false} BlocksOfAppend(groups: seq<Group>, group: Group)
    ensures BlocksOf(groups + [group]) == BlocksOf(groups) + BlocksIn(group)
  {
    hide BlocksIn;
    if groups == [] {
      assert groups + [group] == [group];
      assert BlocksIn(group) + [] == BlocksIn(group);
    } else {
      assert (groups + [group])[1..] == groups[1..] + [group];
      BlocksOfAppend(groups[1..], group);
      assert BlocksIn(groups[0]) + (BlocksOf(groups[1..]) + BlocksIn(group))
          == BlocksIn(groups[0]) + BlocksOf(groups[1..]) + BlocksIn(group);
    }
  }

  lemma FlushOk(budget: Budget, heading: string, groups: seq<Group>, held: seq<string>, current: string)
    requires GroupsOk(budget, heading, groups) && OpenOk(budget, heading, held, current)
    ensures GroupsOk(budget, heading, Close(groups, held, current))
    ensures BlocksOf(Close(groups, held, current)) == BlocksOf(groups) + held
  {
    hide GroupOk, Blank;
    if current == "" {
      assert BlocksOf(groups) + [] == BlocksOf(groups);
    } else {
      BlocksOfAppend(groups, Packed(held, current));
    }
  }

  lemma StripRightTail(a: string, trail: string)
    requires Blank(trail)
    ensures Strip(a + trail) == Strip(a)
  {
    hide Strip;
    var l, t := StripParts(a);
    assert a + trail == l + Strip(a) + (t + trail);
    StripOf(l, Strip(a), t + trail);
  }

  lemma TailIsFree(budget: Budget, heading: string, body: string, trail: string)
    requires Blank(trail)
    ensures Fits(budget, heading, body + trail) == Fits(budget, heading, body)
  {
    hide Strip, FitsText, Blank;
    assert heading + "\n\n" + (body + trail) == heading + "\n\n" + body + trail;
    StripRightTail(heading + "\n\n" + body, trail);
  }

  /** A block joined to a text that fits would fit alone. */
  lemma CandidateNeedsBlock(budget: Budget, heading: string, current: string, block: string)
    requires !Blank(current) && !Blank(block)
    requires Fits(budget, heading, Strip(current + "\n\n" + block))
    ensures Fits(budget, heading, block)
  {
    hide Fits, Strip, Blank, StripLeft, StripRight;
    var lead, trail := StripParts(block);
    var m := Strip(block);
    StripBlank(block);
    var front := current + "\n\n" + lead;
    assert current + "\n\n" + block == front + m + trail;
    StripAround(front, m, trail);
    StripRightBlank(trail);
    var c := StripLeftVisible(current, "\n\n" + lead);
    assert front == current + ("\n\n" + lead);
    assert StripLeft(front) + m + "" == "" + (c + "\n\n") + (lead + m);
    DeletionFitsBody(budget, heading, "", c + "\n\n", lead + m);
    assert "" + (lead + m) == lead + m;
    TailIsFree(budget, heading, lead + m, trail);
    assert lead + m + trail == block;
  }

  lemma StripRightBlank(trail: string)
    requires Blank(trail)
    ensures StripRight(trail) == ""
  {
    StripRightOf("", trail);
    assert "" + trail == trail;
  }

  lemma StripLeftVisible(a: string, rest: string) returns (kept: string)
    requires !Blank(a)
    ensures kept == StripLeft(a) && StripLeft(a + rest) == kept + rest
  {
    hide StripLeft;
    var lead := StripLeftParts(a);
    kept := StripLeft(a);
    assert kept != "" by { assert kept == "" ==> a == lead; }
    assert a + rest == lead + (kept + rest);
    StripLeftOf(lead, kept + rest);
  }

  lemma CandidateOk(budget: Budget, heading: string, held: seq<string>, current: string, block: string)
    requires OpenOk(budget, heading, held, current) && !Blank(block)
    requires Fits(budget, heading, Candidate(current, block))
    ensures Candidate(current, block) != "" && OpenOk(budget, heading, held + [block], Candidate(current, block))
    ensures Fits(budget, heading, block)
  {
    hide Fits, Strip, Blank;
    InkAllAppend(held, block);
    InkBlank(block);
    InkBlank(Candidate(current, block));
    if current == "" {
      assert [] + [block] == [block];
      assert "" + Ink(block) == Ink(block);
    } else {
      CandidateNeedsBlock(budget, heading, current, block);
      HeldIsSome(held, current);
      PackOne(held, block);
      InkStrip(current + "\n\n" + block);
      BlankBreak();
      assert Blank("\n\n") by { assert "\n\n" == "\n" + "\n"; BlankPair(); }
      InkAroundBlank(current, "\n\n", block);
    }
    assert Ink("") == "";
  }

  lemma HeldIsSome(held: seq<string>, current: string)
    requires current != "" && current == PackedText(held)
    ensures held != []
  {
  }

  lemma {:induction false} GroupsFromOk(budget: Budget, heading: string, groups: seq<Group>,
                                        held: seq<string>, current: string, blocks: seq<string>)
    requires GroupsOk(budget, heading, groups) && OpenOk(budget, heading, held, current) && AllVisible(blocks)
    ensures var result := GroupsFrom(budget, heading, groups, held, current, blocks);
            result.Ok? ==> GroupsOk(budget, heading, result.value)
                           && BlocksOf(result.value) == BlocksOf(groups) + held + blocks
    ensures GroupsFrom(budget, heading, groups, held, current, blocks).Raised?
       <==> exists i :: 0 <= i < |blocks| && !Fits(budget, heading, blocks[i])
                        && BlockParts(budget, heading, blocks[i]).Raised?
    decreases blocks
  {
    hide Fits, BlockParts, OpenOk, GroupsOk, Candidate, Close, Blank, BlocksOf;
    FlushOk(budget, heading, groups, held, current);
    if blocks == [] {
      assert BlocksOf(groups) + held + [] == BlocksOf(groups) + held;
    } else {
      var block, rest := blocks[0], blocks[1..];
      VisibleRest(blocks);
      assert blocks == [block] + rest;
      var flushed := Close(groups, held, current);
      if Fits(budget, heading, Candidate(current, block)) {
        CandidateOk(budget, heading, held, current, block);
        GroupsFromOk(budget, heading, groups, held + [block], Candidate(current, block), rest);
        HeldThenBlock(BlocksOf(groups), held, block, rest);
      } else if Fits(budget, heading, block) {
        OpenOne(budget, heading, block);
        GroupsFromOk(budget, heading, flushed, [block], block, rest);
        HeldThenBlock(BlocksOf(groups), held, block, rest);
      } else if BlockParts(budget, heading, block).Ok? {
        var group := Divided(block, BlockParts(budget, heading, block).value);
        DividedOk(budget, heading, flushed, group);
        OpenNothing(budget, heading);
        GroupsFromOk(budget, heading, flushed + [group], [], "", rest);
        HeldThenBlock(BlocksOf(groups), held, block, rest);
      }
    }
  }

  lemma HeldThenBlock(done: seq<string>, held: seq<string>, block: string, rest: seq<string>)
    ensures done + (held + [block]) + rest == done + held + ([block] + rest)
    ensures (done + held) + [block] + rest == done + held + ([block] + rest)
    ensures (done + held) + [block] + [] + rest == done + held + ([block] + rest)
  {
  }

  lemma VisibleRest(blocks: seq<string>)
    requires AllVisible(blocks) && blocks != []
    ensures AllVisible(blocks[1..]) && !Blank(blocks[0])
  {
    hide Blank, FirstVisible, SplitLines;
    var rest := blocks[1..];
    assert forall i :: 0 <= i < |rest| ==> rest[i] == blocks[i + 1];
  }

  lemma OpenNothing(budget: Budget, heading: string)
    ensures OpenOk(budget, heading, [], "") && GroupsOk(budget, heading, [])
  {
  }

  lemma OpenOne(budget: Budget, heading: string, block: string)
    requires !Blank(block) && Fits(budget, heading, block)
    ensures OpenOk(budget, heading, [block], block)
  {
    hide Fits;
    InkAllOne(block);
  }

  lemma DividedOk(budget: Budget, heading: string, groups: seq<Group>, group: Group)
    requires GroupsOk(budget, heading, groups) && group.Divided? && GroupOk(budget, heading, group)
    ensures GroupsOk(budget, heading, groups + [group])
            && BlocksOf(groups + [group]) == BlocksOf(groups) + [group.block]
  {
    hide GroupOk;
    BlocksOfAppend(groups, group);
  }

  lemma BlocksAreVisible(text: string)
    requires !Blank(text)
    ensures Units(text) == AtomicBlocks(text) && AllVisible(AtomicBlocks(text))
  {
    hide AtomicBlocks, Strip, Blank, SplitLines;
    BlocksConserve(text);
    InkBlank(text);
    forall i | 0 <= i < |AtomicBlocks(text)|
      ensures !Blank(AtomicBlocks(text)[i]) && FirstVisible(SplitLines(AtomicBlocks(text)[i]))
    {
      BlockShape(text, i);
    }
  }

  lemma SectionGroupsOk(budget: Budget, heading: string, text: string)
    requires !Blank(text)
    ensures var result := SectionGroups(budget, heading, text);
            result.Ok? ==> GroupsOk(budget, heading, result.value) && BlocksOf(result.value) == AtomicBlocks(text)
    ensures SectionGroups(budget, heading, text).Raised?
       <==> exists i :: 0 <= i < |AtomicBlocks(text)| && !Fits(budget, heading, AtomicBlocks(text)[i])
                        && BlockParts(budget, heading, AtomicBlocks(text)[i]).Raised?
  {
    hide AtomicBlocks, Units, Fits, BlockParts, GroupsFrom, Blank, AllVisible;
    BlocksAreVisible(text);
    OpenNothing(budget, heading);
    GroupsFromOk(budget, heading, [], [], "", Units(text));
    assert [] + [] + AtomicBlocks(text) == AtomicBlocks(text);
  }

  // ----- How a divided block lies in its parts -----

  function StripEach(lines: seq<string>): (stripped: seq<string>)
    ensures |stripped| == |lines| && forall i :: 0 <= i < |lines| ==> stripped[i] == Strip(lines[i])
  {
    seq(|lines|, i requires 0 <= i < |lines| => Strip(lines[i]))
  }

  /** The rows of a table are its lines that are not blank, stripped. */
  lemma {:induction false} RowsAreShown(lines: seq<string>)
    ensures VisibleRows(lines) == StripEach(Shown(lines))
  {
    hide Strip, Blank;
    if lines != [] {
      RowsAreShown(lines[1..]);
      StripBlank(lines[0]);
      var rest := Shown(lines[1..]);
      if Blank(lines[0]) {
        assert Shown(lines) == rest && VisibleRows(lines) == VisibleRows(lines[1..]);
      } else {
        assert StripEach([lines[0]] + rest) == [Strip(lines[0])] + StripEach(rest);
      }
    }
  }

  /**
   The parts of a fence are its body lines between its stripped opening line and its stripped closing line,
   or the bare marker if nothing closes it; those of a table are its rows under its stripped header and
   separator; and those of any other block are its lines alone.
   */
  ghost predicate Divides(budget: Budget, heading: string, block: string, parts: seq<string>) {
    var lines := SplitLines(block);
    if lines != [] && FenceOf(lines[0]).Some? then
      var mark, last := FenceOf(lines[0]).value, Strip(lines[|lines| - 1]);
      var marker := Repeat(mark.character, mark.length);
      if |lines| > 1 && marker <= last
      then Laid(budget, heading, Frame([Strip(lines[0])], [last]), lines[1..|lines| - 1], parts)
      else Laid(budget, heading, Frame([Strip(lines[0])], [marker]), lines[1..], parts)
    else if |lines| >= 2 && IsTableSeparator(lines[1]) then
      Laid(budget, heading, Frame([Strip(lines[0]), Strip(lines[1])], []), StripEach(Shown(lines[2..])), parts)
    else Laid(budget, heading, Frame([], []), lines, parts)
  }

  lemma FenceFrames(lines: seq<string>)
    requires lines != [] && FenceOf(lines[0]).Some?
    ensures KindOf(lines) == Fenced
    ensures var shell := ShellOf(lines); Frames(shell, Frame([shell.prefix], [shell.suffix]))
  {
    hide Strip, FenceOf, Blank;
    var opening := lines[0];
    StripBlank(opening);
    MarkerIsLong(opening);
  }

  lemma MarkerIsLong(opening: string)
    requires FenceOf(opening).Some?
    ensures |MarkerOf(opening)| >= 3
  {
  }

  lemma TableFrames(lines: seq<string>)
    requires KindOf(lines) == Table
    ensures Frames(ShellOf(lines), Frame([Strip(lines[0]), Strip(lines[1])], []))
  {
    hide Strip, FenceOf, IsTableSeparator;
    var head := [Strip(lines[0]), Strip(lines[1])];
    assert head[1..] == [Strip(lines[1])];
    assert Join(head, "\n") == Strip(lines[0]) + "\n" + Strip(lines[1]);
  }

  lemma PlainFrames()
    ensures Frames(Shell("", ""), Frame([], []))
  {
  }

  lemma BlockDivides(budget: Budget, heading: string, block: string)
    requires BlockParts(budget, heading, block).Ok? && FirstVisible(SplitLines(block))
    ensures Divides(budget, heading, block, BlockParts(budget, heading, block).value)
  {
    hide PackLines, Laid, Frames, FenceOf, IsTableSeparator, Strip, GoodShell, SplitLines, FirstVisible;
    var lines := SplitLines(block);
    ShellIsGood(lines);
    var shell := ShellOf(lines);
    if lines != [] && FenceOf(lines[0]).Some? {
      FenceFrames(lines);
      PackLays(budget, heading, shell, Frame([shell.prefix], [shell.suffix]), BodyOf(lines));
    } else if |lines| >= 2 && IsTableSeparator(lines[1]) {
      TableFrames(lines);
      RowsAreShown(lines[2..]);
      PackLays(budget, heading, shell, Frame([Strip(lines[0]), Strip(lines[1])], []), BodyOf(lines));
    } else {
      PlainFrames();
      PackLays(budget, heading, shell, Frame([], []), BodyOf(lines));
    }
  }

  /**
   What a group has of its blocks: all of them packed in its one text, or the lines of one too large laid
   out in parts.
   */
  ghost predicate GroupCarries(budget: Budget, heading: string, group: Group) {
    match group
    case Packed(blocks, text) =>
      blocks != [] && text == PackedText(blocks) && Ink(text) == InkAll(blocks) && Fits(budget, heading, text)
    case Divided(block, parts) =>
      var lines := SplitLines(block);
      && !Fits(budget, heading, block)
      && Divides(budget, heading, block, parts)
      && Carries(ShellOf(lines), parts, InkAll(BodyOf(lines)))
      && Ink(block) == Ink(ShellOf(lines).prefix) + InkAll(BodyOf(lines)) + ClosingInk(lines)
  }

  // ----- Groups take as many blocks as fit -----

  function FirstBlock(group: Group): seq<string> {
    if BlocksIn(group) == [] then [] else [BlocksIn(group)[0]]
  }

  /** A packed group had no room for the first block of the group after it. */
  predicate GroupFull(budget: Budget, heading: string, first: Group, second: Group) {
    first.Packed? ==> !Fits(budget, heading, PackedText(first.blocks + FirstBlock(second)))
  }

  predicate GroupsFull(budget: Budget, heading: string, groups: seq<Group>) {
    forall i :: 0 <= i < |groups| - 1 ==> GroupFull(budget, heading, groups[i], groups[i + 1])
  }

  /** The last group had no room for the next block. */
  predicate LastFull(budget: Budget, heading: string, groups: seq<Group>, blocks: seq<string>) {
    (groups != [] && blocks != [] && groups[|groups| - 1].Packed?)
    ==> !Fits(budget, heading, PackedText(groups[|groups| - 1].blocks + [blocks[0]]))
  }

  lemma GroupsFullAppend(budget: Budget, heading: string, groups: seq<Group>, group: Group)
    requires GroupsFull(budget, heading, groups) && BlocksIn(group) != []
    requires LastFull(budget, heading, groups, [BlocksIn(group)[0]])
    ensures GroupsFull(budget, heading, groups + [group])
  {
    hide Fits, PackedText;
    var all := groups + [group];
    forall i | 0 <= i < |all| - 1 ensures GroupFull(budget, heading, all[i], all[i + 1]) {
      if i < |groups| - 1 { assert GroupFull(budget, heading, groups[i], groups[i + 1]); }
    }
  }

  lemma ClosedFull(budget: Budget, heading: string, groups: seq<Group>, held: seq<string>, current: string,
                   block: string, rest: seq<string>)
    requires OpenOk(budget, heading, held, current) && !Blank(block)
    requires GroupsFull(budget, heading, groups) && LastFull(budget, heading, groups, held + ([block] + rest))
    requires !Fits(budget, heading, Candidate(current, block))
    ensures GroupsFull(budget, heading, Close(groups, held, current))
    ensures LastFull(budget, heading, Close(groups, held, current), [block])
  {
    hide Fits, PackedText, Blank, Strip;
    if current == "" {
      assert [] + ([block] + rest) == [block] + rest;
    } else {
      HeldIsSome(held, current);
      GroupsFullAppend(budget, heading, groups, Packed(held, current));
      PackOne(held, block);
    }
  }

  lemma {:induction false} GroupsFromFull(budget: Budget, heading: string, groups: seq<Group>,
                                          held: seq<string>, current: string, blocks: seq<string>)
    requires OpenOk(budget, heading, held, current) && AllVisible(blocks)
    requires GroupsFull(budget, heading, groups) && LastFull(budget, heading, groups, held + blocks)
    requires GroupsFrom(budget, heading, groups, held, current, blocks).Ok?
    ensures GroupsFull(budget, heading, GroupsFrom(budget, heading, groups, held, current, blocks).value)
    decreases blocks
  {
    hide Fits, BlockParts, GroupsFull, LastFull, OpenOk, Candidate, Close, Blank;
    if blocks == [] {
      assert held + [] == held;
      LastClosedFull(budget, heading, groups, held, current);
    } else {
      var block, rest := blocks[0], blocks[1..];
      VisibleRest(blocks);
      assert blocks == [block] + rest;
      if Fits(budget, heading, Candidate(current, block)) {
        CandidateOk(budget, heading, held, current, block);
        assert held + ([block] + rest) == held + [block] + rest;
        GroupsFromFull(budget, heading, groups, held + [block], Candidate(current, block), rest);
      } else {
        ClosedFull(budget, heading, groups, held, current, block, rest);
        var flushed := Close(groups, held, current);
        if Fits(budget, heading, block) {
          OpenOne(budget, heading, block);
          LastFullOf(budget, heading, flushed, block, rest);
          GroupsFromFull(budget, heading, flushed, [block], block, rest);
        } else {
          var group := Divided(block, BlockParts(budget, heading, block).value);
          OpenNothing(budget, heading);
          assert LastFull(budget, heading, flushed, [BlocksIn(group)[0]]);
          GroupsFullAppend(budget, heading, flushed, group);
          DividedIsFull(budget, heading, flushed, group, [] + rest);
          GroupsFromFull(budget, heading, flushed + [group], [], "", rest);
        }
      }
    }
  }

  lemma LastFullOf(budget: Budget, heading: string, groups: seq<Group>, block: string, rest: seq<string>)
    requires LastFull(budget, heading, groups, [block])
    ensures LastFull(budget, heading, groups, [block] + rest)
  {
    hide Fits, PackedText;
    assert ([block] + rest)[0] == block;
  }

  lemma DividedIsFull(budget: Budget, heading: string, groups: seq<Group>, group: Group, blocks: seq<string>)
    requires group.Divided?
    ensures LastFull(budget, heading, groups + [group], blocks)
  {
  }

  lemma LastClosedFull(budget: Budget, heading: string, groups: seq<Group>, held: seq<string>, current: string)
    requires OpenOk(budget, heading, held, current)
    requires GroupsFull(budget, heading, groups) && LastFull(budget, heading, groups, held)
    ensures GroupsFull(budget, heading, Close(groups, held, current))
  {
    hide Fits, PackedText, Blank;
    if current != "" {
      HeldIsSome(held, current);
      GroupsFullAppend(budget, heading, groups, Packed(held, current));
    }
  }

  /**
   Conservation through the whole fallback chain: the parts fall into groups, the groups take each
   block of the section once and in order, and every group shows exactly what its blocks show.
   */
  lemma SectionConserves(budget: Budget, heading: string, text: string)
    requires !Blank(text) && SectionParts(budget, heading, text).Ok?
    ensures var groups := SectionGroups(budget, heading, text).value;
            && SectionParts(budget, heading, text).value == AllTexts(groups)
            && BlocksOf(groups) == AtomicBlocks(text)
            && InkAll(BlocksOf(groups)) == Ink(text)
            && (forall i :: 0 <= i < |groups| ==> GroupCarries(budget, heading, groups[i]))
            && GroupsFull(budget, heading, groups)
  {
    hide AtomicBlocks, Units, Fits, BlockParts, GroupsFrom, Blank, GroupCarries, GroupsFull, FirstVisible,
         SplitLines, Ink, InkAll;
    SectionGroupsOk(budget, heading, text);
    BlocksConserve(text);
    BlocksAreVisible(text);
    var groups := SectionGroups(budget, heading, text).value;
    UncheckedBlocks(budget, heading, groups);
    forall i | 0 <= i < |groups| ensures GroupCarries(budget, heading, groups[i]) {
      GroupOkCarries(budget, heading, groups[i]);
    }
    OpenNothing(budget, heading);
    NothingFull(budget, heading, [] + Units(text));
    GroupsFromFull(budget, heading, [], [], "", Units(text));
  }

  lemma NothingFull(budget: Budget, heading: string, blocks: seq<string>)
    ensures GroupsFull(budget, heading, []) && LastFull(budget, heading, [], blocks)
  {
  }

  /** A visible block is divided into at least one part. */
  lemma DivisionNotEmpty(budget: Budget, heading: string, block: string)
    requires BlockParts(budget, heading, block).Ok? && !Blank(block)
    ensures BlockParts(budget, heading, block).value != []
  {
    hide Blank, SplitLines, ShellOf, BodyOf, PackLines, KindOf, ClosingInk;
    if BlockParts(budget, heading, block).value == [] {
      var lines := SplitLines(block);
      PackNotEmpty(budget, heading, ShellOf(lines), BodyOf(lines));
      BlockAccounts(block);
      FenceHasPrefix(lines);
      InkBlank(block);
    }
  }

  lemma FenceHasPrefix(lines: seq<string>)
    ensures ClosingInk(lines) != "" ==> Ink(ShellOf(lines).prefix) != ""
  {
    hide Blank, Ink, TableCells, Strip, HasClosing;
    if KindOf(lines).Fenced? {
      InkStrip(lines[0]);
      InkBlank(lines[0]);
    }
  }

  lemma SectionNotEmpty(budget: Budget, heading: string, text: string)
    requires !Blank(text) && SectionParts(budget, heading, text).Ok?
    ensures SectionParts(budget, heading, text).value != []
  {
    hide AtomicBlocks, Fits, BlockParts, SectionGroups, Blank, FirstVisible, SplitLines, InkAll, Ink;
    SectionGroupsOk(budget, heading, text);
    BlocksAreVisible(text);
    BlocksConserve(text);
    InkBlank(text);
    var groups := SectionGroups(budget, heading, text).value;
    assert InkAll([]) == "" by { InkOfNone(); }
    var group := groups[0];
    assert GroupOk(budget, heading, group);
    if group.Divided? {
      assert BlocksOf(groups)[0] == group.block;
      DivisionNotEmpty(budget, heading, group.block);
    }
    assert AllTexts(groups) == TextsOf(group) + AllTexts(groups[1..]);
  }

  lemma InkOfNone()
    ensures InkAll([]) == ""
  {
  }

  lemma GroupOkCarries(budget: Budget, heading: string, group: Group)
    requires GroupOk(budget, heading, group)
    requires group.Divided? ==> FirstVisible(SplitLines(group.block))
    ensures GroupCarries(budget, heading, group)
  {
    hide Fits, BlockParts, Carries, ShellOf, BodyOf, ClosingInk, Divides, SplitLines, FirstVisible;
    if group.Divided? {
      BlockConserves(budget, heading, group.block);
      BlockDivides(budget, heading, group.block);
      BlockAccounts(group.block);
    }
  }

  /** Bounding raises exactly when some block is too large and its shell leaves no room for its body. */
  lemma SectionRaises(budget: Budget, heading: string, text: string)
    requires !Blank(text)
    ensures SectionParts(budget, heading, text).Raised?
       <==> exists i :: 0 <= i < |AtomicBlocks(text)| && Unsplittable(budget, heading, AtomicBlocks(text)[i])
  {
    hide AtomicBlocks, Fits, PackLines, SectionGroups, Blank, AllBlank, Room, ShellOf, BodyOf, FirstVisible, SplitLines;
    SectionGroupsOk(budget, heading, text);
    BlocksAreVisible(text);
    forall i | 0 <= i < |AtomicBlocks(text)|
      ensures Unsplittable(budget, heading, AtomicBlocks(text)[i])
         <==> (!Fits(budget, heading, AtomicBlocks(text)[i])
               && BlockParts(budget, heading, AtomicBlocks(text)[i]).Raised?)
    {
      var lines := SplitLines(AtomicBlocks(text)[i]);
      ShellIsGood(lines);
      PackRaises(budget, heading, ShellOf(lines), BodyOf(lines));
    }
  }

  lemma {:induction false} AllTextsFit(budget: Budget, heading: string, groups: seq<Group>)
    ensures AllFit(budget, heading, AllTexts(groups))
       <==> forall i :: 0 <= i < |groups| ==> AllFit(budget, heading, TextsOf(groups[i]))
  {
    hide AllFit, TextsOf;
    if groups == [] {
      assert AllFit(budget, heading, []) by { NothingFits(budget, heading); }
    } else {
      AllTextsFit(budget, heading, groups[1..]);
      AllFitConcat(budget, heading, TextsOf(groups[0]), AllTexts(groups[1..]));
      assert groups == [groups[0]] + groups[1..];
      assert forall i :: 0 <= i < |groups[1..]| ==> groups[1..][i] == groups[i + 1];
    }
  }

  lemma NothingFits(budget: Budget, heading: string)
    ensures AllFit(budget, heading, [])
  {
  }

  lemma AllFitConcat(budget: Budget, heading: string, xs: seq<string>, ys: seq<string>)
    ensures AllFit(budget, heading, xs + ys) <==> AllFit(budget, heading, xs) && AllFit(budget, heading, ys)
  {
    hide Fits;
    assert forall i :: 0 <= i < |xs| ==> (xs + ys)[i] == xs[i];
    assert forall i :: 0 <= i < |ys| ==> (xs + ys)[|xs| + i] == ys[i];
  }

  predicate GroupUnchecked(budget: Budget, heading: string, group: Group) {
    group.Divided? && Unchecked(budget, heading, group.block)
  }

  lemma GroupFits(budget: Budget, heading: string, group: Group)
    requires GroupOk(budget, heading, group)
    requires group.Divided? ==> FirstVisible(SplitLines(group.block))
    ensures AllFit(budget, heading, TextsOf(group)) <==> !GroupUnchecked(budget, heading, group)
  {
    hide Fits, PackLines, ShellOf, BodyOf, BareShell, SplitLines, FirstVisible;
    if group.Divided? {
      var lines := SplitLines(group.block);
      ShellIsGood(lines);
      PackFits(budget, heading, ShellOf(lines), BodyOf(lines));
    }
  }

  function BlocksIn(group: Group): seq<string> {
    match group
    case Packed(blocks, _) => blocks
    case Divided(block, _) => [block]
  }

  predicate AnyUnchecked(budget: Budget, heading: string, blocks: seq<string>) {
    exists j :: 0 <= j < |blocks| && Unchecked(budget, heading, blocks[j])
  }

  lemma AnyUncheckedConcat(budget: Budget, heading: string, xs: seq<string>, ys: seq<string>)
    ensures AnyUnchecked(budget, heading, xs + ys)
       <==> AnyUnchecked(budget, heading, xs) || AnyUnchecked(budget, heading, ys)
  {
    hide Unchecked;
    assert forall j :: 0 <= j < |xs| ==> (xs + ys)[j] == xs[j];
    assert forall j :: 0 <= j < |ys| ==> (xs + ys)[|xs| + j] == ys[j];
  }

  lemma UncheckedInGroup(budget: Budget, heading: string, group: Group)
    requires GroupOk(budget, heading, group)
    ensures GroupUnchecked(budget, heading, group) <==> AnyUnchecked(budget, heading, BlocksIn(group))
  {
    hide Fits, BareShell, BlockParts;
    if group.Divided? { assert BlocksIn(group)[0] == group.block; }
  }

  /** Every divided block is one of the section's, and only a divided block can be unchecked. */
  lemma {:induction false} UncheckedBlocks(budget: Budget, heading: string, groups: seq<Group>)
    requires GroupsOk(budget, heading, groups)
    ensures (exists i :: 0 <= i < |groups| && GroupUnchecked(budget, heading, groups[i]))
       <==> AnyUnchecked(budget, heading, BlocksOf(groups))
    ensures forall i :: 0 <= i < |groups| && groups[i].Divided? ==> groups[i].block in BlocksOf(groups)
  {
    hide Fits, BareShell, BlockParts, AnyUnchecked, GroupUnchecked, GroupOk;
    if groups == [] {
      assert !AnyUnchecked(budget, heading, []) by { NoneUnchecked(budget, heading); }
    } else {
      var rest := groups[1..];
      assert groups == [groups[0]] + rest;
      assert forall i :: 0 <= i < |rest| ==> rest[i] == groups[i + 1];
      UncheckedBlocks(budget, heading, rest);
      assert BlocksOf(groups) == BlocksIn(groups[0]) + BlocksOf(rest);
      AnyUncheckedConcat(budget, heading, BlocksIn(groups[0]), BlocksOf(rest));
      UncheckedInGroup(budget, heading, groups[0]);
    }
  }

  lemma NoneUnchecked(budget: Budget, heading: string)
    ensures !AnyUnchecked(budget, heading, [])
  {
  }

  /** The hard budget: every part fits, except exactly when an unchecked block is in the section. */
  lemma SectionFits(budget: Budget, heading: string, text: string)
    requires !Blank(text) && SectionParts(budget, heading, text).Ok?
    ensures AllFit(budget, heading, SectionParts(budget, heading, text).value)
       <==> !AnyUnchecked(budget, heading, AtomicBlocks(text))
  {
    hide AtomicBlocks, Fits, BlockParts, SectionGroups, Blank, AllFit, TextsOf, GroupOk, GroupUnchecked, AnyUnchecked,
         SplitLines, FirstVisible;
    SectionGroupsOk(budget, heading, text);
    BlocksAreVisible(text);
    var groups := SectionGroups(budget, heading, text).value;
    AllTextsFit(budget, heading, groups);
    UncheckedBlocks(budget, heading, groups);
    forall i | 0 <= i < |groups|
      ensures AllFit(budget, heading, TextsOf(groups[i])) <==> !GroupUnchecked(budget, heading, groups[i])
    {
      GroupFits(budget, heading, groups[i]);
    }
  }
}
