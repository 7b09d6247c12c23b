/** Cutting a document at its real headings, with the heading hierarchy as each section's label. */
module Headings {
  import opened Results
  import opened Text
  import opened Lines
  import opened Blocks

  datatype Heading = Heading(level: nat, title: string)

  datatype RawSection = RawSection(heading: string, body: string)

  // ----- Recognising a heading line -----

  function IndentRun(s: string): (n: nat)
    ensures n <= |s|
  {
    if s != "" && Indents(s[0]) then 1 + IndentRun(s[1..]) else 0
  }

  function DropIndentRight(s: string): string {
    if s != "" && Indents(s[|s| - 1]) then DropIndentRight(s[..|s| - 1]) else s
  }

  function DropHashesRight(s: string): string {
    if s != "" && s[|s| - 1] == '#' then DropHashesRight(s[..|s| - 1]) else s
  }

  function DropLineFeed(s: string): string {
    var t := if s != "" && s[|s| - 1] == '\n' then s[..|s| - 1] else s;
    if t != s && t != "" && t[|t| - 1] == '\r' then t[..|t| - 1] else t
  }

  /** The title after the marks: a closing run of hashes set off by a space or tab is not part of it. */
  function TitleOf(s: string): string {
    var bare := DropIndentRight(s);
    var open := DropHashesRight(bare);
    if |open| < |bare| && open != "" && Indents(open[|open| - 1]) then Strip(open) else Strip(s)
  }

  /** One to six hashes and at least one space or tab begin a heading. */
  function HeadingOf(line: string): (heading: Option<Heading>)
    ensures heading.Some? ==> 1 <= heading.value.level <= 6
  {
    var marks := RunLength(line, '#');
    var rest := line[marks..];
    var indent := IndentRun(rest);
    if 1 <= marks <= 6 && indent > 0 then Some(Heading(marks, TitleOf(DropLineFeed(rest[indent..])))) else None
  }

  // ----- The hierarchy -----

  predicate Leveled(headings: seq<Heading>) {
    forall i :: 0 <= i < |headings| ==> 1 <= headings[i].level <= 6
  }

  /** The six slots after one more heading: its own is set, every deeper one cleared. */
  function Descend(hierarchy: seq<Option<string>>, heading: Heading): (next: seq<Option<string>>)
    requires |hierarchy| == 6 && 1 <= heading.level <= 6
    ensures |next| == 6
  {
    seq(6, i requires 0 <= i < 6 =>
      if i < heading.level - 1 then hierarchy[i] else if i == heading.level - 1 then Some(heading.title) else None)
  }

  function HierarchyAfter(headings: seq<Heading>): (hierarchy: seq<Option<string>>)
    requires Leveled(headings)
    ensures |hierarchy| == 6
  {
    if headings == [] then [None, None, None, None, None, None]
    else Descend(HierarchyAfter(headings[..|headings| - 1]), headings[|headings| - 1])
  }

  /** `headings[i]` is the last heading of its level, and none shallower comes after it. */
  predicate Governs(headings: seq<Heading>, i: nat) {
    i < |headings| && forall j :: i < j < |headings| ==> headings[j].level > headings[i].level
  }

  lemma GovernsUnlessEnded(headings: seq<Heading>, i: nat)
    requires i + 1 < |headings|
    ensures var last := |headings| - 1;
            Governs(headings, i) <==> Governs(headings[..last], i) && headings[last].level > headings[i].level
  {
    var last := |headings| - 1;
    assert forall j :: i < j < last ==> headings[..last][j] == headings[j];
  }

  /** A slot holds the title of the heading that governs its level, and nothing when none does. */
  lemma {:induction false} SlotIsGoverningTitle(headings: seq<Heading>, level: nat, title: string)
    requires Leveled(headings) && 1 <= level <= 6
    ensures HierarchyAfter(headings)[level - 1] == Some(title)
       <==> exists i: nat :: Governs(headings, i) && headings[i] == Heading(level, title)
  {
    hide Governs;
    if headings == [] {
      assert forall i: nat :: !Governs(headings, i) by { NoGovernor(); }
    } else {
      var last := |headings| - 1;
      var before := headings[..last];
      SlotIsGoverningTitle(before, level, title);
      forall i: nat | i < last
        ensures Governs(headings, i) <==> Governs(before, i) && headings[last].level > headings[i].level
      {
        GovernsUnlessEnded(headings, i);
      }
      LastGoverns(headings);
      GovernsInRange(before);
      GovernsInRange(headings);
      var slot := HierarchyAfter(headings)[level - 1];
      if slot == Some(title) {
        if headings[last].level == level {
          assert headings[last] == Heading(level, title);
        } else {
          var i: nat :| Governs(before, i) && before[i] == Heading(level, title);
          assert Governs(headings, i) && headings[i] == before[i];
        }
      }
      if i: nat :| Governs(headings, i) && headings[i] == Heading(level, title) {
        if i < last {
          assert Governs(before, i) && before[i] == headings[i];
        }
      }
    }
  }

  lemma NoGovernor()
    ensures forall i: nat :: !Governs([], i)
  {
  }

  lemma LastGoverns(headings: seq<Heading>)
    requires headings != []
    ensures Governs(headings, |headings| - 1)
  {
  }

  lemma GovernsInRange(headings: seq<Heading>)
    ensures forall i: nat :: Governs(headings, i) ==> i < |headings|
  {
  }

  function NonEmpty(slots: seq<Option<string>>): seq<string> {
    if slots == [] then []
    else (if slots[0].Some? && slots[0].value != "" then [slots[0].value] else []) + NonEmpty(slots[1..])
  }

  /** The titles down to a level, or the default when they are all missing or empty. */
  function JoinLabel(hierarchy: seq<Option<string>>, level: nat, defaultHeading: string): string
    requires level <= |hierarchy|
  {
    var joined := Join(NonEmpty(hierarchy[..level]), " > ");
    if joined == "" then defaultHeading else joined
  }

  /** The label of a section, from the headings read before it. */
  function LabelOf(headings: seq<Heading>, defaultHeading: string): string
    requires Leveled(headings)
  {
    if headings == [] then defaultHeading
    else JoinLabel(HierarchyAfter(headings), headings[|headings| - 1].level, defaultHeading)
  }

  // ----- The scan -----

  /** The lines between two headings, with the headings read before them. */
  datatype Run = Run(headings: seq<Heading>, lines: seq<string>)

  /** A heading counts only outside a fence. */
  function HeadingAt(fence: FenceState, line: string): Option<Heading> {
    if fence.Outside? && FenceOf(line).None? then HeadingOf(line) else None
  }

  function Runs(headings: seq<Heading>, current: seq<string>, fence: FenceState, lines: seq<string>): (runs: seq<Run>)
    requires Leveled(headings)
    ensures runs != []
    ensures forall i :: 0 <= i < |runs| ==> Leveled(runs[i].headings)
    decreases lines
  {
    if lines == [] then [Run(headings, current)]
    else
      var heading := HeadingAt(fence, lines[0]);
      if heading.Some? then
        [Run(headings, current)] + Runs(headings + [heading.value], [], Outside, lines[1..])
      else
        Runs(headings, current + [lines[0]], NextFence(fence, lines[0]), lines[1..])
  }

  function Body(lines: seq<string>): string {
    StripNewlines(Concat(lines))
  }

  /** The section a run makes; a run that shows nothing makes none. */
  function SectionOfRun(run: Run, defaultHeading: string): seq<RawSection>
    requires Leveled(run.headings)
  {
    if Blank(Body(run.lines)) then [] else [RawSection(LabelOf(run.headings, defaultHeading), Body(run.lines))]
  }

  function SectionsOfRuns(runs: seq<Run>, defaultHeading: string): seq<RawSection>
    requires forall i :: 0 <= i < |runs| ==> Leveled(runs[i].headings)
  {
    if runs == [] then []
    else SectionOfRun(runs[0], defaultHeading) + SectionsOfRuns(runs[1..], defaultHeading)
  }

  /** `_split_heading_sections`. */
  function HeadingSections(markdown: string, defaultHeading: string): seq<RawSection> {
    SectionsOfRuns(Runs([], [], Outside, SplitKeep(markdown)), defaultHeading)
  }

  method FlushSection(sections: seq<RawSection>, heading: string, lines: seq<string>) returns (flushed: seq<RawSection>)
    ensures flushed == sections + if Blank(Body(lines)) then [] else [RawSection(heading, Body(lines))]
  {
    var body := StripNewlines(Concat(lines));
    if !Blank(body) {
      flushed := sections + [RawSection(heading, body)];
    } else {
      flushed := sections;
    }
  }

  /** The sections still to come from a state of the scan. */
  function Pending(headings: seq<Heading>, current: seq<string>, fence: FenceState, lines: seq<string>,
                   defaultHeading: string): seq<RawSection>
    requires Leveled(headings)
  {
    SectionsOfRuns(Runs(headings, current, fence, lines), defaultHeading)
  }

  method SplitHeadingSections(markdown: string, defaultHeading: string) returns (sections: seq<RawSection>)
    ensures sections == HeadingSections(markdown, defaultHeading)
  {
    hide HeadingAt, Body, Blank, Descend, SplitKeep, Pending, LabelOf, NextFence, Leveled;
    sections := [];
    var hierarchy: seq<Option<string>> := [None, None, None, None, None, None];
    var currentHeading := defaultHeading;
    var currentLines: seq<string> := [];
    var fence := Outside;
    var lines := SplitKeep(markdown);
    ghost var headings: seq<Heading> := [];
    assert Leveled(headings) && LabelOf(headings, defaultHeading) == defaultHeading
        && HeadingSections(markdown, defaultHeading) == Pending(headings, [], fence, lines, defaultHeading) by {
      StartScan(markdown, defaultHeading);
    }
    var i := 0;
    while i < |lines|
      invariant 0 <= i <= |lines|
      invariant Leveled(headings) && hierarchy == HierarchyAfter(headings)
      invariant currentHeading == LabelOf(headings, defaultHeading)
      invariant HeadingSections(markdown, defaultHeading)
             == sections + Pending(headings, currentLines, fence, lines[i..], defaultHeading)
    {
      var line := lines[i];
      var heading := HeadingAt(fence, line);
      assert lines[i..] == [line] + lines[i + 1..];
      ScanLine(headings, currentLines, fence, line, lines[i + 1..], defaultHeading);
      i := i + 1;
      if heading.None? {
        currentLines := currentLines + [line];
        fence := NextFence(fence, line);
        continue;
      }
      sections := FlushSection(sections, currentHeading, currentLines);
      currentLines := [];
      fence := Outside;
      hierarchy := Descend(hierarchy, heading.value);
      currentHeading := JoinLabel(hierarchy, heading.value.level, defaultHeading);
      headings := headings + [heading.value];
    }
    assert lines[i..] == [];
    LastRun(headings, currentLines, fence, defaultHeading);
    sections := FlushSection(sections, currentHeading, currentLines);
  }

  /** One line of the scan: a heading closes the open run, any other line joins it. */
  lemma ScanLine(headings: seq<Heading>, current: seq<string>, fence: FenceState, line: string, rest: seq<string>,
                 defaultHeading: string)
    requires Leveled(headings)
    ensures var heading := HeadingAt(fence, line);
            if heading.None? then
              Pending(headings, current, fence, [line] + rest, defaultHeading)
              == Pending(headings, current + [line], NextFence(fence, line), rest, defaultHeading)
            else
              && 1 <= heading.value.level <= 6
              && Leveled(headings + [heading.value])
              && HierarchyAfter(headings + [heading.value]) == Descend(HierarchyAfter(headings), heading.value)
              && LabelOf(headings + [heading.value], defaultHeading)
                 == JoinLabel(HierarchyAfter(headings + [heading.value]), heading.value.level, defaultHeading)
              && Pending(headings, current, fence, [line] + rest, defaultHeading)
                 == SectionOfRun(Run(headings, current), defaultHeading)
                    + Pending(headings + [heading.value], [], Outside, rest, defaultHeading)
  {
    hide HeadingOf, FenceOf, SectionOfRun, NextFence, Descend, JoinLabel;
    assert ([line] + rest)[1..] == rest;
    if HeadingAt(fence, line).Some? {
      AppendHeading(headings, HeadingAt(fence, line).value);
    }
  }

  lemma StartScan(markdown: string, defaultHeading: string)
    ensures Leveled([]) && LabelOf([], defaultHeading) == defaultHeading
    ensures HeadingSections(markdown, defaultHeading) == Pending([], [], Outside, SplitKeep(markdown), defaultHeading)
  {
  }

  lemma LastRun(headings: seq<Heading>, current: seq<string>, fence: FenceState, defaultHeading: string)
    requires Leveled(headings)
    ensures Pending(headings, current, fence, [], defaultHeading)
            == SectionOfRun(Run(headings, current), defaultHeading)
  {
    var run := Run(headings, current);
    assert Runs(headings, current, fence, []) == [run];
    assert [run][1..] == [];
    assert SectionsOfRuns([run], defaultHeading) == SectionOfRun(run, defaultHeading) + [];
  }

  lemma AppendHeading(headings: seq<Heading>, heading: Heading)
    requires Leveled(headings) && 1 <= heading.level <= 6
    ensures Leveled(headings + [heading])
    ensures HierarchyAfter(headings + [heading]) == Descend(HierarchyAfter(headings), heading)
  {
    assert (headings + [heading])[..|headings|] == headings;
  }
}
