/** The label of every section: the titles of all headings in force where it begins, outermost first. */
module Labels {
  import opened Results
  import opened Text
  import opened Lines
  import opened Blocks
  import opened Headings

  // ----- The headings in force -----

  predicate Increasing(places: seq<nat>) {
    forall k, l :: 0 <= k < l < |places| ==> places[k] < places[l]
  }

  /** A heading in force with a title, no deeper than the level. */
  predicate NamesAt(headings: seq<Heading>, level: nat, i: nat) {
    i < |headings| && Governs(headings, i) && headings[i].title != "" && headings[i].level <= level
  }

  /** The places, in order, of exactly the headings in force that have a title and are no deeper than the level. */
  ghost predicate NamingPlaces(headings: seq<Heading>, level: nat, places: seq<nat>) {
    && Increasing(places)
    && (forall k :: 0 <= k < |places| ==> NamesAt(headings, level, places[k]))
    && (forall i: nat :: NamesAt(headings, level, i) ==> i in places)
  }

  function TitlesAt(headings: seq<Heading>, places: seq<nat>): (titles: seq<string>)
    requires forall k :: 0 <= k < |places| ==> places[k] < |headings|
    ensures |titles| == |places| && forall k :: 0 <= k < |places| ==> titles[k] == headings[places[k]].title
  {
    seq(|places|, k requires 0 <= k < |places| => headings[places[k]].title)
  }

  lemma {:induction false} NonEmptyAppend(slots: seq<Option<string>>, slot: Option<string>)
    ensures NonEmpty(slots + [slot])
         == NonEmpty(slots) + (if slot.Some? && slot.value != "" then [slot.value] else [])
  {
    if slots == [] {
      assert slots + [slot] == [slot] && [slot][1..] == [];
    } else {
      assert (slots + [slot])[1..] == slots[1..] + [slot];
      NonEmptyAppend(slots[1..], slot);
      var first := if slots[0].Some? && slots[0].value != "" then [slots[0].value] else [];
      var last := if slot.Some? && slot.value != "" then [slot.value] else [];
      assert first + (NonEmpty(slots[1..]) + last) == first + NonEmpty(slots[1..]) + last;
    }
  }

  /** Two headings in force have different levels, the later one the deeper. */
  lemma LaterIsDeeper(headings: seq<Heading>, i: nat, j: nat)
    requires Governs(headings, i) && Governs(headings, j) && i < j
    ensures headings[i].level < headings[j].level
  {
  }

  lemma {:induction false} SlotsAreTitles(headings: seq<Heading>, level: nat) returns (places: seq<nat>)
    requires Leveled(headings) && level <= 6
    ensures NamingPlaces(headings, level, places)
    ensures NonEmpty(HierarchyAfter(headings)[..level]) == TitlesAt(headings, places)
  {
    hide HierarchyAfter, Governs;
    if level == 0 {
      places := [];
    } else {
      var before := SlotsAreTitles(headings, level - 1);
      var slots := HierarchyAfter(headings);
      var slot := slots[level - 1];
      assert slots[..level] == slots[..level - 1] + [slot];
      NonEmptyAppend(slots[..level - 1], slot);
      if slot.Some? && slot.value != "" {
        SlotIsGoverningTitle(headings, level, slot.value);
        GovernsInRange(headings);
        var i: nat :| Governs(headings, i) && headings[i] == Heading(level, slot.value);
        places := before + [i];
        OneMorePlace(headings, level, before, i);
        assert TitlesAt(headings, places) == TitlesAt(headings, before) + [slot.value];
      } else {
        places := before;
        forall i: nat | NamesAt(headings, level, i) ensures i in before {
          SlotIsGoverningTitle(headings, level, headings[i].title);
          assert headings[i] == Heading(headings[i].level, headings[i].title);
          assert NamesAt(headings, level - 1, i);
        }
        assert forall k :: 0 <= k < |before| ==> NamesAt(headings, level - 1, before[k]);
      }
    }
  }

  lemma OneMorePlace(headings: seq<Heading>, level: nat, before: seq<nat>, i: nat)
    requires level > 0 && NamingPlaces(headings, level - 1, before)
    requires i < |headings| && Governs(headings, i) && headings[i].level == level && headings[i].title != ""
    ensures NamingPlaces(headings, level, before + [i])
  {
    hide Governs;
    var places := before + [i];
    forall k | 0 <= k < |before| ensures before[k] < i {
      assert NamesAt(headings, level - 1, before[k]);
      if i < before[k] { LaterIsDeeper(headings, i, before[k]); }
    }
    forall j: nat | NamesAt(headings, level, j) ensures j in places {
      if headings[j].level == level {
        if i < j { LaterIsDeeper(headings, i, j); }
        if j < i { LaterIsDeeper(headings, j, i); }
        assert places[|before|] == i;
      } else {
        assert NamesAt(headings, level - 1, j);
        var k :| 0 <= k < |before| && before[k] == j;
        assert places[k] == j;
      }
    }
    forall k | 0 <= k < |places| ensures NamesAt(headings, level, places[k]) {
      if k < |before| { assert NamesAt(headings, level - 1, before[k]); }
    }
  }

  /**
   What a section is labelled with: the titles of exactly those headings in force where it begins that have
   one, from the outermost to the innermost, or the default when there are none.
   */
  ghost predicate LabelledBy(name: string, headings: seq<Heading>, defaultHeading: string, places: seq<nat>) {
    && Increasing(places)
    && (forall k :: 0 <= k < |places| ==>
          places[k] < |headings| && Governs(headings, places[k]) && headings[places[k]].title != "")
    && (forall i: nat :: i < |headings| && Governs(headings, i) && headings[i].title != "" ==> i in places)
    && var titles := TitlesAt(headings, places);
       name == if titles == [] then defaultHeading else Join(titles, " > ")
  }

  lemma NoDeeper(headings: seq<Heading>, i: nat)
    requires Governs(headings, i)
    ensures headings[i].level <= headings[|headings| - 1].level
  {
  }

  lemma JoinedIsNonempty(titles: seq<string>)
    requires titles != [] && titles[0] != ""
    ensures Join(titles, " > ") != ""
  {
  }

  lemma LabelIsTitles(headings: seq<Heading>, defaultHeading: string) returns (places: seq<nat>)
    requires Leveled(headings)
    ensures LabelledBy(LabelOf(headings, defaultHeading), headings, defaultHeading, places)
  {
    hide HierarchyAfter, Governs, Join, LabelOf, NamingPlaces;
    if headings == [] {
      places := [];
      assert LabelOf([], defaultHeading) == defaultHeading by { NoLabel(defaultHeading); }
    } else {
      var level := headings[|headings| - 1].level;
      places := SlotsAreTitles(headings, level);
      AllNamed(headings, places);
      LabelFrom(headings, defaultHeading, places);
    }
  }

  lemma NoLabel(defaultHeading: string)
    ensures LabelOf([], defaultHeading) == defaultHeading
  {
  }

  lemma AllNamed(headings: seq<Heading>, places: seq<nat>)
    requires headings != [] && NamingPlaces(headings, headings[|headings| - 1].level, places)
    ensures Increasing(places)
    ensures forall k :: 0 <= k < |places| ==>
              places[k] < |headings| && Governs(headings, places[k]) && headings[places[k]].title != ""
    ensures forall i: nat :: i < |headings| && Governs(headings, i) && headings[i].title != "" ==> i in places
  {
    hide Governs;
    var level := headings[|headings| - 1].level;
    forall i: nat | i < |headings| && Governs(headings, i) && headings[i].title != "" ensures i in places {
      NoDeeper(headings, i);
      assert NamesAt(headings, level, i);
    }
    forall k | 0 <= k < |places|
      ensures places[k] < |headings| && Governs(headings, places[k]) && headings[places[k]].title != ""
    {
      assert NamesAt(headings, level, places[k]);
    }
  }

  lemma {:induction false} LabelFrom(headings: seq<Heading>, defaultHeading: string, places: seq<nat>)
    requires Leveled(headings) && headings != []
    requires forall k :: 0 <= k < |places| ==> places[k] < |headings| && headings[places[k]].title != ""
    requires NonEmpty(HierarchyAfter(headings)[..headings[|headings| - 1].level]) == TitlesAt(headings, places)
    ensures LabelOf(headings, defaultHeading)
         == if TitlesAt(headings, places) == [] then defaultHeading else Join(TitlesAt(headings, places), " > ")
  {
    hide HierarchyAfter, Join;
    var titles := TitlesAt(headings, places);
    if titles == [] {
      assert Join(titles, " > ") == "" by { NothingJoined(" > "); }
    } else {
      assert titles[0] == headings[places[0]].title;
      JoinedIsNonempty(titles);
    }
  }

  // ----- The headings before a section -----

  /** The headings among the first lines of a document, as the scan reads them. */
  function HeadingsRead(fence: FenceState, lines: seq<string>): seq<Heading>
    decreases lines
  {
    if lines == [] then []
    else if HeadingAt(fence, lines[0]).Some? then
      [HeadingAt(fence, lines[0]).value] + HeadingsRead(Outside, lines[1..])
    else HeadingsRead(NextFence(fence, lines[0]), lines[1..])
  }

  lemma HeadingKeepsOutside(fence: FenceState, line: string)
    requires HeadingAt(fence, line).Some?
    ensures fence == Outside && NextFence(fence, line) == Outside
  {
  }

  lemma {:induction false} HeadingsReadAppend(fence: FenceState, lines: seq<string>, line: string)
    ensures var heading := HeadingAt(RunFence(fence, lines), line);
            HeadingsRead(fence, lines + [line])
            == HeadingsRead(fence, lines) + (if heading.Some? then [heading.value] else [])
    decreases lines
  {
    hide HeadingAt, NextFence;
    if lines == [] {
      assert lines + [line] == [line] && [line][1..] == [];
    } else {
      assert (lines + [line])[1..] == lines[1..] + [line];
      var here := HeadingAt(fence, lines[0]);
      if here.Some? { HeadingKeepsOutside(fence, lines[0]); }
      HeadingsReadAppend(NextFence(fence, lines[0]), lines[1..], line);
    }
  }

  /** The scan reads a heading at line `k`. */
  predicate ReadsHeading(lines: seq<string>, k: nat)
    requires k < |lines|
  {
    HeadingsRead(Outside, lines[..k]) != HeadingsRead(Outside, lines[..k + 1])
  }

  /** The lines from `start` to `end` are all those between two headings, or a heading and an end. */
  predicate BetweenHeadings(lines: seq<string>, start: nat, end: nat) {
    && start <= end <= |lines|
    && HeadingsRead(Outside, lines[..start]) == HeadingsRead(Outside, lines[..end])
    && (start > 0 ==> ReadsHeading(lines, start - 1))
    && (end < |lines| ==> ReadsHeading(lines, end))
  }

  /** The run's lines stand in the document from `start` to `end`, and its headings are those read before. */
  predicate RunStands(lines: seq<string>, run: Run, start: nat, end: nat) {
    && BetweenHeadings(lines, start, end) && run.lines == lines[start..end]
    && run.headings == HeadingsRead(Outside, lines[..start])
  }

  ghost predicate Stands(lines: seq<string>, run: Run) {
    exists start: nat, end: nat :: RunStands(lines, run, start, end)
  }

  lemma {:induction false} RunsStand(all: seq<string>, at: nat, headings: seq<Heading>, current: seq<string>,
                                     fence: FenceState, lines: seq<string>)
    requires Leveled(headings) && at <= |all| && lines == all[at..] && |current| <= at
    requires current == all[at - |current|..at] && fence == RunFence(Outside, all[..at])
    requires headings == HeadingsRead(Outside, all[..at - |current|]) == HeadingsRead(Outside, all[..at])
    requires |current| < at ==> ReadsHeading(all, at - |current| - 1)
    ensures forall i :: 0 <= i < |Runs(headings, current, fence, lines)|
              ==> Stands(all, Runs(headings, current, fence, lines)[i])
    decreases lines
  {
    hide HeadingAt, NextFence, Leveled, HeadingsRead, RunFence;
    if lines == [] {
      assert RunStands(all, Run(headings, current), at - |current|, at);
    } else {
      var line, rest := lines[0], lines[1..];
      assert line == all[at] && rest == all[at + 1..] && all[..at + 1] == all[..at] + [line];
      HeadingsReadAppend(Outside, all[..at], line);
      FenceAfter(all[..at], line);
      var heading := HeadingAt(fence, line);
      if heading.Some? {
        HeadingIsLeveled(headings, fence, line);
        HeadingKeepsOutside(fence, line);
        assert all[at + 1..at + 1] == [] && ReadsHeading(all, at);
        assert RunStands(all, Run(headings, current), at - |current|, at);
        RunsStand(all, at + 1, headings + [heading.value], [], Outside, rest);
        var later := Runs(headings + [heading.value], [], Outside, rest);
        assert forall i :: 1 <= i < |[Run(headings, current)] + later|
                 ==> ([Run(headings, current)] + later)[i] == later[i - 1];
      } else {
        assert headings + [] == headings;
        assert current + [line] == all[at - |current|..at + 1];
        RunsStand(all, at + 1, headings, current + [line], NextFence(fence, line), rest);
      }
    }
  }

  lemma HeadingIsLeveled(headings: seq<Heading>, fence: FenceState, line: string)
    requires Leveled(headings) && HeadingAt(fence, line).Some?
    ensures Leveled(headings + [HeadingAt(fence, line).value])
  {
    hide HeadingOf;
  }

  lemma FenceAfter(lines: seq<string>, line: string)
    ensures RunFence(Outside, lines + [line]) == NextFence(RunFence(Outside, lines), line)
  {
    hide NextFence;
    RunFenceConcat(Outside, lines, [line]);
    assert [line][1..] == [];
  }

  // ----- The labels of a document's sections -----

  /**
   The section's body is the text of all lines from one heading to the next, and its label is made of the
   headings in force there.
   */
  ghost predicate SectionAt(lines: seq<string>, section: RawSection, defaultHeading: string,
                            start: nat, end: nat, places: seq<nat>)
  {
    && BetweenHeadings(lines, start, end)
    && section.body == StripNewlines(Concat(lines[start..end]))
    && LabelledBy(section.heading, HeadingsRead(Outside, lines[..start]), defaultHeading, places)
  }

  lemma {:induction false} SectionOfSomeRun(runs: seq<Run>, defaultHeading: string, i: nat) returns (r: nat)
    requires forall k :: 0 <= k < |runs| ==> Leveled(runs[k].headings)
    requires i < |SectionsOfRuns(runs, defaultHeading)|
    ensures r < |runs|
    ensures SectionsOfRuns(runs, defaultHeading)[i]
         == RawSection(LabelOf(runs[r].headings, defaultHeading), Body(runs[r].lines))
  {
    hide LabelOf, Body, Blank, Leveled;
    var first := SectionOfRun(runs[0], defaultHeading);
    if i < |first| {
      r := 0;
    } else {
      var later := SectionOfSomeRun(runs[1..], defaultHeading, i - |first|);
      r := later + 1;
    }
  }

  /** Every section of every document has the label of the headings in force where it begins. */
  lemma SectionsAreLabelled(markdown: string, defaultHeading: string, i: nat)
    returns (start: nat, end: nat, places: seq<nat>)
    requires i < |HeadingSections(markdown, defaultHeading)|
    ensures SectionAt(SplitKeep(markdown), HeadingSections(markdown, defaultHeading)[i], defaultHeading,
                      start, end, places)
  {
    hide SplitKeep, LabelOf, StripNewlines, Concat, LabelledBy, HeadingsRead, Runs, ReadsHeading;
    var lines := SplitKeep(markdown);
    StartScan(markdown, defaultHeading);
    var runs := Runs([], [], Outside, lines);
    AllRunsStand(lines);
    var r := SectionOfSomeRun(runs, defaultHeading, i);
    assert Stands(lines, runs[r]);
    var from: nat, to: nat :| RunStands(lines, runs[r], from, to);
    start, end := from, to;
    places := LabelIsTitles(runs[r].headings, defaultHeading);
  }

  lemma AllRunsStand(lines: seq<string>)
    ensures Leveled([])
    ensures forall r :: 0 <= r < |Runs([], [], Outside, lines)| ==> Stands(lines, Runs([], [], Outside, lines)[r])
  {
    assert lines[0..] == lines && lines[..0] == [] && lines[0..0] == [];
    RunsStand(lines, 0, [], [], Outside, lines);
  }
}
