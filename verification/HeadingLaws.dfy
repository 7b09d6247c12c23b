/** What cutting at headings keeps: the lines of the text, and the fence state each section starts and ends in. */
module HeadingLaws {
  import opened Text
  import opened Lines
  import opened Blocks
  import opened Headings

  // ----- Conservation -----

  /** The lines that are not headings, as the scan of the whole document reads them. */
  function NonHeadingLines(fence: FenceState, lines: seq<string>): seq<string>
    decreases lines
  {
    if lines == [] then []
    else if HeadingAt(fence, lines[0]).Some? then NonHeadingLines(Outside, lines[1..])
    else [lines[0]] + NonHeadingLines(NextFence(fence, lines[0]), lines[1..])
  }

  function Bodies(sections: seq<RawSection>): seq<string> {
    if sections == [] then [] else [sections[0].body] + Bodies(sections[1..])
  }

  lemma {:induction false} BodiesConcat(xs: seq<RawSection>, ys: seq<RawSection>)
    ensures Bodies(xs + ys) == Bodies(xs) + Bodies(ys)
  {
    if xs == [] {
      assert xs + ys == ys;
    } else {
      assert (xs + ys)[1..] == xs[1..] + ys;
      BodiesConcat(xs[1..], ys);
    }
  }

  lemma {:induction false} ContentsConcat(xs: seq<string>, ys: seq<string>)
    ensures Contents(xs + ys) == Contents(xs) + Contents(ys)
  {
    hide Content;
    if xs == [] {
      assert xs + ys == ys;
    } else {
      assert (xs + ys)[1..] == xs[1..] + ys;
      ContentsConcat(xs[1..], ys);
    }
  }

  /** A body is its lines, unchanged, without the empty ones at its ends. */
  lemma BodyLines(lines: seq<string>) returns (lead: seq<string>, trail: seq<string>)
    requires KeptLines(lines)
    ensures Contents(lines) == lead + SplitLines(Body(lines)) + trail
    ensures AllEmpty(lead) && AllEmpty(trail)
  {
    hide SplitLines, KeptLines, StripNewlines;
    SplitLinesConcat(lines);
    lead, trail := StripNewlinesLines(Concat(lines));
  }

  /** The section of a run has its lines whole; a run without a section has only blank ones. */
  lemma RunWoven(run: Run, defaultHeading: string)
    requires Leveled(run.headings) && KeptLines(run.lines)
    ensures Woven(Contents(run.lines), LinesOf(Bodies(SectionOfRun(run, defaultHeading))))
  {
    hide SplitLines, KeptLines, StripNewlines, Blank, Woven, AllEmpty, LabelOf, Leveled, AllBlank, Body;
    var body := SplitLines(Body(run.lines));
    var lead, trail := BodyLines(run.lines);
    EmptyInk(lead);
    EmptyInk(trail);
    var made := SectionOfRun(run, defaultHeading);
    if made == [] {
      BlankText(Body(run.lines));
      AllBlankConcat(lead, body);
      AllBlankConcat(lead + body, trail);
      NothingWoven(Contents(run.lines));
    } else {
      assert made[1..] == [] && Bodies(made) == [Body(run.lines)];
      assert LinesOf(Bodies(made)) == [body];
      WovenOne(lead, body, trail);
    }
  }

  lemma {:induction false} RunsWoven(headings: seq<Heading>, current: seq<string>, fence: FenceState,
                                     lines: seq<string>, defaultHeading: string)
    requires Leveled(headings) && KeptLines(current + lines)
    ensures Woven(Contents(current + NonHeadingLines(fence, lines)),
                  LinesOf(Bodies(Pending(headings, current, fence, lines, defaultHeading))))
    decreases lines
  {
    hide HeadingAt, NextFence, SectionOfRun, Leveled, KeptLines, Woven, Content, Pending, LinesOf, Bodies;
    if lines == [] {
      LastRun(headings, current, fence, defaultHeading);
      assert current + lines == current && current + NonHeadingLines(fence, lines) == current;
      RunWoven(Run(headings, current), defaultHeading);
    } else {
      var line, rest := lines[0], lines[1..];
      assert lines == [line] + rest;
      ScanLine(headings, current, fence, line, rest, defaultHeading);
      var heading := HeadingAt(fence, line);
      if heading.Some? {
        KeptLinesParts(current, line, rest);
        var run, more := Run(headings, current), headings + [heading.value];
        var first, later := SectionOfRun(run, defaultHeading), Pending(more, [], Outside, rest, defaultHeading);
        RunWoven(run, defaultHeading);
        RunsWoven(more, [], Outside, rest, defaultHeading);
        var after := NonHeadingLines(Outside, rest);
        assert [] + after == after;
        ContentsConcat(current, after);
        BodiesConcat(first, later);
        LinesOfConcat(Bodies(first), Bodies(later));
        WovenConcat(Contents(current), LinesOf(Bodies(first)), Contents(after), LinesOf(Bodies(later)));
      } else {
        var grown := current + [line];
        assert current + lines == grown + rest;
        RunsWoven(headings, grown, NextFence(fence, line), rest, defaultHeading);
        var after := NonHeadingLines(NextFence(fence, line), rest);
        assert current + ([line] + after) == grown + after;
      }
    }
  }

  lemma KeptLinesParts(current: seq<string>, line: string, rest: seq<string>)
    requires KeptLines(current + ([line] + rest))
    ensures KeptLines(current) && KeptLines([] + rest)
  {
    hide KeptLines;
    var all := current + ([line] + rest);
    KeptLinesPrefix(all, |current|);
    KeptLinesPrefix(all, |current| + 1);
    assert all[..|current|] == current && all[|current| + 1..] == [] + rest;
  }

  /** The lines of the document that are not headings, without their breaks. */
  function TextLines(markdown: string): seq<string> {
    Contents(NonHeadingLines(Outside, SplitKeep(markdown)))
  }

  /**
   Every section body is a run of whole lines of the document, with their whitespace, in order, and
   only blank lines and headings lie outside the bodies.
   */
  lemma BodiesKeepLines(markdown: string, defaultHeading: string)
    ensures var bodies := Bodies(HeadingSections(markdown, defaultHeading));
            && Woven(TextLines(markdown), LinesOf(bodies))
            && Shown(TextLines(markdown)) == Shown(Flatten(LinesOf(bodies)))
  {
    hide SplitKeep, Woven, Pending, KeptLines;
    StartScan(markdown, defaultHeading);
    SplitKeepKept(markdown);
    var lines := SplitKeep(markdown);
    assert [] + lines == lines;
    RunsWoven([], [], Outside, lines, defaultHeading);
    assert [] + NonHeadingLines(Outside, lines) == NonHeadingLines(Outside, lines);
    WovenShows(TextLines(markdown), LinesOf(Bodies(HeadingSections(markdown, defaultHeading))));
  }

  /** The bodies show exactly what the lines that are not headings show, in order. */
  lemma HeadingSectionsConserve(markdown: string, defaultHeading: string)
    ensures InkAll(Bodies(HeadingSections(markdown, defaultHeading))) == InkAll(TextLines(markdown))
  {
    hide Woven, TextLines, HeadingSections;
    BodiesKeepLines(markdown, defaultHeading);
    WovenInk(TextLines(markdown), Bodies(HeadingSections(markdown, defaultHeading)));
  }

  /** No section is blank. */
  lemma {:induction false} SectionsAreVisible(runs: seq<Run>, defaultHeading: string)
    requires forall i :: 0 <= i < |runs| ==> Leveled(runs[i].headings)
    ensures forall i :: 0 <= i < |SectionsOfRuns(runs, defaultHeading)|
              ==> !Blank(SectionsOfRuns(runs, defaultHeading)[i].body)
  {
    hide Blank, Body, LabelOf, Leveled;
    if runs != [] {
      SectionsAreVisible(runs[1..], defaultHeading);
    }
  }

  // ----- Fences in a body scanned on its own -----

  lemma NextFenceTrailing(fence: FenceState, content: string, ending: string)
    requires Blank(ending)
    ensures NextFence(fence, content + ending) == NextFence(fence, content)
  {
    hide Blank, FenceOf;
    FenceOfTrailing(content, ending);
    if FenceOf(content).Some? {
      BlankConcat(FenceOf(content).value.tail, ending);
    }
  }

  lemma NextFenceContent(fence: FenceState, line: string)
    requires KeptLine(line)
    ensures NextFence(fence, line) == NextFence(fence, Content(line))
  {
    hide NextFence;
    var n := LineEnd(line);
    assert line == line[..n] + line[n..];
    forall i | 0 <= i < |line[n..]| ensures IsSpace(line[n..][i]) {
      BreakIsBlank(line, n, n + i);
    }
    NextFenceTrailing(fence, line[..n], line[n..]);
  }

  lemma {:induction false} RunFenceContents(fence: FenceState, lines: seq<string>)
    requires KeptLines(lines)
    ensures RunFence(fence, Contents(lines)) == RunFence(fence, lines)
    decreases lines
  {
    hide KeptLine, Ended, NextFence, Content;
    if lines != [] {
      KeptLinesPrefix(lines, 1);
      assert KeptLine(lines[0]);
      NextFenceContent(fence, lines[0]);
      assert Contents(lines)[1..] == Contents(lines[1..]);
      RunFenceContents(NextFence(fence, lines[0]), lines[1..]);
    }
  }

  lemma EmptyLineKeepsFence(fence: FenceState)
    ensures NextFence(fence, "") == fence
  {
  }

  lemma {:induction false} EmptyLinesKeepFence(fence: FenceState, lines: seq<string>)
    requires AllEmpty(lines)
    ensures RunFence(fence, lines) == fence
    decreases lines
  {
    if lines != [] {
      EmptyLineKeepsFence(fence);
      assert forall i :: 0 <= i < |lines[1..]| ==> lines[1..][i] == lines[i + 1];
      EmptyLinesKeepFence(fence, lines[1..]);
    }
  }

  /**
   Read on its own, a body has every line in the fence state it has among the lines of the document:
   before its line `k`, the state is that before line `skipped + k`, where `skipped` lines were dropped.
   */
  lemma BodyReadsFences(lines: seq<string>) returns (skipped: nat)
    requires KeptLines(lines)
    ensures skipped + |SplitLines(Body(lines))| <= |lines|
    ensures forall k :: 0 <= k < |SplitLines(Body(lines))| ==> SplitLines(Body(lines))[k] == Content(lines[skipped + k])
    ensures forall k :: 0 <= k <= |SplitLines(Body(lines))|
              ==> RunFence(Outside, SplitLines(Body(lines))[..k]) == RunFence(Outside, lines[..skipped + k])
  {
    hide SplitLines, RunFence, KeptLines, Body, AllEmpty, Content;
    var body := SplitLines(Body(lines));
    var lead, trail := BodyLines(lines);
    skipped := |lead|;
    ContentsAt(lines);
    forall k | 0 <= k <= |body| ensures RunFence(Outside, body[..k]) == RunFence(Outside, lines[..skipped + k]) {
      var read := lines[..skipped + k];
      KeptLinesPrefix(lines, skipped + k);
      RunFenceContents(Outside, read);
      assert lines == read + lines[skipped + k..];
      ContentsConcat(read, lines[skipped + k..]);
      assert Contents(read) == Contents(lines)[..skipped + k];
      assert Contents(read) == lead + body[..k];
      RunFenceConcat(Outside, lead, body[..k]);
      EmptyLinesKeepFence(Outside, lead);
    }
  }

  lemma {:induction false} ContentsAt(lines: seq<string>)
    ensures forall i :: 0 <= i < |lines| ==> Contents(lines)[i] == Content(lines[i])
  {
    hide Content;
    if lines != [] {
      ContentsAt(lines[1..]);
    }
  }

  /** A body read on its own leaves the fences as its lines leave them in the document. */
  lemma BodyKeepsFences(lines: seq<string>)
    requires KeptLines(lines)
    ensures RunFence(Outside, SplitLines(Body(lines))) == RunFence(Outside, lines)
  {
    hide SplitLines, RunFence, KeptLines, Body, AllEmpty;
    var body := SplitLines(Body(lines));
    var lead, trail := BodyLines(lines);
    RunFenceContents(Outside, lines);
    RunFenceConcat(Outside, lead + body, trail);
    RunFenceConcat(Outside, lead, body);
    EmptyLinesKeepFence(Outside, lead);
    EmptyLinesKeepFence(RunFence(Outside, body), trail);
  }

  /** Every run but the last ends outside a fence, and all of them are lines of the document. */
  predicate RunsClosed(runs: seq<Run>) {
    && (forall i :: 0 <= i < |runs| ==> KeptLines(runs[i].lines))
    && (forall i :: 0 <= i < |runs| - 1 ==> RunFence(Outside, runs[i].lines) == Outside)
  }

  lemma {:induction false} RunsAreClosed(headings: seq<Heading>, current: seq<string>, fence: FenceState,
                                         lines: seq<string>)
    requires Leveled(headings) && KeptLines(current + lines) && fence == RunFence(Outside, current)
    ensures RunsClosed(Runs(headings, current, fence, lines))
    decreases lines
  {
    hide KeptLines, HeadingOf, FenceOf, NextFence, Leveled;
    if lines == [] {
      assert current + lines == current;
    } else {
      var line, rest := lines[0], lines[1..];
      var heading := HeadingAt(fence, line);
      assert current + lines == (current + [line]) + rest;
      if heading.Some? {
        AppendHeading(headings, heading.value);
        KeptLinesPrefix(current + lines, |current|);
        assert (current + lines)[..|current|] == current;
        KeptLinesPrefix(current + lines, |current| + 1);
        assert (current + lines)[|current| + 1..] == [] + rest;
        RunsAreClosed(headings + [heading.value], [], Outside, rest);
        var later := Runs(headings + [heading.value], [], Outside, rest);
        var all := [Run(headings, current)] + later;
        assert forall i :: 1 <= i < |all| ==> all[i] == later[i - 1];
      } else {
        RunFenceConcat(Outside, current, [line]);
        assert [line][1..] == [];
        RunsAreClosed(headings, current + [line], NextFence(fence, line), rest);
      }
    }
  }

  /** Scanned on its own, the body opens no fence that it does not close. */
  predicate ClosedBody(section: RawSection) {
    RunFence(Outside, SplitLines(section.body)) == Outside
  }

  predicate ClosedSections(sections: seq<RawSection>) {
    forall i :: 0 <= i < |sections| ==> ClosedBody(sections[i])
  }

  predicate ClosedButLast(sections: seq<RawSection>) {
    forall i :: 0 <= i < |sections| - 1 ==> ClosedBody(sections[i])
  }

  lemma SectionIsClosed(run: Run, defaultHeading: string)
    requires Leveled(run.headings) && KeptLines(run.lines) && RunFence(Outside, run.lines) == Outside
    ensures ClosedSections(SectionOfRun(run, defaultHeading))
  {
    hide KeptLines, RunFence, SplitLines, Body, Blank, LabelOf, Leveled;
    BodyKeepsFences(run.lines);
  }

  lemma AtMostOneSection(run: Run, defaultHeading: string)
    requires Leveled(run.headings)
    ensures |SectionOfRun(run, defaultHeading)| <= 1
  {
  }

  lemma {:induction false} ClosedRunsMakeClosedSections(runs: seq<Run>, defaultHeading: string)
    requires RunsClosed(runs) && forall i :: 0 <= i < |runs| ==> Leveled(runs[i].headings)
    ensures ClosedButLast(SectionsOfRuns(runs, defaultHeading))
  {
    hide KeptLines, RunFence, ClosedBody, SectionOfRun, Leveled;
    if runs != [] {
      var rest := runs[1..];
      assert forall i :: 0 <= i < |rest| ==> rest[i] == runs[i + 1];
      ClosedRunsMakeClosedSections(rest, defaultHeading);
      var first, later := SectionOfRun(runs[0], defaultHeading), SectionsOfRuns(rest, defaultHeading);
      if later != [] {
        assert rest != [];
        SectionIsClosed(runs[0], defaultHeading);
      } else {
        AtMostOneSection(runs[0], defaultHeading);
      }
      var all: seq<RawSection> := first + later;
      assert all == SectionsOfRuns(runs, defaultHeading);
      forall i | 0 <= i < |all| - 1 ensures ClosedBody(all[i]) {
        if i >= |first| {
          assert all[i] == later[i - |first|];
        }
      }
    }
  }

  lemma DocumentRunsClosed(markdown: string)
    ensures Leveled([]) && RunsClosed(Runs([], [], Outside, SplitKeep(markdown)))
  {
    hide KeptLines, SplitKeep, RunsClosed;
    SplitKeepKept(markdown);
    assert [] + SplitKeep(markdown) == SplitKeep(markdown);
    RunsAreClosed([], [], Outside, SplitKeep(markdown));
  }

  /** Every section but the last ends outside a fence when its body is scanned on its own. */
  lemma SectionsEndOutsideFences(markdown: string, defaultHeading: string, i: nat)
    requires i + 1 < |HeadingSections(markdown, defaultHeading)|
    ensures ClosedBody(HeadingSections(markdown, defaultHeading)[i])
  {
    hide SplitKeep, RunsClosed, NextFence, LineEnd;
    DocumentRunsClosed(markdown);
    ClosedRunsMakeClosedSections(Runs([], [], Outside, SplitKeep(markdown)), defaultHeading);
  }
}
