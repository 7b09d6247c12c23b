/** How the default heading, which is the document's title, enters the sections of a split. */
module Titles {
  import opened Text
  import opened Lines
  import opened Tokens
  import opened Blocks
  import opened Sectioner
  import opened SectionerLaws
  import opened Headings
  import opened Records
  import opened Documents
  import opened Publication

  // ----- Which labels are the title -----

  /** The headings in force name nothing, so that a section under them is labelled with the default. */
  predicate Nameless(headings: seq<Heading>)
    requires Leveled(headings)
  {
    headings == [] || Join(NonEmpty(HierarchyAfter(headings)[..headings[|headings| - 1].level]), " > ") == ""
  }

  lemma LabelUnder(headings: seq<Heading>, t: string, u: string)
    requires Leveled(headings)
    ensures if Nameless(headings) then LabelOf(headings, t) == t else LabelOf(headings, t) == LabelOf(headings, u)
  {
  }

  predicate UsesTitle(run: Run)
    requires Leveled(run.headings)
  {
    !Blank(Body(run.lines)) && Nameless(run.headings)
  }

  predicate AnyUsesTitle(runs: seq<Run>)
    requires forall i :: 0 <= i < |runs| ==> Leveled(runs[i].headings)
  {
    exists i :: 0 <= i < |runs| && UsesTitle(runs[i])
  }

  /**
   The title labels a section of the text: something is shown before any heading that names something, or
   nothing is shown but headings.
   */
  predicate TitleShows(text: string) {
    HeadingSections(text, "") == [] || AnyUsesTitle(DocumentRuns(text))
  }

  function DocumentRuns(text: string): (runs: seq<Run>)
    ensures forall i :: 0 <= i < |runs| ==> Leveled(runs[i].headings)
  {
    Runs([], [], Outside, SplitKeep(text))
  }

  /** The sections agree up to one that is labelled with the title on both sides. */
  predicate DifferAt(xs: seq<RawSection>, ys: seq<RawSection>, r: nat, t: string, u: string) {
    r < |xs| && r < |ys| && xs[..r] == ys[..r] && xs[r].heading == t && ys[r].heading == u
  }

  ghost predicate Differ(xs: seq<RawSection>, ys: seq<RawSection>, t: string, u: string) {
    exists r: nat :: DifferAt(xs, ys, r, t, u)
  }

  lemma DifferLater(first: seq<RawSection>, xs: seq<RawSection>, ys: seq<RawSection>, t: string, u: string)
    requires Differ(xs, ys, t, u)
    ensures Differ(first + xs, first + ys, t, u)
  {
    var r: nat :| DifferAt(xs, ys, r, t, u);
    assert (first + xs)[..|first| + r] == first + xs[..r] && (first + ys)[..|first| + r] == first + ys[..r];
    assert DifferAt(first + xs, first + ys, |first| + r, t, u);
  }

  lemma {:induction false} SectionsUnderTitles(runs: seq<Run>, t: string, u: string)
    requires forall i :: 0 <= i < |runs| ==> Leveled(runs[i].headings)
    ensures if AnyUsesTitle(runs) then Differ(SectionsOfRuns(runs, t), SectionsOfRuns(runs, u), t, u)
            else SectionsOfRuns(runs, t) == SectionsOfRuns(runs, u)
    ensures SectionsOfRuns(runs, t) == [] <==> SectionsOfRuns(runs, u) == []
  {
    hide Blank, Body, LabelOf, Nameless, Leveled, Differ;
    if runs != [] {
      var run, rest := runs[0], runs[1..];
      assert runs == [run] + rest;
      assert forall i :: 0 <= i < |rest| ==> rest[i] == runs[i + 1];
      SectionsUnderTitles(rest, t, u);
      LabelUnder(run.headings, t, u);
      LabelUnder(run.headings, u, t);
      var first, later, later' := SectionOfRun(run, t), SectionsOfRuns(rest, t), SectionsOfRuns(rest, u);
      if UsesTitle(run) {
        assert Differ(first + later, SectionOfRun(run, u) + later', t, u) by {
          FirstDiffers(first, SectionOfRun(run, u), later, later', t, u);
        }
      } else {
        assert first == SectionOfRun(run, u);
        if AnyUsesTitle(rest) {
          DifferLater(first, later, later', t, u);
        }
      }
    }
  }

  lemma FirstDiffers(xs: seq<RawSection>, ys: seq<RawSection>, later: seq<RawSection>, later': seq<RawSection>,
                     t: string, u: string)
    requires |xs| == 1 && |ys| == 1 && xs[0].heading == t && ys[0].heading == u
    ensures Differ(xs + later, ys + later', t, u)
  {
    assert DifferAt(xs + later, ys + later', 0, t, u);
  }

  lemma RawSectionsUnderTitles(text: string, t: string, u: string)
    ensures if TitleShows(text) then Differ(RawSections(text, t), RawSections(text, u), t, u)
            else RawSections(text, t) == RawSections(text, u)
  {
    hide AnyUsesTitle, Differ, SectionsOfRuns, Runs;
    SectionsUnderTitles(DocumentRuns(text), t, u);
    SectionsUnderTitles(DocumentRuns(text), "", t);
    if HeadingSections(text, "") == [] {
      assert [RawSection(t, text)] + [] == [RawSection(t, text)];
      assert [RawSection(u, text)] + [] == [RawSection(u, text)];
      FirstDiffers([RawSection(t, text)], [RawSection(u, text)], [], [], t, u);
    }
  }

  // ----- The sections under two titles -----

  lemma {:induction false} DraftsExtend(budget: Budget, drafts: seq<Draft>, raws: seq<RawSection>)
    requires DraftsFrom(budget, drafts, raws).Ok?
    ensures drafts <= DraftsFrom(budget, drafts, raws).value
    decreases raws
  {
    hide SectionParts, DraftsOfParts;
    if raws != [] {
      var parts := SectionParts(budget, raws[0].heading, raws[0].body).value;
      DraftsExtend(budget, drafts + DraftsOfParts(raws[0].heading, parts), raws[1..]);
    }
  }

  /** The first part of the section that differs has the same order under both titles. */
  lemma {:induction false} DraftsDiffer(budget: Budget, drafts: seq<Draft>, xs: seq<RawSection>, ys: seq<RawSection>,
                                        r: nat, t: string, u: string) returns (k: nat)
    requires DifferAt(xs, ys, r, t, u) && VisibleSections(xs) && VisibleSections(ys)
    requires DraftsFrom(budget, drafts, xs).Ok? && DraftsFrom(budget, drafts, ys).Ok?
    ensures k < |DraftsFrom(budget, drafts, xs).value| && DraftsFrom(budget, drafts, xs).value[k].heading == t
    ensures k < |DraftsFrom(budget, drafts, ys).value| && DraftsFrom(budget, drafts, ys).value[k].heading == u
    decreases r
  {
    hide SectionParts, Blank;
    var x, y := xs[0], ys[0];
    SectionNotEmpty(budget, x.heading, x.body);
    SectionNotEmpty(budget, y.heading, y.body);
    var more := drafts + DraftsOfParts(x.heading, SectionParts(budget, x.heading, x.body).value);
    var more' := drafts + DraftsOfParts(y.heading, SectionParts(budget, y.heading, y.body).value);
    if r == 0 {
      k := |drafts|;
      DraftsExtend(budget, more, xs[1..]);
      DraftsExtend(budget, more', ys[1..]);
    } else {
      assert xs[..r][0] == x && ys[..r][0] == y;
      assert xs[1..][..r - 1] == xs[..r][1..] && ys[1..][..r - 1] == ys[..r][1..];
      assert VisibleSections(xs[1..]) && VisibleSections(ys[1..]) by {
        assert forall i :: 0 <= i < |xs[1..]| ==> xs[1..][i] == xs[i + 1];
        assert forall i :: 0 <= i < |ys[1..]| ==> ys[1..][i] == ys[i + 1];
      }
      k := DraftsDiffer(budget, more, xs[1..], ys[1..], r - 1, t, u);
    }
  }

  /** Some section of the first list has an id that the second list lacks. */
  predicate HasOthers(sections: seq<Section>, others: seq<Section>) {
    exists i :: 0 <= i < |sections| && !HasSection(others, sections[i].id)
  }

  lemma OrderDiffers(drafts: seq<Draft>, drafts': seq<Draft>, k: nat)
    requires k < |drafts| && k < |drafts'| && drafts[k].heading != drafts'[k].heading
    ensures HasOthers(SectionsOf(drafts), SectionsOf(drafts'))
  {
    var sections, others := SectionsOf(drafts), SectionsOf(drafts');
    assert sections[k] == SectionAt(drafts, k);
    forall j | 0 <= j < |others| ensures others[j].id != sections[k].id {
      assert others[j] == SectionAt(drafts', j);
    }
  }

  /** Two titles give one document different sections if and only if the title labels one of them. */
  lemma TitlesMatterIff(budget: Budget, markdown: string, t: string, u: string)
    requires t != u && SplitSpec(budget, markdown, t).Ok? && SplitSpec(budget, markdown, u).Ok?
    ensures HasOthers(SplitSpec(budget, markdown, t).value, SplitSpec(budget, markdown, u).value)
       <==> TitleShows(Strip(markdown))
  {
    hide Strip, Blank, RawSections, DraftsFrom, TitleShows, HasOthers, SectionsOf, HasSection;
    var text := Strip(markdown);
    var xs, ys := RawSections(text, t), RawSections(text, u);
    RawSectionsUnderTitles(text, t, u);
    StripBlank(markdown);
    StripKeepsVisible(markdown);
    RawSectionsVisible(text, t);
    RawSectionsVisible(text, u);
    if TitleShows(text) {
      var r: nat :| DifferAt(xs, ys, r, t, u);
      var k := DraftsDiffer(budget, [], xs, ys, r, t, u);
      OrderDiffers(DraftsFrom(budget, [], xs).value, DraftsFrom(budget, [], ys).value, k);
    } else {
      NoOthers(SplitSpec(budget, markdown, t).value);
    }
  }

  lemma NoOthers(sections: seq<Section>)
    ensures !HasOthers(sections, sections)
  {
    forall i | 0 <= i < |sections| ensures HasSection(sections, sections[i].id) {
    }
  }
}
