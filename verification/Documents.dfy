/** Splitting a whole document into the linked list of bounded parent sections. */
module Documents {
  import opened Results
  import opened Text
  import opened Lines
  import opened Tokens
  import opened Blocks
  import opened Packing
  import opened PackingLaws
  import opened Sectioner
  import opened SectionerLaws
  import opened Headings
  import opened HeadingLaws
  import opened Records

  datatype Draft = Draft(heading: string, text: string, part: nat, partCount: nat)

  /** The heading sections, or the whole text under the default heading when there are none. */
  function RawSections(text: string, defaultHeading: string): seq<RawSection> {
    var sections := HeadingSections(text, defaultHeading);
    if sections == [] then [RawSection(defaultHeading, text)] else sections
  }

  function DraftsOfParts(heading: string, parts: seq<string>): (drafts: seq<Draft>)
    ensures |drafts| == |parts|
  {
    seq(|parts|, i requires 0 <= i < |parts| => Draft(heading, SectionText(heading, parts[i]), i + 1, |parts|))
  }

  function DraftsFrom(budget: Budget, drafts: seq<Draft>, raws: seq<RawSection>): Result<seq<Draft>, SplitError>
    decreases raws
  {
    if raws == [] then Ok(drafts)
    else
      var parts :- SectionParts(budget, raws[0].heading, raws[0].body);
      DraftsFrom(budget, drafts + DraftsOfParts(raws[0].heading, parts), raws[1..])
  }

  function IdAt(drafts: seq<Draft>, i: nat): SectionId
    requires i < |drafts|
  {
    Hashed(drafts[i].heading, i, drafts[i].text)
  }

  /** The section at a place: its links name the parts beside it, if it has them. */
  function SectionAt(drafts: seq<Draft>, i: nat): Section
    requires i < |drafts|
  {
    var d := drafts[i];
    Section(IdAt(drafts, i), d.heading, d.text, i, d.part, d.partCount,
            if d.part > 1 && i > 0 then Some(IdAt(drafts, i - 1)) else None,
            if d.part < d.partCount && i + 1 < |drafts| then Some(IdAt(drafts, i + 1)) else None)
  }

  function SectionsOf(drafts: seq<Draft>): (sections: seq<Section>)
    ensures |sections| == |drafts|
    ensures forall i :: 0 <= i < |drafts| ==> sections[i] == SectionAt(drafts, i)
  {
    seq(|drafts|, i requires 0 <= i < |drafts| => SectionAt(drafts, i))
  }

  /** `MarkdownSectioner.split`. */
  function SplitSpec(budget: Budget, markdown: string, defaultHeading: string): Result<seq<Section>, SplitError> {
    if Strip(markdown) == "" then Raised(EmptyDocument)
    else
      var drafts :- DraftsFrom(budget, [], RawSections(Strip(markdown), defaultHeading));
      Ok(SectionsOf(drafts))
  }

  // ----- The groups of drafts that share a heading section -----

  datatype Range = Range(start: nat, end: nat)

  predicate GroupAt(drafts: seq<Draft>, group: Range) {
    && group.start <= group.end <= |drafts|
    && forall i :: group.start <= i < group.end ==>
         && drafts[i].part == i - group.start + 1
         && drafts[i].partCount == group.end - group.start
         && drafts[i].heading == drafts[group.start].heading
  }

  /** Where the first `g` groups end. */
  function EndOf(groups: seq<Range>, g: nat): nat
    requires g <= |groups|
  {
    if g == 0 then 0 else groups[g - 1].end
  }

  /** The groups lie end to end and cover the drafts. */
  predicate Grouped(drafts: seq<Draft>, groups: seq<Range>) {
    && (forall g: nat :: g < |groups| ==> GroupAt(drafts, groups[g]) && groups[g].start == EndOf(groups, g))
    && |drafts| == EndOf(groups, |groups|)
  }

  lemma GroupKept(drafts: seq<Draft>, more: seq<Draft>, group: Range)
    requires GroupAt(drafts, group)
    ensures GroupAt(drafts + more, group)
  {
    assert forall i :: 0 <= i < |drafts| ==> (drafts + more)[i] == drafts[i];
  }

  lemma GroupMade(drafts: seq<Draft>, heading: string, parts: seq<string>)
    ensures GroupAt(drafts + DraftsOfParts(heading, parts), Range(|drafts|, |drafts| + |parts|))
  {
    hide SectionText;
    var more := DraftsOfParts(heading, parts);
    assert forall i :: |drafts| <= i < |drafts| + |parts| ==> (drafts + more)[i] == more[i - |drafts|];
  }

  lemma GroupedAppend(drafts: seq<Draft>, groups: seq<Range>, heading: string, parts: seq<string>)
    requires Grouped(drafts, groups)
    ensures Grouped(drafts + DraftsOfParts(heading, parts), groups + [Range(|drafts|, |drafts| + |parts|)])
  {
    hide GroupAt;
    var more := DraftsOfParts(heading, parts);
    var ranges := groups + [Range(|drafts|, |drafts| + |parts|)];
    GroupMade(drafts, heading, parts);
    forall g: nat | g < |ranges| ensures GroupAt(drafts + more, ranges[g]) && ranges[g].start == EndOf(ranges, g) {
      if g < |groups| {
        assert GroupAt(drafts, groups[g]) && groups[g].start == EndOf(groups, g);
        GroupKept(drafts, more, groups[g]);
      }
    }
  }

  /** Every draft lies in a group, which says where it stands among its parts. */
  lemma {:induction false} GroupOf(drafts: seq<Draft>, groups: seq<Range>, n: nat, i: nat) returns (g: nat)
    requires Grouped(drafts, groups) && n <= |groups|
    requires i < EndOf(groups, n)
    ensures g < |groups| && groups[g].start <= i < groups[g].end
  {
    assert groups[n - 1].start == EndOf(groups, n - 1);
    if groups[n - 1].start <= i {
      g := n - 1;
    } else {
      g := GroupOf(drafts, groups, n - 1, i);
    }
  }

  lemma GroupedSectionsAreLinked(drafts: seq<Draft>, groups: seq<Range>)
    requires Grouped(drafts, groups)
    ensures IsLinkedList(SectionsOf(drafts))
  {
    var sections := SectionsOf(drafts);
    forall i: nat | i < |sections| ensures Placed(sections, i) {
      var g := GroupOf(drafts, groups, |groups|, i);
      PartsInGroup(drafts, groups[g], i);
      assert sections[i] == SectionAt(drafts, i);
      if i > 0 { assert sections[i - 1] == SectionAt(drafts, i - 1); }
      if i + 1 < |sections| { assert sections[i + 1] == SectionAt(drafts, i + 1); }
    }
  }

  predicate NextPart(a: Draft, b: Draft) {
    b.heading == a.heading && b.partCount == a.partCount && b.part == a.part + 1
  }

  lemma PartsInGroup(drafts: seq<Draft>, group: Range, i: nat)
    requires GroupAt(drafts, group) && group.start <= i < group.end
    ensures 1 <= drafts[i].part <= drafts[i].partCount
    ensures drafts[i].part > 1 ==> i > 0 && NextPart(drafts[i - 1], drafts[i])
    ensures drafts[i].part < drafts[i].partCount ==> i + 1 < |drafts| && NextPart(drafts[i], drafts[i + 1])
  {
  }

  lemma {:induction false} DraftsAreGrouped(budget: Budget, drafts: seq<Draft>, raws: seq<RawSection>,
                                            groups: seq<Range>)
    returns (all: seq<Range>)
    requires Grouped(drafts, groups) && DraftsFrom(budget, drafts, raws).Ok?
    ensures Grouped(DraftsFrom(budget, drafts, raws).value, all)
    decreases raws
  {
    hide SectionParts, Grouped, DraftsOfParts;
    if raws == [] {
      all := groups;
    } else {
      var parts := SectionParts(budget, raws[0].heading, raws[0].body).value;
      GroupedAppend(drafts, groups, raws[0].heading, parts);
      all := DraftsAreGrouped(budget, drafts + DraftsOfParts(raws[0].heading, parts), raws[1..],
                              groups + [Range(|drafts|, |drafts| + |parts|)]);
    }
  }

  /** The sections form doubly linked lists, one per heading section, with distinct content-addressed ids. */
  lemma SplitIsLinked(budget: Budget, markdown: string, defaultHeading: string)
    requires SplitSpec(budget, markdown, defaultHeading).Ok?
    ensures var sections := SplitSpec(budget, markdown, defaultHeading).value;
            && IsLinkedList(sections)
            && AllWellLinked(sections)
            && forall i, j :: 0 <= i < j < |sections| ==> sections[i].id != sections[j].id
  {
    hide Strip, SectionParts, RawSections, IsLinkedList, AllWellLinked;
    assert Grouped([], []);
    var groups := DraftsAreGrouped(budget, [], RawSections(Strip(markdown), defaultHeading), []);
    var drafts := DraftsFrom(budget, [], RawSections(Strip(markdown), defaultHeading)).value;
    GroupedSectionsAreLinked(drafts, groups);
    LinkedListLinksWell(SectionsOf(drafts));
  }

  // ----- The split as the loops it is -----

  method Split(budget: Budget, markdown: string, defaultHeading: string)
    returns (result: Result<seq<Section>, SplitError>)
    ensures result == SplitSpec(budget, markdown, defaultHeading)
  {
    hide Strip, HeadingSections, SectionParts, Grouped, DraftsOfParts, SectionsOf;
    var text := Strip(markdown);
    if text == "" {
      return Raised(EmptyDocument);
    }
    var raws := SplitHeadingSections(text, defaultHeading);
    if raws == [] {
      raws := [RawSection(defaultHeading, text)];
    }
    var drafts: seq<Draft>, groups: seq<Range> := [], [];
    assert Grouped(drafts, groups) by { NothingGrouped(); }
    var i := 0;
    while i < |raws|
      invariant 0 <= i <= |raws|
      invariant Grouped(drafts, groups)
      invariant DraftsFrom(budget, [], raws) == DraftsFrom(budget, drafts, raws[i..])
    {
      assert raws[i..][0] == raws[i] && raws[i..][1..] == raws[i + 1..];
      var heading := raws[i].heading;
      var parts := SplitOversized(budget, heading, raws[i].body);
      if parts.Raised? {
        return Raised(parts.error);
      }
      GroupedAppend(drafts, groups, heading, parts.value);
      groups := groups + [Range(|drafts|, |drafts| + |parts.value|)];
      drafts := AppendDrafts(drafts, heading, parts.value);
      i := i + 1;
    }
    assert raws[i..] == [];
    var sections := LinkSections(drafts, groups);
    result := Ok(sections);
  }

  lemma NothingGrouped()
    ensures Grouped([], [])
  {
  }

  method AppendDrafts(drafts: seq<Draft>, heading: string, parts: seq<string>) returns (more: seq<Draft>)
    ensures more == drafts + DraftsOfParts(heading, parts)
  {
    hide SectionText;
    more := drafts;
    var numbered := DraftsOfParts(heading, parts);
    for i := 0 to |parts|
      invariant more == drafts + numbered[..i]
    {
      more := more + [Draft(heading, SectionText(heading, parts[i]), i + 1, |parts|)];
    }
    assert numbered[..|parts|] == numbered;
  }

  type Links = map<nat, (Option<SectionId>, Option<SectionId>)>

  ghost predicate LinkedUpTo(drafts: seq<Draft>, neighbors: Links, n: nat) {
    n <= |drafts| && forall i: nat :: i < n ==> i in neighbors && neighbors[i] == Neighbors(drafts, i)
  }

  lemma LinkOne(drafts: seq<Draft>, neighbors: Links, group: Range, index: nat)
    requires GroupAt(drafts, group) && group.start <= index < group.end && LinkedUpTo(drafts, neighbors, index)
    ensures var previous := if index > group.start then Some(IdAt(drafts, index - 1)) else None;
            var next := if index + 1 < group.end then Some(IdAt(drafts, index + 1)) else None;
            LinkedUpTo(drafts, neighbors[index := (previous, next)], index + 1)
  {
    PartsInGroup(drafts, group, index);
  }

  /** The neighbours of every part, group by group. */
  method LinkNeighbors(drafts: seq<Draft>, groups: seq<Range>, ids: seq<SectionId>) returns (neighbors: Links)
    requires Grouped(drafts, groups)
    requires |ids| == |drafts| && forall i: nat :: i < |ids| ==> ids[i] == IdAt(drafts, i)
    ensures LinkedUpTo(drafts, neighbors, |drafts|)
  {
    hide LinkedUpTo, IdAt;
    neighbors := map[];
    assert LinkedUpTo(drafts, neighbors, 0) by { NothingLinked(drafts); }
    var g := 0;
    while g < |groups|
      invariant 0 <= g <= |groups|
      invariant LinkedUpTo(drafts, neighbors, EndOf(groups, g))
    {
      var group := groups[g];
      assert GroupAt(drafts, group) && group.start == EndOf(groups, g);
      var index := group.start;
      while index < group.end
        invariant group.start <= index <= group.end
        invariant LinkedUpTo(drafts, neighbors, index)
      {
        LinkOne(drafts, neighbors, group, index);
        var previous := if index > group.start then Some(ids[index - 1]) else None;
        var next := if index + 1 < group.end then Some(ids[index + 1]) else None;
        neighbors := neighbors[index := (previous, next)];
        index := index + 1;
      }
      g := g + 1;
    }
  }

  lemma NothingLinked(drafts: seq<Draft>)
    ensures LinkedUpTo(drafts, map[], 0)
  {
  }

  lemma SectionFromLinks(drafts: seq<Draft>, neighbors: Links, i: nat)
    requires i < |drafts| && LinkedUpTo(drafts, neighbors, |drafts|)
    ensures var d := drafts[i];
            && i in neighbors
            && Section(IdAt(drafts, i), d.heading, d.text, i, d.part, d.partCount, neighbors[i].0, neighbors[i].1)
               == SectionAt(drafts, i)
    ensures SectionsOf(drafts)[..i + 1] == SectionsOf(drafts)[..i] + [SectionAt(drafts, i)]
  {
  }

  /** The ids, the neighbours, and then the sections in order. */
  method LinkSections(drafts: seq<Draft>, groups: seq<Range>) returns (sections: seq<Section>)
    requires Grouped(drafts, groups)
    ensures sections == SectionsOf(drafts)
  {
    hide LinkedUpTo, Grouped, SectionAt, SectionsOf, IdAt;
    var ids := seq(|drafts|, i requires 0 <= i < |drafts| => IdAt(drafts, i));
    var neighbors := LinkNeighbors(drafts, groups, ids);
    sections := [];
    var order := 0;
    while order < |drafts|
      invariant 0 <= order <= |drafts|
      invariant sections == SectionsOf(drafts)[..order]
    {
      SectionFromLinks(drafts, neighbors, order);
      var d := drafts[order];
      var (previous, next) := neighbors[order];
      sections := sections + [Section(ids[order], d.heading, d.text, order, d.part, d.partCount, previous, next)];
      order := order + 1;
    }
    assert SectionsOf(drafts)[..|drafts|] == SectionsOf(drafts);
  }

  function Neighbors(drafts: seq<Draft>, i: nat): (Option<SectionId>, Option<SectionId>)
    requires i < |drafts|
  {
    (SectionAt(drafts, i).previous, SectionAt(drafts, i).next)
  }

  // ----- When it raises, and the hard budget -----

  predicate VisibleSections(raws: seq<RawSection>) {
    forall i :: 0 <= i < |raws| ==> !Blank(raws[i].body)
  }

  lemma RawSectionsVisible(text: string, defaultHeading: string)
    requires !Blank(text)
    ensures VisibleSections(RawSections(text, defaultHeading))
  {
    hide Blank, Runs, SplitKeep, Leveled;
    assert Leveled([]) by { StartScan(text, defaultHeading); }
    SectionsAreVisible(Runs([], [], Outside, SplitKeep(text)), defaultHeading);
  }

  predicate AnyUnsplittable(budget: Budget, heading: string, blocks: seq<string>) {
    exists i :: 0 <= i < |blocks| && Unsplittable(budget, heading, blocks[i])
  }

  predicate RawUnsplittable(budget: Budget, raw: RawSection) {
    AnyUnsplittable(budget, raw.heading, AtomicBlocks(raw.body))
  }

  predicate RawUnchecked(budget: Budget, raw: RawSection) {
    AnyUnchecked(budget, raw.heading, AtomicBlocks(raw.body))
  }

  lemma {:induction false} DraftsRaise(budget: Budget, drafts: seq<Draft>, raws: seq<RawSection>)
    requires VisibleSections(raws)
    ensures DraftsFrom(budget, drafts, raws).Raised?
       <==> exists r :: 0 <= r < |raws| && RawUnsplittable(budget, raws[r])
    decreases raws
  {
    hide SectionParts, AtomicBlocks, Unsplittable, Blank, DraftsOfParts;
    if raws != [] {
      var rest := raws[1..];
      assert raws == [raws[0]] + rest;
      assert forall r :: 0 <= r < |rest| ==> rest[r] == raws[r + 1];
      SectionRaises(budget, raws[0].heading, raws[0].body);
      if SectionParts(budget, raws[0].heading, raws[0].body).Ok? {
        var parts := SectionParts(budget, raws[0].heading, raws[0].body).value;
        DraftsRaise(budget, drafts + DraftsOfParts(raws[0].heading, parts), rest);
      }
    }
  }

  /** Splitting raises on blank text, and otherwise exactly when some block cannot be bounded. */
  lemma SplitRaises(budget: Budget, markdown: string, defaultHeading: string)
    ensures SplitSpec(budget, markdown, defaultHeading).Raised?
       <==> || Blank(markdown)
            || exists r :: var raws := RawSections(Strip(markdown), defaultHeading);
                           0 <= r < |raws| && RawUnsplittable(budget, raws[r])
  {
    hide Blank, Strip, RawSections, RawUnsplittable;
    StripBlank(markdown);
    if !Blank(markdown) {
      StripKeepsVisible(markdown);
      RawSectionsVisible(Strip(markdown), defaultHeading);
      DraftsRaise(budget, [], RawSections(Strip(markdown), defaultHeading));
    }
  }

  lemma StripKeepsVisible(s: string)
    ensures Blank(Strip(s)) <==> Blank(s)
  {
    hide Blank, Strip, Ink;
    InkStrip(s);
    InkBlank(s);
    InkBlank(Strip(s));
  }

  lemma {:induction false} DraftsGrow(budget: Budget, drafts: seq<Draft>, raws: seq<RawSection>)
    requires VisibleSections(raws) && DraftsFrom(budget, drafts, raws).Ok?
    requires drafts != [] || raws != []
    ensures DraftsFrom(budget, drafts, raws).value != []
    decreases raws
  {
    hide SectionParts, Blank;
    if raws != [] {
      var rest := raws[1..];
      assert forall r :: 0 <= r < |rest| ==> rest[r] == raws[r + 1];
      SectionNotEmpty(budget, raws[0].heading, raws[0].body);
      var parts := SectionParts(budget, raws[0].heading, raws[0].body).value;
      DraftsGrow(budget, drafts + DraftsOfParts(raws[0].heading, parts), rest);
    }
  }

  /** A split that returns has at least one section. */
  lemma SplitNotEmpty(budget: Budget, markdown: string, defaultHeading: string)
    requires SplitSpec(budget, markdown, defaultHeading).Ok?
    ensures SplitSpec(budget, markdown, defaultHeading).value != []
  {
    hide Blank, Strip, RawSections, DraftsFrom;
    StripBlank(markdown);
    StripKeepsVisible(markdown);
    RawSectionsVisible(Strip(markdown), defaultHeading);
    assert RawSections(Strip(markdown), defaultHeading) != [] by { SomeRawSection(Strip(markdown), defaultHeading); }
    DraftsGrow(budget, [], RawSections(Strip(markdown), defaultHeading));
  }

  lemma SomeRawSection(text: string, defaultHeading: string)
    ensures RawSections(text, defaultHeading) != []
  {
    hide HeadingSections;
  }

  predicate DraftsFit(budget: Budget, drafts: seq<Draft>) {
    forall i :: 0 <= i < |drafts| ==> FitsText(drafts[i].text, budget)
  }

  lemma DraftsFitConcat(budget: Budget, drafts: seq<Draft>, heading: string, parts: seq<string>)
    ensures DraftsFit(budget, drafts + DraftsOfParts(heading, parts))
       <==> DraftsFit(budget, drafts) && AllFit(budget, heading, parts)
  {
    hide FitsText, SectionText;
    var more := DraftsOfParts(heading, parts);
    var all := drafts + more;
    assert forall i :: 0 <= i < |drafts| ==> all[i] == drafts[i];
    assert forall i :: |drafts| <= i < |all| ==> all[i] == more[i - |drafts|];
    if DraftsFit(budget, all) {
      assert forall i :: 0 <= i < |drafts| ==> FitsText(all[i].text, budget);
      forall i | 0 <= i < |parts| ensures Fits(budget, heading, parts[i]) {
        assert FitsText(all[|drafts| + i].text, budget);
      }
    }
  }

  lemma {:induction false} DraftsStayWithin(budget: Budget, drafts: seq<Draft>, raws: seq<RawSection>)
    requires VisibleSections(raws) && DraftsFrom(budget, drafts, raws).Ok?
    ensures DraftsFit(budget, DraftsFrom(budget, drafts, raws).value)
       <==> DraftsFit(budget, drafts) && !exists r :: 0 <= r < |raws| && RawUnchecked(budget, raws[r])
    decreases raws
  {
    hide SectionParts, AtomicBlocks, AnyUnchecked, Blank, DraftsOfParts, DraftsFit, AllFit;
    if raws != [] {
      var rest := raws[1..];
      assert raws == [raws[0]] + rest;
      assert forall r :: 0 <= r < |rest| ==> rest[r] == raws[r + 1];
      SectionFits(budget, raws[0].heading, raws[0].body);
      var parts := SectionParts(budget, raws[0].heading, raws[0].body).value;
      DraftsFitConcat(budget, drafts, raws[0].heading, parts);
      DraftsStayWithin(budget, drafts + DraftsOfParts(raws[0].heading, parts), rest);
    }
  }

  /**
   The hard budget: when splitting returns, every section text is within both limits, except exactly
   when some block that does not fit is a fence or table with nothing visible in its body and a shell
   that alone is too large.
   */
  lemma SplitFits(budget: Budget, markdown: string, defaultHeading: string)
    requires SplitSpec(budget, markdown, defaultHeading).Ok?
    ensures var sections := SplitSpec(budget, markdown, defaultHeading).value;
            var raws := RawSections(Strip(markdown), defaultHeading);
            (forall i :: 0 <= i < |sections| ==>
               |sections[i].text| <= budget.chars && TokenCount(sections[i].text) <= budget.tokens)
            <==> !exists r :: 0 <= r < |raws| && RawUnchecked(budget, raws[r])
  {
    hide Blank, Strip, RawSections, RawUnchecked, TokenCount;
    var raws := RawSections(Strip(markdown), defaultHeading);
    StripBlank(markdown);
    StripKeepsVisible(markdown);
    RawSectionsVisible(Strip(markdown), defaultHeading);
    DraftsStayWithin(budget, [], raws);
    var drafts := DraftsFrom(budget, [], raws).value;
    assert DraftsFit(budget, []);
    assert forall i :: 0 <= i < |drafts| ==> SectionsOf(drafts)[i].text == drafts[i].text;
  }
}
