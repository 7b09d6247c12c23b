/** Exactly which children an ingestion makes, and what they and their parents hold once it is published. */
module Children {
  import opened Results
  import opened Text
  import opened Tokens
  import opened Records
  import opened Documents
  import opened Stores
  import opened Publication
  import opened PublicationLaws
  import opened PublicationRuns

  // ----- The children of a revision -----

  /** The child of a section's chunk at a place: hidden, under its own id, with the chunk as its text. */
  predicate IsChild(child: Child, revision: Revision, title: string, section: Section, place: nat, chunk: string) {
    && child.id == PointId(revision.doc, revision.checksum, section.id, place)
    && child.point.doc == revision.doc && child.point.checksum == revision.checksum
    && child.point.parent == section.id
    && child.point.content == "Document: " + title + "\nSection: " + section.heading + "\n\n" + Strip(chunk)
    && child.point.ready == Some(false) && child.point.inlineParent == None
    && NonemptyOnly(child.point.product, revision.product)
    && NonemptyOnly(child.point.version, revision.version)
  }

  /** A value that is written when it is given and not empty. */
  predicate NonemptyOnly(written: Option<string>, given: Option<string>) {
    && (written.Some? ==> written == given && written.value != "")
    && (written.None? ==> given.None? || given.value == "")
  }

  /** How many chunks the first `n` sections have. */
  function ChunksBefore(sections: seq<Section>, chunk: string -> seq<string>, n: nat): nat
    requires n <= |sections|
  {
    if n == 0 then 0 else ChunksBefore(sections, chunk, n - 1) + |chunk(sections[n - 1].text)|
  }

  lemma {:induction false} ChunksBeforeLater(sections: seq<Section>, chunk: string -> seq<string>, n: nat)
    requires 0 < n <= |sections|
    ensures ChunksBefore(sections, chunk, n)
         == |chunk(sections[0].text)| + ChunksBefore(sections[1..], chunk, n - 1)
  {
    if n > 1 {
      ChunksBeforeLater(sections, chunk, n - 1);
      assert sections[n - 1] == sections[1..][n - 2];
    }
  }

  /** There is one child for each chunk of each section, section by section and chunk by chunk. */
  lemma {:induction false} ChildAt(revision: Revision, title: string, sections: seq<Section>,
                                   chunk: string -> seq<string>, i: nat, j: nat)
    requires i < |sections| && j < |chunk(sections[i].text)|
    ensures var children, at := ChildrenOf(revision, title, sections, chunk), ChunksBefore(sections, chunk, i) + j;
            && at < |children|
            && IsChild(children[at], revision, title, sections[i], j, chunk(sections[i].text)[j])
    decreases i
  {
    hide Strip;
    var made := ChildrenOfSection(revision, title, sections[0], chunk(sections[0].text));
    var later := ChildrenOf(revision, title, sections[1..], chunk);
    if i > 0 {
      ChildAt(revision, title, sections[1..], chunk, i - 1, j);
      ChunksBeforeLater(sections, chunk, i);
      assert (made + later)[|made| + (ChunksBefore(sections[1..], chunk, i - 1) + j)]
          == later[ChunksBefore(sections[1..], chunk, i - 1) + j];
    }
  }

  lemma {:induction false} ChildCount(revision: Revision, title: string, sections: seq<Section>,
                                      chunk: string -> seq<string>)
    ensures |ChildrenOf(revision, title, sections, chunk)| == ChunksBefore(sections, chunk, |sections|)
    decreases sections
  {
    hide ChildOf;
    if sections != [] {
      ChildCount(revision, title, sections[1..], chunk);
      ChunksBeforeLater(sections, chunk, |sections|);
    }
  }

  /** Every place among the children is that of one chunk. */
  lemma {:induction false} ChunkOfPlace(sections: seq<Section>, chunk: string -> seq<string>, n: nat, at: nat)
    returns (i: nat, j: nat)
    requires n <= |sections| && at < ChunksBefore(sections, chunk, n)
    ensures i < n && j < |chunk(sections[i].text)| && at == ChunksBefore(sections, chunk, i) + j
    decreases n
  {
    if at >= ChunksBefore(sections, chunk, n - 1) {
      i, j := n - 1, at - ChunksBefore(sections, chunk, n - 1);
    } else {
      i, j := ChunkOfPlace(sections, chunk, n - 1, at);
    }
  }

  /** There are no other children, and each is the only one of its id. */
  lemma ChildrenExact(revision: Revision, title: string, sections: seq<Section>, chunk: string -> seq<string>, at: nat)
    returns (i: nat, j: nat)
    requires DistinctSections(sections) && at < |ChildrenOf(revision, title, sections, chunk)|
    ensures i < |sections| && j < |chunk(sections[i].text)|
    ensures var children := ChildrenOf(revision, title, sections, chunk);
            && IsChild(children[at], revision, title, sections[i], j, chunk(sections[i].text)[j])
            && forall other :: 0 <= other < |children| && children[other].id == children[at].id ==> other == at
  {
    hide IsChild;
    ChildCount(revision, title, sections, chunk);
    i, j := ChunkOfPlace(sections, chunk, |sections|, at);
    ChildAt(revision, title, sections, chunk, i, j);
    ChildrenOfAreValid(revision, title, sections, chunk);
  }

  // ----- A published document -----

  /** The attempt that the service makes of a text. */
  function Ingested(budget: Budget, revision: Revision, title: string, markdown: string, chunk: string -> seq<string>)
    : Attempt
    requires SplitSpec(budget, markdown, title).Ok?
  {
    var sections := SplitSpec(budget, markdown, title).value;
    Attempt(revision, sections, ChildrenOf(revision, title, sections, chunk))
  }

  /** The point of a chunk in a published document: visible, with the chunk as its text. */
  predicate PublishedChunk(points: Points, revision: Revision, title: string, section: Section, place: nat,
                           chunk: string)
  {
    var id := PointId(revision.doc, revision.checksum, section.id, place);
    && id in points
    && points[id].ready == Some(true)
    && points[id].doc == revision.doc && points[id].checksum == revision.checksum && points[id].parent == section.id
    && points[id].content == "Document: " + title + "\nSection: " + section.heading + "\n\n" + Strip(chunk)
    && points[id].inlineParent == None
    && NonemptyOnly(points[id].product, revision.product) && NonemptyOnly(points[id].version, revision.version)
  }

  /** The row of a section in a published document. */
  predicate PublishedSection(rows: Rows, revision: Revision, section: Section) {
    var key := RowKey(revision.doc, section.id);
    && key in rows
    && rows[key].checksum == revision.checksum && rows[key].section == section
    && rows[key].product == revision.product && rows[key].version == revision.version
  }

  lemma PublishedHolds(rows: Rows, points: Points, revision: Revision, title: string, sections: seq<Section>,
                       chunk: string -> seq<string>, i: nat)
    requires IsPublished(rows, points, Attempt(revision, sections, ChildrenOf(revision, title, sections, chunk)))
    requires i < |sections|
    ensures PublishedSection(rows, revision, sections[i])
    ensures forall j :: 0 <= j < |chunk(sections[i].text)|
              ==> PublishedChunk(points, revision, title, sections[i], j, chunk(sections[i].text)[j])
  {
    hide Strip, ChildrenOf, OnlyChecksum, Ids;
    var a := Attempt(revision, sections, ChildrenOf(revision, title, sections, chunk));
    assert HasParent(rows, a, i);
    forall j | 0 <= j < |chunk(sections[i].text)|
      ensures PublishedChunk(points, revision, title, sections[i], j, chunk(sections[i].text)[j])
    {
      ChildAt(revision, title, sections, chunk, i, j);
      var child := a.children[ChunksBefore(sections, chunk, i) + j];
      assert Holds(points, child.id, child.point.(ready := Some(true)));
    }
  }

  /**
   In every run, an ingestion that has finished has every section of its text in the store, and every chunk of
   every section in the index, visible and under its own text.
   */
  lemma FinishedHoldsItsText(states: seq<State>, labels: seq<Label>, k: nat, budget: Budget, revision: Revision,
                             title: string, markdown: string, chunk: string -> seq<string>, i: nat)
    requires IsRun(states, labels) && k < |states| && SplitSpec(budget, markdown, title).Ok?
    requires AtWork(states[k], Ingested(budget, revision, title, markdown, chunk), Published)
    requires i < |SplitSpec(budget, markdown, title).value|
    ensures var section := SplitSpec(budget, markdown, title).value[i];
            && PublishedSection(states[k].rows, revision, section)
            && forall j :: 0 <= j < |chunk(section.text)|
                 ==> PublishedChunk(states[k].points, revision, title, section, j, chunk(section.text)[j])
  {
    hide IsRun, SplitSpec, ChildrenOf, PublishedSection, PublishedChunk, IsPublished;
    FinishedMeansPublished(states, labels, k, revision.doc);
    var sections := SplitSpec(budget, markdown, title).value;
    PublishedHolds(states[k].rows, states[k].points, revision, title, sections, chunk, i);
  }
}
