/**
 What happens outside the protocol's hypotheses: several writers on one document, a deletion during an
 ingestion, a live revision ingested again, and one checksum with two sets of sections. Each case says
 exactly when a promise fails, and shows it on documents that the pipeline itself would ingest.
 */
module PublicationLimits {
  import opened Results
  import opened Text
  import opened Tokens
  import opened Records
  import opened Documents
  import opened Titles
  import opened Samples
  import opened Stores
  import opened Publication
  import opened PublicationLaws
  import opened PublicationRuns
  import opened Children
  import opened Races

  // ----- Attempts made from documents -----

  /** A chunker that finds every text small enough. */
  const KEEP: string -> seq<string> := text => [text]

  const DOC := DocKey("tenant", "guide")

  const ROOMY := Budget(100, 500)

  function RevisionOf(checksum: string): Revision {
    Revision(DOC, checksum, None, None)
  }

  /** The ingestion of a document that is a single word. */
  function WordIngested(checksum: string, title: string, word: string): Attempt
    requires SplitSpec(ROOMY, word, title).Ok?
  {
    Ingested(ROOMY, RevisionOf(checksum), title, word, KEEP)
  }

  lemma WordAttempt(checksum: string, title: string, word: string)
    requires SmallWord(word) && |title| + |word| <= 98
    ensures SplitSpec(ROOMY, word, title).Ok? && TitleShows(Strip(word))
    ensures ValidAttempt(WordIngested(checksum, title, word)) && WordIngested(checksum, title, word).children != []
  {
    hide SplitSpec, ValidAttempt, TitleShows;
    WordSplits(ROOMY, word, title);
    SplitNotEmpty(ROOMY, word, title);
    IngestedAttemptIsValid(ROOMY, RevisionOf(checksum), title, word, KEEP);
    var sections := SplitSpec(ROOMY, word, title).value;
    assert |KEEP(sections[0].text)| == 1;
  }

  // ----- Several writers -----

  /** The ingestions of two texts can leave a child without its parent exactly if one document gets two revisions. */
  lemma IngestionsDangleIff(rows: Rows, points: Points, budget: Budget, r1: Revision, t1: string, m1: string,
                            r2: Revision, t2: string, m2: string, chunk: string -> seq<string>)
    requires StoreOk(rows, points)
    requires SplitSpec(budget, m1, t1).Ok? && Ingested(budget, r1, t1, m1, chunk).children != []
    requires SplitSpec(budget, m2, t2).Ok? && Ingested(budget, r2, t2, m2, chunk).children != []
    ensures var attempts := [Ingested(budget, r1, t1, m1, chunk), Ingested(budget, r2, t2, m2, chunk)];
            (exists turns :: DanglesAfter(rows, points, attempts, turns))
            <==> r1.doc == r2.doc && r1.checksum != r2.checksum
  {
    hide SplitSpec, ValidAttempt, StoreOk, DanglesAfter;
    IngestedAttemptIsValid(budget, r1, t1, m1, chunk);
    IngestedAttemptIsValid(budget, r2, t2, m2, chunk);
    var attempts := [Ingested(budget, r1, t1, m1, chunk), Ingested(budget, r2, t2, m2, chunk)];
    RaceDanglesIff(rows, points, attempts);
    assert Agree(attempts[0], attempts[1]) <==> !(r1.doc == r2.doc && r1.checksum != r2.checksum);
  }

  /** Both attempts are published, and the first child of the first is visible without its parent. */
  ghost predicate BothPublishedOneLost(race: Race, a: Attempt)
    requires a.children != []
  {
    && race.steps == [Published, Published]
    && a.children[0].id in Visible(race.points, a.revision.doc)
    && FindParent(race.rows, a.revision.doc, a.children[0].point.parent) == None
  }

  lemma TwoRevisionsLoseParents(rows: Rows, points: Points, a: Attempt, b: Attempt)
    requires ValidAttempt(a) && a.children != [] && ValidAttempt(b) && b.children != []
    requires a.revision.doc == b.revision.doc && a.revision.checksum != b.revision.checksum
    ensures BothPublishedOneLost(Raced(Start(rows, points, [a, b]), [a, b], BothFinishing([a, b], 0, 1)), a)
  {
    hide ValidAttempt, Raced, BothFinishing;
    ChildOfAttempt(a, 0);
    BothFinishedDangleIff(rows, points, [a, b], 0, 1, 0);
  }

  /** Two texts ingested into empty stores as one document: both succeed, and a visible child has no parent. */
  lemma TwoWritersLeaveDanglingChildren()
    ensures SplitSpec(ROOMY, "old", "Guide").Ok? && SplitSpec(ROOMY, "new", "Guide").Ok?
    ensures var a, b := WordIngested("1", "Guide", "old"), WordIngested("2", "Guide", "new");
            && a.children != []
            && BothPublishedOneLost(Raced(Start(map[], map[], [a, b]), [a, b], BothFinishing([a, b], 0, 1)), a)
  {
    hide SplitSpec, ValidAttempt, Raced, BothFinishing, BothPublishedOneLost, ChildrenOf, TitleShows;
    WordAttempt("1", "Guide", "old");
    WordAttempt("2", "Guide", "new");
    TwoRevisionsLoseParents(map[], map[], WordIngested("1", "Guide", "old"), WordIngested("2", "Guide", "new"));
  }

  /** A deletion that runs between an ingestion's parents and its children leaves every child without its parent. */
  lemma DeletionDuringIngestionDangles(rows: Rows, points: Points, a: Attempt, i: nat)
    requires ValidAttempt(a) && i < |a.children|
    ensures var doc := a.revision.doc;
            var (stored, before, next) := Work(rows, points, a, StoreParents);
            var (rows', points', step) :=
              Solo(DropRows(stored, doc), DropStalePoints(before, doc, {}), a, next, StepsToFlip(a, 0) + 1);
            && step == DropStale
            && a.children[i].id in Visible(points', doc)
            && FindParent(rows', doc, a.children[i].point.parent) == None
  {
    hide ValidAttempt, UpsertRows, UploadPoints, FlipReady, DropStalePoints, Solo;
    var doc := a.revision.doc;
    var stored := UpsertRows(rows, a.revision, a.sections);
    SoloUploadAndFlip(DropRows(stored, doc), DropStalePoints(points, doc, {}), a);
    FlippedShows(DropStalePoints(points, doc, {}), a, i);
    ChildOfAttempt(a, i);
  }

  // ----- A live revision ingested again -----

  /** Ingesting once more the attempt that has just finished hides children that were visible. */
  lemma ReingestIsNotWhole(rows: Rows, points: Points, a: Attempt)
    requires StoreOk(rows, points) && ValidAttempt(a) && a.children != []
    ensures var (rows', points', _) := Solo(rows, points, a, StoreParents, TotalSteps(a));
            !(forall k: nat :: WholeAt(rows', points', a, k))
  {
    hide StoreOk, ValidAttempt, Solo, WholeAt, TotalSteps, HasParents, OnlyChecksum;
    IngestConverges(rows, points, a);
    var (rows', points', _) := Solo(rows, points, a, StoreParents, TotalSteps(a));
    VisibleWholeIff(rows', points', a);
    var child := a.children[0];
    ChildInIds(a.children, 0);
    assert Holds(points', child.id, child.point.(ready := Some(true)));
    assert child.id in Visible(points', a.revision.doc);
  }

  // ----- One checksum, two sets of sections -----

  /**
   Two attempts of one checksum, one after the other: the second is published, and yet a section of the
   first that is not one of its own keeps its row.
   */
  lemma OldParentsSurvive(rows: Rows, points: Points, a: Attempt, b: Attempt, i: nat)
    requires StoreOk(rows, points) && ValidAttempt(a) && ValidAttempt(b)
    requires a.children != [] && b.children != [] && i < |a.sections|
    requires a.revision.doc == b.revision.doc && a.revision.checksum == b.revision.checksum
    requires !HasSection(b.sections, a.sections[i].id)
    ensures var (rows1, points1, _) := Solo(rows, points, a, StoreParents, TotalSteps(a));
            var (rows2, points2, _) := Solo(rows1, points1, b, StoreParents, TotalSteps(b));
            && StoreOk(rows2, points2) && IsPublished(rows2, points2, b)
            && FindParent(rows2, a.revision.doc, a.sections[i].id).Some?
            && !ExactlyItsParents(rows2, b)
  {
    hide StoreOk, ValidAttempt, Solo, TotalSteps, HasSection, AllReady, OnlyChecksum, UpsertRows, UploadPoints,
         FlipReady, DropStalePoints;
    IngestConverges(rows, points, a);
    SoloEnds(rows, points, a);
    var (rows1, points1, _) := Solo(rows, points, a, StoreParents, TotalSteps(a));
    assert HasParent(rows1, a, i);
    IngestConverges(rows1, points1, b);
    SoloEnds(rows1, points1, b);
    UpsertRowsAt(rows1, b.revision, b.sections, RowKey(a.revision.doc, a.sections[i].id));
  }

  /**
   The same text ingested under two titles, with no earlier row of its checksum: the second is published,
   and its parents are exactly its sections if and only if the title labels no section of the text.
   */
  lemma RetitledParentsIff(rows: Rows, points: Points, budget: Budget, revision: Revision, markdown: string,
                           t: string, u: string, chunk: string -> seq<string>)
    requires StoreOk(rows, points) && t != u
    requires forall key :: key in rows && key.doc == revision.doc ==> rows[key].checksum != revision.checksum
    requires SplitSpec(budget, markdown, t).Ok? && Ingested(budget, revision, t, markdown, chunk).children != []
    requires SplitSpec(budget, markdown, u).Ok? && Ingested(budget, revision, u, markdown, chunk).children != []
    ensures var a, b := Ingested(budget, revision, t, markdown, chunk), Ingested(budget, revision, u, markdown, chunk);
            var (rows1, points1, _) := Solo(rows, points, a, StoreParents, TotalSteps(a));
            var (rows2, points2, _) := Solo(rows1, points1, b, StoreParents, TotalSteps(b));
            && IsPublished(rows2, points2, b)
            && (ExactlyItsParents(rows2, b) <==> !TitleShows(Strip(markdown)))
  {
    hide SplitSpec, StoreOk, ValidAttempt, Solo, TotalSteps, HasSection, IsPublished, TitleShows, UploadPoints,
         FlipReady, DropStalePoints, ExactlyItsParents, ChildrenOf, UpsertRows;
    var a, b := Ingested(budget, revision, t, markdown, chunk), Ingested(budget, revision, u, markdown, chunk);
    IngestedAttemptIsValid(budget, revision, t, markdown, chunk);
    IngestedAttemptIsValid(budget, revision, u, markdown, chunk);
    IngestConverges(rows, points, a);
    SoloEnds(rows, points, a);
    var (rows1, points1, _) := Solo(rows, points, a, StoreParents, TotalSteps(a));
    IngestConverges(rows1, points1, b);
    SoloEnds(rows1, points1, b);
    ParentsExactIff(rows1, b);
    TitlesMatterIff(budget, markdown, t, u);
    OwnRowsOnly(rows, a);
    if HasOthers(a.sections, b.sections) {
      var i :| 0 <= i < |a.sections| && !HasSection(b.sections, a.sections[i].id);
      assert HasSection(a.sections, a.sections[i].id) by { SectionOfItsOwn(a.sections, i); }
      assert RowKey(revision.doc, a.sections[i].id) in rows1;
    } else {
      forall key | key in rows1 && key.doc == revision.doc && rows1[key].checksum == revision.checksum
        ensures HasSection(b.sections, key.id)
      {
        assert HasSection(a.sections, key.id);
        SectionShared(a.sections, b.sections, key.id);
      }
    }
  }

  lemma SectionOfItsOwn(sections: seq<Section>, i: nat)
    requires i < |sections|
    ensures HasSection(sections, sections[i].id)
  {
  }

  lemma SectionShared(sections: seq<Section>, others: seq<Section>, id: SectionId)
    requires HasSection(sections, id) && !HasOthers(sections, others)
    ensures HasSection(others, id)
  {
    var i :| 0 <= i < |sections| && sections[i].id == id;
    assert !(!HasSection(others, sections[i].id));
  }

  /** With no earlier row of its checksum, the rows left under it are those of the attempt's sections. */
  lemma OwnRowsOnly(rows: Rows, a: Attempt)
    requires forall key :: key in rows && key.doc == a.revision.doc ==> rows[key].checksum != a.revision.checksum
    ensures var after := PruneRows(UpsertRows(rows, a.revision, a.sections), a.revision.doc, a.revision.checksum);
            forall id :: HasSection(a.sections, id) <==> StoredAt(after, a, id)
  {
    hide HasSection, UpsertRows;
    var after := PruneRows(UpsertRows(rows, a.revision, a.sections), a.revision.doc, a.revision.checksum);
    forall id ensures HasSection(a.sections, id) <==> StoredAt(after, a, id) {
      UpsertRowsAt(rows, a.revision, a.sections, RowKey(a.revision.doc, id));
    }
  }

  /** A file of one word under two titles, from empty stores: its old parent stays. */
  lemma RetitledFileKeepsOldParents()
    ensures SplitSpec(ROOMY, "text", "guide").Ok? && SplitSpec(ROOMY, "text", "manual").Ok?
    ensures var a, b := WordIngested("1", "guide", "text"), WordIngested("1", "manual", "text");
            var (rows1, points1, _) := Solo(map[], map[], a, StoreParents, TotalSteps(a));
            var (rows2, points2, _) := Solo(rows1, points1, b, StoreParents, TotalSteps(b));
            IsPublished(rows2, points2, b) && !ExactlyItsParents(rows2, b)
  {
    hide SplitSpec, ValidAttempt, Solo, TotalSteps, IsPublished, ExactlyItsParents, TitleShows, Strip;
    WordAttempt("1", "guide", "text");
    WordAttempt("1", "manual", "text");
    RetitledParentsIff(map[], map[], ROOMY, RevisionOf("1"), "text", "guide", "manual", KEEP);
  }
}
