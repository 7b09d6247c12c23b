/**
 Publishing a revision of a document: parents first, children hidden until all are uploaded, then
 the ready flip, then the deletion of what the revision replaces. Every step may be the last one
 before a crash, and a retry starts again from the top.
 */
module Publication {
  import opened Results
  import opened Text
  import opened Tokens
  import opened Packing
  import opened Records
  import opened Documents
  import opened Stores

  // ----- The children of a revision -----

  /** What one ingestion is about to publish. */
  datatype Attempt = Attempt(revision: Revision, sections: seq<Section>, children: seq<Child>)

  function ChildOf(revision: Revision, title: string, section: Section, order: nat, text: string): Child {
    Child(
      PointId(revision.doc, revision.checksum, section.id, order),
      Point(revision.doc, revision.checksum, section.id,
            "Document: " + title + "\nSection: " + section.heading + "\n\n" + Strip(text),
            Some(false), Present(revision.product), Present(revision.version), None))
  }

  /** An optional value that is written to the metadata only when it is not empty. */
  function Present(value: Option<string>): Option<string> {
    if value.Some? && value.value != "" then value else None
  }

  function ChildrenOfSection(revision: Revision, title: string, section: Section, chunks: seq<string>)
    : (children: seq<Child>)
    ensures |children| == |chunks|
  {
    seq(|chunks|, i requires 0 <= i < |chunks| => ChildOf(revision, title, section, i, chunks[i]))
  }

  function ChildrenOf(revision: Revision, title: string, sections: seq<Section>, chunk: string -> seq<string>)
    : seq<Child>
  {
    if sections == [] then []
    else ChildrenOfSection(revision, title, sections[0], chunk(sections[0].text))
         + ChildrenOf(revision, title, sections[1..], chunk)
  }

  method AppendChildren(children: seq<Child>, revision: Revision, title: string, section: Section, chunks: seq<string>)
    returns (more: seq<Child>)
    ensures more == children + ChildrenOfSection(revision, title, section, chunks)
  {
    hide ChildOf;
    ghost var made := ChildrenOfSection(revision, title, section, chunks);
    more := children;
    for order := 0 to |chunks|
      invariant more == children + made[..order]
    {
      more := more + [ChildOf(revision, title, section, order, chunks[order])];
    }
    assert made[..|chunks|] == made;
  }

  datatype IngestError = Splitting(split: SplitError) | NoIndexableChunks

  /** `_build_child_documents`: section by section, chunk by chunk; it raises when no chunk comes out. */
  method BuildChildDocuments(revision: Revision, title: string, sections: seq<Section>, chunk: string -> seq<string>)
    returns (result: Result<seq<Child>, IngestError>)
    ensures var children := ChildrenOf(revision, title, sections, chunk);
            result == if children == [] then Raised(NoIndexableChunks) else Ok(children)
  {
    hide ChildrenOfSection;
    var children: seq<Child> := [];
    ghost var all := ChildrenOf(revision, title, sections, chunk);
    assert [] + all == all;
    var i := 0;
    while i < |sections|
      invariant 0 <= i <= |sections|
      invariant all == children + ChildrenOf(revision, title, sections[i..], chunk)
    {
      assert sections[i..] == [sections[i]] + sections[i + 1..];
      var chunks := chunk(sections[i].text);
      FirstSectionChildren(children, revision, title, sections[i], sections[i + 1..], chunk);
      children := AppendChildren(children, revision, title, sections[i], chunks);
      i := i + 1;
    }
    assert sections[i..] == [] && children + [] == children;
    assert all == children;
    if children == [] {
      return Raised(NoIndexableChunks);
    }
    result := Ok(children);
  }

  lemma FirstSectionChildren(children: seq<Child>, revision: Revision, title: string, section: Section,
                             rest: seq<Section>, chunk: string -> seq<string>)
    ensures children + ChildrenOf(revision, title, [section] + rest, chunk)
         == children + ChildrenOfSection(revision, title, section, chunk(section.text))
            + ChildrenOf(revision, title, rest, chunk)
  {
    hide ChildrenOfSection;
    assert ([section] + rest)[1..] == rest;
    var made := ChildrenOfSection(revision, title, section, chunk(section.text));
    var after := ChildrenOf(revision, title, rest, chunk);
    assert children + (made + after) == children + made + after;
  }

  /** What an attempt must be for the protocol: linked sections, hidden children of them, distinct ids. */
  predicate ValidAttempt(a: Attempt) {
    && a.sections != []
    && AllWellLinked(a.sections)
    && (forall i, j :: 0 <= i < j < |a.sections| ==> a.sections[i].id != a.sections[j].id)
    && (forall i :: 0 <= i < |a.children| ==> ValidChild(a, a.children[i]))
    && (forall i, j :: 0 <= i < j < |a.children| ==> a.children[i].id != a.children[j].id)
  }

  predicate ValidChild(a: Attempt, child: Child) {
    && child.id.PointId?
    && child.id.doc == child.point.doc == a.revision.doc
    && child.id.checksum == child.point.checksum == a.revision.checksum
    && child.id.parent == child.point.parent
    && child.point.ready == Some(false)
    && child.point.inlineParent == None
    && HasSection(a.sections, child.point.parent)
  }

  predicate HasSection(sections: seq<Section>, id: SectionId) {
    exists i :: 0 <= i < |sections| && sections[i].id == id
  }

  // ----- The step machine -----

  /** The next step of an ingestion; `Upload` counts the children already uploaded. */
  datatype Step = StoreParents | Upload(done: nat) | Flip | DropStale | Prune | Published

  /** A document's writer. `before` records what was visible when the attempt began. */
  datatype Worker =
    | Ingesting(attempt: Attempt, step: Step, before: set<PointId>)
    | Deleting(childrenGone: bool)

  datatype State = State(rows: Rows, points: Points, workers: map<DocKey, Worker>)

  datatype Label = Begin(attempt: Attempt) | BeginDelete(doc: DocKey) | Advance(doc: DocKey) | Crash(doc: DocKey)

  /** The point ids of a document that a search may return. */
  ghost function Visible(points: Points, doc: DocKey): set<PointId> {
    set id | id in points && points[id].doc == doc && Searchable(points[id])
  }

  /** A document has one writer at a time: a new attempt begins only when none is at work. */
  predicate Busy(s: State, doc: DocKey) {
    doc in s.workers && !(s.workers[doc].Ingesting? && s.workers[doc].step == Published)
  }

  ghost predicate Enabled(s: State, l: Label) {
    match l
    case Begin(a) => !Busy(s, a.revision.doc) && ValidAttempt(a)
    case BeginDelete(doc) => !Busy(s, doc)
    case Crash(doc) => doc in s.workers
    case Advance(doc) =>
      && Busy(s, doc)
      // An attempt without chunks raises after its parents are stored; it can only stop there.
      && (s.workers[doc].Ingesting? && s.workers[doc].step == Upload(0) ==> s.workers[doc].attempt.children != [])
  }

  /** One atomic step of an ingestion: the stores after it, and the step that follows. */
  function Work(rows: Rows, points: Points, a: Attempt, step: Step): (Rows, Points, Step) {
    var doc, ids := a.revision.doc, Ids(a.children);
    match step
    case StoreParents => (UpsertRows(rows, a.revision, a.sections), points, Upload(0))
    case Upload(done) =>
      if done < |a.children| then
        var end := Least(done + BATCH, |a.children|);
        (rows, UploadPoints(points, a.children[done..end]), if end < |a.children| then Upload(end) else Flip)
      else (rows, points, Flip)
    case Flip => (rows, FlipReady(points, ids), DropStale)
    case DropStale => (rows, DropStalePoints(points, doc, ids), Prune)
    case Prune => (PruneRows(rows, doc, a.revision.checksum), points, Published)
    case Published => (rows, points, Published)
  }

  ghost function Next(s: State, l: Label): State
    requires Enabled(s, l)
  {
    match l
    case Begin(a) =>
      s.(workers := s.workers[a.revision.doc := Ingesting(a, StoreParents, Visible(s.points, a.revision.doc))])
    case BeginDelete(doc) => s.(workers := s.workers[doc := Deleting(false)])
    case Crash(doc) => s.(workers := s.workers - {doc})
    case Advance(doc) =>
      match s.workers[doc]
      case Ingesting(a, step, before) =>
        var (rows, points, next) := Work(s.rows, s.points, a, step);
        State(rows, points, s.workers[doc := Ingesting(a, next, before)])
      case Deleting(false) => State(s.rows, DropStalePoints(s.points, doc, {}), s.workers[doc := Deleting(true)])
      case Deleting(true) => State(DropRows(s.rows, doc), s.points, s.workers - {doc})
  }

  /** A run: a start, and states each reached from the one before by an enabled label. */
  ghost predicate IsRun(states: seq<State>, labels: seq<Label>) {
    && |states| == |labels| + 1
    && Initial(states[0])
    && forall i :: 0 <= i < |labels| ==> StepsTo(states[i], labels[i], states[i + 1])
  }

  ghost predicate StepsTo(s: State, l: Label, t: State) {
    Enabled(s, l) && t == Next(s, l)
  }

  /** Runs start from a consistent store, such as the empty one, with nobody at work. */
  ghost predicate Initial(s: State) {
    s.workers == map[] && StoreOk(s.rows, s.points)
  }

  /** A row sits under the digest of its own content, and its links name the orders beside its own. */
  predicate RowOk(key: RowKey, row: Row) {
    row.section.id == key.id && WellLinked(row.section)
  }

  /** A point of this pipeline lies under its own fields and has its parent; an older one may carry it. */
  predicate PointOk(rows: Rows, id: PointId, point: Point) {
    && (id.PointId? ==> id.doc == point.doc && id.checksum == point.checksum && id.parent == point.parent)
    && (point.inlineParent == None ==> RowKey(point.doc, point.parent) in rows)
  }

  ghost predicate StoreOk(rows: Rows, points: Points) {
    && (forall key :: key in rows ==> RowOk(key, rows[key]))
    && (forall id :: id in points ==> PointOk(rows, id, points[id]))
  }

  // ----- The ingestion as the service runs it -----

  /** `IngestionService`: the stages of one ingestion on the two stores it holds. */
  class IngestionService {
    const budget: Budget
    const chunk: string -> seq<string>
    const parentStore: ParentStore
    const index: ChildIndex

    constructor (budget: Budget, chunk: string -> seq<string>, parentStore: ParentStore, index: ChildIndex)
      ensures this.budget == budget && this.chunk == chunk
      ensures this.parentStore == parentStore && this.index == index
    {
      this.budget, this.chunk, this.parentStore, this.index := budget, chunk, parentStore, index;
    }

    /** `ingest` from the parsed text on; the checksum is a digest, so it is never empty. */
    method Ingest(revision: Revision, title: string, markdown: string)
      returns (result: Result<(nat, nat), IngestError>)
      requires revision.checksum != ""
      modifies parentStore, index
      ensures var sections := SplitSpec(budget, markdown, title);
              var wasRows, wasPoints := old(parentStore.rows), old(index.points);
              match sections
              case Raised(error) =>
                result == Raised(Splitting(error)) && parentStore.rows == wasRows && index.points == wasPoints
              case Ok(all) =>
                var children := ChildrenOf(revision, title, all, chunk);
                var rows := UpsertRows(wasRows, revision, all);
                if children == [] then
                  // The parents are stored before the chunks are made, and stay when there are none.
                  result == Raised(NoIndexableChunks) && parentStore.rows == rows && index.points == wasPoints
                else
                  && result == Ok((|all|, |children|))
                  && parentStore.rows == PruneRows(rows, revision.doc, revision.checksum)
                  && index.points == DropStalePoints(FlipReady(UploadPoints(wasPoints, children), Ids(children)),
                                                     revision.doc, Ids(children))
    {
      hide SplitSpec, ChildrenOf, UpsertRows, PruneRows, UploadPoints, FlipReady, DropStalePoints, Ids;
      var sections := Split(budget, markdown, title);
      if sections.Raised? {
        return Raised(Splitting(sections.error));
      }
      // A split always has sections, so storing them does not raise; nor does publishing some children.
      SplitNotEmpty(budget, markdown, title);
      var _ := parentStore.UpsertRevision(revision, sections.value);
      var children := BuildChildDocuments(revision, title, sections.value, chunk);
      if children.Raised? {
        return Raised(children.error);
      }
      var _ := PublishRevision(revision, children.value);
      result := Ok((|sections.value|, |children.value|));
    }

    /** `_publish_revision`: children first, then the prune of the parents they replace. */
    method PublishRevision(revision: Revision, children: seq<Child>) returns (result: Result<(), StoreError>)
      requires revision.checksum != "" && children != []
      modifies parentStore, index
      ensures result == Ok(())
      ensures parentStore.rows == PruneRows(old(parentStore.rows), revision.doc, revision.checksum)
      ensures index.points == DropStalePoints(FlipReady(UploadPoints(old(index.points), children), Ids(children)),
                                              revision.doc, Ids(children))
    {
      hide PruneRows, UploadPoints, FlipReady, DropStalePoints, Ids;
      result := index.UpsertRevision(revision.doc, children);
      result := parentStore.PruneRevision(revision.doc, revision.checksum);
    }

    /** `delete_document`: the children go before the parents they refer to. */
    method DeleteDocument(doc: DocKey)
      modifies parentStore, index
      ensures index.points == DropStalePoints(old(index.points), doc, {})
      ensures parentStore.rows == DropRows(old(parentStore.rows), doc)
    {
      index.DeleteDocument(doc);
      parentStore.DeleteDocument(doc);
    }
  }
}
