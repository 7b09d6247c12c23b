/**
 Uninterrupted ingestions and what searches see: where one ends, which parents it leaves, when its
 new revision is visible all at once, and why a document may have only one writer.
 */
module PublicationRuns {
  import opened Results
  import opened Tokens
  import opened Records
  import opened Documents
  import opened Stores
  import opened Publication
  import opened PublicationLaws

  // ----- Attempts made by the service are valid -----

  predicate ChildOfSections(revision: Revision, sections: seq<Section>, child: Child) {
    && child.id.PointId?
    && child.id == PointId(revision.doc, revision.checksum, child.id.parent, child.id.order)
    && child.point.doc == revision.doc && child.point.checksum == revision.checksum
    && child.point.parent == child.id.parent
    && child.point.ready == Some(false) && child.point.inlineParent == None
    && HasSection(sections, child.id.parent)
  }

  lemma {:induction false} ChildrenOfAreValid(revision: Revision, title: string, sections: seq<Section>,
                                              chunk: string -> seq<string>)
    requires DistinctSections(sections)
    ensures var children := ChildrenOf(revision, title, sections, chunk);
            && (forall i :: 0 <= i < |children| ==> ChildOfSections(revision, sections, children[i]))
            && DistinctChildren(children)
  {
    if sections != [] {
      var section, rest := sections[0], sections[1..];
      assert sections[0].id == section.id;
      assert forall i :: 0 <= i < |rest| ==> rest[i] == sections[i + 1];
      ChildrenOfAreValid(revision, title, rest, chunk);
      var made := ChildrenOfSection(revision, title, section, chunk(section.text));
      var later := ChildrenOf(revision, title, rest, chunk);
      var all := made + later;
      assert forall i :: 0 <= i < |made| ==> all[i] == ChildOf(revision, title, section, i, chunk(section.text)[i]);
      assert forall i :: |made| <= i < |all| ==> all[i] == later[i - |made|];
      forall i | 0 <= i < |all| ensures ChildOfSections(revision, sections, all[i]) {
        if i >= |made| {
          assert ChildOfSections(revision, rest, later[i - |made|]);
          SectionInRest(sections, all[i].id.parent);
        }
      }
      forall i, j | 0 <= i < j < |all| ensures all[i].id != all[j].id {
        if i < |made| <= j {
          assert ChildOfSections(revision, rest, later[j - |made|]);
          FirstNotInRest(sections, all[j].id.parent);
        }
      }
    }
  }

  lemma SectionInRest(sections: seq<Section>, id: SectionId)
    requires sections != [] && HasSection(sections[1..], id)
    ensures HasSection(sections, id)
  {
    var i :| 0 <= i < |sections[1..]| && sections[1..][i].id == id;
    assert sections[i + 1].id == id;
  }

  lemma FirstNotInRest(sections: seq<Section>, id: SectionId)
    requires sections != [] && DistinctSections(sections) && HasSection(sections[1..], id)
    ensures id != sections[0].id
  {
    var i :| 0 <= i < |sections[1..]| && sections[1..][i].id == id;
    assert sections[i + 1].id == id;
  }

  /** What the service derives from a parsed text meets the protocol's demands on an attempt. */
  lemma IngestedAttemptIsValid(budget: Budget, revision: Revision, title: string, markdown: string,
                               chunk: string -> seq<string>)
    requires SplitSpec(budget, markdown, title).Ok?
    ensures var sections := SplitSpec(budget, markdown, title).value;
            ValidAttempt(Attempt(revision, sections, ChildrenOf(revision, title, sections, chunk)))
  {
    hide SplitSpec, ChildrenOf, IsLinkedList, AllWellLinked;
    SplitNotEmpty(budget, markdown, title);
    SplitIsLinked(budget, markdown, title);
    var sections := SplitSpec(budget, markdown, title).value;
    ChildrenOfAreValid(revision, title, sections, chunk);
    var a := Attempt(revision, sections, ChildrenOf(revision, title, sections, chunk));
    forall i | 0 <= i < |a.children| ensures ValidChild(a, a.children[i]) {
      assert ChildOfSections(revision, sections, a.children[i]);
    }
  }

  // ----- An uninterrupted ingestion -----

  function Solo(rows: Rows, points: Points, a: Attempt, step: Step, k: nat): (Rows, Points, Step)
    decreases k
  {
    if k == 0 then (rows, points, step)
    else
      var (rows', points', next) := Work(rows, points, a, step);
      Solo(rows', points', a, next, k - 1)
  }

  /** How many atomic steps bring an ingestion to its ready flip. */
  function StepsToFlip(a: Attempt, done: nat): nat
    requires done <= |a.children|
    decreases |a.children| - done
  {
    if done == |a.children| then 0 else 1 + StepsToFlip(a, Least(done + BATCH, |a.children|))
  }

  /** Storing the parents, the batches, and then the flip, the deletion and the prune. */
  function TotalSteps(a: Attempt): nat {
    1 + StepsToFlip(a, 0) + 3
  }

  lemma {:induction false} SoloSplit(rows: Rows, points: Points, a: Attempt, step: Step, j: nat, k: nat)
    ensures var (rows', points', step') := Solo(rows, points, a, step, j);
            Solo(rows, points, a, step, j + k) == Solo(rows', points', a, step', k)
    decreases j
  {
    hide Work;
    if j > 0 {
      var (rows', points', next) := Work(rows, points, a, step);
      SoloSplit(rows', points', a, next, j - 1, k);
    }
  }

  lemma {:induction false} SoloUploads(rows: Rows, points: Points, a: Attempt, done: nat)
    requires done < |a.children|
    ensures Solo(rows, UploadPoints(points, a.children[..done]), a, Upload(done), StepsToFlip(a, done))
         == (rows, UploadPoints(points, a.children), Flip)
    decreases |a.children| - done
  {
    var end := Least(done + BATCH, |a.children|);
    assert a.children[..end] == a.children[..done] + a.children[done..end];
    UploadConcat(points, a.children[..done], a.children[done..end]);
    if end < |a.children| {
      SoloUploads(rows, points, a, end);
    } else {
      assert a.children[..end] == a.children;
    }
  }

  lemma SoloToFlip(rows: Rows, points: Points, a: Attempt)
    requires a.children != []
    ensures Solo(rows, points, a, StoreParents, 1 + StepsToFlip(a, 0))
         == (UpsertRows(rows, a.revision, a.sections), UploadPoints(points, a.children), Flip)
  {
    hide StepsToFlip;
    assert a.children[..0] == [];
    SoloUploads(UpsertRows(rows, a.revision, a.sections), points, a, 0);
  }

  /** Left alone, an ingestion ends published, with the stores that the service's `Ingest` promises. */
  lemma SoloEnds(rows: Rows, points: Points, a: Attempt)
    requires a.children != []
    ensures Solo(rows, points, a, StoreParents, TotalSteps(a))
         == (PruneRows(UpsertRows(rows, a.revision, a.sections), a.revision.doc, a.revision.checksum),
             DropStalePoints(FlipReady(UploadPoints(points, a.children), Ids(a.children)),
                             a.revision.doc, Ids(a.children)),
             Published)
  {
    hide StepsToFlip, UpsertRows, UploadPoints, FlipReady, DropStalePoints, PruneRows, Ids;
    SoloToFlip(rows, points, a);
    SoloSplit(rows, points, a, StoreParents, 1 + StepsToFlip(a, 0), 3);
    LastThree(UpsertRows(rows, a.revision, a.sections), UploadPoints(points, a.children), a);
  }

  lemma LastThree(rows: Rows, points: Points, a: Attempt)
    ensures Solo(rows, points, a, Flip, 3)
         == (PruneRows(rows, a.revision.doc, a.revision.checksum),
             DropStalePoints(FlipReady(points, Ids(a.children)), a.revision.doc, Ids(a.children)), Published)
  {
    hide FlipReady, DropStalePoints, PruneRows, Ids;
    var ids := Ids(a.children);
    var flipped := FlipReady(points, ids);
    var dropped := DropStalePoints(flipped, a.revision.doc, ids);
    assert Work(rows, points, a, Flip) == (rows, flipped, DropStale);
    assert Work(rows, flipped, a, DropStale) == (rows, dropped, Prune);
    assert Solo(rows, dropped, a, Prune, 1)
           == Solo(PruneRows(rows, a.revision.doc, a.revision.checksum), dropped, a, Published, 0);
    assert Solo(rows, flipped, a, DropStale, 2) == Solo(rows, dropped, a, Prune, 1);
  }

  lemma {:induction false} SoloKeeps(rows: Rows, points: Points, a: Attempt, step: Step, k: nat)
    requires StoreOk(rows, points) && IngestOk(rows, points, a, step)
    ensures var (rows', points', step') := Solo(rows, points, a, step, k);
            StoreOk(rows', points') && IngestOk(rows', points', a, step')
    decreases k
  {
    hide Work, StoreOk, IngestOk;
    if k > 0 {
      WorkKeeps(rows, points, a, step);
      var (rows', points', next) := Work(rows, points, a, step);
      SoloKeeps(rows', points', a, next, k - 1);
    }
  }

  /** From any consistent stores, however mixed, one successful ingestion publishes exactly its revision. */
  lemma IngestConverges(rows: Rows, points: Points, a: Attempt)
    requires StoreOk(rows, points) && ValidAttempt(a) && a.children != []
    ensures var (rows', points', _) := Solo(rows, points, a, StoreParents, TotalSteps(a));
            StoreOk(rows', points') && IsPublished(rows', points', a)
  {
    hide StoreOk, Solo, ValidAttempt, UpsertRows, UploadPoints, FlipReady, DropStalePoints, PruneRows;
    BeginOk(rows, points, a);
    SoloKeeps(rows, points, a, StoreParents, TotalSteps(a));
    SoloEnds(rows, points, a);
    var (_, points', _) := Solo(rows, points, a, StoreParents, TotalSteps(a));
    PublishedIds(points', a);
  }

  // ----- Exactly which parents are left -----

  /** The document's rows are the attempt's sections and nothing else. */
  ghost predicate ExactlyItsParents(rows: Rows, a: Attempt) {
    && HasParents(rows, a)
    && forall key :: key in rows && key.doc == a.revision.doc ==> HasSection(a.sections, key.id)
  }

  /**
   The prune goes by checksum, so the parents left are exactly the attempt's if and only if every row
   that already had this checksum is one of its sections: sections must be a function of the checksum.
   */
  lemma ParentsExactIff(rows: Rows, a: Attempt)
    requires ValidAttempt(a)
    ensures ExactlyItsParents(PruneRows(UpsertRows(rows, a.revision, a.sections),
                                        a.revision.doc, a.revision.checksum), a)
       <==> forall key :: key in rows && key.doc == a.revision.doc && rows[key].checksum == a.revision.checksum
                          ==> HasSection(a.sections, key.id)
  {
    hide ValidChild, AllWellLinked, HasSection;
    var upserted := UpsertRows(rows, a.revision, a.sections);
    var after := PruneRows(upserted, a.revision.doc, a.revision.checksum);
    forall key
      ensures key in upserted <==> key in rows || (key.doc == a.revision.doc && HasSection(a.sections, key.id))
      ensures key in rows && !HasSection(a.sections, key.id) ==> upserted[key] == rows[key]
    {
      UpsertRowsAt(rows, a.revision, a.sections, key);
    }
    forall i: nat | i < |a.sections| ensures HasParent(after, a, i) {
      SectionIsStored(rows, a, i);
    }
  }

  lemma SectionIsStored(rows: Rows, a: Attempt, i: nat)
    requires ValidAttempt(a) && i < |a.sections|
    ensures HasParent(UpsertRows(rows, a.revision, a.sections), a, i)
  {
    hide ValidChild, AllWellLinked;
    assert HasSection(a.sections, a.sections[i].id);
    UpsertRowsAt(rows, a.revision, a.sections, RowKey(a.revision.doc, a.sections[i].id));
  }

  /** A splitter that names the sections of every revision of every document. */
  type Plan = (DocKey, string) -> seq<Section>

  ghost predicate Planned(rows: Rows, plan: Plan) {
    forall key :: key in rows ==> HasSection(plan(key.doc, rows[key].checksum), key.id)
  }

  ghost predicate FollowsPlan(a: Attempt, plan: Plan) {
    a.sections == plan(a.revision.doc, a.revision.checksum)
  }

  ghost predicate WorkersFollow(s: State, plan: Plan) {
    forall doc :: doc in s.workers && s.workers[doc].Ingesting? ==> FollowsPlan(s.workers[doc].attempt, plan)
  }

  lemma WorkStaysPlanned(rows: Rows, points: Points, a: Attempt, step: Step, plan: Plan)
    requires Planned(rows, plan) && FollowsPlan(a, plan)
    ensures Planned(Work(rows, points, a, step).0, plan)
  {
    hide HasSection, Ids, UploadPoints, FlipReady, DropStalePoints;
    if step == StoreParents {
      var after := UpsertRows(rows, a.revision, a.sections);
      forall key | key in after ensures HasSection(plan(key.doc, after[key].checksum), key.id) {
        UpsertRowsAt(rows, a.revision, a.sections, key);
      }
    }
  }

  lemma StepStaysPlanned(s: State, l: Label, plan: Plan)
    requires Enabled(s, l) && Planned(s.rows, plan) && WorkersFollow(s, plan)
    requires l.Begin? ==> FollowsPlan(l.attempt, plan)
    ensures Planned(Next(s, l).rows, plan) && WorkersFollow(Next(s, l), plan)
  {
    hide ValidAttempt, Work, HasSection, Visible, DropStalePoints, FollowsPlan;
    if l.Advance? && s.workers[l.doc].Ingesting? {
      var w := s.workers[l.doc];
      WorkStaysPlanned(s.rows, s.points, w.attempt, w.step, plan);
    }
  }

  lemma {:induction false} RunStaysPlanned(states: seq<State>, labels: seq<Label>, i: nat, plan: Plan)
    requires IsRun(states, labels) && i < |states|
    requires Planned(states[0].rows, plan)
    requires forall j :: 0 <= j < |labels| && labels[j].Begin? ==> FollowsPlan(labels[j].attempt, plan)
    ensures Planned(states[i].rows, plan) && WorkersFollow(states[i], plan)
  {
    hide Next, Enabled, Planned, FollowsPlan, StoreOk;
    if i == 0 {
      assert Initial(states[0]);
    } else {
      RunStaysPlanned(states, labels, i - 1, plan);
      assert StepsTo(states[i - 1], labels[i - 1], states[i]);
      StepStaysPlanned(states[i - 1], labels[i - 1], plan);
    }
  }

  /** When sections are a function of the checksum, a published document's parents are exactly its sections. */
  lemma PublishedParentsAreExact(states: seq<State>, labels: seq<Label>, i: nat, doc: DocKey, plan: Plan)
    requires IsRun(states, labels) && i < |states|
    requires Planned(states[0].rows, plan)
    requires forall j :: 0 <= j < |labels| && labels[j].Begin? ==> FollowsPlan(labels[j].attempt, plan)
    requires doc in states[i].workers && states[i].workers[doc].Ingesting? && states[i].workers[doc].step == Published
    ensures ExactlyItsParents(states[i].rows, states[i].workers[doc].attempt)
  {
    hide IsRun, HasSection, HasParents, AllReady, Ids;
    RunStaysPlanned(states, labels, i, plan);
    FinishedMeansPublished(states, labels, i, doc);
  }

  // ----- What a search sees -----

  /** The document's visible points at each step of an attempt none of whose points was visible before. */
  ghost predicate VisibleAs(points: Points, a: Attempt, step: Step, before: set<PointId>) {
    Visible(points, a.revision.doc) ==
    match step
    case StoreParents => before
    case Upload(_) => before
    case Flip => before
    case DropStale => before + Ids(a.children)
    case Prune => Ids(a.children)
    case Published => Ids(a.children)
  }

  lemma VisibleFrame(points: Points, after: Points, doc: DocKey)
    requires SamePoints(points, after, doc)
    ensures Visible(after, doc) == Visible(points, doc)
  {
    forall id ensures id in Visible(after, doc) <==> id in Visible(points, doc) {
      if id in points && points[id].doc == doc { assert Holds(after, id, points[id]); }
      if id in after && after[id].doc == doc { assert Holds(points, id, after[id]); }
    }
  }

  lemma UploadHides(points: Points, a: Attempt, lo: nat, hi: nat)
    requires ValidAttempt(a) && lo <= hi <= |a.children|
    requires Visible(points, a.revision.doc) !! Ids(a.children)
    ensures Visible(UploadPoints(points, a.children[lo..hi]), a.revision.doc) == Visible(points, a.revision.doc)
  {
    hide AllWellLinked, UploadPoints;
    var doc, batch := a.revision.doc, a.children[lo..hi];
    var after := UploadPoints(points, batch);
    forall id ensures id in Visible(after, doc) <==> id in Visible(points, doc) {
      UploadAt(points, batch, id);
      if id in Ids(batch) {
        var i :| 0 <= i < |batch| && batch[i].id == id && after[id] == batch[i].point;
        assert ValidChild(a, a.children[lo + i]);
        ChildInIds(a.children, lo + i);
      }
    }
  }

  lemma FlipShows(rows: Rows, points: Points, a: Attempt)
    requires StoreOk(rows, points) && ValidAttempt(a) && Uploaded(points, a, |a.children|)
    ensures Visible(FlipReady(points, Ids(a.children)), a.revision.doc)
         == Visible(points, a.revision.doc) + Ids(a.children)
  {
    hide AllWellLinked;
    forall id | id in Ids(a.children) ensures id in points && points[id].doc == a.revision.doc {
      var i := FindChild(a.children, id);
      assert Holds(points, a.children[i].id, a.children[i].point);
      assert ValidChild(a, a.children[i]);
    }
  }

  lemma DropLeavesChildren(points: Points, a: Attempt, before: set<PointId>)
    requires VisibleAs(points, a, DropStale, before)
    ensures Visible(DropStalePoints(points, a.revision.doc, Ids(a.children)), a.revision.doc) == Ids(a.children)
  {
    forall id | id in Ids(a.children) ensures id in Visible(points, a.revision.doc) {
    }
  }

  lemma WorkKeepsVisible(rows: Rows, points: Points, a: Attempt, step: Step, before: set<PointId>)
    requires StoreOk(rows, points) && IngestOk(rows, points, a, step)
    requires before !! Ids(a.children) && VisibleAs(points, a, step, before)
    ensures var (_, points', next) := Work(rows, points, a, step);
            VisibleAs(points', a, next, before)
  {
    hide StoreOk, ValidAttempt, HasParents, UpsertRows, UploadPoints, FlipReady, DropStalePoints, PruneRows, Ids,
         Visible;
    match step
    case StoreParents =>
    case Upload(done) =>
      if done < |a.children| { UploadHides(points, a, done, Least(done + BATCH, |a.children|)); }
    case Flip => FlipShows(rows, points, a);
    case DropStale => DropLeavesChildren(points, a, before);
    case Prune =>
    case Published =>
  }

  ghost predicate WorkerVisible(points: Points, w: Worker) {
    w.Ingesting? && w.before !! Ids(w.attempt.children) ==> VisibleAs(points, w.attempt, w.step, w.before)
  }

  ghost predicate WorkersVisible(s: State) {
    forall doc :: doc in s.workers ==> WorkerVisible(s.points, s.workers[doc])
  }

  lemma OthersStayVisible(s: State, t: State, doc: DocKey)
    requires WorkersOk(s) && WorkersVisible(s)
    requires forall other :: other != doc ==> SamePoints(s.points, t.points, other)
    requires forall other :: other in t.workers && other != doc
               ==> other in s.workers && t.workers[other] == s.workers[other]
    requires doc in t.workers ==> WorkerVisible(t.points, t.workers[doc])
    ensures WorkersVisible(t)
  {
    hide SamePoints, Visible, IngestOk, Ids;
    forall other | other in t.workers ensures WorkerVisible(t.points, t.workers[other]) {
      if other != doc {
        WorkerAt(s, other);
        VisibleFrame(s.points, t.points, other);
        assert WorkerVisible(s.points, s.workers[other]);
      }
    }
  }

  lemma StepKeepsVisible(s: State, l: Label)
    requires Inv(s) && Enabled(s, l) && WorkersVisible(s)
    ensures WorkersVisible(Next(s, l))
  {
    hide StoreOk, WorkersOk, SamePoints, SameRows, Work, IngestOk, DropStalePoints, DropRows, Visible, ValidAttempt,
         WorkersVisible, Ids;
    var t := Next(s, l);
    NothingChanges(s.rows, s.points);
    match l
    case Begin(a) => OthersStayVisible(s, t, a.revision.doc);
    case BeginDelete(doc) => OthersStayVisible(s, t, doc);
    case Crash(doc) => OthersStayVisible(s, t, doc);
    case Advance(doc) =>
      WorkerAt(s, doc);
      WorkerVisibleAt(s, doc);
      match s.workers[doc]
      case Ingesting(a, step, before) =>
        WorkKeeps(s.rows, s.points, a, step);
        if before !! Ids(a.children) {
          WorkKeepsVisible(s.rows, s.points, a, step, before);
        }
        OthersStayVisible(s, t, doc);
      case Deleting(_) =>
        DeleteKeeps(s.rows, s.points, doc);
        OthersStayVisible(s, t, doc);
  }

  lemma WorkerVisibleAt(s: State, doc: DocKey)
    requires WorkersVisible(s) && doc in s.workers
    ensures WorkerVisible(s.points, s.workers[doc])
  {
  }

  lemma {:induction false} RunKeepsVisible(states: seq<State>, labels: seq<Label>, i: nat)
    requires IsRun(states, labels) && i < |states|
    ensures WorkersVisible(states[i])
  {
    hide Inv, Next, Enabled, StoreOk, WorkerVisible;
    if i == 0 {
      assert Initial(states[0]);
    } else {
      RunKeepsVisible(states, labels, i - 1);
      RunKeepsInv(states, labels, i - 1);
      assert StepsTo(states[i - 1], labels[i - 1], states[i]);
      StepKeepsVisible(states[i - 1], labels[i - 1]);
    }
  }

  /**
   In every state of every run, while an attempt is at work none of whose points was visible when it
   began, the document shows the old set, the old set with all of the new one, or all of the new one.
   */
  lemma NeverPartlyVisible(states: seq<State>, labels: seq<Label>, i: nat, doc: DocKey)
    requires IsRun(states, labels) && i < |states| && doc in states[i].workers && states[i].workers[doc].Ingesting?
    requires states[i].workers[doc].before !! Ids(states[i].workers[doc].attempt.children)
    ensures var w, shown := states[i].workers[doc], Visible(states[i].points, doc);
            var added := Ids(w.attempt.children);
            shown == w.before || shown == w.before + added || shown == added
  {
    hide Visible, Ids, IngestOk, StoreOk;
    RunKeepsInv(states, labels, i);
    WorkerAt(states[i], doc);
    RunKeepsVisible(states, labels, i);
    WorkerVisibleAt(states[i], doc);
  }

  lemma {:induction false} SoloStaysVisible(rows: Rows, points: Points, a: Attempt, step: Step,
                                            before: set<PointId>, k: nat)
    requires StoreOk(rows, points) && IngestOk(rows, points, a, step)
    requires before !! Ids(a.children) && VisibleAs(points, a, step, before)
    ensures var (_, points', step') := Solo(rows, points, a, step, k);
            VisibleAs(points', a, step', before)
    decreases k
  {
    hide Work, StoreOk, IngestOk, VisibleAs, Ids;
    if k > 0 {
      WorkKeeps(rows, points, a, step);
      WorkKeepsVisible(rows, points, a, step, before);
      var (rows', points', next) := Work(rows, points, a, step);
      SoloStaysVisible(rows', points', a, next, before, k - 1);
    }
  }

  ghost predicate WholeAt(rows: Rows, points: Points, a: Attempt, k: nat) {
    var before, added := Visible(points, a.revision.doc), Ids(a.children);
    var shown := Visible(Solo(rows, points, a, StoreParents, k).1, a.revision.doc);
    shown == before || shown == before + added || shown == added
  }

  /**
   The exact condition: an uninterrupted ingestion is never partly visible if and only if none of its
   points is visible when it starts. Re-ingesting a live revision hides its points while they upload.
   */
  lemma VisibleWholeIff(rows: Rows, points: Points, a: Attempt)
    requires StoreOk(rows, points) && ValidAttempt(a) && a.children != []
    ensures (forall k: nat :: WholeAt(rows, points, a, k))
       <==> Visible(points, a.revision.doc) !! Ids(a.children)
  {
    hide StoreOk, ValidAttempt, Ids, Visible, Solo, UpsertRows, UploadPoints;
    var before, added := Visible(points, a.revision.doc), Ids(a.children);
    BeginOk(rows, points, a);
    if before !! added {
      forall k: nat ensures WholeAt(rows, points, a, k) {
        SoloStaysVisible(rows, points, a, StoreParents, before, k);
      }
    } else {
      var id :| id in before && id in added;
      var k := 1 + StepsToFlip(a, 0);
      SoloKeeps(rows, points, a, StoreParents, k);
      SoloToFlip(rows, points, a);
      UploadedHidden(UploadPoints(points, a.children), a, id);
      assert !WholeAt(rows, points, a, k);
    }
  }

  lemma UploadedHidden(points: Points, a: Attempt, id: PointId)
    requires ValidAttempt(a) && Uploaded(points, a, |a.children|) && id in Ids(a.children)
    ensures id !in Visible(points, a.revision.doc)
  {
    var i := FindChild(a.children, id);
    assert Holds(points, a.children[i].id, a.children[i].point);
    assert ValidChild(a, a.children[i]);
  }

  // ----- There are runs that finish -----

  /** A bound on the steps an attempt still takes. */
  function StepsLeft(a: Attempt, step: Step): nat {
    match step
    case StoreParents => |a.children| + 5
    case Upload(done) => if done < |a.children| then |a.children| - done + 4 else 4
    case Flip => 3
    case DropStale => 2
    case Prune => 1
    case Published => 0
  }

  lemma RunGoesOn(states: seq<State>, labels: seq<Label>, l: Label)
    requires IsRun(states, labels) && Enabled(states[|labels|], l)
    ensures IsRun(states + [Next(states[|labels|], l)], labels + [l])
  {
    hide Next, Enabled, StoreOk;
    var more, all := states + [Next(states[|labels|], l)], labels + [l];
    forall i | 0 <= i < |all| ensures StepsTo(more[i], all[i], more[i + 1]) {
      if i < |labels| {
        assert StepsTo(states[i], labels[i], states[i + 1]);
      }
    }
  }

  ghost predicate AtWork(s: State, a: Attempt, step: Step) {
    a.revision.doc in s.workers && s.workers[a.revision.doc].Ingesting?
    && s.workers[a.revision.doc].attempt == a && s.workers[a.revision.doc].step == step
  }

  /** Steps of its own bring a writer to its end from wherever a run has left it. */
  lemma {:induction false} RunFinishes(states: seq<State>, labels: seq<Label>, a: Attempt, step: Step)
    returns (states': seq<State>, labels': seq<Label>)
    requires IsRun(states, labels) && a.children != [] && AtWork(states[|labels|], a, step)
    ensures IsRun(states', labels') && AtWork(states'[|labels'|], a, Published)
    decreases StepsLeft(a, step)
  {
    hide StepsTo, Initial, ValidAttempt, UpsertRows, UploadPoints, FlipReady, DropStalePoints, PruneRows;
    if step == Published {
      states', labels' := states, labels;
    } else {
      var s, l := states[|labels|], Advance(a.revision.doc);
      RunGoesOn(states, labels, l);
      var next := Work(s.rows, s.points, a, step).2;
      states', labels' := RunFinishes(states + [Next(s, l)], labels + [l], a, next);
    }
  }

  /** From the empty stores every valid attempt with a child has a run that publishes it. */
  lemma EveryAttemptCanFinish(a: Attempt) returns (states: seq<State>, labels: seq<Label>)
    requires ValidAttempt(a) && a.children != []
    ensures IsRun(states, labels) && AtWork(states[|labels|], a, Published)
    ensures IsPublished(states[|labels|].rows, states[|labels|].points, a)
  {
    hide ValidAttempt, IsPublished;
    var start := State(map[], map[], map[]);
    EmptyIsInitial();
    RunGoesOn([start], [], Begin(a));
    states, labels := RunFinishes([start] + [Next(start, Begin(a))], [] + [Begin(a)], a, StoreParents);
    FinishedMeansPublished(states, labels, |labels|, a.revision.doc);
  }

  // ----- How many steps an upload takes -----

  /** The children go up in batches of 64, the last one short. */
  lemma {:induction false} UploadSteps(a: Attempt, done: nat)
    requires done <= |a.children|
    ensures StepsToFlip(a, done) == (|a.children| - done + 63) / 64
    decreases |a.children| - done
  {
    if done < |a.children| {
      UploadSteps(a, Least(done + BATCH, |a.children|));
    }
  }
}
