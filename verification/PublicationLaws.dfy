/**
 Safety of publication over every run: whatever steps, crashes, retries and deletions have happened,
 on any number of documents at once, no child is left without its parent, a published document is
 exactly its revision, and a search never sees part of a new one.
 */
module PublicationLaws {
  import opened Results
  import opened Records
  import opened Stores
  import opened Publication

  // ----- What the bulk writes do to one key -----

  lemma {:induction false} UpsertRowsAt(rows: Rows, revision: Revision, sections: seq<Section>, key: RowKey)
    ensures var after := UpsertRows(rows, revision, sections);
            var hit := key.doc == revision.doc && HasSection(sections, key.id);
            && (key in after <==> key in rows || hit)
            && (!hit && key in rows ==> after[key] == rows[key])
            && (hit ==> exists i :: 0 <= i < |sections| && sections[i].id == key.id
                                    && after[key] == RowOf(revision, sections[i]))
    decreases sections
  {
    if sections != [] {
      var first, rest := sections[0], sections[1..];
      var written := rows[RowKey(revision.doc, first.id) := RowOf(revision, first)];
      UpsertRowsAt(written, revision, rest, key);
      assert forall i :: 0 <= i < |rest| ==> rest[i] == sections[i + 1];
      if key.doc == revision.doc {
        if HasSection(rest, key.id) {
          var i :| 0 <= i < |rest| && rest[i].id == key.id
                   && UpsertRows(written, revision, rest)[key] == RowOf(revision, rest[i]);
          assert sections[i + 1].id == key.id;
        } else if first.id == key.id {
          assert sections[0].id == key.id;
        }
      }
    }
  }

  predicate DistinctSections(sections: seq<Section>) {
    forall i, j :: 0 <= i < j < |sections| ==> sections[i].id != sections[j].id
  }

  predicate DistinctChildren(children: seq<Child>) {
    forall i, j :: 0 <= i < j < |children| ==> children[i].id != children[j].id
  }

  lemma {:induction false} UploadAt(points: Points, children: seq<Child>, id: PointId)
    ensures var after := UploadPoints(points, children);
            && (id in after <==> id in points || id in Ids(children))
            && (id !in Ids(children) && id in points ==> after[id] == points[id])
            && (id in Ids(children) ==> exists i :: 0 <= i < |children| && children[i].id == id
                                                    && after[id] == children[i].point)
    decreases children
  {
    if children != [] {
      var first, rest := children[0], children[1..];
      var written := points[first.id := first.point];
      UploadAt(written, rest, id);
      assert children == [first] + rest;
      IdsCons(first, rest);
      if id in Ids(rest) {
        var i :| 0 <= i < |rest| && rest[i].id == id && UploadPoints(written, rest)[id] == rest[i].point;
        assert children[i + 1].id == id;
      } else if id == first.id {
        assert children[0].id == id;
      }
    }
  }

  lemma IdsCons(first: Child, rest: seq<Child>)
    ensures Ids([first] + rest) == {first.id} + Ids(rest)
  {
    var all := [first] + rest;
    forall id | id in {first.id} + Ids(rest) ensures id in Ids(all) {
      if id == first.id {
        assert all[0].id == id;
      } else {
        var i :| 0 <= i < |rest| && rest[i].id == id;
        assert all[i + 1].id == id;
      }
    }
    forall id | id in Ids(all) ensures id in {first.id} + Ids(rest) {
      var i :| 0 <= i < |all| && all[i].id == id;
      if i > 0 { assert rest[i - 1].id == id; }
    }
  }

  // ----- The state of one document -----

  ghost predicate HasParents(rows: Rows, a: Attempt) {
    forall i :: 0 <= i < |a.sections| ==> HasParent(rows, a, i)
  }

  ghost predicate HasParent(rows: Rows, a: Attempt, i: nat)
    requires i < |a.sections|
  {
    var key := RowKey(a.revision.doc, a.sections[i].id);
    key in rows && rows[key] == RowOf(a.revision, a.sections[i])
  }

  /** The first `n` children are in the index, still hidden. */
  ghost predicate Uploaded(points: Points, a: Attempt, n: nat) {
    n <= |a.children| && forall i: nat :: i < n ==> Holds(points, a.children[i].id, a.children[i].point)
  }

  ghost predicate Holds(points: Points, id: PointId, point: Point) {
    id in points && points[id] == point
  }

  /** Every child is in the index and visible. */
  ghost predicate AllReady(points: Points, a: Attempt) {
    forall i: nat :: i < |a.children| ==>
      Holds(points, a.children[i].id, a.children[i].point.(ready := Some(true)))
  }

  ghost predicate OnlyChildren(points: Points, a: Attempt) {
    forall id :: id in points && points[id].doc == a.revision.doc ==> id in Ids(a.children)
  }

  ghost predicate OnlyChecksum(rows: Rows, a: Attempt) {
    forall key :: key in rows && key.doc == a.revision.doc ==> rows[key].checksum == a.revision.checksum
  }

  /** What a writer may rely on before each of its steps. */
  ghost predicate IngestOk(rows: Rows, points: Points, a: Attempt, step: Step) {
    && ValidAttempt(a)
    && (step != StoreParents ==> HasParents(rows, a))
    && match step
       case StoreParents => true
       case Upload(done) => Uploaded(points, a, done)
       case Flip => Uploaded(points, a, |a.children|)
       case DropStale => AllReady(points, a)
       case Prune => AllReady(points, a) && OnlyChildren(points, a)
       case Published => AllReady(points, a) && OnlyChildren(points, a) && OnlyChecksum(rows, a)
  }

  ghost predicate WorkerOk(rows: Rows, points: Points, doc: DocKey, w: Worker) {
    match w
    case Ingesting(a, step, _) => a.revision.doc == doc && IngestOk(rows, points, a, step)
    case Deleting(childrenGone) => childrenGone ==> forall id :: id in points ==> points[id].doc != doc
  }

  ghost predicate WorkersOk(s: State) {
    forall doc :: doc in s.workers ==> WorkerOk(s.rows, s.points, doc, s.workers[doc])
  }

  ghost predicate Inv(s: State) {
    StoreOk(s.rows, s.points) && WorkersOk(s)
  }

  // ----- Frames: a document's step leaves every other document alone -----

  ghost predicate SameRows(rows: Rows, after: Rows, doc: DocKey) {
    forall key: RowKey :: key.doc == doc
      ==> (key in rows <==> key in after) && (key in rows ==> rows[key] == after[key])
  }

  ghost predicate SamePoints(points: Points, after: Points, doc: DocKey) {
    && (forall id :: id in points && points[id].doc == doc ==> Holds(after, id, points[id]))
    && (forall id :: id in after && after[id].doc == doc ==> Holds(points, id, after[id]))
  }

  lemma UploadedFrame(points: Points, after: Points, a: Attempt, n: nat)
    requires ValidAttempt(a) && SamePoints(points, after, a.revision.doc) && Uploaded(points, a, n)
    ensures Uploaded(after, a, n)
  {
    forall i: nat | i < n ensures Holds(after, a.children[i].id, a.children[i].point) {
      assert Holds(points, a.children[i].id, a.children[i].point);
      assert ValidChild(a, a.children[i]);
    }
  }

  lemma ReadyFrame(points: Points, after: Points, a: Attempt)
    requires ValidAttempt(a) && SamePoints(points, after, a.revision.doc) && AllReady(points, a)
    ensures AllReady(after, a)
  {
    forall i: nat | i < |a.children|
      ensures Holds(after, a.children[i].id, a.children[i].point.(ready := Some(true)))
    {
      assert Holds(points, a.children[i].id, a.children[i].point.(ready := Some(true)));
      assert ValidChild(a, a.children[i]);
    }
  }

  lemma ParentsFrame(rows: Rows, after: Rows, a: Attempt)
    requires SameRows(rows, after, a.revision.doc) && HasParents(rows, a)
    ensures HasParents(after, a)
  {
    forall i: nat | i < |a.sections| ensures HasParent(after, a, i) {
      assert HasParent(rows, a, i);
    }
  }

  lemma WorkerFrame(rows: Rows, points: Points, rows': Rows, points': Points, doc: DocKey, w: Worker)
    requires WorkerOk(rows, points, doc, w) && SameRows(rows, rows', doc) && SamePoints(points, points', doc)
    ensures WorkerOk(rows', points', doc, w)
  {
    hide ValidAttempt, Uploaded, AllReady, HasParents;
    if w.Ingesting? {
      var a := w.attempt;
      if w.step != StoreParents {
        ParentsFrame(rows, rows', a);
      }
      match w.step
      case StoreParents =>
      case Upload(done) => UploadedFrame(points, points', a, done);
      case Flip => UploadedFrame(points, points', a, |a.children|);
      case DropStale => ReadyFrame(points, points', a);
      case Prune => ReadyFrame(points, points', a);
      case Published => ReadyFrame(points, points', a);
    }
  }

  // ----- Each step keeps the stores consistent -----

  lemma StoreParentsKeeps(rows: Rows, points: Points, a: Attempt)
    requires StoreOk(rows, points) && ValidAttempt(a)
    ensures var after := UpsertRows(rows, a.revision, a.sections);
            StoreOk(after, points) && HasParents(after, a)
    ensures forall doc :: doc != a.revision.doc ==> SameRows(rows, UpsertRows(rows, a.revision, a.sections), doc)
  {
    hide ValidChild, LinksTo;
    var after := UpsertRows(rows, a.revision, a.sections);
    forall key ensures key in after ==> RowOk(key, after[key])
               ensures key in rows ==> key in after
               ensures key.doc != a.revision.doc
                       ==> (key in rows <==> key in after) && (key in rows ==> rows[key] == after[key])
    {
      UpsertRowsAt(rows, a.revision, a.sections, key);
      if key in after && !(key.doc == a.revision.doc && HasSection(a.sections, key.id)) {
        assert RowOk(key, rows[key]);
      }
    }
    forall i: nat | i < |a.sections| ensures HasParent(after, a, i) {
      UpsertRowsAt(rows, a.revision, a.sections, RowKey(a.revision.doc, a.sections[i].id));
    }
    forall id | id in points ensures PointOk(after, id, points[id]) {
      assert PointOk(rows, id, points[id]);
    }
  }

  lemma ChildHasParent(rows: Rows, a: Attempt, child: Child)
    requires HasParents(rows, a) && ValidChild(a, child)
    ensures RowKey(child.point.doc, child.point.parent) in rows
  {
    var i :| 0 <= i < |a.sections| && a.sections[i].id == child.point.parent;
    assert HasParent(rows, a, i);
  }

  lemma EarlierNotInBatch(a: Attempt, lo: nat, hi: nat, i: nat)
    requires ValidAttempt(a) && i < lo <= hi <= |a.children|
    ensures a.children[i].id !in Ids(a.children[lo..hi])
  {
    var batch := a.children[lo..hi];
    forall j | 0 <= j < |batch| ensures batch[j].id != a.children[i].id {
      assert batch[j] == a.children[lo + j];
    }
  }

  lemma UploadKeeps(rows: Rows, points: Points, a: Attempt, lo: nat, hi: nat)
    requires StoreOk(rows, points) && ValidAttempt(a) && HasParents(rows, a)
    requires Uploaded(points, a, lo) && lo <= hi <= |a.children|
    ensures var after := UploadPoints(points, a.children[lo..hi]);
            StoreOk(rows, after) && Uploaded(after, a, hi)
    ensures forall doc :: doc != a.revision.doc ==> SamePoints(points, UploadPoints(points, a.children[lo..hi]), doc)
  {
    hide HasParents, AllWellLinked, UploadPoints;
    var batch := a.children[lo..hi];
    var after := UploadPoints(points, batch);
    forall id
      ensures id in after ==> PointOk(rows, id, after[id])
      ensures id in after && after[id].doc != a.revision.doc ==> Holds(points, id, after[id])
      ensures id in points && points[id].doc != a.revision.doc ==> Holds(after, id, points[id])
    {
      UploadAt(points, batch, id);
      if id in points { assert PointOk(rows, id, points[id]); }
      if id in Ids(batch) {
        var i :| 0 <= i < |batch| && batch[i].id == id && after[id] == batch[i].point;
        assert ValidChild(a, a.children[lo + i]);
        ChildHasParent(rows, a, a.children[lo + i]);
      }
    }
    forall i: nat | i < hi ensures Holds(after, a.children[i].id, a.children[i].point) {
      UploadAt(points, batch, a.children[i].id);
      if i < lo {
        assert Holds(points, a.children[i].id, a.children[i].point);
        EarlierNotInBatch(a, lo, hi, i);
      } else {
        assert batch[i - lo].id == a.children[i].id;
      }
    }
  }

  lemma ChildInIds(children: seq<Child>, i: nat)
    requires i < |children|
    ensures children[i].id in Ids(children)
  {
  }

  lemma FlipKeeps(rows: Rows, points: Points, a: Attempt)
    requires StoreOk(rows, points) && ValidAttempt(a) && Uploaded(points, a, |a.children|)
    ensures var after := FlipReady(points, Ids(a.children));
            StoreOk(rows, after) && AllReady(after, a)
    ensures forall doc :: doc != a.revision.doc ==> SamePoints(points, FlipReady(points, Ids(a.children)), doc)
  {
    hide AllWellLinked, Ids;
    var ids := Ids(a.children);
    var after := FlipReady(points, ids);
    forall id | id in after ensures PointOk(rows, id, after[id]) {
      assert PointOk(rows, id, points[id]);
    }
    forall i: nat | i < |a.children|
      ensures Holds(after, a.children[i].id, a.children[i].point.(ready := Some(true)))
    {
      ChildInIds(a.children, i);
      assert Holds(points, a.children[i].id, a.children[i].point);
    }
    forall id | id in points && id in ids ensures points[id].doc == a.revision.doc {
      assert PointOk(rows, id, points[id]);
      IdIsValid(a, id);
    }
  }

  lemma IdIsValid(a: Attempt, id: PointId)
    requires ValidAttempt(a) && id in Ids(a.children)
    ensures id.PointId? && id.doc == a.revision.doc
  {
    hide AllWellLinked;
    var i :| 0 <= i < |a.children| && a.children[i].id == id;
    assert ValidChild(a, a.children[i]);
  }

  lemma DropStaleKeeps(rows: Rows, points: Points, a: Attempt)
    requires StoreOk(rows, points) && ValidAttempt(a) && AllReady(points, a)
    ensures var after := DropStalePoints(points, a.revision.doc, Ids(a.children));
            StoreOk(rows, after) && AllReady(after, a) && OnlyChildren(after, a)
    ensures forall doc :: doc != a.revision.doc
              ==> SamePoints(points, DropStalePoints(points, a.revision.doc, Ids(a.children)), doc)
  {
    hide ValidAttempt, Ids;
    var after := DropStalePoints(points, a.revision.doc, Ids(a.children));
    forall id | id in after ensures PointOk(rows, id, after[id]) {
      assert PointOk(rows, id, points[id]);
    }
    forall i: nat | i < |a.children|
      ensures Holds(after, a.children[i].id, a.children[i].point.(ready := Some(true)))
    {
      ChildInIds(a.children, i);
      assert Holds(points, a.children[i].id, a.children[i].point.(ready := Some(true)));
    }
  }

  /** The prune removes no row that a point still refers to. */
  lemma PruneKeeps(rows: Rows, points: Points, a: Attempt)
    requires StoreOk(rows, points) && ValidAttempt(a) && HasParents(rows, a)
    requires AllReady(points, a) && OnlyChildren(points, a)
    ensures var after := PruneRows(rows, a.revision.doc, a.revision.checksum);
            StoreOk(after, points) && HasParents(after, a) && OnlyChecksum(after, a)
    ensures forall doc :: doc != a.revision.doc
              ==> SameRows(rows, PruneRows(rows, a.revision.doc, a.revision.checksum), doc)
  {
    hide Ids, AllWellLinked;
    var after := PruneRows(rows, a.revision.doc, a.revision.checksum);
    forall key | key in after ensures RowOk(key, after[key]) {
      assert RowOk(key, rows[key]);
    }
    forall i: nat | i < |a.sections| ensures HasParent(after, a, i) {
      assert HasParent(rows, a, i);
    }
    forall id | id in points ensures PointOk(after, id, points[id]) {
      assert PointOk(rows, id, points[id]);
      if points[id].doc == a.revision.doc {
        var i := FindChild(a.children, id);
        assert Holds(points, id, a.children[i].point.(ready := Some(true)));
        assert ValidChild(a, a.children[i]);
        ChildHasParent(after, a, a.children[i]);
      }
    }
  }

  lemma FindChild(children: seq<Child>, id: PointId) returns (i: nat)
    requires id in Ids(children)
    ensures i < |children| && children[i].id == id
  {
    i :| 0 <= i < |children| && children[i].id == id;
  }

  lemma DeleteKeeps(rows: Rows, points: Points, doc: DocKey)
    requires StoreOk(rows, points)
    ensures StoreOk(rows, DropStalePoints(points, doc, {}))
    ensures forall id :: id in DropStalePoints(points, doc, {}) ==> DropStalePoints(points, doc, {})[id].doc != doc
    ensures forall other :: other != doc ==> SamePoints(points, DropStalePoints(points, doc, {}), other)
    ensures (forall id :: id in points ==> points[id].doc != doc) ==> StoreOk(DropRows(rows, doc), points)
    ensures forall other :: other != doc ==> SameRows(rows, DropRows(rows, doc), other)
  {
    forall key | key in rows ensures RowOk(key, rows[key]) {
    }
    forall id | id in points ensures PointOk(rows, id, points[id]) {
    }
  }

  // ----- The invariant over runs -----

  /** One step of an ingestion keeps the stores consistent, earns its next step, and frames the rest. */
  lemma WorkKeeps(rows: Rows, points: Points, a: Attempt, step: Step)
    requires StoreOk(rows, points) && IngestOk(rows, points, a, step)
    ensures var (rows', points', next) := Work(rows, points, a, step);
            && StoreOk(rows', points') && IngestOk(rows', points', a, next)
            && forall doc :: doc != a.revision.doc ==> SameRows(rows, rows', doc) && SamePoints(points, points', doc)
  {
    hide StoreOk, ValidAttempt, HasParents, Uploaded, AllReady, OnlyChildren, OnlyChecksum,
         UpsertRows, UploadPoints, FlipReady, DropStalePoints, PruneRows, Ids, SameRows, SamePoints;
    assert forall doc :: SameRows(rows, rows, doc) && SamePoints(points, points, doc)
           by { NothingChanges(rows, points); }
    match step
    case StoreParents =>
      StoreParentsKeeps(rows, points, a);
      NothingUploaded(points, a);
    case Upload(done) =>
      UploadedBound(points, a, done);
      if done < |a.children| {
        UploadKeeps(rows, points, a, done, Least(done + BATCH, |a.children|));
      }
    case Flip => FlipKeeps(rows, points, a);
    case DropStale => DropStaleKeeps(rows, points, a);
    case Prune => PruneKeeps(rows, points, a);
    case Published =>
  }

  lemma NothingChanges(rows: Rows, points: Points)
    ensures forall doc :: SameRows(rows, rows, doc) && SamePoints(points, points, doc)
  {
  }

  lemma NothingUploaded(points: Points, a: Attempt)
    ensures Uploaded(points, a, 0)
  {
  }

  lemma UploadedBound(points: Points, a: Attempt, done: nat)
    requires Uploaded(points, a, done)
    ensures done <= |a.children|
  {
  }

  lemma OthersKeep(s: State, t: State, doc: DocKey)
    requires WorkersOk(s)
    requires forall other :: other != doc ==> SameRows(s.rows, t.rows, other) && SamePoints(s.points, t.points, other)
    requires forall other :: other in t.workers && other != doc
               ==> other in s.workers && t.workers[other] == s.workers[other]
    requires doc in t.workers ==> WorkerOk(t.rows, t.points, doc, t.workers[doc])
    ensures WorkersOk(t)
  {
    hide WorkerOk, SameRows, SamePoints;
    forall other | other in t.workers ensures WorkerOk(t.rows, t.points, other, t.workers[other]) {
      if other != doc {
        WorkerFrame(s.rows, s.points, t.rows, t.points, other, t.workers[other]);
      }
    }
  }

  lemma StepKeepsInv(s: State, l: Label)
    requires Inv(s) && Enabled(s, l)
    ensures Inv(Next(s, l))
  {
    hide StoreOk, WorkersOk, SameRows, SamePoints, Work, IngestOk, DropStalePoints, DropRows, Visible, ValidAttempt;
    var t := Next(s, l);
    NothingChanges(s.rows, s.points);
    match l
    case Begin(a) =>
      BeginOk(s.rows, s.points, a);
      OthersKeep(s, t, a.revision.doc);
    case BeginDelete(doc) => OthersKeep(s, t, doc);
    case Crash(doc) => OthersKeep(s, t, doc);
    case Advance(doc) =>
      WorkerAt(s, doc);
      match s.workers[doc]
      case Ingesting(a, step, _) =>
        WorkKeeps(s.rows, s.points, a, step);
        OthersKeep(s, t, doc);
      case Deleting(_) =>
        DeleteKeeps(s.rows, s.points, doc);
        OthersKeep(s, t, doc);
  }

  lemma BeginOk(rows: Rows, points: Points, a: Attempt)
    requires ValidAttempt(a)
    ensures IngestOk(rows, points, a, StoreParents)
  {
  }

  lemma WorkerAt(s: State, doc: DocKey)
    requires WorkersOk(s) && doc in s.workers
    ensures WorkerOk(s.rows, s.points, doc, s.workers[doc])
  {
  }

  lemma {:induction false} RunKeepsInv(states: seq<State>, labels: seq<Label>, i: nat)
    requires IsRun(states, labels) && i < |states|
    ensures Inv(states[i])
  {
    hide Inv, Next, Enabled;
    if i == 0 {
      InitialInv(states[0]);
    } else {
      RunKeepsInv(states, labels, i - 1);
      assert StepsTo(states[i - 1], labels[i - 1], states[i]);
      StepKeepsInv(states[i - 1], labels[i - 1]);
    }
  }

  lemma InitialInv(s: State)
    requires Initial(s)
    ensures Inv(s)
  {
  }

  /** The empty stores are a start of runs. */
  lemma EmptyIsInitial()
    ensures Initial(State(map[], map[], map[]))
  {
  }

  // ----- No dangling children -----

  /**
   After every step of every run, each point of the pipeline finds its parent, and the parent's text
   is the very text the child was cut from: a crash can leave a store mixed, but never mismatched.
   */
  lemma NoDanglingChildren(states: seq<State>, labels: seq<Label>, i: nat, id: PointId)
    requires IsRun(states, labels) && i < |states|
    requires id in states[i].points && states[i].points[id].inlineParent == None
    ensures var point := states[i].points[id];
            var parent := FindParent(states[i].rows, point.doc, point.parent);
            && parent.Some?
            && point.parent == Hashed(parent.value.section.heading, parent.value.section.order,
                                      parent.value.section.text)
            && WellLinked(parent.value.section)
  {
    RunKeepsInv(states, labels, i);
    assert PointOk(states[i].rows, id, states[i].points[id]);
  }

  /** Every row ever stored names only orders beside its own, even when revisions are mixed. */
  lemma RowsStayWellLinked(states: seq<State>, labels: seq<Label>, i: nat, key: RowKey)
    requires IsRun(states, labels) && i < |states| && key in states[i].rows
    ensures RowOk(key, states[i].rows[key])
  {
    RunKeepsInv(states, labels, i);
  }

  // ----- Convergence -----

  /** The document is exactly the attempt: its points, all visible, and its parents, of one checksum. */
  ghost predicate IsPublished(rows: Rows, points: Points, a: Attempt) {
    && (forall id :: (id in points && points[id].doc == a.revision.doc) <==> id in Ids(a.children))
    && AllReady(points, a)
    && HasParents(rows, a)
    && OnlyChecksum(rows, a)
  }

  /** Whatever crashed before, a document whose last attempt has finished is exactly that attempt. */
  lemma FinishedMeansPublished(states: seq<State>, labels: seq<Label>, i: nat, doc: DocKey)
    requires IsRun(states, labels) && i < |states| && doc in states[i].workers
    requires states[i].workers[doc].Ingesting? && states[i].workers[doc].step == Published
    ensures states[i].workers[doc].attempt.revision.doc == doc
    ensures IsPublished(states[i].rows, states[i].points, states[i].workers[doc].attempt)
  {
    hide ValidAttempt, StoreOk;
    RunKeepsInv(states, labels, i);
    var a := states[i].workers[doc].attempt;
    WorkerAt(states[i], doc);
    PublishedIds(states[i].points, a);
  }

  lemma PublishedIds(points: Points, a: Attempt)
    requires ValidAttempt(a) && AllReady(points, a) && OnlyChildren(points, a)
    ensures forall id :: (id in points && points[id].doc == a.revision.doc) <==> id in Ids(a.children)
  {
    forall id | id in Ids(a.children) ensures id in points && points[id].doc == a.revision.doc {
      var i := FindChild(a.children, id);
      assert Holds(points, a.children[i].id, a.children[i].point.(ready := Some(true)));
      assert ValidChild(a, a.children[i]);
    }
  }

  /** A step of one document changes nothing of another. */
  lemma OtherDocumentsUntouched(states: seq<State>, labels: seq<Label>, i: nat, doc: DocKey)
    requires IsRun(states, labels) && i < |labels|
    requires match labels[i] case Advance(d) => d != doc case _ => true
    ensures SameRows(states[i].rows, states[i + 1].rows, doc)
    ensures SamePoints(states[i].points, states[i + 1].points, doc)
  {
    hide StoreOk, IngestOk, SameRows, SamePoints, Work, DropStalePoints, DropRows, WorkersOk, ValidAttempt, Visible;
    RunKeepsInv(states, labels, i);
    var s := states[i];
    assert StepsTo(s, labels[i], states[i + 1]);
    NothingChanges(s.rows, s.points);
    if labels[i].Advance? {
      var d := labels[i].doc;
      WorkerAt(s, d);
      match s.workers[d]
      case Ingesting(a, step, _) => WorkKeeps(s.rows, s.points, a, step);
      case Deleting(_) => DeleteKeeps(s.rows, s.points, d);
    }
  }
}
