/**
 The two stores of the pipeline, each changed one atomic step at a time: the table of parent
 sections, and the index of child points.
 */
module Stores {
  import opened Results
  import opened Records

  datatype DocKey = DocKey(tenant: string, document: string)

  // ----- Parent sections -----

  datatype RowKey = RowKey(doc: DocKey, id: SectionId)

  datatype Row = Row(checksum: string, section: Section, product: Option<string>, version: Option<string>)

  type Rows = map<RowKey, Row>

  /** What identifies one revision of a document. */
  datatype Revision = Revision(doc: DocKey, checksum: string, product: Option<string>, version: Option<string>)

  function RowOf(revision: Revision, section: Section): Row {
    Row(revision.checksum, section, revision.product, revision.version)
  }

  function UpsertRows(rows: Rows, revision: Revision, sections: seq<Section>): Rows
    decreases sections
  {
    if sections == [] then rows
    else UpsertRows(rows[RowKey(revision.doc, sections[0].id) := RowOf(revision, sections[0])], revision, sections[1..])
  }

  function PruneRows(rows: Rows, doc: DocKey, checksum: string): Rows {
    map key | key in rows && !(key.doc == doc && rows[key].checksum != checksum) :: rows[key]
  }

  function DropRows(rows: Rows, doc: DocKey): Rows {
    map key | key in rows && key.doc != doc :: rows[key]
  }

  /** A prune takes exactly the document's rows of other checksums, a deletion all of its rows. */
  lemma RowsLeft(rows: Rows, doc: DocKey, checksum: string, key: RowKey)
    ensures key in PruneRows(rows, doc, checksum)
       <==> key in rows && (key.doc == doc ==> rows[key].checksum == checksum)
    ensures key in PruneRows(rows, doc, checksum) ==> PruneRows(rows, doc, checksum)[key] == rows[key]
    ensures key in DropRows(rows, doc) <==> key in rows && key.doc != doc
    ensures key in DropRows(rows, doc) ==> DropRows(rows, doc)[key] == rows[key]
  {
  }

  function FindParent(rows: Rows, doc: DocKey, id: SectionId): Option<Row> {
    if RowKey(doc, id) in rows then Some(rows[RowKey(doc, id)]) else None
  }

  datatype StoreError = NoSections | NoChecksum | NoChunks

  /** `SQLiteParentStore`: each method is one transaction. */
  class ParentStore {
    var rows: Rows

    constructor ()
      ensures rows == map[]
    {
      rows := map[];
    }

    method UpsertRevision(revision: Revision, sections: seq<Section>) returns (result: Result<(), StoreError>)
      modifies this
      ensures sections == [] ==> result == Raised(NoSections) && rows == old(rows)
      ensures sections != [] ==> result == Ok(()) && rows == UpsertRows(old(rows), revision, sections)
    {
      if sections == [] {
        return Raised(NoSections);
      }
      var updated := rows;
      var i := 0;
      while i < |sections|
        invariant 0 <= i <= |sections|
        invariant rows == old(rows)
        invariant UpsertRows(old(rows), revision, sections) == UpsertRows(updated, revision, sections[i..])
      {
        assert sections[i..][0] == sections[i] && sections[i..][1..] == sections[i + 1..];
        updated := updated[RowKey(revision.doc, sections[i].id) := RowOf(revision, sections[i])];
        i := i + 1;
      }
      rows := updated;
      result := Ok(());
    }

    method PruneRevision(doc: DocKey, checksum: string) returns (result: Result<(), StoreError>)
      modifies this
      ensures checksum == "" ==> result == Raised(NoChecksum) && rows == old(rows)
      ensures checksum != "" ==> result == Ok(()) && rows == PruneRows(old(rows), doc, checksum)
    {
      if checksum == "" {
        return Raised(NoChecksum);
      }
      rows := map key | key in rows && !(key.doc == doc && rows[key].checksum != checksum) :: rows[key];
      result := Ok(());
    }

    method GetParent(doc: DocKey, id: SectionId) returns (parent: Option<Row>)
      ensures parent == FindParent(rows, doc, id)
    {
      var key := RowKey(doc, id);
      if key in rows {
        parent := Some(rows[key]);
      } else {
        parent := None;
      }
    }

    method DeleteDocument(doc: DocKey)
      modifies this
      ensures rows == DropRows(old(rows), doc)
    {
      rows := map key | key in rows && key.doc != doc :: rows[key];
    }
  }

  // ----- Child points -----

  /**
   The id of a child point: a name-based UUID, taken as injective in the fields it is made from.
   `Foreign` stands for any id an older index may hold.
   */
  datatype PointId =
    | PointId(doc: DocKey, checksum: string, parent: SectionId, order: nat)
    | Foreign(name: string)

  /** A child point; `inlineParent` is the parent text that points of an older index carry. */
  datatype Point = Point(
    doc: DocKey, checksum: string, parent: SectionId, content: string, ready: Option<bool>,
    product: Option<string>, version: Option<string>, inlineParent: Option<string>)

  type Points = map<PointId, Point>

  datatype Child = Child(id: PointId, point: Point)

  function Ids(children: seq<Child>): set<PointId> {
    set i | 0 <= i < |children| :: children[i].id
  }

  function UploadPoints(points: Points, children: seq<Child>): Points
    decreases children
  {
    if children == [] then points
    else UploadPoints(points[children[0].id := children[0].point], children[1..])
  }

  /** `set_payload` on the points of the given ids; ids the index does not hold are left out. */
  function FlipReady(points: Points, ids: set<PointId>): Points {
    map id | id in points :: if id in ids then points[id].(ready := Some(true)) else points[id]
  }

  function DropStalePoints(points: Points, doc: DocKey, ids: set<PointId>): Points {
    map id | id in points && !(points[id].doc == doc && id !in ids) :: points[id]
  }

  /** Making points ready changes their flag alone; dropping stale ones takes exactly the document's others. */
  lemma PointsLeft(points: Points, doc: DocKey, ids: set<PointId>, id: PointId)
    ensures id in FlipReady(points, ids) <==> id in points
    ensures id in points ==>
              var flipped := FlipReady(points, ids)[id];
              && flipped == points[id].(ready := flipped.ready)
              && flipped.ready == if id in ids then Some(true) else points[id].ready
    ensures id in DropStalePoints(points, doc, ids) <==> id in points && (points[id].doc == doc ==> id in ids)
    ensures id in DropStalePoints(points, doc, ids) ==> DropStalePoints(points, doc, ids)[id] == points[id]
  {
  }

  const BATCH: nat := 64

  /** The visibility filter of a search: hidden exactly when the flag is present and false. */
  predicate Searchable(point: Point) {
    point.ready == Some(true) || point.ready == None
  }

  /** A point is hidden from every search if and only if its flag is there and says so. */
  lemma HiddenIff(point: Point)
    ensures !Searchable(point) <==> point.ready == Some(false)
  {
    match point.ready
    case None =>
    case Some(ready) => if ready { } else { }
  }

  function Least(a: nat, b: nat): nat {
    if a <= b then a else b
  }

  lemma {:induction false} UploadConcat(points: Points, xs: seq<Child>, ys: seq<Child>)
    ensures UploadPoints(points, xs + ys) == UploadPoints(UploadPoints(points, xs), ys)
    decreases xs
  {
    if xs == [] {
      assert xs + ys == ys;
    } else {
      assert (xs + ys)[1..] == xs[1..] + ys;
      UploadConcat(points[xs[0].id := xs[0].point], xs[1..], ys);
    }
  }

  /** `QdrantIndex`: every upload batch, payload change and deletion is one step. */
  class ChildIndex {
    var points: Points

    constructor ()
      ensures points == map[]
    {
      points := map[];
    }

    method UpsertRevision(doc: DocKey, children: seq<Child>) returns (result: Result<(), StoreError>)
      modifies this
      ensures children == [] ==> result == Raised(NoChunks) && points == old(points)
      ensures children != [] ==>
                && result == Ok(())
                && points == DropStalePoints(FlipReady(UploadPoints(old(points), children), Ids(children)),
                                             doc, Ids(children))
    {
      if children == [] {
        return Raised(NoChunks);
      }
      AddDocuments(children);
      SetReady(Ids(children));
      DeleteStale(doc, Ids(children));
      result := Ok(());
    }

    method AddDocuments(children: seq<Child>)
      modifies this
      ensures points == UploadPoints(old(points), children)
    {
      var done := 0;
      while done < |children|
        invariant 0 <= done <= |children|
        invariant points == UploadPoints(old(points), children[..done])
      {
        var end := Least(done + BATCH, |children|);
        assert children[..end] == children[..done] + children[done..end];
        UploadConcat(old(points), children[..done], children[done..end]);
        UploadBatch(children[done..end]);
        done := end;
      }
      assert children[..done] == children;
    }

    method UploadBatch(batch: seq<Child>)
      modifies this
      ensures points == UploadPoints(old(points), batch)
    {
      var uploaded := points;
      var i := 0;
      while i < |batch|
        invariant 0 <= i <= |batch|
        invariant points == old(points)
        invariant UploadPoints(old(points), batch) == UploadPoints(uploaded, batch[i..])
      {
        assert batch[i..][0] == batch[i] && batch[i..][1..] == batch[i + 1..];
        uploaded := uploaded[batch[i].id := batch[i].point];
        i := i + 1;
      }
      points := uploaded;
    }

    method SetReady(ids: set<PointId>)
      modifies this
      ensures points == FlipReady(old(points), ids)
    {
      points := map id | id in points :: if id in ids then points[id].(ready := Some(true)) else points[id];
    }

    method DeleteStale(doc: DocKey, ids: set<PointId>)
      modifies this
      ensures points == DropStalePoints(old(points), doc, ids)
    {
      points := map id | id in points && !(points[id].doc == doc && id !in ids) :: points[id];
    }

    method DeleteDocument(doc: DocKey)
      modifies this
      ensures points == DropStalePoints(old(points), doc, {})
    {
      points := map id | id in points && points[id].doc != doc :: points[id];
    }
  }
}
