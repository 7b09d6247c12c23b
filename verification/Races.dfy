/**
 Any number of writers at once, each advancing, crashing and starting again as it likes: exactly when
 their interleavings can leave a child without its parent.
 */
module Races {
  import opened Results
  import opened Records
  import opened Stores
  import opened Publication
  import opened PublicationLaws
  import opened PublicationRuns

  // ----- The machine -----

  /** A writer takes its next atomic step, or has crashed and starts again from the top. */
  datatype Turn = Move(writer: nat) | Retry(writer: nat)

  /** The stores with several attempts at work on them, each before its own next step. */
  datatype Race = Race(rows: Rows, points: Points, steps: seq<Step>)

  function AfterTurn(race: Race, attempts: seq<Attempt>, turn: Turn): (after: Race)
    requires |race.steps| == |attempts|
    ensures |after.steps| == |attempts|
  {
    if turn.writer >= |attempts| then race
    else
      match turn
      case Move(w) =>
        var (rows, points, step) := Work(race.rows, race.points, attempts[w], race.steps[w]);
        Race(rows, points, race.steps[w := step])
      case Retry(w) => race.(steps := race.steps[w := StoreParents])
  }

  function Raced(race: Race, attempts: seq<Attempt>, turns: seq<Turn>): (after: Race)
    requires |race.steps| == |attempts|
    ensures |after.steps| == |attempts|
    decreases turns
  {
    if turns == [] then race else Raced(AfterTurn(race, attempts, turns[0]), attempts, turns[1..])
  }

  function Start(rows: Rows, points: Points, attempts: seq<Attempt>): (race: Race)
    ensures |race.steps| == |attempts|
  {
    Race(rows, points, seq(|attempts|, i => StoreParents))
  }

  /** Some point that relies on the parent store has no parent in it. */
  ghost predicate Dangles(rows: Rows, points: Points) {
    exists id :: id in points && DanglesAt(rows, points[id])
  }

  predicate DanglesAt(rows: Rows, point: Point) {
    point.inlineParent == None && FindParent(rows, point.doc, point.parent) == None
  }

  ghost predicate DanglesAfter(rows: Rows, points: Points, attempts: seq<Attempt>, turns: seq<Turn>) {
    var race := Raced(Start(rows, points, attempts), attempts, turns);
    Dangles(race.rows, race.points)
  }

  /** Every writer is at work on something it can publish. */
  predicate AllValid(attempts: seq<Attempt>) {
    forall w :: 0 <= w < |attempts| ==> ValidAttempt(attempts[w]) && attempts[w].children != []
  }

  predicate Agree(a: Attempt, b: Attempt) {
    a.revision.doc == b.revision.doc ==> a.revision.checksum == b.revision.checksum
  }

  /** Writers of one document publish one revision of it. */
  predicate AllAgree(attempts: seq<Attempt>) {
    forall v, w :: 0 <= v < |attempts| && 0 <= w < |attempts| ==> Agree(attempts[v], attempts[w])
  }

  // ----- Writers that agree are safe -----

  predicate StoredAt(rows: Rows, a: Attempt, id: SectionId) {
    var key := RowKey(a.revision.doc, id);
    key in rows && rows[key].checksum == a.revision.checksum
  }

  /** The rows of all sections of the attempt are there, written by it or by one that agrees with it. */
  ghost predicate Stored(rows: Rows, a: Attempt) {
    forall id :: HasSection(a.sections, id) ==> StoredAt(rows, a, id)
  }

  predicate SettledAt(rows: Rows, a: Attempt, point: Point) {
    point.doc == a.revision.doc && point.inlineParent == None ==> StoredAt(rows, a, point.parent)
  }

  /** All points of the document rely on rows that a prune for this attempt leaves. */
  ghost predicate Settled(rows: Rows, points: Points, a: Attempt) {
    forall id :: id in points ==> SettledAt(rows, a, points[id])
  }

  /** What holds at a writer's step, whatever the others do. */
  ghost predicate WriterOk(rows: Rows, points: Points, a: Attempt, step: Step) {
    && (step != StoreParents ==> Stored(rows, a))
    && (step == Prune || step == Published ==> Settled(rows, points, a))
  }

  ghost predicate RaceOk(race: Race, attempts: seq<Attempt>) {
    && |race.steps| == |attempts|
    && StoreOk(race.rows, race.points)
    && forall w :: 0 <= w < |attempts| ==> WriterOk(race.rows, race.points, attempts[w], race.steps[w])
  }

  lemma StoringKeeps(rows: Rows, points: Points, a: Attempt, b: Attempt)
    requires StoreOk(rows, points) && ValidAttempt(a) && Agree(a, b)
    ensures var after := UpsertRows(rows, a.revision, a.sections);
            && StoreOk(after, points) && Stored(after, a)
            && (Stored(rows, b) ==> Stored(after, b))
            && (Settled(rows, points, b) ==> Settled(after, points, b))
  {
    hide ValidAttempt, StoreOk, HasSection;
    var after := UpsertRows(rows, a.revision, a.sections);
    StoreParentsKeeps(rows, points, a);
    forall id ensures StoredAt(rows, b, id) ==> StoredAt(after, b, id)
              ensures HasSection(a.sections, id) ==> StoredAt(after, a, id)
    {
      UpsertRowsAt(rows, a.revision, a.sections, RowKey(b.revision.doc, id));
      UpsertRowsAt(rows, a.revision, a.sections, RowKey(a.revision.doc, id));
    }
    if Settled(rows, points, b) {
      forall id | id in points ensures SettledAt(after, b, points[id]) {
        assert SettledAt(rows, b, points[id]);
      }
    }
  }

  lemma UploadingKeeps(rows: Rows, points: Points, a: Attempt, lo: nat, hi: nat, b: Attempt)
    requires StoreOk(rows, points) && ValidAttempt(a) && Agree(a, b) && Stored(rows, a) && lo <= hi <= |a.children|
    ensures var after := UploadPoints(points, a.children[lo..hi]);
            StoreOk(rows, after) && (Settled(rows, points, b) ==> Settled(rows, after, b))
  {
    hide AllWellLinked, HasSection, UploadPoints;
    var batch := a.children[lo..hi];
    var after := UploadPoints(points, batch);
    forall id | id in after
      ensures PointOk(rows, id, after[id])
      ensures Settled(rows, points, b) ==> SettledAt(rows, b, after[id])
    {
      UploadAt(points, batch, id);
      if id in Ids(batch) {
        var i :| 0 <= i < |batch| && batch[i].id == id && after[id] == batch[i].point;
        assert ValidChild(a, a.children[lo + i]);
        assert StoredAt(rows, a, after[id].parent);
      } else {
        assert PointOk(rows, id, points[id]);
        assert Settled(rows, points, b) ==> SettledAt(rows, b, points[id]);
      }
    }
  }

  lemma FlippingKeeps(rows: Rows, points: Points, ids: set<PointId>, b: Attempt)
    requires StoreOk(rows, points)
    ensures StoreOk(rows, FlipReady(points, ids))
    ensures Settled(rows, points, b) ==> Settled(rows, FlipReady(points, ids), b)
  {
    hide WellLinked;
    var after := FlipReady(points, ids);
    forall id | id in after
      ensures PointOk(rows, id, after[id])
      ensures Settled(rows, points, b) ==> SettledAt(rows, b, after[id])
    {
      assert PointOk(rows, id, points[id]);
      assert Settled(rows, points, b) ==> SettledAt(rows, b, points[id]);
    }
  }

  lemma DroppingKeeps(rows: Rows, points: Points, a: Attempt, b: Attempt)
    requires StoreOk(rows, points) && ValidAttempt(a) && Stored(rows, a)
    ensures var after := DropStalePoints(points, a.revision.doc, Ids(a.children));
            && StoreOk(rows, after) && Settled(rows, after, a)
            && (Settled(rows, points, b) ==> Settled(rows, after, b))
  {
    hide AllWellLinked, WellLinked, HasSection;
    var after := DropStalePoints(points, a.revision.doc, Ids(a.children));
    forall id | id in after
      ensures PointOk(rows, id, after[id]) && SettledAt(rows, a, after[id])
      ensures Settled(rows, points, b) ==> SettledAt(rows, b, after[id])
    {
      assert PointOk(rows, id, points[id]);
      assert Settled(rows, points, b) ==> SettledAt(rows, b, points[id]);
      if points[id].doc == a.revision.doc {
        var i := FindChild(a.children, id);
        assert ValidChild(a, a.children[i]);
        assert StoredAt(rows, a, points[id].parent);
      }
    }
  }

  lemma PruningKeeps(rows: Rows, points: Points, a: Attempt, b: Attempt)
    requires StoreOk(rows, points) && Agree(a, b) && Settled(rows, points, a)
    ensures var after := PruneRows(rows, a.revision.doc, a.revision.checksum);
            && StoreOk(after, points)
            && (Stored(rows, b) ==> Stored(after, b))
            && (Settled(rows, points, b) ==> Settled(after, points, b))
  {
    hide WellLinked, HasSection;
    var after := PruneRows(rows, a.revision.doc, a.revision.checksum);
    assert forall id :: StoredAt(rows, b, id) ==> StoredAt(after, b, id);
    forall id | id in points
      ensures PointOk(after, id, points[id])
      ensures Settled(rows, points, b) ==> SettledAt(after, b, points[id])
    {
      assert PointOk(rows, id, points[id]) && SettledAt(rows, a, points[id]);
      assert Settled(rows, points, b) ==> SettledAt(rows, b, points[id]);
    }
    forall key | key in after ensures RowOk(key, after[key]) {
      assert RowOk(key, rows[key]);
    }
  }

  /** A step of one writer keeps the stores consistent, and what any writer that agrees with it relies on. */
  lemma MoveKeeps(rows: Rows, points: Points, a: Attempt, step: Step, b: Attempt)
    requires StoreOk(rows, points) && ValidAttempt(a) && WriterOk(rows, points, a, step) && Agree(a, b)
    ensures var (rows', points', next) := Work(rows, points, a, step);
            && StoreOk(rows', points')
            && WriterOk(rows', points', a, next)
            && (Stored(rows, b) ==> Stored(rows', b))
            && (Settled(rows, points, b) ==> Settled(rows', points', b))
  {
    hide StoreOk, ValidAttempt, Stored, Settled, Ids, UpsertRows, UploadPoints, FlipReady, DropStalePoints, PruneRows;
    match step
    case StoreParents => StoringKeeps(rows, points, a, b);
    case Upload(done) =>
      if done < |a.children| { UploadingKeeps(rows, points, a, done, Least(done + BATCH, |a.children|), b); }
    case Flip => FlippingKeeps(rows, points, Ids(a.children), b);
    case DropStale => DroppingKeeps(rows, points, a, b);
    case Prune =>
      PruningKeeps(rows, points, a, b);
      PruningKeeps(rows, points, a, a);
    case Published =>
  }

  lemma TurnKeeps(race: Race, attempts: seq<Attempt>, turn: Turn)
    requires AllValid(attempts) && AllAgree(attempts) && RaceOk(race, attempts)
    ensures RaceOk(AfterTurn(race, attempts, turn), attempts)
  {
    hide StoreOk, ValidAttempt, Stored, Settled, Work, Agree;
    var after := AfterTurn(race, attempts, turn);
    if turn.writer < |attempts| {
      var w := turn.writer;
      assert Agree(attempts[w], attempts[w]);
      forall v | 0 <= v < |attempts|
        ensures StoreOk(after.rows, after.points)
        ensures WriterOk(after.rows, after.points, attempts[v], after.steps[v])
      {
        assert WriterOk(race.rows, race.points, attempts[v], race.steps[v]);
        if turn.Move? {
          assert Agree(attempts[w], attempts[v]);
          MoveKeeps(race.rows, race.points, attempts[w], race.steps[w], attempts[v]);
        }
      }
      assert WriterOk(after.rows, after.points, attempts[w], after.steps[w]);
    }
  }

  lemma {:induction false} TurnsKeep(race: Race, attempts: seq<Attempt>, turns: seq<Turn>)
    requires AllValid(attempts) && AllAgree(attempts) && RaceOk(race, attempts)
    ensures RaceOk(Raced(race, attempts, turns), attempts)
    decreases turns
  {
    hide AllValid, AllAgree, RaceOk, AfterTurn;
    if turns != [] {
      assert |race.steps| == |attempts| by { StepsOfAll(race, attempts); }
      TurnKeeps(race, attempts, turns[0]);
      TurnsKeep(AfterTurn(race, attempts, turns[0]), attempts, turns[1..]);
    }
  }

  lemma StepsOfAll(race: Race, attempts: seq<Attempt>)
    requires RaceOk(race, attempts)
    ensures |race.steps| == |attempts|
  {
  }

  lemma ConsistentIsSafe(rows: Rows, points: Points)
    requires StoreOk(rows, points)
    ensures !Dangles(rows, points)
  {
    hide WellLinked;
    forall id | id in points ensures !DanglesAt(rows, points[id]) {
      assert PointOk(rows, id, points[id]);
    }
  }

  /** No interleaving of writers that agree, with any crashes and retries, ever leaves a child without its parent. */
  lemma AgreeingWritersAreSafe(rows: Rows, points: Points, attempts: seq<Attempt>, turns: seq<Turn>)
    requires StoreOk(rows, points) && AllValid(attempts) && AllAgree(attempts)
    ensures !DanglesAfter(rows, points, attempts, turns)
  {
    hide StoreOk, AllValid, AllAgree, Dangles;
    TurnsKeep(Start(rows, points, attempts), attempts, turns);
    var race := Raced(Start(rows, points, attempts), attempts, turns);
    ConsistentIsSafe(race.rows, race.points);
  }

  // ----- Writers that disagree -----

  function Times(turn: Turn, n: nat): seq<Turn> {
    if n == 0 then [] else [turn] + Times(turn, n - 1)
  }

  lemma {:induction false} RacedConcat(race: Race, attempts: seq<Attempt>, xs: seq<Turn>, ys: seq<Turn>)
    requires |race.steps| == |attempts|
    ensures Raced(race, attempts, xs + ys) == Raced(Raced(race, attempts, xs), attempts, ys)
    decreases xs
  {
    hide AfterTurn;
    if xs == [] {
      assert xs + ys == ys;
    } else {
      assert (xs + ys)[1..] == xs[1..] + ys;
      RacedConcat(AfterTurn(race, attempts, xs[0]), attempts, xs[1..], ys);
    }
  }

  /** A writer that moves several times in a row. */
  lemma {:induction false} MovesAlone(race: Race, attempts: seq<Attempt>, w: nat, n: nat)
    requires |race.steps| == |attempts| && w < |attempts|
    ensures var (rows, points, step) := Solo(race.rows, race.points, attempts[w], race.steps[w], n);
            Raced(race, attempts, Times(Move(w), n)) == Race(rows, points, race.steps[w := step])
    decreases n
  {
    hide Work;
    if n == 0 {
      assert race.steps[w := race.steps[w]] == race.steps;
    } else {
      assert Times(Move(w), n)[1..] == Times(Move(w), n - 1);
      var after := AfterTurn(race, attempts, Move(w));
      MovesAlone(after, attempts, w, n - 1);
      var step := Solo(after.rows, after.points, attempts[w], after.steps[w], n - 1).2;
      assert race.steps[w := after.steps[w]][w := step] == race.steps[w := step];
    }
  }

  /** `second` overtakes: all of it but the prune runs once `first` has stored its parents. */
  function Overtaking(attempts: seq<Attempt>, first: nat, second: nat): seq<Turn>
    requires second < |attempts|
  {
    Times(Move(first), 1) + Times(Move(second), 1 + StepsToFlip(attempts[second], 0) + 2)
  }

  /** `first` uploads and makes its children ready, and then `second` prunes. */
  function PublishingAround(attempts: seq<Attempt>, first: nat, second: nat): seq<Turn>
    requires first < |attempts|
  {
    Times(Move(first), StepsToFlip(attempts[first], 0) + 1) + Times(Move(second), 1)
  }

  /** The rows of both attempts, those of `b` written last. */
  function BothRows(rows: Rows, a: Attempt, b: Attempt): Rows {
    UpsertRows(UpsertRows(rows, a.revision, a.sections), b.revision, b.sections)
  }

  /** The points after an attempt has published its own. */
  function Replaced(points: Points, a: Attempt): Points {
    DropStalePoints(FlipReady(UploadPoints(points, a.children), Ids(a.children)), a.revision.doc, Ids(a.children))
  }

  lemma SoloToPrune(rows: Rows, points: Points, a: Attempt)
    requires a.children != []
    ensures Solo(rows, points, a, StoreParents, 1 + StepsToFlip(a, 0) + 2)
         == (UpsertRows(rows, a.revision, a.sections), Replaced(points, a), Prune)
  {
    hide StepsToFlip, UpsertRows, UploadPoints, FlipReady, DropStalePoints, Ids;
    SoloToFlip(rows, points, a);
    SoloSplit(rows, points, a, StoreParents, 1 + StepsToFlip(a, 0), 2);
    var stored, uploaded := UpsertRows(rows, a.revision, a.sections), UploadPoints(points, a.children);
    var flipped := FlipReady(uploaded, Ids(a.children));
    assert Solo(stored, flipped, a, DropStale, 1) == Solo(stored, Replaced(points, a), a, Prune, 0);
    assert Solo(stored, uploaded, a, Flip, 2) == Solo(stored, flipped, a, DropStale, 1);
  }

  lemma SoloUploadAndFlip(rows: Rows, points: Points, a: Attempt)
    requires a.children != []
    ensures Solo(rows, points, a, Upload(0), StepsToFlip(a, 0) + 1)
         == (rows, FlipReady(UploadPoints(points, a.children), Ids(a.children)), DropStale)
  {
    hide StepsToFlip, UploadPoints, FlipReady, Ids;
    assert a.children[..0] == [];
    assert UploadPoints(points, []) == points by { NothingToUpload(points); }
    SoloUploads(rows, points, a, 0);
    SoloSplit(rows, points, a, Upload(0), StepsToFlip(a, 0), 1);
    var uploaded := UploadPoints(points, a.children);
    var flipped := FlipReady(uploaded, Ids(a.children));
    assert Solo(rows, uploaded, a, Flip, 1) == Solo(rows, flipped, a, DropStale, 0);
  }

  lemma NothingToUpload(points: Points)
    ensures UploadPoints(points, []) == points
  {
  }

  lemma SoloOne(rows: Rows, points: Points, a: Attempt, step: Step)
    ensures Solo(rows, points, a, step, 1) == Work(rows, points, a, step)
  {
    hide Work;
    var (rows', points', next) := Work(rows, points, a, step);
    assert Solo(rows', points', a, next, 0) == (rows', points', next);
  }

  /** Where the race stands once the first has published its children around the prune of the second. */
  lemma Overtaken(rows: Rows, points: Points, attempts: seq<Attempt>, first: nat, second: nat)
    requires AllValid(attempts) && first < |attempts| && second < |attempts| && first != second
    ensures var a, b, start := attempts[first], attempts[second], Start(rows, points, attempts);
            Raced(start, attempts, Overtaking(attempts, first, second) + PublishingAround(attempts, first, second))
            == Race(PruneRows(BothRows(rows, a, b), b.revision.doc, b.revision.checksum),
                    FlipReady(UploadPoints(Replaced(points, b), a.children), Ids(a.children)),
                    start.steps[first := DropStale][second := Published])
  {
    hide StepsToFlip, UpsertRows, UploadPoints, FlipReady, DropStalePoints, PruneRows, Ids, Solo, Times, Replaced,
         Raced, ValidAttempt;
    var a, b, race := attempts[first], attempts[second], Start(rows, points, attempts);
    var n, m := 1 + StepsToFlip(b, 0) + 2, StepsToFlip(a, 0) + 1;
    // The first stores its parents.
    MovesAlone(race, attempts, first, 1);
    SoloOne(rows, points, a, StoreParents);
    var stored := Raced(race, attempts, Times(Move(first), 1));
    // The second does all but prune.
    RacedConcat(race, attempts, Times(Move(first), 1), Times(Move(second), n));
    MovesAlone(stored, attempts, second, n);
    SoloToPrune(stored.rows, points, b);
    var overtaken := Raced(race, attempts, Overtaking(attempts, first, second));
    assert overtaken == Race(BothRows(rows, a, b), Replaced(points, b),
                             race.steps[first := Upload(0)][second := Prune]);
    // The first uploads its children and makes them ready.
    RacedConcat(race, attempts, Overtaking(attempts, first, second), PublishingAround(attempts, first, second));
    RacedConcat(overtaken, attempts, Times(Move(first), m), Times(Move(second), 1));
    MovesAlone(overtaken, attempts, first, m);
    SoloUploadAndFlip(overtaken.rows, overtaken.points, a);
    var flipped := Raced(overtaken, attempts, Times(Move(first), m));
    // The second prunes.
    MovesAlone(flipped, attempts, second, 1);
    SoloOne(flipped.rows, flipped.points, b, Prune);
    assert race.steps[first := Upload(0)][second := Prune][first := DropStale][second := Published]
        == race.steps[first := DropStale][second := Published];
  }

  /** The child is visible, as its writer published it. */
  predicate Shows(points: Points, child: Child) {
    child.id in points && points[child.id] == child.point.(ready := Some(true))
  }

  lemma FlippedShows(points: Points, a: Attempt, i: nat)
    requires ValidAttempt(a) && i < |a.children|
    ensures Shows(FlipReady(UploadPoints(points, a.children), Ids(a.children)), a.children[i])
  {
    hide AllWellLinked, UploadPoints;
    UploadAt(points, a.children, a.children[i].id);
    ChildInIds(a.children, i);
  }

  /** Which revision last wrote the row of one of `a`'s sections. */
  lemma BothRowsAt(rows: Rows, a: Attempt, b: Attempt, id: SectionId)
    requires a.revision.doc == b.revision.doc && HasSection(a.sections, id)
    ensures var key, both := RowKey(a.revision.doc, id), BothRows(rows, a, b);
            key in both
            && both[key].checksum == if HasSection(b.sections, id) then b.revision.checksum else a.revision.checksum
  {
    hide UpsertRows;
    UpsertRowsAt(rows, a.revision, a.sections, RowKey(a.revision.doc, id));
    UpsertRowsAt(UpsertRows(rows, a.revision, a.sections), b.revision, b.sections, RowKey(a.revision.doc, id));
  }

  /** Both attempts on one document, at two places of the list. */
  predicate OneDocument(attempts: seq<Attempt>, first: nat, second: nat) {
    && AllValid(attempts) && first < |attempts| && second < |attempts| && first != second
    && attempts[first].revision.doc == attempts[second].revision.doc
  }

  /**
   In the interleaving above every child of the first writer is visible, and it has lost its parent if and
   only if the two revisions differ and the second has no section of that id.
   */
  lemma OvertakenChildDanglesIff(rows: Rows, points: Points, attempts: seq<Attempt>, first: nat, second: nat, i: nat)
    requires OneDocument(attempts, first, second) && i < |attempts[first].children|
    ensures var a, b := attempts[first], attempts[second];
            var turns := Overtaking(attempts, first, second) + PublishingAround(attempts, first, second);
            var race := Raced(Start(rows, points, attempts), attempts, turns);
            var parent := a.children[i].point.parent;
            && Shows(race.points, a.children[i])
            && (FindParent(race.rows, a.revision.doc, parent) == None
                <==> a.revision.checksum != b.revision.checksum && !HasSection(b.sections, parent))
  {
    hide AllWellLinked, UpsertRows, UploadPoints, FlipReady, Raced, Overtaking, PublishingAround, Replaced, BothRows;
    var a, b := attempts[first], attempts[second];
    Overtaken(rows, points, attempts, first, second);
    FlippedShows(Replaced(points, b), a, i);
    assert ValidChild(a, a.children[i]);
    BothRowsAt(rows, a, b, a.children[i].point.parent);
  }

  /** The interleaving above, until the first writer has finished as well. */
  function BothFinishing(attempts: seq<Attempt>, first: nat, second: nat): seq<Turn>
    requires first < |attempts| && second < |attempts|
  {
    Overtaking(attempts, first, second) + PublishingAround(attempts, first, second) + Times(Move(first), 2)
  }

  /**
   When the first finishes as well, both attempts have succeeded. Then every child of the first is visible
   and without its parent if and only if the two revisions differ: each prune took what the other kept.
   */
  lemma BothFinishedDangleIff(rows: Rows, points: Points, attempts: seq<Attempt>, first: nat, second: nat, i: nat)
    requires OneDocument(attempts, first, second) && i < |attempts[first].children|
    ensures var a, b := attempts[first], attempts[second];
            var race := Raced(Start(rows, points, attempts), attempts, BothFinishing(attempts, first, second));
            && race.steps[first] == Published && race.steps[second] == Published
            && Shows(race.points, a.children[i])
            && (FindParent(race.rows, a.revision.doc, a.children[i].point.parent) == None
                <==> a.revision.checksum != b.revision.checksum)
  {
    hide AllWellLinked, UpsertRows, UploadPoints, FlipReady, Raced, Overtaking, PublishingAround, Replaced, BothRows,
         Solo, Times;
    var a, b, start := attempts[first], attempts[second], Start(rows, points, attempts);
    var turns := Overtaking(attempts, first, second) + PublishingAround(attempts, first, second);
    Overtaken(rows, points, attempts, first, second);
    var race := Raced(start, attempts, turns);
    RacedConcat(start, attempts, turns, Times(Move(first), 2));
    MovesAlone(race, attempts, first, 2);
    LastTwo(race.rows, race.points, a);
    FlippedShows(Replaced(points, b), a, i);
    ChildInIds(a.children, i);
    assert ValidChild(a, a.children[i]);
    BothRowsAt(rows, a, b, a.children[i].point.parent);
  }

  lemma LastTwo(rows: Rows, points: Points, a: Attempt)
    ensures Solo(rows, points, a, DropStale, 2)
         == (PruneRows(rows, a.revision.doc, a.revision.checksum),
             DropStalePoints(points, a.revision.doc, Ids(a.children)), Published)
  {
    hide DropStalePoints, PruneRows, Ids;
    var dropped := DropStalePoints(points, a.revision.doc, Ids(a.children));
    var pruned := PruneRows(rows, a.revision.doc, a.revision.checksum);
    assert Solo(rows, dropped, a, Prune, 1) == Solo(pruned, dropped, a, Published, 0);
  }

  /** Two writers that disagree have an interleaving that leaves a child without its parent. */
  lemma DisagreeingWritersDangle(rows: Rows, points: Points, attempts: seq<Attempt>) returns (turns: seq<Turn>)
    requires AllValid(attempts) && !AllAgree(attempts)
    ensures DanglesAfter(rows, points, attempts, turns)
  {
    hide ValidAttempt, Raced, BothFinishing;
    var v: nat, w: nat :| v < |attempts| && w < |attempts| && !Agree(attempts[v], attempts[w]);
    var child := attempts[v].children[0];
    assert child.point.doc == attempts[v].revision.doc && child.point.inlineParent == None by {
      ChildOfAttempt(attempts[v], 0);
    }
    BothFinishedDangleIff(rows, points, attempts, v, w, 0);
    turns := BothFinishing(attempts, v, w);
    var race := Raced(Start(rows, points, attempts), attempts, turns);
    assert DanglesAt(race.rows, race.points[child.id]);
  }

  lemma ChildOfAttempt(a: Attempt, i: nat)
    requires ValidAttempt(a) && i < |a.children|
    ensures a.children[i].point.doc == a.revision.doc && a.children[i].point.inlineParent == None
  {
    assert ValidChild(a, a.children[i]);
  }

  /**
   The exact condition. From consistent stores, writers of any documents that advance, crash and retry in
   any order can leave a child without its parent if and only if two of them bring different revisions of
   one document. One writer at a time is enough, but a retry racing its original is safe as well.
   */
  lemma RaceDanglesIff(rows: Rows, points: Points, attempts: seq<Attempt>)
    requires StoreOk(rows, points) && AllValid(attempts)
    ensures (exists turns :: DanglesAfter(rows, points, attempts, turns)) <==> !AllAgree(attempts)
  {
    hide StoreOk, AllValid, AllAgree, DanglesAfter;
    if AllAgree(attempts) {
      forall turns ensures !DanglesAfter(rows, points, attempts, turns) {
        AgreeingWritersAreSafe(rows, points, attempts, turns);
      }
    } else {
      var turns := DisagreeingWritersDangle(rows, points, attempts);
    }
  }
}
