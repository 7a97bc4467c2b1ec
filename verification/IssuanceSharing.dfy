/** Exactly when a webhook request can carry the certificate of another record: for a given start and a
    given history of the records table, some run with that history sends one if and only if some record
    may write where another one may read, or the files are mixed from the start. */
module IssuanceSharing {
  import opened Common
  import opened CertificateNames
  import opened Tasks
  import opened IssuanceModel
  import opened IssuanceSafety
  import opened IssuanceHistory
  import opened IssuanceFirings
  import opened IssuanceClashes
  import opened IssuanceWitnesses

  // Where a run of the whole program starts, and the changes of the records table along it.
  datatype Course = Course(start: Whole, changes: seq<Action>)

  /** Some run of this course ends in x. The other actions, the requests made
      without a job, their interleaving with the changes and all failures are free. The tag has no meaning,
      as for Reach. */
  ghost predicate Reaches(h: Course, x: Whole) {
    forall tag: nat :: IsWhollyReached(h, x, tag)
  }

  ghost predicate IsWhollyReached(h: Course, x: Whole, tag: nat) {
    exists states, events :: IsWholeRunTo(states, events, h, x)
  }

  ghost predicate IsWholeRunTo(states: seq<Whole>, events: seq<Event>, h: Course, x: Whole) {
    && IsWholeRun(states, events) && states[0] == h.start && states[|events|] == x
    && ChangesIn(states, events, |events|) == h.changes
  }

  lemma ReachesIffRun(h: Course, x: Whole)
    ensures Reaches(h, x) <==> exists states, events :: IsWholeRunTo(states, events, h, x)
  {
    if Reaches(h, x) {
      assert IsWhollyReached(h, x, 0);
    }
  }

  lemma RunReaches(states: seq<Whole>, events: seq<Event>, h: Course, x: Whole)
    requires IsWholeRunTo(states, events, h, x)
    ensures Reaches(h, x)
  {
    ReachesIffRun(h, x);
  }

  // ----- extending runs

  function Extended(h: Course, e: Event): Course {
    if e.Base? && IsChange(e.a) then h.(changes := h.changes + [e.a]) else h
  }

  lemma LongerWhole(states: seq<Whole>, events: seq<Event>, x: Whole, e: Event)
    requires IsWholeRun(states, events) && states[|events|] == x && CanHappen(x, e)
    ensures IsWholeRun(states + [After(x, e)], events + [e])
  {
    var more, longer := states + [After(x, e)], events + [e];
    forall i | 0 <= i < |longer|
      ensures Leads(more, longer, i)
    {
      if i < |events| {
        assert Leads(states, events, i);
      }
    }
  }

  lemma LongerChanges(states: seq<Whole>, events: seq<Event>, x: Whole, e: Event, y: Whole)
    requires |states| == |events| + 1 && states[|events|] == x
    ensures ChangesIn(states + [y], events + [e], |events| + 1)
         == if e.Base? && IsChange(e.a) then ChangesIn(states, events, |events|) + [e.a]
            else ChangesIn(states, events, |events|)
  {
    var actions, longer := Actions(states, events), Actions(states + [y], events + [e]);
    assert longer[..|events|] == actions[..|events|];
    ChangesNext(longer, |events|);
  }

  lemma ReachesAfter(h: Course, x: Whole, e: Event)
    requires Reaches(h, x) && CanHappen(x, e)
    ensures Reaches(Extended(h, e), After(x, e))
  {
    ReachesIffRun(h, x);
    var states, events :| IsWholeRunTo(states, events, h, x);
    LongerWhole(states, events, x, e);
    LongerChanges(states, events, x, e, After(x, e));
    RunReaches(states + [After(x, e)], events + [e], Extended(h, e), After(x, e));
  }

  /** A run of the issuances is a run of the whole program, beside whatever readers there are. */
  lemma {:induction false} Lift(h: Course, x: Whole, states: seq<System>, actions: seq<Action>, n: nat)
    returns (y: Whole)
    requires Reaches(h, x) && IsRun(states, actions) && states[0] == x.s && n <= |actions|
    ensures Reaches(h.(changes := h.changes + ChangesOf(actions[..n])), y)
    ensures y.s == states[n] && y.readers == x.readers && y.requests == x.requests
  {
    if n == 0 {
      assert h.changes + ChangesOf(actions[..0]) == h.changes;
      y := x;
    } else {
      var before := Lift(h, x, states, actions, n - 1);
      StateFollows(states, actions, n - 1);
      var e := Base(actions[n - 1]);
      ReachesAfter(h.(changes := h.changes + ChangesOf(actions[..n - 1])), before, e);
      y := After(before, e);
      ChangesNext(actions, n - 1);
      assert h.changes + ChangesOf(actions[..n - 1]) + [actions[n - 1]]
          == h.changes + (ChangesOf(actions[..n - 1]) + [actions[n - 1]]);
    }
  }

  lemma LiftReach(start: Whole, changes: seq<Action>, s: System, x: Whole) returns (y: Whole)
    requires Reaches(Course(start, []), x) && x.s == start.s && Reach(History(start.s, changes), s)
    ensures Reaches(Course(start, changes), y) && y.s == s && y.readers == x.readers && y.requests == x.requests
  {
    ReachIffRun(History(start.s, changes), s);
    var states, actions :| IsRunTo(states, actions, History(start.s, changes), s);
    assert actions[..|actions|] == actions && [] + changes == changes;
    y := Lift(Course(start, []), x, states, actions, |actions|);
  }

  lemma BeginningIsReached(start: Whole)
    requires Begins(start)
    ensures Reaches(Course(start, []), start)
  {
    RunReaches([start], [], Course(start, []), start);
  }

  lemma ReachesMarks(h: Course, x: Whole)
    requires Reaches(h, x)
    ensures Inv(x.s) && MarksOk(x, h.start.s.w.nextJob)
  {
    ReachesIffRun(h, x);
    var states, events :| IsWholeRunTo(states, events, h, x);
    Wholes(states, events, |events|);
    RunKeepsMarks(states, events, |events|);
  }

  // ----- two versions that clash

  lemma VersionsGiveForeign(start: Whole, changes: seq<Action>, a: Record, b: Record) returns (x: Whole)
    requires Begins(start) && IsHistory(TableOf(start.s.w), changes)
    requires Stored(TableOf(start.s.w), changes, a) && Stored(TableOf(start.s.w), changes, b) && Clash(a, b)
    ensures Reaches(Course(start, changes), x) && Foreign(x)
  {
    StartIsReached(start.s);
    BeginningIsReached(start);
    var i: nat :| StoredAt(TableOf(start.s.w), changes, a, i);
    var j: nat :| StoredAt(TableOf(start.s.w), changes, b, j);
    var s;
    if i <= j {
      s := ClashGivesForeign(start.s, changes, a, i, b, j);
    } else {
      ClashIsSymmetric(a, b);
      s := ClashGivesForeign(start.s, changes, b, j, a, i);
    }
    x := LiftReach(start, changes, s, start);
  }

  // ----- a certificate row that names the directory of another record's version

  // A step of a reader, everything else staying as it is.
  lemma ReaderGoes(h: Course, x: Whole, id: nat, c: Choice) returns (y: Whole)
    requires Reaches(h, x) && id in x.readers && !Sends(x.readers[id], c)
    ensures Reaches(h, y)
    ensures y == x.(readers := x.readers[id := ReaderStep(x.s.w, x.marks, x.readers[id], c)])
  {
    ReachesAfter(h, x, Go(id, c));
    y := After(x, Go(id, c));
  }

  // A task run on demand that has found the directory its certificate row names.
  function Opened(r: nat, task: Task, dir: string): Reader {
    Reader(OnDemand, r, AtRead(0), [task], dir, Some([]))
  }

  lemma OpenAtStart(start: Whole, c: nat, task: Task) returns (x: Whole)
    requires Begins(start) && c in start.s.w.certs && Readable(start.s.w.certs[c]) && task.includeCertificate
    ensures Reaches(Course(start, []), x) && x.s == start.s && x.marks == start.marks
    ensures var row := start.s.w.certs[c]; x.readers == map[0 := Opened(row.record, task, ParentDir(row.certPath))]
  {
    var h, row := Course(start, []), start.s.w.certs[c];
    BeginningIsReached(start);
    ReachesAfter(h, start, Fire(0, OnDemand, row.record));
    var x1 := After(start, Fire(0, OnDemand, row.record));
    var x2 := ReaderGoes(h, x1, 0, Listed([task]));
    assert x2.readers[0] == Reader(OnDemand, row.record, AtNext, [task], "", None);
    var x3 := ReaderGoes(h, x2, 0, Succeeds);
    assert x3.readers[0] == Reader(OnDemand, row.record, AtLoad, [task], "", None);
    assert RowOf(start.s.w, row.record) == c by {
      assert HasRow(start.s.w, row.record) && CertsOk(start.s.w.certs, start.s.w.nextCert, start.s.w.records);
    }
    x := ReaderGoes(h, x3, 0, Succeeds);
  }

  // The reader has read these pieces so far.
  function Reading(from: Reader, pieces: seq<Piece>): Reader {
    from.(spot := if |pieces| == 4 then AtPost else AtRead(|pieces|), pieces := Some(pieces))
  }

  lemma ReadFile(h: Course, x: Whole, from: Reader, pieces: seq<Piece>) returns (y: Whole)
    requires Reaches(h, x) && 0 in x.readers && |pieces| < 4 && x.readers[0] == Reading(from, pieces)
    requires (from.dir, |pieces|) in x.s.w.files
    ensures Reaches(h, y) && y.s == x.s && y.marks == x.marks && y.requests == x.requests && 0 in y.readers
    ensures y.readers[0] == Reading(from, pieces + [PieceAt(x.s.w, x.marks, (from.dir, |pieces|))])
  {
    y := ReaderGoes(h, x, 0, Succeeds);
  }

  // The four files of the directory as they are.
  function PiecesOf(x: Whole, dir: string): (pieces: seq<Piece>)
    requires forall i :: 0 <= i < 4 ==> (dir, i) in x.s.w.files
    ensures |pieces| == 4 && forall i :: 0 <= i < 4 ==> pieces[i] == PieceAt(x.s.w, x.marks, (dir, i))
  {
    seq(4, i requires 0 <= i < 4 => PieceAt(x.s.w, x.marks, (dir, i)))
  }

  // The files from the second on are read now, and the request is sent.
  lemma ReadRest(h: Course, x: Whole, from: Reader, first: Piece) returns (y: Whole)
    requires Reaches(h, x) && 0 in x.readers && x.readers[0] == Reading(from, [first]) && from.tasks != []
    requires forall i :: 0 <= i < 4 ==> (from.dir, i) in x.s.w.files
    ensures Reaches(h, y) && y.s == x.s && y.marks == x.marks
    ensures y.requests
         == x.requests + [Request(from.record, from.tasks[0], Some([first] + PiecesOf(x, from.dir)[1..]))]
  {
    var all := PiecesOf(x, from.dir);
    assert [first] + [all[1]] == [first, all[1]] && [first, all[1]] + [all[2]] == [first, all[1], all[2]];
    var x2 := ReadFile(h, x, from, [first]);
    var x3 := ReadFile(h, x2, from, [first, all[1]]);
    var x4 := ReadFile(h, x3, from, [first, all[1], all[2]]);
    assert [first, all[1], all[2]] + [all[3]] == [first] + all[1..];
    ReachesAfter(h, x4, Go(0, Succeeds));
    y := After(x4, Go(0, Succeeds));
  }

  lemma ReadAndSend(h: Course, x: Whole, from: Reader) returns (y: Whole)
    requires Reaches(h, x) && 0 in x.readers && x.readers[0] == from && from.tasks != []
    requires from.spot == AtRead(0) && from.pieces == Some([])
    requires forall i :: 0 <= i < 4 ==> (from.dir, i) in x.s.w.files
    ensures Reaches(h, y) && y.s == x.s && y.marks == x.marks
    ensures y.requests == x.requests + [Request(from.record, from.tasks[0], Some(PiecesOf(x, from.dir)))]
  {
    var all := PiecesOf(x, from.dir);
    var x1 := ReadFile(h, x, from, []);
    assert [] + [all[0]] == [all[0]] && [all[0]] + all[1..] == all;
    y := ReadRest(h, x1, from, all[0]);
  }

  lemma SentForeign(x: Whole, q: Request, i: nat)
    requires q in x.requests && q.material.Some? && i < |q.material.value|
    requires q.material.value[i].mark.Some? && q.material.value[i].mark.value.record != q.record
    ensures Foreign(x)
  {
    var k :| 0 <= k < |x.requests| && x.requests[k] == q;
    assert !OwnRequest(x.requests[k]);
  }

  // The files are those of the one issuance of this run.
  lemma WrittenIsMarked(h: Course, x: Whole, q: nat, dir: string)
    requires Reaches(h, x) && HasWritten(h.start.s.w, x.s, q, dir)
    ensures forall i :: 0 <= i < 4 ==>
              MarkedSince(x.marks, h.start.s.w.nextJob, (dir, i)) && x.marks[(dir, i)].record == q
  {
    ReachesMarks(h, x);
    assert ThreadMarked(x.marks, h.start.s.w.nextJob, x.s.threads[0]);
    forall i | 0 <= i < 4
      ensures MarkedSince(x.marks, h.start.s.w.nextJob, (dir, i)) && x.marks[(dir, i)].record == q
    {
      assert MarkedSince(x.marks, h.start.s.w.nextJob, (dir, i));
      assert MarkOk(x.s.w, (dir, i), x.marks[(dir, i)]);
    }
  }

  lemma NamedGivesForeign(start: Whole, changes: seq<Action>, r: nat, v: Record) returns (x: Whole)
    requires Begins(start) && IsHistory(TableOf(start.s.w), changes)
    requires DoesCert(v.purpose) && Stored(TableOf(start.s.w), changes, v)
    requires r != v.id && NamedAtStart(start.s.w, r, CertificateDir(v))
    ensures Reaches(Course(start, changes), x) && Foreign(x)
  {
    var dir, task := CertificateDir(v), Task(0, r, TRIGGER_CERT, true, true);
    var c :| c in start.s.w.certs && Names(start.s.w.certs[c], r, dir);
    var x1 := OpenAtStart(start, c, task);
    var s := WriteSometime(start.s, changes, v);
    var x2 := LiftReach(start, changes, s, x1);
    WrittenIsMarked(Course(start, changes), x2, v.id, dir);
    x := ReadAndSend(Course(start, changes), x2, Opened(r, task, dir));
    var sent := Request(r, task, Some(PiecesOf(x2, dir)));
    assert x.requests[|x2.requests|] == sent;
    assert MarkedSince(x2.marks, start.s.w.nextJob, (dir, 0));
    SentForeign(x, sent, 0);
  }

  // ----- mixed from the start, and two orders of one record

  /** A start whose files are mixed already needs no clash: a certificate row that names four files, one of
      them known to be another record's, is enough under every history. */
  lemma MixedStartGivesForeign(start: Whole, changes: seq<Action>, c: nat, i: nat)
    requires Begins(start) && IsHistory(TableOf(start.s.w), changes)
    requires c in start.s.w.certs && Readable(start.s.w.certs[c]) && i < 4
    requires var row := start.s.w.certs[c];
             var dir := ParentDir(row.certPath);
             && (forall k :: 0 <= k < 4 ==> (dir, k) in start.s.w.files)
             && (dir, i) in start.marks && start.marks[(dir, i)].record != row.record
    ensures exists x :: Reaches(Course(start, changes), x) && Foreign(x)
  {
    var row := start.s.w.certs[c];
    var dir, task := ParentDir(row.certPath), Task(0, row.record, TRIGGER_CERT, true, true);
    var x1 := OpenAtStart(start, c, task);
    var x2 := ReadAndSend(Course(start, []), x1, Opened(row.record, task, dir));
    var sent := Request(row.record, task, Some(PiecesOf(x1, dir)));
    assert x2.requests[|x1.requests|] == sent;
    StartIsReached(start.s);
    var s := Undergo(History(start.s, []), start.s, changes);
    assert [] + changes == changes;
    var x := LiftReach(start, changes, s, x2);
    SentForeign(x, sent, i);
  }

  // The first file is read before anything else happens.
  lemma ReadFirstAtStart(start: Whole, c: nat, task: Task) returns (x: Whole)
    requires Begins(start) && c in start.s.w.certs && Readable(start.s.w.certs[c]) && task.includeCertificate
    requires (ParentDir(start.s.w.certs[c].certPath), 0) in start.s.w.files
    ensures Reaches(Course(start, []), x) && x.s == start.s && 0 in x.readers
    ensures var row := start.s.w.certs[c];
            var dir := ParentDir(row.certPath);
            x.readers[0] == Reading(Opened(row.record, task, dir), [PieceAt(start.s.w, start.marks, (dir, 0))])
  {
    var row := start.s.w.certs[c];
    var dir := ParentDir(row.certPath);
    var x1 := OpenAtStart(start, c, task);
    x := ReadFile(Course(start, []), x1, Opened(row.record, task, dir), []);
    assert [] + [PieceAt(start.s.w, start.marks, (dir, 0))] == [PieceAt(start.s.w, start.marks, (dir, 0))];
  }

  // A piece from before the start and one written since are of different orders.
  lemma OldAndNew(start: Whole, first: Piece, x: Whole, dir: string)
    requires Begins(start) && (dir, 0) in start.s.w.files && first == PieceAt(start.s.w, start.marks, (dir, 0))
    requires forall i :: 0 <= i < 4 ==> (dir, i) in x.s.w.files && MarkedSince(x.marks, start.s.w.nextJob, (dir, i))
    ensures forall j :: !OfOneOrder([first] + PiecesOf(x, dir)[1..], j)
  {
    var pieces := [first] + PiecesOf(x, dir)[1..];
    assert pieces[0] == first && pieces[1] == PieceAt(x.s.w, x.marks, (dir, 1));
    assert MarkedSince(x.marks, start.s.w.nextJob, (dir, 1));
  }

  /** The limit of RequestCarriesOneOrder: a request made without a job can mix two orders of its own
      record, the first file being read before and the others after an issuance of that record. */
  lemma OwnRequestMayMix(start: Whole, changes: seq<Action>, c: nat, v: Record) returns (x: Whole, q: Request)
    requires Begins(start) && IsHistory(TableOf(start.s.w), changes)
    requires c in start.s.w.certs && Readable(start.s.w.certs[c]) && start.s.w.certs[c].record == v.id
    requires DoesCert(v.purpose) && Stored(TableOf(start.s.w), changes, v)
    requires ParentDir(start.s.w.certs[c].certPath) == CertificateDir(v) && (CertificateDir(v), 0) in start.s.w.files
    ensures Reaches(Course(start, changes), x) && q in x.requests && q.record == v.id && q.material.Some?
    ensures forall j :: !OfOneOrder(q.material.value, j)
  {
    var dir, task := CertificateDir(v), Task(0, v.id, TRIGGER_CERT, true, true);
    var first := PieceAt(start.s.w, start.marks, (dir, 0));
    var x1 := ReadFirstAtStart(start, c, task);
    var s := WriteSometime(start.s, changes, v);
    var x2 := LiftReach(start, changes, s, x1);
    WrittenIsMarked(Course(start, changes), x2, v.id, dir);
    x := ReadRest(Course(start, changes), x2, Opened(v.id, task, dir), first);
    q := Request(v.id, task, Some([first] + PiecesOf(x2, dir)[1..]));
    assert x.requests[|x2.requests|] == q;
    OldAndNew(start, first, x2, dir);
  }

  // ----- the condition

  lemma ClashGivesForeignRequest(start: Whole, changes: seq<Action>) returns (x: Whole)
    requires Begins(start) && IsHistory(TableOf(start.s.w), changes) && HasClash(start.s.w, changes)
    ensures Reaches(Course(start, changes), x) && Foreign(x)
  {
    var r, q, dir :| ClashIn(start.s.w, changes, r, q, dir);
    var v :| Stored(TableOf(start.s.w), changes, v) && WritesTo(v, q, dir);
    if NamedAtStart(start.s.w, r, dir) {
      x := NamedGivesForeign(start, changes, r, v);
    } else {
      var u :| Stored(TableOf(start.s.w), changes, u) && WritesTo(u, r, dir);
      x := VersionsGiveForeign(start, changes, u, v);
    }
  }

  lemma NoClashReaches(h: Course, x: Whole)
    requires Reaches(h, x) && Unmixed(h.start) && !HasClash(h.start.s.w, h.changes)
    ensures !Foreign(x)
  {
    ReachesIffRun(h, x);
    var states, events :| IsWholeRunTo(states, events, h, x);
    NoClashNoForeign(states, events);
  }

  lemma MixedStartReaches(start: Whole, changes: seq<Action>)
    requires Begins(start) && FilesThere(start.s.w) && IsHistory(TableOf(start.s.w), changes) && !Unmixed(start)
    ensures exists x :: Reaches(Course(start, changes), x) && Foreign(x)
  {
    var c :| c in start.s.w.certs && !OwnFiles(start.s.w.certs[c], start.marks);
    var row := start.s.w.certs[c];
    var dir := ParentDir(row.certPath);
    var i :| 0 <= i < 4 && (dir, i) in start.marks && start.marks[(dir, i)].record != row.record;
    assert HasFiles(row, start.s.w.files);
    MixedStartGivesForeign(start, changes, c, i);
  }

  /** For every start and every history of creates, edits and deletes: some run with that history sends
      the certificate material of another record, for a job or without one, if and only if some record may
      write where another may read - two versions stored along the history share a directory, or a
      certificate row of the start names the directory of another record's version - or a row of the start
      names a file that is known to be another record's already. */
  lemma ForeignDeliveryIffSharing(start: Whole, changes: seq<Action>)
    requires Begins(start) && FilesThere(start.s.w) && IsHistory(TableOf(start.s.w), changes)
    ensures (exists x :: Reaches(Course(start, changes), x) && Foreign(x))
            <==> HasClash(start.s.w, changes) || !Unmixed(start)
  {
    if HasClash(start.s.w, changes) {
      var x := ClashGivesForeignRequest(start, changes);
    } else if !Unmixed(start) {
      MixedStartReaches(start, changes);
    } else {
      forall x | Reaches(Course(start, changes), x)
        ensures !Foreign(x)
      {
        NoClashReaches(Course(start, changes), x);
      }
    }
  }

  lemma RunIsCourse(states: seq<Whole>, events: seq<Event>, n: nat)
    requires IsWholeRun(states, events) && n < |states|
    ensures Begins(states[0]) && IsHistory(TableOf(states[0].s.w), ChangesIn(states, events, n))
  {
    IssuancesRun(states, events);
    RunHasHistory(Systems(states), Actions(states, events), n);
  }

  /** The guard is not too strict: whenever a create or an edit of a run fails it, some run with the same
      history up to and with this change sends foreign material. */
  lemma UnguardedGivesForeign(states: seq<Whole>, events: seq<Event>, n: nat)
    requires IsWholeRun(states, events) && n < |events| && !GuardedAt(states, events, n)
    requires FilesThere(states[0].s.w)
    ensures exists x :: Reaches(Course(states[0], ChangesIn(states, events, n + 1)), x) && Foreign(x)
  {
    var changes := ChangesIn(states, events, n + 1);
    RunIsCourse(states, events, n + 1);
    if Unmixed(states[0]) {
      assert HasClash(states[0].s.w, changes) by {
        UnguardedIsClash(states, events, n);
      }
      var x := ClashGivesForeignRequest(states[0], changes);
    } else {
      MixedStartReaches(states[0], changes);
    }
  }
}
