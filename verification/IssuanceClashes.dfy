/** When the certificate of one record can end up in a request of another. A record may write in the
    directories of the versions it was ever stored with; it may read there as well, and in the directory
    that its certificate row named at the start. Two records clash when one may write where the other may
    read. Without a clash nothing foreign is sent, and a guard on creates and edits is enough as well. */
module IssuanceClashes {
  import opened CertificateNames
  import opened IssuanceModel
  import opened IssuanceSafety
  import opened IssuanceDelivery
  import opened IssuanceHistory
  import opened IssuanceFirings

  // The version v of record r writes to the directory.
  predicate WritesTo(v: Record, r: nat, dir: string) {
    v.id == r && DoesCert(v.purpose) && CertificateDir(v) == dir
  }

  ghost predicate MayWrite(start: World, changes: seq<Action>, r: nat, dir: string) {
    exists v :: Stored(TableOf(start), changes, v) && WritesTo(v, r, dir)
  }

  // The certificate row names the directory for record r.
  predicate Names(row: CertRow, r: nat, dir: string) {
    Readable(row) && row.record == r && ParentDir(row.certPath) == dir
  }

  ghost predicate NamedAtStart(start: World, r: nat, dir: string) {
    exists c :: c in start.certs && Names(start.certs[c], r, dir)
  }

  ghost predicate MayRead(start: World, changes: seq<Action>, r: nat, dir: string) {
    MayWrite(start, changes, r, dir) || NamedAtStart(start, r, dir)
  }

  ghost predicate ClashIn(start: World, changes: seq<Action>, r: nat, q: nat, dir: string) {
    r != q && MayRead(start, changes, r, dir) && MayWrite(start, changes, q, dir)
  }

  /** Something that can be checked against the table, the certificate rows at the start, and all versions
      stored since. */
  ghost predicate HasClash(start: World, changes: seq<Action>) {
    exists r, q, dir :: ClashIn(start, changes, r, q, dir)
  }

  // ----- foreign requests

  ghost predicate OwnPieces(r: nat, pieces: seq<Piece>) {
    forall i :: 0 <= i < |pieces| && pieces[i].mark.Some? ==> pieces[i].mark.value.record == r
  }

  /** Every piece sent was written by an issuance of the request's own record, as far as it is known who
      wrote it. */
  ghost predicate OwnRequest(q: Request) {
    q.material.Some? ==> OwnPieces(q.record, q.material.value)
  }

  /** Some request made for a job carries material that the job did not obtain, or some request made
      without a job carries a piece that another record's issuance wrote. */
  ghost predicate Foreign(x: Whole) {
    || (exists k :: 0 <= k < |x.s.w.deliveries| && !OwnMaterial(x.s.w.issues, x.s.w.deliveries[k]))
    || (exists k :: 0 <= k < |x.requests| && !OwnRequest(x.requests[k]))
  }

  ghost predicate OwnMarks(marks: map<(string, nat), Mark>, r: nat, dir: string) {
    forall i :: 0 <= i < 4 && (dir, i) in marks ==> marks[(dir, i)].record == r
  }

  ghost predicate OwnFiles(row: CertRow, marks: map<(string, nat), Mark>) {
    Readable(row) ==> OwnMarks(marks, row.record, ParentDir(row.certPath))
  }

  /** As far as it is known who wrote them, the files that a certificate row names are of its own record. */
  ghost predicate Unmixed(x: Whole) {
    forall c :: c in x.s.w.certs ==> OwnFiles(x.s.w.certs[c], x.marks)
  }

  // ----- what is read and written was claimed

  ghost predicate VersionsStored(start: World, all: seq<Action>, s: System) {
    forall tid :: tid in s.threads && InUse(s.threads[tid]) ==> Stored(TableOf(start), all, s.threads[tid].record)
  }

  // A piece read for r from the directory is its own, or one that a version of this run wrote there.
  ghost predicate PieceFits(start: World, all: seq<Action>, r: nat, dir: string, m: Mark) {
    m.record == r || MayWrite(start, all, m.record, dir)
  }

  ghost predicate PiecesFit(start: World, all: seq<Action>, r: nat, dir: string, pieces: seq<Piece>) {
    forall i :: 0 <= i < |pieces| && pieces[i].mark.Some? ==> PieceFits(start, all, r, dir, pieces[i].mark.value)
  }

  // What r may read from the directory.
  ghost predicate DirFits(start: World, all: seq<Action>, marks: map<(string, nat), Mark>, r: nat, dir: string) {
    && MayRead(start, all, r, dir)
    && (forall i :: 0 <= i < 4 && (dir, i) in marks ==> PieceFits(start, all, r, dir, marks[(dir, i)]))
  }

  ghost predicate RowsClaimed(
    start: World, all: seq<Action>, marks: map<(string, nat), Mark>, certs: map<nat, CertRow>)
  {
    forall c :: c in certs && Readable(certs[c]) ==>
      DirFits(start, all, marks, certs[c].record, ParentDir(certs[c].certPath))
  }

  // The files written in this run were written by versions that may write there.
  ghost predicate MarksClaimed(start: World, all: seq<Action>, marks: map<(string, nat), Mark>) {
    forall key :: MarkedSince(marks, start.nextJob, key) ==> MayWrite(start, all, marks[key].record, key.0)
  }

  ghost predicate ReaderClaimed(start: World, all: seq<Action>, marks: map<(string, nat), Mark>, r: Reader) {
    && (r.spot.AtRead? ==> DirFits(start, all, marks, r.record, r.dir))
    && ((r.spot.AtRead? || r.spot.AtPost?) && r.pieces.Some? ==>
          MayRead(start, all, r.record, r.dir) && PiecesFit(start, all, r.record, r.dir, r.pieces.value))
  }

  ghost predicate RequestClaimed(start: World, all: seq<Action>, q: Request) {
    q.material.Some? ==>
      exists dir :: MayRead(start, all, q.record, dir) && PiecesFit(start, all, q.record, dir, q.material.value)
  }

  ghost predicate Claimed(start: World, all: seq<Action>, x: Whole) {
    && RowsClaimed(start, all, x.marks, x.s.w.certs)
    && MarksClaimed(start, all, x.marks)
    && (forall id :: id in x.readers ==> ReaderClaimed(start, all, x.marks, x.readers[id]))
    && (forall k :: 0 <= k < |x.requests| ==> RequestClaimed(start, all, x.requests[k]))
  }

  // The rows after a step: as before, or the one the thread has just issued.
  ghost predicate RowEdge(w: World, t: Thread, v: World) {
    forall c :: c in v.certs && Readable(v.certs[c]) ==>
      || (c in w.certs && Names(w.certs[c], v.certs[c].record, ParentDir(v.certs[c].certPath)))
      || (t.pc.Persist? && v.certs[c] == IssuedRow(t))
  }

  lemma CertsBefore(w: World, t: Thread, c: Choice)
    requires Point(t.pc) <= 3
    ensures ThreadStep(w, t, c).0.certs == w.certs
  {
  }

  lemma CertsOrdering(w: World, t: Thread, c: Choice)
    requires 5 <= Point(t.pc) <= 7
    ensures ThreadStep(w, t, c).0.certs == w.certs
  {
  }

  lemma CertsWriting(w: World, t: Thread, c: Choice)
    requires 8 <= Point(t.pc) <= 9
    ensures ThreadStep(w, t, c).0.certs == w.certs
  {
  }

  lemma CertsFiring(w: World, t: Thread, c: Choice)
    requires 11 <= Point(t.pc) <= 13
    ensures ThreadStep(w, t, c).0.certs == w.certs
  {
  }

  lemma CertsReading(w: World, t: Thread, c: Choice)
    requires 14 <= Point(t.pc) <= 16
    ensures ThreadStep(w, t, c).0.certs == w.certs
  {
  }

  lemma CertsEnding(w: World, t: Thread, c: Choice)
    requires 18 <= Point(t.pc) <= 19
    ensures ThreadStep(w, t, c).0.certs == w.certs
  {
  }

  lemma CertsScanning(w: World, t: Thread, c: Choice)
    requires 20 <= Point(t.pc)
    ensures ThreadStep(w, t, c).0.certs == w.certs
  {
  }

  // The three steps that write a certificate row.
  lemma RowWritten(w: World, t: Thread, c: Choice)
    requires t.pc.InsertRow? || t.pc.Persist? || t.pc.MarkFailed?
    ensures RowEdge(w, t, ThreadStep(w, t, c).0)
  {
  }

  lemma StepRows(w: World, t: Thread, c: Choice)
    ensures RowEdge(w, t, ThreadStep(w, t, c).0)
  {
    var p := Point(t.pc);
    if p == 4 || p == 10 || p == 17 {
      RowWritten(w, t, c);
    } else {
      SameRows(w, t, c);
    }
  }

  lemma SameRows(w: World, t: Thread, c: Choice)
    requires Point(t.pc) != 4 && Point(t.pc) != 10 && Point(t.pc) != 17
    ensures ThreadStep(w, t, c).0.certs == w.certs
  {
    var p := Point(t.pc);
    if p <= 3 {
      CertsBefore(w, t, c);
    } else if p <= 7 {
      CertsOrdering(w, t, c);
    } else if p <= 9 {
      CertsWriting(w, t, c);
    } else if p <= 13 {
      CertsFiring(w, t, c);
    } else if p <= 16 {
      CertsReading(w, t, c);
    } else if p <= 19 {
      CertsEnding(w, t, c);
    } else {
      CertsScanning(w, t, c);
    }
  }

  // A thread that holds its slot may write to its directory.
  lemma HomeIsClaimed(start: World, all: seq<Action>, x: Whole, tid: nat)
    requires Inv(x.s) && MarksOk(x, start.nextJob) && VersionsStored(start, all, x.s)
    requires tid in x.s.threads && 8 <= Point(x.s.threads[tid].pc) <= 16
    ensures MayWrite(start, all, x.s.threads[tid].record.id, x.s.threads[tid].home)
  {
    var t := x.s.threads[tid];
    assert ThreadMarked(x.marks, start.nextJob, t) && ThreadOk(x.s.w, t);
    assert Stored(TableOf(start), all, t.record) && WritesTo(t.record, t.record.id, t.home);
  }

  // All four files are there, so nothing older is left in the directory of an issuance about to persist.
  lemma HomeFits(start: World, all: seq<Action>, x: Whole, tid: nat)
    requires Inv(x.s) && MarksOk(x, start.nextJob) && VersionsStored(start, all, x.s)
    requires MarksClaimed(start, all, x.marks) && tid in x.s.threads && x.s.threads[tid].pc.Persist?
    ensures DirFits(start, all, x.marks, x.s.threads[tid].record.id, x.s.threads[tid].home)
  {
    var t := x.s.threads[tid];
    HomeIsClaimed(start, all, x, tid);
    assert ThreadMarked(x.marks, start.nextJob, t);
    forall i | 0 <= i < 4 && (t.home, i) in x.marks
      ensures PieceFits(start, all, t.record.id, t.home, x.marks[(t.home, i)])
    {
      assert MarkedSince(x.marks, start.nextJob, (t.home, i));
    }
  }

  // The marks that are new are those of versions that may write there.
  ghost predicate MarkedFrom(
    start: World, all: seq<Action>, before: map<(string, nat), Mark>, after: map<(string, nat), Mark>)
  {
    forall key :: key in after ==>
      (key in before && after[key] == before[key]) || MayWrite(start, all, after[key].record, key.0)
  }

  lemma WriteIsClaimed(start: World, all: seq<Action>, x: Whole, a: Action)
    requires Inv(x.s) && Enabled(x.s, a) && MarksOk(x, start.nextJob) && VersionsStored(start, all, x.s)
    ensures MarkedFrom(start, all, x.marks, MarksAfter(x.marks, x.s, a))
  {
    if WritesFile(x.s, a) {
      HomeIsClaimed(start, all, x, a.tid);
    }
  }

  // Such a write disturbs no claim.
  lemma FitsStay(
    start: World, all: seq<Action>, before: map<(string, nat), Mark>, after: map<(string, nat), Mark>,
    r: nat, dir: string)
    requires DirFits(start, all, before, r, dir) && MarkedFrom(start, all, before, after)
    ensures DirFits(start, all, after, r, dir)
  {
  }

  lemma BaseKeepsRows(start: World, all: seq<Action>, x: Whole, a: Action)
    requires Inv(x.s) && Enabled(x.s, a) && MarksOk(x, start.nextJob) && VersionsStored(start, all, x.s)
    requires Claimed(start, all, x)
    ensures RowsClaimed(start, all, MarksAfter(x.marks, x.s, a), Next(x.s, a).w.certs)
  {
    var certs := Next(x.s, a).w.certs;
    WriteIsClaimed(start, all, x, a);
    forall c | c in certs && Readable(certs[c])
      ensures DirFits(start, all, MarksAfter(x.marks, x.s, a), certs[c].record, ParentDir(certs[c].certPath))
    {
      RowFits(start, all, x, a, c);
      FitsStay(start, all, x.marks, MarksAfter(x.marks, x.s, a), certs[c].record, ParentDir(certs[c].certPath));
    }
  }

  lemma RowFits(start: World, all: seq<Action>, x: Whole, a: Action, c: nat)
    requires Inv(x.s) && Enabled(x.s, a) && MarksOk(x, start.nextJob) && VersionsStored(start, all, x.s)
    requires Claimed(start, all, x) && c in Next(x.s, a).w.certs && Readable(Next(x.s, a).w.certs[c])
    ensures var row := Next(x.s, a).w.certs[c]; DirFits(start, all, x.marks, row.record, ParentDir(row.certPath))
  {
    if a.Step? {
      var t := x.s.threads[a.tid];
      StepRows(x.s.w, t, a.choice);
      if t.pc.Persist? && Next(x.s, a).w.certs[c] == IssuedRow(t) {
        HomeFits(start, all, x, a.tid);
        PathsOf(t);
      }
    }
  }

  lemma BaseKeepsMarksClaimed(start: World, all: seq<Action>, x: Whole, a: Action)
    requires Inv(x.s) && Enabled(x.s, a) && MarksOk(x, start.nextJob) && VersionsStored(start, all, x.s)
    requires MarksClaimed(start, all, x.marks)
    ensures MarksClaimed(start, all, MarksAfter(x.marks, x.s, a))
  {
    WriteIsClaimed(start, all, x, a);
  }

  lemma BaseKeepsClaims(start: World, all: seq<Action>, x: Whole, a: Action)
    requires Inv(x.s) && Enabled(x.s, a) && MarksOk(x, start.nextJob) && VersionsStored(start, all, x.s)
    requires Claimed(start, all, x)
    ensures Claimed(start, all, After(x, Base(a)))
  {
    BaseKeepsRows(start, all, x, a);
    BaseKeepsMarksClaimed(start, all, x, a);
    WriteIsClaimed(start, all, x, a);
    forall id | id in x.readers
      ensures ReaderClaimed(start, all, MarksAfter(x.marks, x.s, a), x.readers[id])
    {
      var r := x.readers[id];
      assert ReaderClaimed(start, all, x.marks, r);
      if r.spot.AtRead? {
        FitsStay(start, all, x.marks, MarksAfter(x.marks, x.s, a), r.record, r.dir);
      }
    }
  }

  lemma LoadKeepsClaim(
    start: World, all: seq<Action>, w: World, marks: map<(string, nat), Mark>, r: Reader, c: Choice)
    requires RowsClaimed(start, all, marks, w.certs)
    ensures ReaderClaimed(start, all, marks, LoadStepOf(w, r, c))
  {
  }

  lemma ReadKeepsClaim(
    start: World, all: seq<Action>, w: World, marks: map<(string, nat), Mark>, r: Reader, i: nat, c: Choice)
    requires r.spot == AtRead(i) && ReaderClaimed(start, all, marks, r)
    ensures ReaderClaimed(start, all, marks, ReadStepOf(w, marks, r, i, c))
  {
    if r.pieces.Some? && (r.dir, i) in w.files && i < 4 {
      PieceRead(start, all, r.record, r.dir, r.pieces.value, PieceAt(w, marks, (r.dir, i)));
    }
  }

  lemma PieceRead(start: World, all: seq<Action>, r: nat, dir: string, pieces: seq<Piece>, piece: Piece)
    requires PiecesFit(start, all, r, dir, pieces)
    requires piece.mark.Some? ==> PieceFits(start, all, r, dir, piece.mark.value)
    ensures PiecesFit(start, all, r, dir, pieces + [piece])
  {
  }

  lemma ReaderKeepsClaim(start: World, all: seq<Action>, x: Whole, r: Reader, c: Choice)
    requires Claimed(start, all, x) && ReaderClaimed(start, all, x.marks, r)
    ensures ReaderClaimed(start, all, x.marks, ReaderStep(x.s.w, x.marks, r, c))
  {
    match r.spot
    case AtLoad => LoadKeepsClaim(start, all, x.s.w, x.marks, r, c);
    case AtRead(i) => ReadKeepsClaim(start, all, x.s.w, x.marks, r, i, c);
    case AtList | AtNext | AtPost | AtEnd =>
  }

  lemma AfterKeepsClaims(start: World, all: seq<Action>, x: Whole, e: Event)
    requires Inv(x.s) && CanHappen(x, e) && MarksOk(x, start.nextJob) && VersionsStored(start, all, x.s)
    requires Claimed(start, all, x)
    ensures Claimed(start, all, After(x, e))
  {
    match e
    case Base(a) => BaseKeepsClaims(start, all, x, a);
    case Fire(_, _, _) =>
    case Go(id, c) =>
      assert ReaderClaimed(start, all, x.marks, x.readers[id]);
      ReaderKeepsClaim(start, all, x, x.readers[id], c);
  }

  // The changes of the records table along a run of the whole program.
  function ChangesIn(states: seq<Whole>, events: seq<Event>, n: nat): seq<Action>
    requires n <= |events| < |states|
  {
    ChangesOf(Actions(states, events)[..n])
  }

  lemma HistoryHere(states: seq<Whole>, events: seq<Event>, n: nat, all: seq<Action>)
    requires IsWholeRun(states, events) && n < |states| && ChangesIn(states, events, n) <= all
    ensures FromHistory(TableOf(states[0].s.w), ChangesIn(states, events, n), states[n].s)
    ensures VersionsStored(states[0].s.w, all, states[n].s)
  {
    IssuancesRun(states, events);
    RunKeepsHistory(Systems(states), Actions(states, events), n);
    var s := states[n].s;
    forall tid | tid in s.threads && InUse(s.threads[tid])
      ensures Stored(TableOf(states[0].s.w), all, s.threads[tid].record)
    {
      StoredLater(TableOf(states[0].s.w), ChangesIn(states, events, n), all, s.threads[tid].record);
    }
  }

  lemma ChangesUpTo(states: seq<Whole>, events: seq<Event>, n: nat)
    requires IsWholeRun(states, events) && n <= |events|
    ensures ChangesIn(states, events, n) <= ChangesIn(states, events, |events|)
  {
    var actions := Actions(states, events);
    assert actions[..|actions|] == actions;
    ChangesGrow(actions, n);
  }

  lemma StartIsClaimed(x: Whole, all: seq<Action>)
    requires Begins(x) && Unmixed(x)
    ensures Claimed(x.s.w, all, x)
  {
    forall c | c in x.s.w.certs && Readable(x.s.w.certs[c])
      ensures DirFits(x.s.w, all, x.marks, x.s.w.certs[c].record, ParentDir(x.s.w.certs[c].certPath))
    {
      var row := x.s.w.certs[c];
      assert Names(row, row.record, ParentDir(row.certPath));
      assert NamedAtStart(x.s.w, row.record, ParentDir(row.certPath));
      assert OwnFiles(row, x.marks);
    }
  }

  lemma ChangesBefore(states: seq<Whole>, events: seq<Event>, n: nat, all: seq<Action>)
    requires IsWholeRun(states, events) && n < |events| && ChangesIn(states, events, n + 1) <= all
    ensures ChangesIn(states, events, n) <= all
  {
    ChangesNext(Actions(states, events), n);
  }

  /** What certificate rows, marks, readers and requests name along a run was claimed by the start and the
      changes so far. */
  lemma {:induction false} RunKeepsClaims(states: seq<Whole>, events: seq<Event>, n: nat, all: seq<Action>)
    requires IsWholeRun(states, events) && n < |states| && ChangesIn(states, events, n) <= all
    requires Unmixed(states[0])
    ensures Claimed(states[0].s.w, all, states[n])
  {
    if n > 0 {
      ChangesBefore(states, events, n - 1, all);
      RunKeepsClaims(states, events, n - 1, all);
      WholeFollows(states, events, n - 1);
      RunKeepsMarks(states, events, n - 1);
      HistoryHere(states, events, n - 1, all);
      AfterKeepsClaims(states[0].s.w, all, states[n - 1], events[n - 1]);
    } else {
      StartIsClaimed(states[0], all);
    }
  }

  // ----- the files of a certificate row

  ghost predicate HasFiles(row: CertRow, files: map<(string, nat), string>) {
    Readable(row) ==> forall k :: 0 <= k < 4 ==> (ParentDir(row.certPath), k) in files
  }

  /** Each certificate row with paths names a directory that holds the four files. */
  ghost predicate FilesThere(w: World) {
    forall c :: c in w.certs ==> HasFiles(w.certs[c], w.files)
  }

  // A row is stored when its files have been written, and no file is ever removed.
  lemma IssuedHasFiles(x: Whole, first: nat, tid: nat)
    requires MarksOk(x, first) && tid in x.s.threads && x.s.threads[tid].pc.Persist?
    ensures HasFiles(IssuedRow(x.s.threads[tid]), x.s.w.files)
  {
    var t := x.s.threads[tid];
    PathsOf(t);
    assert ThreadMarked(x.marks, first, t);
    forall k | 0 <= k < 4
      ensures (t.home, k) in x.s.w.files
    {
      assert MarkedSince(x.marks, first, (t.home, k));
      assert MarkOk(x.s.w, (t.home, k), x.marks[(t.home, k)]);
    }
  }

  lemma StepKeepsFilesThere(x: Whole, first: nat, tid: nat, c: Choice)
    requires MarksOk(x, first) && FilesThere(x.s.w) && tid in x.s.threads
    ensures FilesThere(ThreadStep(x.s.w, x.s.threads[tid], c).0)
  {
    var t := x.s.threads[tid];
    var v := ThreadStep(x.s.w, t, c).0;
    StepRows(x.s.w, t, c);
    OwnStep(x.s.w, t, c);
    assert forall key :: key in x.s.w.files ==> key in v.files;
    forall i | i in v.certs
      ensures HasFiles(v.certs[i], v.files)
    {
      if t.pc.Persist? && v.certs[i] == IssuedRow(t) {
        IssuedHasFiles(x, first, tid);
      } else if Readable(v.certs[i]) {
        assert HasFiles(x.s.w.certs[i], x.s.w.files);
      }
    }
  }

  lemma ChangeKeepsFilesThere(s: System, a: Action)
    requires FilesThere(s.w) && Enabled(s, a) && !a.Step?
    ensures FilesThere(Next(s, a).w)
  {
    var v := Next(s, a).w;
    assert v.files == s.w.files;
    forall c | c in v.certs
      ensures HasFiles(v.certs[c], v.files)
    {
      assert v.certs[c] == s.w.certs[c] && HasFiles(s.w.certs[c], s.w.files);
    }
  }

  lemma NextKeepsFilesThere(x: Whole, first: nat, e: Event)
    requires MarksOk(x, first) && FilesThere(x.s.w) && CanHappen(x, e)
    ensures FilesThere(After(x, e).s.w)
  {
    match e
    case Base(a) =>
      if a.Step? {
        StepKeepsFilesThere(x, first, a.tid, a.choice);
      } else {
        ChangeKeepsFilesThere(x.s, a);
      }
    case Fire(_, _, _) =>
    case Go(_, _) =>
  }

  /** Rows with paths keep naming existing files along every run, so the end of a run is again such a
      start. */
  lemma {:induction false} RunKeepsFilesThere(states: seq<Whole>, events: seq<Event>, n: nat)
    requires IsWholeRun(states, events) && n < |states| && FilesThere(states[0].s.w)
    ensures FilesThere(states[n].s.w)
  {
    if n > 0 {
      RunKeepsFilesThere(states, events, n - 1);
      WholeFollows(states, events, n - 1);
      RunKeepsMarks(states, events, n - 1);
      NextKeepsFilesThere(states[n - 1], states[0].s.w.nextJob, events[n - 1]);
    }
  }

  // ----- no clash, no foreign request

  lemma ClashFreeIsDistinct(start: World, all: seq<Action>, s: System)
    requires Inv(s) && VersionsStored(start, all, s) && !HasClash(start, all)
    ensures DistinctDirs(s)
  {
    forall a, b | a in s.threads && b in s.threads && a != b && Holds(s.threads[a].pc) && Holds(s.threads[b].pc)
      ensures !ShareDirectory(s.threads[a].record, s.threads[b].record)
    {
      var t, u := s.threads[a].record, s.threads[b].record;
      assert SlotFacts(s.w.slots, s.w.nextRecord, s.threads[a]) && SlotFacts(s.w.slots, s.w.nextRecord, s.threads[b]);
      assert WritesTo(t, t.id, CertificateDir(t)) && WritesTo(u, u.id, CertificateDir(u));
      assert Stored(TableOf(start), all, t) && Stored(TableOf(start), all, u);
      assert MayWrite(start, all, t.id, CertificateDir(t)) && MayWrite(start, all, u.id, CertificateDir(u));
      assert !ClashIn(start, all, t.id, u.id, CertificateDir(t));
    }
  }

  lemma ClashFreeIsOwn(start: World, all: seq<Action>, q: Request)
    requires RequestClaimed(start, all, q) && !HasClash(start, all)
    ensures OwnRequest(q)
  {
    if q.material.Some? {
      var dir :| MayRead(start, all, q.record, dir) && PiecesFit(start, all, q.record, dir, q.material.value);
      forall i | 0 <= i < |q.material.value| && q.material.value[i].mark.Some?
        ensures q.material.value[i].mark.value.record == q.record
      {
        assert PieceFits(start, all, q.record, dir, q.material.value[i].mark.value);
        assert !ClashIn(start, all, q.record, q.material.value[i].mark.value.record, dir);
      }
    }
  }

  lemma DistinctOwnDeliveries(states: seq<Whole>, events: seq<Event>, n: nat)
    requires IsWholeRun(states, events) && n < |states|
    requires forall i :: 0 <= i < n ==> DistinctDirs(states[i].s)
    ensures forall k :: 0 <= k < |states[n].s.w.deliveries| ==>
              OwnMaterial(states[n].s.w.issues, states[n].s.w.deliveries[k])
  {
    IssuancesRun(states, events);
    assert forall i :: 0 <= i < n ==> DistinctDirs(Systems(states)[i]);
    RunKeepsDelivery(Systems(states), Actions(states, events), n);
  }

  /** A run along which no record may write where another may read sends nothing foreign, neither for a job
      nor without one, whatever is created, edited and deleted on the way. */
  lemma NoClashNoForeign(states: seq<Whole>, events: seq<Event>)
    requires IsWholeRun(states, events) && Unmixed(states[0])
    requires !HasClash(states[0].s.w, ChangesIn(states, events, |events|))
    ensures !Foreign(states[|events|])
  {
    var n, all := |events|, ChangesIn(states, events, |events|);
    forall i | 0 <= i < n
      ensures DistinctDirs(states[i].s)
    {
      Wholes(states, events, i);
      ChangesUpTo(states, events, i);
      HistoryHere(states, events, i, all);
      ClashFreeIsDistinct(states[0].s.w, all, states[i].s);
    }
    DistinctOwnDeliveries(states, events, n);
    RunKeepsClaims(states, events, n, all);
    forall k | 0 <= k < |states[n].requests|
      ensures OwnRequest(states[n].requests[k])
    {
      ClashFreeIsOwn(states[0].s.w, all, states[n].requests[k]);
    }
  }

  // ----- the guard

  /** The versions in the table and in use write to different directories, record by record. */
  ghost predicate VersionsApart(s: System) {
    && (forall a, b :: a in s.w.records && b in s.w.records ==> !Clash(s.w.records[a], s.w.records[b]))
    && (forall a, tid :: a in s.w.records && tid in s.threads && InUse(s.threads[tid]) ==>
          !Clash(s.w.records[a], s.threads[tid].record))
    && (forall i, j :: i in s.threads && j in s.threads && InUse(s.threads[i]) && InUse(s.threads[j]) ==>
          !Clash(s.threads[i].record, s.threads[j].record))
  }

  // The version is of another record than r and writes to the directory.
  predicate Intrudes(v: Record, r: nat, dir: string) {
    v.id != r && DoesCert(v.purpose) && CertificateDir(v) == dir
  }

  /** No version in the table or in use of another record writes to the directory that r reads. */
  ghost predicate Undisturbed(s: System, r: nat, dir: string) {
    && (forall a :: a in s.w.records ==> !Intrudes(s.w.records[a], r, dir))
    && (forall tid :: tid in s.threads && InUse(s.threads[tid]) ==> !Intrudes(s.threads[tid].record, r, dir))
  }

  ghost predicate RowsApart(s: System, marks: map<(string, nat), Mark>, certs: map<nat, CertRow>) {
    forall c :: c in certs && Readable(certs[c]) ==>
      var dir := ParentDir(certs[c].certPath);
      Undisturbed(s, certs[c].record, dir) && OwnMarks(marks, certs[c].record, dir)
  }

  ghost predicate ReaderApart(s: System, marks: map<(string, nat), Mark>, r: Reader) {
    && (r.spot.AtRead? ==> Undisturbed(s, r.record, r.dir) && OwnMarks(marks, r.record, r.dir))
    && ((r.spot.AtRead? || r.spot.AtPost?) && r.pieces.Some? ==> OwnPieces(r.record, r.pieces.value))
  }

  ghost predicate ThreadApart(marks: map<(string, nat), Mark>, t: Thread) {
    forall j :: 0 <= j < Written(t.pc) && j < 4 ==> (t.home, j) in marks && marks[(t.home, j)].record == t.record.id
  }

  ghost predicate Apart(x: Whole) {
    && VersionsApart(x.s)
    && RowsApart(x.s, x.marks, x.s.w.certs)
    && (forall id :: id in x.readers ==> ReaderApart(x.s, x.marks, x.readers[id]))
    && (forall tid :: tid in x.s.threads ==> ThreadApart(x.marks, x.s.threads[tid]))
    && (forall k :: 0 <= k < |x.requests| ==> OwnRequest(x.requests[k]))
  }

  // The version that a create or an edit stores.
  function NewVersion(w: World, a: Action): Record
    requires a.CreateRecord? || a.EditRecord?
  {
    if a.CreateRecord? then a.record.(id := w.nextRecord) else a.record
  }

  /** What can be checked when a record is created or edited: the new version clashes with no other row and
      with no version that a running issuance works with, and it does not write where the certificate row
      of another record points, or where a request for another record is just reading. */
  ghost predicate Guarded(x: Whole, a: Action) {
    a.CreateRecord? || a.EditRecord? ==>
      var v := NewVersion(x.s.w, a);
      && (forall r :: r in x.s.w.records && r != v.id ==> !Clash(x.s.w.records[r], v))
      && (forall tid :: tid in x.s.threads && InUse(x.s.threads[tid]) ==> !Clash(x.s.threads[tid].record, v))
      && (forall c :: c in x.s.w.certs && Readable(x.s.w.certs[c]) ==>
            !Intrudes(v, x.s.w.certs[c].record, ParentDir(x.s.w.certs[c].certPath)))
      && (forall id :: id in x.readers && x.readers[id].spot.AtRead? ==>
            !Intrudes(v, x.readers[id].record, x.readers[id].dir))
  }

  ghost predicate GuardedEvent(x: Whole, e: Event) {
    e.Base? ==> Guarded(x, e.a)
  }

  /** Every event of the run meets the guard. */
  ghost predicate GuardedRun(states: seq<Whole>, events: seq<Event>) {
    |events| < |states| && forall i :: 0 <= i < |events| ==> GuardedAt(states, events, i)
  }

  ghost predicate GuardedAt(states: seq<Whole>, events: seq<Event>, i: nat)
    requires i < |events| < |states|
  {
    GuardedEvent(states[i], events[i])
  }

  lemma ClashIsSymmetric(a: Record, b: Record)
    ensures Clash(a, b) <==> Clash(b, a)
  {
  }

  lemma ApartIsDistinct(s: System)
    requires Inv(s) && VersionsApart(s)
    ensures DistinctDirs(s)
  {
    forall a, b | a in s.threads && b in s.threads && a != b && Holds(s.threads[a].pc) && Holds(s.threads[b].pc)
      ensures !ShareDirectory(s.threads[a].record, s.threads[b].record)
    {
      var t, u := s.threads[a], s.threads[b];
      assert SlotFacts(s.w.slots, s.w.nextRecord, t) && SlotFacts(s.w.slots, s.w.nextRecord, u);
      assert InUse(t) && InUse(u) && !Clash(t.record, u.record);
    }
  }

  // ----- the guard keeps versions apart

  lemma StepKeepsVersions(s: System, tid: nat, c: Choice)
    requires Inv(s) && VersionsApart(s) && tid in s.threads
    ensures var (v, u) := ThreadStep(s.w, s.threads[tid], c); VersionsApart(System(v, s.threads[tid := u]))
  {
    var (v, u) := ThreadStep(s.w, s.threads[tid], c);
    StepVersion(s.w, s.threads[tid], c);
    if InUse(u) {
      forall i | i in s.threads && i != tid && InUse(s.threads[i])
        ensures !Clash(s.threads[i].record, u.record) && !Clash(u.record, s.threads[i].record)
      {
        ClashIsSymmetric(s.threads[i].record, u.record);
      }
    }
  }

  lemma VersionFits(s: System, v: Record)
    requires forall r :: r in s.w.records && r != v.id ==> !Clash(s.w.records[r], v)
    requires forall tid :: tid in s.threads && InUse(s.threads[tid]) ==> !Clash(s.threads[tid].record, v)
    requires VersionsApart(s)
    ensures VersionsApart(s.(w := s.w.(records := s.w.records[v.id := v])))
  {
    forall r | r in s.w.records && r != v.id
      ensures !Clash(v, s.w.records[r])
    {
      ClashIsSymmetric(s.w.records[r], v);
    }
    forall tid | tid in s.threads && InUse(s.threads[tid])
      ensures !Clash(v, s.threads[tid].record)
    {
      ClashIsSymmetric(s.threads[tid].record, v);
    }
    assert !Clash(v, v);
  }

  lemma StoreKeepsVersions(x: Whole, a: Action)
    requires Inv(x.s) && Enabled(x.s, a) && VersionsApart(x.s) && Guarded(x, a) && (a.CreateRecord? || a.EditRecord?)
    ensures VersionsApart(Next(x.s, a))
  {
    var s, v, next := x.s, NewVersion(x.s.w, a), Next(x.s, a);
    VersionFits(s, v);
    assert next.w.records == s.w.records[v.id := v] && next.threads == s.threads;
  }

  lemma BaseKeepsVersions(x: Whole, a: Action)
    requires Inv(x.s) && Enabled(x.s, a) && VersionsApart(x.s) && Guarded(x, a)
    ensures VersionsApart(Next(x.s, a))
  {
    if a.Step? {
      StepKeepsVersions(x.s, a.tid, a.choice);
    } else if a.CreateRecord? || a.EditRecord? {
      StoreKeepsVersions(x, a);
    } else if a.Spawn? {
      assert !InUse(NewThread(a.kind, a.target));
    }
  }

  // ----- and directories undisturbed

  lemma StaysUndisturbed(x: Whole, a: Action, r: nat, dir: string)
    requires Inv(x.s) && Enabled(x.s, a) && Undisturbed(x.s, r, dir)
    requires a.CreateRecord? || a.EditRecord? ==> !Intrudes(NewVersion(x.s.w, a), r, dir)
    ensures Undisturbed(Next(x.s, a), r, dir)
  {
    if a.Step? {
      StepVersion(x.s.w, x.s.threads[a.tid], a.choice);
    } else if a.Spawn? {
      assert !InUse(NewThread(a.kind, a.target));
    }
  }

  // Only the record itself writes into an undisturbed directory.
  lemma WriterIsOwner(s: System, tid: nat, r: nat, dir: string)
    requires Undisturbed(s, r, dir) && tid in s.threads && s.threads[tid].pc.Write? && s.threads[tid].home == dir
    requires HomeOk(s.threads[tid]) && DoesCert(s.threads[tid].record.purpose)
    ensures s.threads[tid].record.id == r
  {
    assert !Intrudes(s.threads[tid].record, r, dir);
  }

  lemma StaysOwn(x: Whole, first: nat, a: Action, r: nat, dir: string)
    requires Inv(x.s) && MarksOk(x, first) && Undisturbed(x.s, r, dir) && OwnMarks(x.marks, r, dir)
    ensures OwnMarks(MarksAfter(x.marks, x.s, a), r, dir)
  {
    if WritesFile(x.s, a) && x.s.threads[a.tid].home == dir {
      assert x.s.threads[a.tid].record.id == r by {
        assert ThreadMarked(x.marks, first, x.s.threads[a.tid]);
        assert SlotFacts(x.s.w.slots, x.s.w.nextRecord, x.s.threads[a.tid]);
        WriterIsOwner(x.s, a.tid, r, dir);
      }
    }
  }

  lemma InUseIsUndisturbed(s: System, tid: nat)
    requires VersionsApart(s) && tid in s.threads && InUse(s.threads[tid]) && DoesCert(s.threads[tid].record.purpose)
    ensures Undisturbed(s, s.threads[tid].record.id, CertificateDir(s.threads[tid].record))
  {
    var v := s.threads[tid].record;
    forall a | a in s.w.records
      ensures !Intrudes(s.w.records[a], v.id, CertificateDir(v))
    {
      assert !Clash(s.w.records[a], v);
    }
    forall i | i in s.threads && InUse(s.threads[i])
      ensures !Intrudes(s.threads[i].record, v.id, CertificateDir(v))
    {
      assert !Clash(s.threads[i].record, v);
    }
  }

  // The directory of an issuance that has written all its files.
  lemma HomeIsUndisturbed(x: Whole, first: nat, tid: nat)
    requires Inv(x.s) && MarksOk(x, first) && Apart(x) && tid in x.s.threads && x.s.threads[tid].pc.Persist?
    ensures var t := x.s.threads[tid]; Undisturbed(x.s, t.record.id, t.home) && OwnMarks(x.marks, t.record.id, t.home)
  {
    var t := x.s.threads[tid];
    assert ThreadMarked(x.marks, first, t) && SlotFacts(x.s.w.slots, x.s.w.nextRecord, t) && ThreadApart(x.marks, t);
    InUseIsUndisturbed(x.s, tid);
  }

  lemma StepKeepsRowsApart(x: Whole, first: nat, a: Action)
    requires Inv(x.s) && Enabled(x.s, a) && MarksOk(x, first) && Apart(x) && a.Step?
    ensures RowsApart(Next(x.s, a), MarksAfter(x.marks, x.s, a), Next(x.s, a).w.certs)
  {
    var t := x.s.threads[a.tid];
    var certs := Next(x.s, a).w.certs;
    StepRows(x.s.w, t, a.choice);
    forall c | c in certs && Readable(certs[c])
      ensures var dir := ParentDir(certs[c].certPath);
              Undisturbed(Next(x.s, a), certs[c].record, dir)
              && OwnMarks(MarksAfter(x.marks, x.s, a), certs[c].record, dir)
    {
      var r, dir := certs[c].record, ParentDir(certs[c].certPath);
      if t.pc.Persist? && certs[c] == IssuedRow(t) {
        HomeIsUndisturbed(x, first, a.tid);
        PathsOf(t);
      }
      StaysUndisturbed(x, a, r, dir);
      StaysOwn(x, first, a, r, dir);
    }
  }

  lemma ChangeKeepsRowsApart(x: Whole, first: nat, a: Action)
    requires Inv(x.s) && Enabled(x.s, a) && MarksOk(x, first) && Apart(x) && Guarded(x, a) && !a.Step?
    ensures RowsApart(Next(x.s, a), x.marks, Next(x.s, a).w.certs)
  {
    var certs := Next(x.s, a).w.certs;
    forall c | c in certs && Readable(certs[c])
      ensures var dir := ParentDir(certs[c].certPath);
              Undisturbed(Next(x.s, a), certs[c].record, dir) && OwnMarks(x.marks, certs[c].record, dir)
    {
      assert c in x.s.w.certs && certs[c] == x.s.w.certs[c];
      StaysUndisturbed(x, a, certs[c].record, ParentDir(certs[c].certPath));
    }
  }

  lemma BaseKeepsReadersApart(x: Whole, first: nat, a: Action, id: nat)
    requires Inv(x.s) && Enabled(x.s, a) && MarksOk(x, first) && Apart(x) && Guarded(x, a) && id in x.readers
    ensures ReaderApart(Next(x.s, a), MarksAfter(x.marks, x.s, a), x.readers[id])
  {
    var r := x.readers[id];
    assert ReaderApart(x.s, x.marks, r);
    if r.spot.AtRead? {
      StaysUndisturbed(x, a, r.record, r.dir);
      StaysOwn(x, first, a, r.record, r.dir);
    }
  }

  // A mark in another directory leaves a thread's own marks alone.
  lemma MarkElsewhere(marks: map<(string, nat), Mark>, t: Thread, key: (string, nat), m: Mark)
    requires ThreadApart(marks, t) && (Written(t.pc) > 0 ==> key.0 != t.home)
    ensures ThreadApart(marks[key := m], t)
  {
  }

  lemma HomesApart(s: System, tid: nat, other: nat)
    requires DistinctDirs(s) && tid in s.threads && other in s.threads && other != tid
    requires HomeOk(s.threads[tid]) && HomeOk(s.threads[other])
    requires s.threads[tid].pc.Write? && Written(s.threads[other].pc) > 0
    ensures s.threads[tid].home != s.threads[other].home
  {
    assert !ShareDirectory(s.threads[tid].record, s.threads[other].record);
  }

  // Another issuance does not write over what a thread has written.
  lemma OthersStayApart(x: Whole, first: nat, a: Action, other: nat)
    requires Inv(x.s) && Enabled(x.s, a) && MarksOk(x, first) && Apart(x) && a.Step?
    requires other in x.s.threads && other != a.tid
    ensures ThreadApart(MarksAfter(x.marks, x.s, a), x.s.threads[other])
  {
    var t, o := x.s.threads[a.tid], x.s.threads[other];
    assert ThreadApart(x.marks, o);
    if WritesFile(x.s, a) {
      if Written(o.pc) > 0 {
        assert ThreadMarked(x.marks, first, t) && ThreadMarked(x.marks, first, o);
        ApartIsDistinct(x.s);
        HomesApart(x.s, a.tid, other);
      }
      MarkElsewhere(x.marks, o, (t.home, t.pc.file), Mark(t.job, t.record.id, !a.choice.Fails?));
    }
  }

  lemma OwnStaysApart(x: Whole, first: nat, a: Action)
    requires Inv(x.s) && Enabled(x.s, a) && MarksOk(x, first) && Apart(x) && a.Step?
    ensures ThreadApart(MarksAfter(x.marks, x.s, a), Next(x.s, a).threads[a.tid])
  {
    var t := x.s.threads[a.tid];
    var (v, u) := ThreadStep(x.s.w, t, a.choice);
    assert ThreadApart(x.marks, t);
    assert OwnEdge(x.s.w, t, v, u) by {
      OwnStep(x.s.w, t, a.choice);
    }
    if Written(u.pc) > 0 {
      SameRecord(x.s, a.tid, a.choice);
      WrittenStaysOwn(x.marks, x.s.w, t, v, u, !a.choice.Fails?);
    }
  }

  lemma SameRecord(s: System, tid: nat, c: Choice)
    requires Inv(s) && tid in s.threads && Written(ThreadStep(s.w, s.threads[tid], c).1.pc) > 0
    ensures ThreadStep(s.w, s.threads[tid], c).1.record == s.threads[tid].record
  {
    StepKeeps(s.w, s.threads[tid], c);
    var (v, u) := ThreadStep(s.w, s.threads[tid], c);
    assert SlotEdge(s.w, s.threads[tid], v, u);
  }

  lemma WrittenStaysOwn(marks: map<(string, nat), Mark>, w: World, t: Thread, v: World, u: Thread, complete: bool)
    requires ThreadApart(marks, t) && OwnEdge(w, t, v, u) && u.record == t.record && Written(u.pc) > 0
    ensures var after := if t.pc.Write? && t.pc.file < 4
                         then marks[(t.home, t.pc.file) := Mark(t.job, t.record.id, complete)] else marks;
            ThreadApart(after, u)
  {
  }

  lemma BaseKeepsThreadsApart(x: Whole, first: nat, a: Action, tid: nat)
    requires Inv(x.s) && Enabled(x.s, a) && MarksOk(x, first) && Apart(x) && tid in Next(x.s, a).threads
    ensures ThreadApart(MarksAfter(x.marks, x.s, a), Next(x.s, a).threads[tid])
  {
    if a.Step? {
      if a.tid == tid {
        OwnStaysApart(x, first, a);
      } else {
        OthersStayApart(x, first, a, tid);
      }
    } else if tid in x.s.threads {
      assert ThreadApart(x.marks, x.s.threads[tid]);
    }
  }

  lemma BaseKeepsApart(x: Whole, first: nat, a: Action)
    requires Inv(x.s) && Enabled(x.s, a) && MarksOk(x, first) && Apart(x) && Guarded(x, a)
    ensures Apart(After(x, Base(a)))
  {
    BaseKeepsVersions(x, a);
    if a.Step? {
      StepKeepsRowsApart(x, first, a);
    } else {
      ChangeKeepsRowsApart(x, first, a);
    }
    forall id | id in x.readers
      ensures ReaderApart(Next(x.s, a), MarksAfter(x.marks, x.s, a), x.readers[id])
    {
      BaseKeepsReadersApart(x, first, a, id);
    }
    forall tid | tid in Next(x.s, a).threads
      ensures ThreadApart(MarksAfter(x.marks, x.s, a), Next(x.s, a).threads[tid])
    {
      BaseKeepsThreadsApart(x, first, a, tid);
    }
  }

  lemma ReaderKeepsApart(x: Whole, r: Reader, c: Choice)
    requires Apart(x) && ReaderApart(x.s, x.marks, r)
    ensures ReaderApart(x.s, x.marks, ReaderStep(x.s.w, x.marks, r, c))
  {
    match r.spot
    case AtLoad => LoadKeepsApart(x, r, c);
    case AtRead(i) => ReadKeepsApart(x.s, x.marks, r, i, c);
    case AtList | AtNext | AtPost | AtEnd =>
  }

  lemma ReadKeepsApart(s: System, marks: map<(string, nat), Mark>, r: Reader, i: nat, c: Choice)
    requires ReaderApart(s, marks, r) && r.spot == AtRead(i)
    ensures ReaderApart(s, marks, ReadStepOf(s.w, marks, r, i, c))
  {
  }

  lemma LoadKeepsApart(x: Whole, r: Reader, c: Choice)
    requires RowsApart(x.s, x.marks, x.s.w.certs) && r.spot.AtLoad?
    ensures ReaderApart(x.s, x.marks, LoadStepOf(x.s.w, r, c))
  {
  }

  lemma AfterKeepsApart(x: Whole, first: nat, e: Event)
    requires Inv(x.s) && CanHappen(x, e) && MarksOk(x, first) && Apart(x) && GuardedEvent(x, e)
    ensures Apart(After(x, e))
  {
    match e
    case Base(a) => BaseKeepsApart(x, first, a);
    case Fire(_, _, _) =>
    case Go(id, c) =>
      assert ReaderApart(x.s, x.marks, x.readers[id]);
      ReaderKeepsApart(x, x.readers[id], c);
  }

  lemma StartIsApart(x: Whole)
    requires Begins(x) && Unmixed(x) && !HasClash(x.s.w, [])
    ensures Apart(x)
  {
    var w := x.s.w;
    forall a | a in w.records && DoesCert(w.records[a].purpose)
      ensures MayWrite(w, [], a, CertificateDir(w.records[a])) && w.records[a].id == a
    {
      assert RecordsOk(w.records, w.nextRecord);
      StoredNow(TableOf(w), [], w.records[a]);
      assert WritesTo(w.records[a], a, CertificateDir(w.records[a]));
    }
    forall a, b | a in w.records && b in w.records
      ensures !Clash(w.records[a], w.records[b])
    {
      assert !ClashIn(w, [], a, b, CertificateDir(w.records[a]));
    }
    forall c | c in w.certs && Readable(w.certs[c])
      ensures Undisturbed(x.s, w.certs[c].record, ParentDir(w.certs[c].certPath)) && OwnFiles(w.certs[c], x.marks)
    {
      var r, dir := w.certs[c].record, ParentDir(w.certs[c].certPath);
      assert Names(w.certs[c], r, dir) && NamedAtStart(w, r, dir) && OwnFiles(w.certs[c], x.marks);
      forall a | a in w.records
        ensures !Intrudes(w.records[a], r, dir)
      {
        assert !ClashIn(w, [], r, a, dir);
      }
    }
  }

  lemma NextStaysApart(states: seq<Whole>, events: seq<Event>, n: nat)
    requires IsWholeRun(states, events) && n < |events| && Apart(states[n]) && GuardedAt(states, events, n)
    ensures Apart(states[n + 1])
  {
    var x, e := states[n], events[n];
    assert Inv(x.s) && CanHappen(x, e) && states[n + 1] == After(x, e) by {
      WholeFollows(states, events, n);
    }
    RunKeepsMarks(states, events, n);
    AfterKeepsApart(x, states[0].s.w.nextJob, e);
  }

  lemma {:induction false} RunKeepsApart(states: seq<Whole>, events: seq<Event>, n: nat)
    requires IsWholeRun(states, events) && n < |states| && Apart(states[0]) && GuardedRun(states, events)
    ensures Apart(states[n])
  {
    if n > 0 {
      RunKeepsApart(states, events, n - 1);
      assert GuardedAt(states, events, n - 1);
      NextStaysApart(states, events, n - 1);
    }
  }

  /** The guard is enough: a run that starts unmixed and without a clash, and whose creates and edits all
      meet the guard, sends nothing foreign, neither for a job nor without one. A directory may be used again
      by another record once the old version is neither stored nor in use, the certificate row of its record
      names another directory or is gone, and no request for it is just reading there. */
  lemma GuardedRunsDeliverOwn(states: seq<Whole>, events: seq<Event>)
    requires IsWholeRun(states, events) && GuardedRun(states, events)
    requires Unmixed(states[0]) && !HasClash(states[0].s.w, [])
    ensures !Foreign(states[|events|])
  {
    StartIsApart(states[0]);
    forall i | 0 <= i < |events|
      ensures DistinctDirs(states[i].s)
    {
      RunKeepsApart(states, events, i);
      Wholes(states, events, i);
      ApartIsDistinct(states[i].s);
    }
    DistinctOwnDeliveries(states, events, |events|);
    RunKeepsApart(states, events, |events|);
  }

  // ----- a failed guard is a clash

  lemma ClashFromVersions(start: World, all: seq<Action>, a: Record, b: Record)
    requires Stored(TableOf(start), all, a) && Stored(TableOf(start), all, b) && Clash(a, b)
    ensures HasClash(start, all)
  {
    assert WritesTo(a, a.id, CertificateDir(a)) && WritesTo(b, b.id, CertificateDir(a));
    assert MayWrite(start, all, a.id, CertificateDir(a)) && MayWrite(start, all, b.id, CertificateDir(a));
    assert ClashIn(start, all, a.id, b.id, CertificateDir(a));
  }

  lemma ClashFromIntruder(start: World, all: seq<Action>, v: Record, r: nat, dir: string)
    requires Stored(TableOf(start), all, v) && MayRead(start, all, r, dir) && Intrudes(v, r, dir)
    ensures HasClash(start, all)
  {
    assert WritesTo(v, v.id, dir) && MayWrite(start, all, v.id, dir);
    assert ClashIn(start, all, r, v.id, dir);
  }

  // The version that a create or an edit stores is in the table afterwards.
  lemma NewVersionStored(states: seq<Whole>, events: seq<Event>, n: nat, a: Action)
    requires IsWholeRun(states, events) && n < |events| && events[n] == Base(a) && (a.CreateRecord? || a.EditRecord?)
    ensures Stored(TableOf(states[0].s.w), ChangesIn(states, events, n + 1), NewVersion(states[n].s.w, a))
  {
    WholeFollows(states, events, n);
    HistoryHere(states, events, n + 1, ChangesIn(states, events, n + 1));
    var t := TableOf(states[n + 1].s.w);
    assert t == TableOf(Next(states[n].s, a).w) && Has(t, NewVersion(states[n].s.w, a));
    StoredNow(TableOf(states[0].s.w), ChangesIn(states, events, n + 1), NewVersion(states[n].s.w, a));
  }

  // The rows of the table were stored as well.
  lemma RowIsStored(states: seq<Whole>, events: seq<Event>, n: nat, r: nat, all: seq<Action>)
    requires IsWholeRun(states, events) && n < |states| && ChangesIn(states, events, n) <= all
    requires r in states[n].s.w.records
    ensures Stored(TableOf(states[0].s.w), all, states[n].s.w.records[r])
  {
    HistoryHere(states, events, n, all);
    Wholes(states, events, n);
    var v := states[n].s.w.records[r];
    assert RecordsOk(states[n].s.w.records, states[n].s.w.nextRecord);
    assert Has(TableOf(states[n].s.w), v);
    StoredNow(TableOf(states[0].s.w), ChangesIn(states, events, n), v);
    StoredLater(TableOf(states[0].s.w), ChangesIn(states, events, n), all, v);
  }

  /** The guard refuses no create or edit without a reason: a change that fails it makes a clash. */
  lemma UnguardedIsClash(states: seq<Whole>, events: seq<Event>, n: nat)
    requires IsWholeRun(states, events) && Unmixed(states[0]) && n < |events| && !GuardedAt(states, events, n)
    ensures HasClash(states[0].s.w, ChangesIn(states, events, n + 1))
  {
    var start, all, x, a := states[0].s.w, ChangesIn(states, events, n + 1), states[n], events[n].a;
    var v := NewVersion(x.s.w, a);
    ChangesBefore(states, events, n, all);
    NewVersionStored(states, events, n, a);
    if r :| r in x.s.w.records && r != v.id && Clash(x.s.w.records[r], v) {
      RowIsStored(states, events, n, r, all);
      ClashFromVersions(start, all, x.s.w.records[r], v);
    } else if tid :| tid in x.s.threads && InUse(x.s.threads[tid]) && Clash(x.s.threads[tid].record, v) {
      HistoryHere(states, events, n, all);
      ClashFromVersions(start, all, x.s.threads[tid].record, v);
    } else {
      RunKeepsClaims(states, events, n, all);
      ClashFromReading(start, all, x, v);
    }
  }

  lemma ClashFromReading(start: World, all: seq<Action>, x: Whole, v: Record)
    requires Stored(TableOf(start), all, v) && Claimed(start, all, x)
    requires
      || (exists c :: c in x.s.w.certs && Readable(x.s.w.certs[c])
            && Intrudes(v, x.s.w.certs[c].record, ParentDir(x.s.w.certs[c].certPath)))
      || (exists id :: id in x.readers && x.readers[id].spot.AtRead?
            && Intrudes(v, x.readers[id].record, x.readers[id].dir))
    ensures HasClash(start, all)
  {
    if c :| c in x.s.w.certs && Readable(x.s.w.certs[c])
            && Intrudes(v, x.s.w.certs[c].record, ParentDir(x.s.w.certs[c].certPath)) {
      ClashFromIntruder(start, all, v, x.s.w.certs[c].record, ParentDir(x.s.w.certs[c].certPath));
    } else {
      var id :| id in x.readers && x.readers[id].spot.AtRead? && Intrudes(v, x.readers[id].record, x.readers[id].dir);
      assert ReaderClaimed(start, all, x.marks, x.readers[id]);
      ClashFromIntruder(start, all, v, x.readers[id].record, x.readers[id].dir);
    }
  }
}
