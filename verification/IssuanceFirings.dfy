/** Webhook requests that are made outside any issuance: the tasks fired by an IP change
    (backend/pkg/dns/service.go) and a task run on demand (tasks.RunTask). They hold no slot and have no
    job, and read whatever directory the certificate row of their record names. They change nothing the
    issuances look at, so a run of the whole program is a run of the issuances with readers beside it. */
module IssuanceFirings {
  import opened Common
  import opened Tasks
  import opened IssuanceModel
  import opened IssuanceSafety
  import opened IssuanceDelivery

  // Whose issuance wrote a file last, and whether that write succeeded. The program keeps none of this.
  datatype Mark = Mark(job: nat, record: nat, complete: bool)

  // What was read of one file.
  datatype Piece = Piece(text: string, mark: Option<Mark>)

  datatype Trigger = IpChange | OnDemand

  datatype Spot = AtList | AtNext | AtLoad | AtRead(file: nat) | AtPost | AtEnd

  datatype Reader = Reader(
    trigger: Trigger, record: nat, spot: Spot,
    tasks: seq<Task>,               // the tasks still to run
    dir: string, pieces: Option<seq<Piece>>)

  // A webhook request made without a job.
  datatype Request = Request(record: nat, task: Task, material: Option<seq<Piece>>)

  datatype Whole = Whole(
    s: System, marks: map<(string, nat), Mark>, readers: map<nat, Reader>, requests: seq<Request>)

  datatype Event =
    | Base(a: Action)
    | Fire(id: nat, trigger: Trigger, record: nat)
    | Go(id: nat, choice: Choice)

  // loadCertificateMaterial refuses a row without both paths.
  predicate Readable(row: CertRow) {
    row.certPath != "" && row.keyPath != ""
  }

  // ----- the steps of a reader

  function Passed(r: Reader): Reader {
    r.(spot := AtNext, tasks := if r.tasks == [] then [] else r.tasks[1..])
  }

  // On demand the one task is given, whatever its trigger.
  function ListStep(r: Reader, c: Choice): Reader {
    if !c.Listed? then r.(spot := AtEnd)
    else r.(spot := AtNext, tasks := if r.trigger.IpChange? then Matching(c.tasks, TRIGGER_IP) else c.tasks)
  }

  function NextStep(r: Reader): Reader {
    if r.tasks == [] then r.(spot := AtEnd)
    else r.(spot := if r.tasks[0].includeCertificate then AtLoad else AtPost, pieces := None)
  }

  ghost function LoadStepOf(w: World, r: Reader, c: Choice): Reader {
    if c.Fails? || !HasRow(w, r.record) || !Readable(w.certs[RowOf(w, r.record)]) then Passed(r)
    else r.(spot := AtRead(0), dir := ParentDir(w.certs[RowOf(w, r.record)].certPath), pieces := Some([]))
  }

  function PieceAt(w: World, marks: map<(string, nat), Mark>, key: (string, nat)): Piece
    requires key in w.files
  {
    Piece(w.files[key], if key in marks then Some(marks[key]) else None)
  }

  function ReadStepOf(w: World, marks: map<(string, nat), Mark>, r: Reader, i: nat, c: Choice): Reader {
    if c.Fails? || i >= 4 || (r.dir, i) !in w.files || r.pieces.None? then Passed(r)
    else
      r.(spot := if i == 3 then AtPost else AtRead(i + 1),
         pieces := Some(r.pieces.value + [PieceAt(w, marks, (r.dir, i))]))
  }

  ghost function ReaderStep(w: World, marks: map<(string, nat), Mark>, r: Reader, c: Choice): Reader {
    match r.spot
    case AtList => ListStep(r, c)
    case AtNext => NextStep(r)
    case AtLoad => LoadStepOf(w, r, c)
    case AtRead(i) => ReadStepOf(w, marks, r, i, c)
    case AtPost => Passed(r)
    case AtEnd => r
  }

  predicate Sends(r: Reader, c: Choice) {
    r.spot.AtPost? && !c.Fails? && r.tasks != []
  }

  // ----- the whole

  // The file that an action writes, and by whom.
  predicate WritesFile(s: System, a: Action) {
    a.Step? && a.tid in s.threads && s.threads[a.tid].pc.Write? && s.threads[a.tid].pc.file < 4
  }

  function MarksAfter(marks: map<(string, nat), Mark>, s: System, a: Action): map<(string, nat), Mark> {
    if !WritesFile(s, a) then marks
    else
      var t := s.threads[a.tid];
      marks[(t.home, t.pc.file) := Mark(t.job, t.record.id, !a.choice.Fails?)]
  }

  ghost predicate CanHappen(x: Whole, e: Event) {
    match e
    case Base(a) => Enabled(x.s, a)
    case Fire(id, _, _) => id !in x.readers
    case Go(id, _) => id in x.readers
  }

  ghost function After(x: Whole, e: Event): Whole
    requires CanHappen(x, e)
  {
    match e
    case Base(a) => x.(s := Next(x.s, a), marks := MarksAfter(x.marks, x.s, a))
    case Fire(id, trigger, record) =>
      x.(readers := x.readers[id := Reader(trigger, record, AtList, [], "", None)])
    case Go(id, c) =>
      var r := x.readers[id];
      x.(readers := x.readers[id := ReaderStep(x.s.w, x.marks, r, c)],
         requests := if Sends(r, c) then x.requests + [Request(r.record, r.tasks[0], r.pieces)] else x.requests)
  }

  // What a complete mark means for the text beside it.
  ghost predicate TextOk(issues: map<nat, Issue>, m: Mark, text: string, i: nat) {
    m.complete ==>
      i < 4 && m.job in issues && issues[m.job].resource.Some? && text == Contents(issues[m.job].resource.value)[i]
  }

  ghost predicate MarkOk(w: World, key: (string, nat), m: Mark) {
    && m.job in w.issues && w.issues[m.job].record == m.record
    && key in w.files && TextOk(w.issues, m, w.files[key], key.1)
  }

  /** A freshly started process. The files that are there carry the marks of earlier jobs, as far as it is
      known which one wrote them. */
  ghost predicate Begins(x: Whole) {
    && Initial(x.s) && x.readers == map[] && x.requests == []
    && (forall key :: key in x.marks ==> x.marks[key].job < x.s.w.nextJob && MarkOk(x.s.w, key, x.marks[key]))
  }

  ghost predicate Leads(states: seq<Whole>, events: seq<Event>, i: nat)
    requires i < |events| < |states|
  {
    CanHappen(states[i], events[i]) && states[i + 1] == After(states[i], events[i])
  }

  ghost predicate IsWholeRun(states: seq<Whole>, events: seq<Event>) {
    && |states| == |events| + 1
    && Begins(states[0])
    && (forall i :: 0 <= i < |events| ==> Leads(states, events, i))
  }

  // ----- the run of the issuances in it

  function Systems(states: seq<Whole>): (r: seq<System>)
    ensures |r| == |states|
  {
    seq(|states|, i requires 0 <= i < |states| => states[i].s)
  }

  // A reader's event is no action at all for the issuances.
  function ActionOf(x: Whole, e: Event): Action {
    match e
    case Base(a) => a
    case _ => SetAcme(x.s.w.acme)
  }

  function Actions(states: seq<Whole>, events: seq<Event>): (r: seq<Action>)
    requires |events| <= |states|
    ensures |r| == |events|
  {
    seq(|events|, i requires 0 <= i < |events| => ActionOf(states[i], events[i]))
  }

  /** The issuances in a run of the whole program make a run of their own, so everything proved of those
      runs holds here. */
  lemma IssuancesRun(states: seq<Whole>, events: seq<Event>)
    requires IsWholeRun(states, events)
    ensures IsRun(Systems(states), Actions(states, events))
  {
    var systems, actions := Systems(states), Actions(states, events);
    forall i | 0 <= i < |actions|
      ensures Follows(systems, actions, i)
    {
      assert Leads(states, events, i);
    }
  }

  // ----- what every run keeps

  lemma Wholes(states: seq<Whole>, events: seq<Event>, n: nat)
    requires IsWholeRun(states, events) && n < |states|
    ensures Inv(states[n].s) && states[n].s == Systems(states)[n]
  {
    IssuancesRun(states, events);
    RunKeepsInv(Systems(states), Actions(states, events), n);
  }

  lemma WholeFollows(states: seq<Whole>, events: seq<Event>, n: nat)
    requires IsWholeRun(states, events) && n < |events|
    ensures Inv(states[n].s) && CanHappen(states[n], events[n]) && states[n + 1] == After(states[n], events[n])
  {
    Wholes(states, events, n);
    assert Leads(states, events, n);
  }

  // What a step does to the thread's job, to its directory and to the files.
  ghost predicate OwnEdge(w: World, t: Thread, v: World, u: Thread) {
    && (6 <= Point(u.pc) <= 18 ==>
          if t.pc.CreateJob? then u.job == w.nextJob else 6 <= Point(t.pc) <= 18 && u.job == t.job)
    && (Written(u.pc) > 0 ==> u.home == t.home)
    && (Written(u.pc) > Written(t.pc) ==> t.pc.Write? && t.pc.file < 4 && Written(u.pc) == t.pc.file + 1)
    && (HomeOk(t) ==> HomeOk(u))
  }

  ghost predicate FileWrite(w: World, t: Thread, c: Choice, v: World) {
    if t.pc.Write? && t.pc.file < 4 then
      v.files == w.files[(t.home, t.pc.file) := if c.Fails? then c.junk else Contents(t.res)[t.pc.file]]
    else v.files == w.files
  }

  lemma OwnBefore(w: World, t: Thread, c: Choice)
    requires Point(t.pc) <= 1
    ensures var (v, u) := ThreadStep(w, t, c); OwnEdge(w, t, v, u) && FileWrite(w, t, c, v)
  {
    var (v, u) := ThreadStep(w, t, c);
    assert v == w && (Point(u.pc) <= 2 || 20 <= Point(u.pc));
  }

  lemma OwnTaking(w: World, t: Thread, c: Choice)
    requires t.pc.Acquire?
    ensures var (v, u) := ThreadStep(w, t, c); OwnEdge(w, t, v, u) && FileWrite(w, t, c, v)
  {
    var (v, u) := AcquireStep(w, t);
    assert v.files == w.files && (u.pc.FindRow? || 20 <= Point(u.pc));
  }

  lemma OwnPreparing(w: World, t: Thread, c: Choice)
    requires 3 <= Point(t.pc) <= 4
    ensures var (v, u) := ThreadStep(w, t, c); OwnEdge(w, t, v, u) && FileWrite(w, t, c, v)
  {
    var (v, u) := if t.pc.FindRow? then FindRowStep(w, t, t.pc.early, c) else InsertRowStep(w, t, t.pc.early, c);
    assert u.pc.FindRow? || u.pc.InsertRow? || u.pc.CreateJob? || u.pc.Release?;
    assert v.files == w.files && Written(u.pc) == 0;
  }

  lemma OwnOrdering(w: World, t: Thread, c: Choice)
    requires 5 <= Point(t.pc) <= 7
    ensures var (v, u) := ThreadStep(w, t, c); OwnEdge(w, t, v, u) && FileWrite(w, t, c, v)
  {
  }

  lemma OwnWriting(w: World, t: Thread, c: Choice)
    requires t.pc.Write?
    ensures var (v, u) := ThreadStep(w, t, c); OwnEdge(w, t, v, u) && FileWrite(w, t, c, v)
  {
    var (v, u) := WriteStep(w, t, t.pc.file, c);
    assert u == t.(pc := u.pc);
  }

  lemma OwnStoring(w: World, t: Thread, c: Choice)
    requires 9 <= Point(t.pc) <= 11
    ensures var (v, u) := ThreadStep(w, t, c); OwnEdge(w, t, v, u) && FileWrite(w, t, c, v)
  {
    var (v, u) := ThreadStep(w, t, c);
    assert u.home == t.home && u.record == t.record && u.job == t.job && v.files == w.files;
  }

  lemma OwnListing(w: World, t: Thread, c: Choice)
    requires 12 <= Point(t.pc) <= 14
    ensures var (v, u) := ThreadStep(w, t, c); OwnEdge(w, t, v, u) && FileWrite(w, t, c, v)
  {
    var (v, u) := ThreadStep(w, t, c);
    assert u.home == t.home && u.record == t.record && u.job == t.job && v.files == w.files;
  }

  lemma OwnReading(w: World, t: Thread, c: Choice)
    requires 15 <= Point(t.pc) <= 16
    ensures var (v, u) := ThreadStep(w, t, c); OwnEdge(w, t, v, u) && FileWrite(w, t, c, v)
  {
    var (v, u) := ThreadStep(w, t, c);
    assert u.home == t.home && u.record == t.record && u.job == t.job && v.files == w.files;
  }

  lemma OwnEnding(w: World, t: Thread, c: Choice)
    requires 17 <= Point(t.pc) <= 18
    ensures var (v, u) := ThreadStep(w, t, c); OwnEdge(w, t, v, u) && FileWrite(w, t, c, v)
  {
    var (v, u) := ThreadStep(w, t, c);
    assert u == t.(pc := u.pc) && v.files == w.files;
  }

  lemma OwnAfter(w: World, t: Thread, c: Choice)
    requires 19 <= Point(t.pc)
    ensures var (v, u) := ThreadStep(w, t, c); OwnEdge(w, t, v, u) && FileWrite(w, t, c, v)
  {
    var (v, u) := ThreadStep(w, t, c);
    assert Point(u.pc) <= 1 || 19 <= Point(u.pc);
  }

  lemma OwnStep(w: World, t: Thread, c: Choice)
    ensures var (v, u) := ThreadStep(w, t, c); OwnEdge(w, t, v, u) && FileWrite(w, t, c, v)
  {
    if Point(t.pc) <= 1 {
      OwnBefore(w, t, c);
    } else if Point(t.pc) == 2 {
      OwnTaking(w, t, c);
    } else if Point(t.pc) <= 4 {
      OwnPreparing(w, t, c);
    } else if Point(t.pc) <= 7 {
      OwnOrdering(w, t, c);
    } else if Point(t.pc) == 8 {
      OwnWriting(w, t, c);
    } else if Point(t.pc) <= 11 {
      OwnStoring(w, t, c);
    } else if Point(t.pc) <= 14 {
      OwnListing(w, t, c);
    } else if Point(t.pc) <= 16 {
      OwnReading(w, t, c);
    } else if Point(t.pc) <= 18 {
      OwnEnding(w, t, c);
    } else {
      OwnAfter(w, t, c);
    }
  }

  // The file has been written in this run, by a job created since number first.
  predicate MarkedSince(marks: map<(string, nat), Mark>, first: nat, key: (string, nat)) {
    key in marks && first <= marks[key].job
  }

  /** The jobs at work were created in this run, their directories are those of their records, and every
      file that one has written is marked. */
  ghost predicate ThreadMarked(marks: map<(string, nat), Mark>, first: nat, t: Thread) {
    && (6 <= Point(t.pc) <= 18 ==> first <= t.job)
    && HomeOk(t)
    && (forall j :: 0 <= j < Written(t.pc) && j < 4 ==> MarkedSince(marks, first, (t.home, j)))
  }

  ghost predicate PiecesOk(issues: map<nat, Issue>, pieces: seq<Piece>) {
    forall i :: 0 <= i < |pieces| && pieces[i].mark.Some? ==> TextOk(issues, pieces[i].mark.value, pieces[i].text, i)
  }

  ghost predicate ReaderOk(issues: map<nat, Issue>, r: Reader) {
    && (r.spot.AtRead? ==> r.spot.file < 4 && r.pieces.Some? && |r.pieces.value| == r.spot.file)
    && (r.spot.AtPost? && r.pieces.Some? ==> |r.pieces.value| == 4)
    && ((r.spot.AtRead? || r.spot.AtPost?) && r.pieces.Some? ==> PiecesOk(issues, r.pieces.value))
  }

  ghost predicate RequestOk(issues: map<nat, Issue>, q: Request) {
    q.material.Some? ==> |q.material.value| == 4 && PiecesOk(issues, q.material.value)
  }

  /** A file with a complete mark holds that piece of the order of its job, and so does what was read of
      it; jobs from number first on are those of this run. */
  ghost predicate MarksOk(x: Whole, first: nat) {
    && first <= x.s.w.nextJob
    && (forall key :: key in x.marks ==> MarkOk(x.s.w, key, x.marks[key]))
    && (forall tid :: tid in x.s.threads ==> ThreadMarked(x.marks, first, x.s.threads[tid]))
    && (forall id :: id in x.readers ==> ReaderOk(x.s.w.issues, x.readers[id]))
    && (forall k :: 0 <= k < |x.requests| ==> RequestOk(x.s.w.issues, x.requests[k]))
  }

  // The orders that were answered stay known.
  ghost predicate Remembers(before: map<nat, Issue>, after: map<nat, Issue>) {
    forall j :: j in before ==>
      j in after && after[j].record == before[j].record
      && (before[j].resource.Some? ==> after[j].resource == before[j].resource)
  }

  lemma RemembersPieces(before: map<nat, Issue>, after: map<nat, Issue>, x: Whole)
    requires Remembers(before, after)
    requires forall id :: id in x.readers ==> ReaderOk(before, x.readers[id])
    requires forall k :: 0 <= k < |x.requests| ==> RequestOk(before, x.requests[k])
    ensures forall id :: id in x.readers ==> ReaderOk(after, x.readers[id])
    ensures forall k :: 0 <= k < |x.requests| ==> RequestOk(after, x.requests[k])
  {
    assert forall m: Mark, text: string, i: nat :: TextOk(before, m, text, i) ==> TextOk(after, m, text, i);
    assert forall pieces :: PiecesOk(before, pieces) ==> PiecesOk(after, pieces);
  }

  lemma BaseRemembers(s: System, a: Action)
    requires Inv(s) && Enabled(s, a)
    ensures Remembers(s.w.issues, Next(s, a).w.issues) && s.w.nextJob <= Next(s, a).w.nextJob
  {
    if a.Step? {
      StepKeeps(s.w, s.threads[a.tid], a.choice);
    }
  }

  lemma MarkKept(w: World, v: World, key: (string, nat), m: Mark)
    requires MarkOk(w, key, m) && Remembers(w.issues, v.issues)
    requires key in v.files && v.files[key] == w.files[key]
    ensures MarkOk(v, key, m)
  {
  }

  // The file being written.
  lemma MarkMade(w: World, t: Thread, c: Choice, v: World)
    requires JobFacts(w.jobs, w.issues, w.nextJob, t) && t.pc.Write? && t.pc.file < 4
    requires FileWrite(w, t, c, v) && Remembers(w.issues, v.issues)
    ensures MarkOk(v, (t.home, t.pc.file), Mark(t.job, t.record.id, !c.Fails?))
  {
  }

  lemma MarkedAfterStep(
    marks: map<(string, nat), Mark>, after: map<(string, nat), Mark>, first: nat,
    w: World, t: Thread, v: World, u: Thread)
    requires ThreadMarked(marks, first, t) && OwnEdge(w, t, v, u) && first <= w.nextJob
    requires forall key :: MarkedSince(marks, first, key) ==> MarkedSince(after, first, key)
    requires t.pc.Write? && t.pc.file < 4 ==> MarkedSince(after, first, (t.home, t.pc.file))
    ensures ThreadMarked(after, first, u)
  {
  }

  // A write marks its file as one of this run and takes no such mark away.
  lemma MarksGrow(x: Whole, first: nat, a: Action)
    requires Inv(x.s) && Enabled(x.s, a) && MarksOk(x, first)
    ensures var after := MarksAfter(x.marks, x.s, a);
            && (forall key :: MarkedSince(x.marks, first, key) ==> MarkedSince(after, first, key))
            && (WritesFile(x.s, a) ==> MarkedSince(after, first, (x.s.threads[a.tid].home, x.s.threads[a.tid].pc.file)))
  {
    if WritesFile(x.s, a) {
      assert ThreadMarked(x.marks, first, x.s.threads[a.tid]);
    }
  }

  lemma ThreadStaysMarked(x: Whole, first: nat, a: Action, tid: nat)
    requires Inv(x.s) && Enabled(x.s, a) && MarksOk(x, first) && tid in Next(x.s, a).threads
    ensures ThreadMarked(MarksAfter(x.marks, x.s, a), first, Next(x.s, a).threads[tid])
  {
    MarksGrow(x, first, a);
    if a.Step? && a.tid == tid {
      var t := x.s.threads[tid];
      var (v, u) := ThreadStep(x.s.w, t, a.choice);
      assert ThreadMarked(x.marks, first, t);
      assert OwnEdge(x.s.w, t, v, u) by {
        OwnStep(x.s.w, t, a.choice);
      }
      MarkedAfterStep(x.marks, MarksAfter(x.marks, x.s, a), first, x.s.w, t, v, u);
    } else if tid in x.s.threads {
      assert ThreadMarked(x.marks, first, x.s.threads[tid]);
    }
  }

  lemma BaseKeepsMarks(x: Whole, first: nat, a: Action)
    requires Inv(x.s) && Enabled(x.s, a) && MarksOk(x, first)
    ensures MarksOk(After(x, Base(a)), first)
  {
    var y := After(x, Base(a));
    BaseRemembers(x.s, a);
    RemembersPieces(x.s.w.issues, y.s.w.issues, x);
    forall tid | tid in y.s.threads
      ensures ThreadMarked(y.marks, first, y.s.threads[tid])
    {
      ThreadStaysMarked(x, first, a, tid);
    }
    forall key | key in y.marks
      ensures MarkOk(y.s.w, key, y.marks[key])
    {
      KeyKept(x, first, a, key);
    }
  }

  lemma KeyKept(x: Whole, first: nat, a: Action, key: (string, nat))
    requires Inv(x.s) && Enabled(x.s, a) && MarksOk(x, first) && key in MarksAfter(x.marks, x.s, a)
    ensures MarkOk(Next(x.s, a).w, key, MarksAfter(x.marks, x.s, a)[key])
  {
    BaseRemembers(x.s, a);
    var v := Next(x.s, a).w;
    if a.Step? {
      var t := x.s.threads[a.tid];
      OwnStep(x.s.w, t, a.choice);
      if t.pc.Write? && t.pc.file < 4 && key == (t.home, t.pc.file) {
        assert ThreadOk(x.s.w, t);
        MarkMade(x.s.w, t, a.choice, v);
      } else {
        MarkKept(x.s.w, v, key, x.marks[key]);
      }
    } else {
      MarkKept(x.s.w, v, key, x.marks[key]);
    }
  }

  lemma ReaderStaysOk(x: Whole, first: nat, r: Reader, c: Choice)
    requires MarksOk(x, first) && ReaderOk(x.s.w.issues, r)
    ensures ReaderOk(x.s.w.issues, ReaderStep(x.s.w, x.marks, r, c))
  {
    if r.spot.AtRead? {
      var key := (r.dir, r.spot.file);
      if key in x.s.w.files && key in x.marks {
        assert MarkOk(x.s.w, key, x.marks[key]);
      }
    }
  }

  lemma AfterKeepsMarks(x: Whole, first: nat, e: Event)
    requires Inv(x.s) && CanHappen(x, e) && MarksOk(x, first)
    ensures MarksOk(After(x, e), first)
  {
    match e
    case Base(a) => BaseKeepsMarks(x, first, a);
    case Fire(_, _, _) =>
    case Go(id, c) =>
      assert ReaderOk(x.s.w.issues, x.readers[id]);
      ReaderStaysOk(x, first, x.readers[id], c);
  }

  lemma {:induction false} RunKeepsMarks(states: seq<Whole>, events: seq<Event>, n: nat)
    requires IsWholeRun(states, events) && n < |states|
    ensures MarksOk(states[n], states[0].s.w.nextJob)
  {
    if n > 0 {
      RunKeepsMarks(states, events, n - 1);
      WholeFollows(states, events, n - 1);
      AfterKeepsMarks(states[n - 1], states[0].s.w.nextJob, events[n - 1]);
    } else {
      BeginsMarked(states[0]);
    }
  }

  lemma BeginsMarked(x: Whole)
    requires Begins(x)
    ensures MarksOk(x, x.s.w.nextJob)
  {
  }

  /** The marks tell who wrote: a write that went through leaves a complete mark of its job, one that failed an
      incomplete one, and nothing else touches a mark. */
  lemma WritesAreMarked(states: seq<Whole>, events: seq<Event>, n: nat, key: (string, nat))
    requires IsWholeRun(states, events) && n < |events|
    ensures var e, threads := events[n], states[n].s.threads;
            var writes := && e.Base? && e.a.Step? && e.a.tid in threads
                          && threads[e.a.tid].pc.Write? && threads[e.a.tid].pc.file < 4
                          && key == (threads[e.a.tid].home, threads[e.a.tid].pc.file);
            if writes then
              key in states[n + 1].marks
              && states[n + 1].marks[key]
                 == Mark(threads[e.a.tid].job, threads[e.a.tid].record.id, !e.a.choice.Fails?)
            else
              (key in states[n + 1].marks <==> key in states[n].marks)
              && (key in states[n].marks ==> states[n + 1].marks[key] == states[n].marks[key])
  {
    WholeFollows(states, events, n);
  }

  // ----- one order in one request

  // Every file was, when it was read, last written by an issuance for job j, in full.
  ghost predicate OfOneOrder(pieces: seq<Piece>, j: nat) {
    forall i :: 0 <= i < |pieces| ==>
      pieces[i].mark.Some? && pieces[i].mark.value.job == j && pieces[i].mark.value.complete
  }

  /** A request made without a job carries the four pieces of one order whenever each of the four files, at
      the time it was read, had last been written in full for one and the same job. */
  lemma RequestCarriesOneOrder(states: seq<Whole>, events: seq<Event>, n: nat, k: nat, j: nat)
    requires IsWholeRun(states, events) && n < |states| && k < |states[n].requests|
    requires states[n].requests[k].material.Some? && OfOneOrder(states[n].requests[k].material.value, j)
    ensures var pieces, issues := states[n].requests[k].material.value, states[n].s.w.issues;
            && |pieces| == 4 && j in issues && issues[j].resource.Some?
            && forall i :: 0 <= i < 4 ==> pieces[i].text == Contents(issues[j].resource.value)[i]
  {
    RunKeepsMarks(states, events, n);
    var q := states[n].requests[k];
    assert RequestOk(states[n].s.w.issues, q);
    assert forall i :: 0 <= i < 4 ==>
             TextOk(states[n].s.w.issues, q.material.value[i].mark.value, q.material.value[i].text, i);
    assert q.material.value[0].mark.Some?;
  }
}
