/** What every interleaving of the issuance steps keeps, proved by rely and guarantee: a step of one
    thread leaves alone whatever belongs to other records, and nothing else is needed to keep the
    facts that the other threads rely on. */
module IssuanceSafety {
  import opened Common
  import opened CertificateNames
  import opened IssuanceModel

  // Between choosing the row and giving the slot back.
  predicate HasCert(pc: Pc) {
    5 <= Point(pc) <= 18
  }

  // While the job of the thread is running.
  predicate OwnsJob(pc: Pc) {
    6 <= Point(pc) <= 11 || 17 <= Point(pc) <= 18
  }

  // From listing the tasks to the end of the last one.
  predicate Firing(pc: Pc) {
    12 <= Point(pc) <= 16
  }

  predicate HasResource(pc: Pc) {
    7 <= Point(pc) <= 16
  }

  ghost predicate SlotFacts(slots: set<nat>, nextRecord: nat, t: Thread) {
    && (1 <= Point(t.pc) <= 19 ==> t.record.id < nextRecord)
    && (Holds(t.pc) ==> t.record.id in slots)
    && (2 <= Point(t.pc) <= 19 ==> DoesCert(t.record.purpose))
  }

  ghost predicate CertFacts(certs: map<nat, CertRow>, nextCert: nat, records: map<nat, Record>, t: Thread) {
    && (t.pc.InsertRow? ==> forall c :: c in certs ==> certs[c].record != t.record.id)
    && (HasCert(t.pc) ==>
          && t.cert < nextCert
          && (t.record.id in records ==> t.cert in certs)
          && (t.cert in certs ==> certs[t.cert].record == t.record.id))
    && (11 <= Point(t.pc) <= 16 ==> t.cert in certs ==> certs[t.cert] == IssuedRow(t))
    && (t.pc.Read? ==> t.dir == t.home)
  }

  ghost predicate JobFacts(jobs: map<nat, JobRow>, issues: map<nat, Issue>, nextJob: nat, t: Thread) {
    && (OwnsJob(t.pc) || Firing(t.pc) ==> t.job < nextJob && t.job in issues && issues[t.job].record == t.record.id)
    && (OwnsJob(t.pc) ==>
          && !issues[t.job].finishLost
          && (t.job in jobs ==> jobs[t.job] == JobRow(t.record.id, t.cert, Running)))
    && (t.pc.Obtain? ==> issues[t.job].resource.None?)
    && (HasResource(t.pc) ==> issues[t.job].resource == Some(t.res))
    && (10 <= Point(t.pc) <= 16 ==> issues[t.job].leaf == Some(t.leaf))
  }

  /** The facts one thread relies on, whatever the other threads do. */
  ghost predicate ThreadOk(w: World, t: Thread) {
    && SlotFacts(w.slots, w.nextRecord, t)
    && CertFacts(w.certs, w.nextCert, w.records, t)
    && JobFacts(w.jobs, w.issues, w.nextJob, t)
  }

  ghost predicate CertsKept(before: map<nat, CertRow>, after: map<nat, CertRow>, nextCert: nat, r: nat) {
    && (forall c :: c in before ==>
          c in after && after[c].record == before[c].record
          && (before[c].notAfter.Some? ==> after[c].notAfter.Some?))
    && (forall c :: c in before && before[c].record != r ==> after[c] == before[c])
    && (forall c :: c in after && after[c].record != r ==> c in before && after[c] == before[c])
    && (forall c :: c in after && c !in before ==> nextCert <= c)
  }

  ghost predicate JobsKept(before: map<nat, JobRow>, after: map<nat, JobRow>, nextJob: nat, r: nat) {
    && (forall j :: j in before ==> j in after)
    && (forall j :: j in before && before[j].record != r ==> after[j] == before[j])
    && (forall j :: j in after && after[j].record != r ==> j in before && after[j] == before[j])
    && (forall j :: j in after && j !in before ==> nextJob <= j)
  }

  ghost predicate IssuesKept(before: map<nat, Issue>, after: map<nat, Issue>, r: nat) {
    && (forall j :: j in before ==>
          j in after && after[j].record == before[j].record
          && (before[j].resource.Some? ==> after[j].resource == before[j].resource))
    && (forall j :: j in before && before[j].record != r ==> after[j] == before[j])
  }

  /** What a step of a thread for record r leaves alone. */
  ghost predicate Guarantee(w: World, v: World, r: nat) {
    && v.records == w.records && v.nextRecord == w.nextRecord
    && w.nextCert <= v.nextCert && w.nextJob <= v.nextJob
    && (forall s :: s != r ==> (s in w.slots <==> s in v.slots))
    && CertsKept(w.certs, v.certs, w.nextCert, r)
    && JobsKept(w.jobs, v.jobs, w.nextJob, r)
    && IssuesKept(w.issues, v.issues, r)
  }

  /** The threads that hold slots hold different ones. */
  ghost predicate Exclusive(s: System) {
    forall a, b :: a in s.threads && b in s.threads && a != b && Holds(s.threads[a].pc) && Holds(s.threads[b].pc)
      ==> s.threads[a].record.id != s.threads[b].record.id
  }

  ghost predicate HasHolder(s: System, r: nat) {
    exists tid :: tid in s.threads && Holds(s.threads[tid].pc) && s.threads[tid].record.id == r
  }

  ghost predicate HasOwner(s: System, j: nat) {
    exists tid :: tid in s.threads && OwnsJob(s.threads[tid].pc) && s.threads[tid].job == j
  }

  ghost predicate Inv(s: System) {
    && WorldOk(s.w)
    && (forall tid :: tid in s.threads ==> ThreadOk(s.w, s.threads[tid]))
    && Exclusive(s)
    && (forall r :: r in s.w.slots ==> HasHolder(s, r))
    && (forall j :: j in s.w.jobs && s.w.jobs[j].status == Running && !s.w.issues[j].finishLost ==> HasOwner(s, j))
  }

  // ----- one step, seen by the thread that makes it

  /** The slot map changes in two ways only: a thread without a slot takes the free one of its record,
      and a thread gives back the one it holds. Without a slot nothing else changes. */
  ghost predicate SlotEdge(w: World, t: Thread, v: World, u: Thread) {
    && (Holds(t.pc) || Holds(u.pc) ==> u.record == t.record)
    && (Holds(t.pc) ==> v.slots == if Holds(u.pc) then w.slots else w.slots - {t.record.id})
    && (!Holds(t.pc) && Holds(u.pc) ==>
          t.record.id !in w.slots && v == w.(slots := w.slots + {t.record.id}))
    && (!Holds(t.pc) && !Holds(u.pc) ==> v == w)
  }

  /** A step ends at most the running job of its own thread and starts at most one, and the thread
      lets go of its job only when that is no longer running or the finishing statement was lost. */
  ghost predicate JobEdge(w: World, t: Thread, v: World, u: Thread) {
    && (forall j :: j in w.jobs && (!OwnsJob(t.pc) || j != t.job) ==>
          j in v.jobs && j in v.issues && j in w.issues && v.jobs[j] == w.jobs[j]
          && v.issues[j].finishLost == w.issues[j].finishLost)
    && (forall j :: j in v.jobs && j !in w.jobs ==> OwnsJob(u.pc) && u.job == j)
    && (OwnsJob(t.pc) ==>
          || (OwnsJob(u.pc) && u.job == t.job)
          || (t.job in v.jobs && t.job in v.issues ==> v.jobs[t.job].status != Running || v.issues[t.job].finishLost))
  }

  /** v and u are a good outcome of a step of t in w. */
  ghost predicate GoodStep(w: World, t: Thread, v: World, u: Thread) {
    && WorldOk(v) && ThreadOk(v, u)
    && Guarantee(w, v, u.record.id)
    && SlotEdge(w, t, v, u)
    && JobEdge(w, t, v, u)
  }

  // A step that changes no table and no slot.
  lemma Quiet(w: World, t: Thread, v: World, u: Thread)
    requires v == w.(files := v.files, deliveries := v.deliveries)
    requires WorldOk(w) && ThreadOk(w, u) && (Holds(t.pc) ==> u.record == t.record)
    requires (Holds(t.pc) <==> Holds(u.pc)) && (!Holds(t.pc) ==> v == w)
    requires OwnsJob(t.pc) <==> OwnsJob(u.pc)
    requires OwnsJob(t.pc) ==> u.job == t.job
    ensures GoodStep(w, t, v, u)
  {
  }

  // A first row for a record.
  lemma AddRow(w: World, row: CertRow)
    requires WorldOk(w) && !HasRow(w, row.record) && row.record in w.records && row.status.Pending?
    ensures var v := w.(certs := w.certs[w.nextCert := row], nextCert := w.nextCert + 1);
            WorldOk(v) && Guarantee(w, v, row.record)
  {
    var v := w.(certs := w.certs[w.nextCert := row], nextCert := w.nextCert + 1);
    assert CertsOk(v.certs, v.nextCert, v.records);
  }

  // A new job.
  lemma AddJob(w: World, job: JobRow)
    requires WorldOk(w) && job.record in w.records && job.status.Running?
    ensures var v := w.(jobs := w.jobs[w.nextJob := job],
                        issues := w.issues[w.nextJob := Issue(job.record, None, None, false)],
                        nextJob := w.nextJob + 1);
            WorldOk(v) && Guarantee(w, v, job.record)
  {
  }

  // More is known about the job of the thread: the answer to its order, or the parsed leaf.
  lemma LearnOfJob(w: World, job: nat, issue: Issue)
    requires WorldOk(w) && job in w.issues
    requires issue.record == w.issues[job].record && issue.finishLost == w.issues[job].finishLost
    requires w.issues[job].resource.Some? ==> issue.resource == w.issues[job].resource
    ensures var v := w.(issues := w.issues[job := issue]); WorldOk(v) && Guarantee(w, v, issue.record)
  {
  }

  // A step on the certificate row of the thread's own record.
  lemma RowStep(w: World, t: Thread, row: CertRow, u: Thread)
    requires WorldOk(w) && t.cert in w.certs && w.certs[t.cert].record == row.record == t.record.id
    requires row.status.Valid? ==> FullyIssued(row)
    requires w.certs[t.cert].notAfter.Some? ==> row.notAfter.Some?
    requires u.record == t.record && u.job == t.job && OwnsJob(t.pc) && OwnsJob(u.pc)
    requires ThreadOk(w.(certs := w.certs[t.cert := row]), u)
    ensures GoodStep(w, t, w.(certs := w.certs[t.cert := row]), u)
  {
  }

  // Ending the job of the thread, or losing the attempt.
  lemma FinishJobKeeps(w: World, r: nat, job: nat, status: JobStatus, c: Choice)
    requires WorldOk(w)
    requires job in w.issues && w.issues[job].record == r && !w.issues[job].finishLost
    requires job in w.jobs ==> w.jobs[job].status == Running
    ensures WorldOk(FinishJob(w, job, status, c)) && Guarantee(w, FinishJob(w, job, status, c), r)
  {
  }

  lemma LoadKeeps(w: World, t: Thread, c: Choice)
    requires WorldOk(w) && ThreadOk(w, t) && t.pc.Load?
    ensures var (v, u) := ThreadStep(w, t, c); GoodStep(w, t, v, u)
  {
  }

  lemma GateKeeps(w: World, t: Thread, c: Choice)
    requires WorldOk(w) && ThreadOk(w, t) && t.pc.Gate?
    ensures var (v, u) := ThreadStep(w, t, c); GoodStep(w, t, v, u)
  {
    var (v, u) := ThreadStep(w, t, c);
    Quiet(w, t, v, u);
  }

  lemma AcquireKeeps(w: World, t: Thread, c: Choice)
    requires WorldOk(w) && ThreadOk(w, t) && t.pc.Acquire?
    ensures var (v, u) := ThreadStep(w, t, c); GoodStep(w, t, v, u)
  {
    if t.record.id in w.slots {
      Quiet(w, t, w, AcquireStep(w, t).1);
    }
  }

  lemma FindRowKeeps(w: World, t: Thread, c: Choice)
    requires WorldOk(w) && ThreadOk(w, t) && t.pc.FindRow?
    ensures var (v, u) := ThreadStep(w, t, c); GoodStep(w, t, v, u)
  {
    FindRowThread(w, t, t.pc.early, c);
    Quiet(w, t, w, FindRowStep(w, t, t.pc.early, c).1);
  }

  lemma FindRowThread(w: World, t: Thread, early: bool, c: Choice)
    requires WorldOk(w) && ThreadOk(w, t) && t.pc == FindRow(early)
    ensures var (v, u) := FindRowStep(w, t, early, c);
            v == w && ThreadOk(w, u) && Holds(u.pc) && !OwnsJob(u.pc) && u.record == t.record
  {
  }

  lemma OwnsNewRow(w: World, t: Thread, early: bool, c: Choice)
    requires WorldOk(w) && ThreadOk(w, t) && t.pc == InsertRow(early) && !c.Fails? && t.record.id in w.records
    ensures var (v, u) := InsertRowStep(w, t, early, c); ThreadOk(v, u)
  {
  }

  lemma InsertRowKeeps(w: World, t: Thread, c: Choice)
    requires WorldOk(w) && ThreadOk(w, t) && t.pc.InsertRow?
    ensures var (v, u) := InsertRowStep(w, t, t.pc.early, c); GoodStep(w, t, v, u)
  {
    if c.Fails? || t.record.id !in w.records {
      Quiet(w, t, w, t.(pc := Release));
    } else {
      InsertedRowKeeps(w, t, t.pc.early, c);
    }
  }

  lemma InsertedRowKeeps(w: World, t: Thread, early: bool, c: Choice)
    requires WorldOk(w) && ThreadOk(w, t) && t.pc == InsertRow(early) && !c.Fails? && t.record.id in w.records
    ensures var (v, u) := InsertRowStep(w, t, early, c); GoodStep(w, t, v, u)
  {
    AddRow(w, CertRow(t.record.id, Pending, None, None, None, "", ""));
    OwnsNewRow(w, t, early, c);
    InsertEdges(w, t, early, c);
  }

  lemma InsertEdges(w: World, t: Thread, early: bool, c: Choice)
    requires JobsOk(w.jobs, w.issues, w.nextJob, w.records)
    requires t.pc == InsertRow(early) && !c.Fails? && t.record.id in w.records
    ensures var (v, u) := InsertRowStep(w, t, early, c); SlotEdge(w, t, v, u) && JobEdge(w, t, v, u)
  {
  }

  lemma OwnsNewJob(w: World, t: Thread, c: Choice)
    requires WorldOk(w) && ThreadOk(w, t) && t.pc.CreateJob? && !c.Fails? && t.record.id in w.records
    ensures var (v, u) := CreateJobStep(w, t, c); ThreadOk(v, u) && JobEdge(w, t, v, u)
  {
  }

  lemma CreateJobKeeps(w: World, t: Thread, c: Choice)
    requires WorldOk(w) && ThreadOk(w, t) && t.pc.CreateJob?
    ensures var (v, u) := ThreadStep(w, t, c); GoodStep(w, t, v, u)
  {
    if c.Fails? || t.record.id !in w.records {
      Quiet(w, t, w, t.(pc := Release));
    } else {
      CreatedJobKeeps(w, t, c);
    }
  }

  lemma CreatedJobKeeps(w: World, t: Thread, c: Choice)
    requires WorldOk(w) && ThreadOk(w, t) && t.pc.CreateJob? && !c.Fails? && t.record.id in w.records
    ensures var (v, u) := CreateJobStep(w, t, c); GoodStep(w, t, v, u)
  {
    AddJob(w, JobRow(t.record.id, t.cert, Running));
    OwnsNewJob(w, t, c);
  }

  lemma ObtainKeeps(w: World, t: Thread, c: Choice)
    requires WorldOk(w) && ThreadOk(w, t) && t.pc.Obtain?
    ensures var (v, u) := ThreadStep(w, t, c); GoodStep(w, t, v, u)
  {
    if c.Issued? {
      OrderAnswered(w, t, c.res);
    } else {
      Quiet(w, t, w, t.(pc := MarkFailed));
    }
  }

  lemma OrderAnswered(w: World, t: Thread, res: Resource)
    requires WorldOk(w) && ThreadOk(w, t) && t.pc.Obtain?
    ensures var (v, u) := ObtainStep(w, t, Issued(res)); GoodStep(w, t, v, u)
  {
    LearnOfJob(w, t.job, w.issues[t.job].(resource := Some(res)));
    LearnEdges(w, t, w.issues[t.job].(resource := Some(res)), t.(pc := MakeDir, res := res));
  }

  lemma LearnEdges(w: World, t: Thread, issue: Issue, u: Thread)
    requires t.job in w.issues && issue.finishLost == w.issues[t.job].finishLost
    requires JobsOk(w.jobs, w.issues, w.nextJob, w.records)
    requires OwnsJob(t.pc) && OwnsJob(u.pc) && u.record == t.record && u.job == t.job
    ensures var v := w.(issues := w.issues[t.job := issue]); SlotEdge(w, t, v, u) && JobEdge(w, t, v, u)
  {
  }

  lemma MakeDirKeeps(w: World, t: Thread, c: Choice)
    requires WorldOk(w) && ThreadOk(w, t) && t.pc.MakeDir?
    ensures var (v, u) := ThreadStep(w, t, c); GoodStep(w, t, v, u)
  {
    var (v, u) := ThreadStep(w, t, c);
    Quiet(w, t, v, u);
  }

  lemma WriteKeeps(w: World, t: Thread, c: Choice)
    requires WorldOk(w) && ThreadOk(w, t) && t.pc.Write?
    ensures var (v, u) := ThreadStep(w, t, c); GoodStep(w, t, v, u)
  {
    var (v, u) := WriteStep(w, t, t.pc.file, c);
    Quiet(w, t, v, u);
  }

  lemma ParseKeeps(w: World, t: Thread, c: Choice)
    requires WorldOk(w) && ThreadOk(w, t) && t.pc.Parse?
    ensures var (v, u) := ThreadStep(w, t, c); GoodStep(w, t, v, u)
  {
    if c.Parsed? {
      LeafParsed(w, t, c.leaf);
    } else {
      Quiet(w, t, w, t.(pc := MarkFailed));
    }
  }

  lemma LeafParsed(w: World, t: Thread, leaf: Leaf)
    requires WorldOk(w) && ThreadOk(w, t) && t.pc.Parse?
    ensures var (v, u) := ParseStep(w, t, Parsed(leaf)); GoodStep(w, t, v, u)
  {
    LearnOfJob(w, t.job, w.issues[t.job].(leaf := Some(leaf)));
    LearnEdges(w, t, w.issues[t.job].(leaf := Some(leaf)), t.(pc := Persist, leaf := leaf));
  }

  lemma PersistKeeps(w: World, t: Thread, c: Choice)
    requires WorldOk(w) && ThreadOk(w, t) && t.pc.Persist?
    ensures var (v, u) := ThreadStep(w, t, c); GoodStep(w, t, v, u)
  {
    var (v, u) := ThreadStep(w, t, c);
    if v == w {
      Quiet(w, t, w, u);
    } else {
      RowStep(w, t, IssuedRow(t), u);
    }
  }

  lemma FinishOkKeeps(w: World, t: Thread, c: Choice)
    requires WorldOk(w) && ThreadOk(w, t) && t.pc.FinishOk?
    ensures var (v, u) := ThreadStep(w, t, c); GoodStep(w, t, v, u)
  {
    FinishJobKeeps(w, t.record.id, t.job, Success, c);
    FinishEdges(w, t, Success, c, ListTasks);
  }

  // The thread lets go of its job.
  lemma FinishEdges(w: World, t: Thread, status: JobStatus, c: Choice, pc: Pc)
    requires WorldOk(w) && ThreadOk(w, t) && OwnsJob(t.pc) && status != Running
    requires (t.pc.FinishOk? && pc.ListTasks?) || (t.pc.FinishFailed? && pc.Release?)
    ensures var v, u := FinishJob(w, t.job, status, c), t.(pc := pc);
            ThreadOk(v, u) && SlotEdge(w, t, v, u) && JobEdge(w, t, v, u)
  {
    FinishThread(w, t, status, c, pc);
    FinishJobEdge(w, t, status, c, pc);
  }

  lemma FinishThread(w: World, t: Thread, status: JobStatus, c: Choice, pc: Pc)
    requires ThreadOk(w, t)
    requires (t.pc.FinishOk? && pc.ListTasks?) || (t.pc.FinishFailed? && pc.Release?)
    ensures ThreadOk(FinishJob(w, t.job, status, c), t.(pc := pc))
  {
  }

  lemma FinishJobEdge(w: World, t: Thread, status: JobStatus, c: Choice, pc: Pc)
    requires JobsOk(w.jobs, w.issues, w.nextJob, w.records) && status != Running
    requires OwnsJob(t.pc) && Holds(t.pc) && !OwnsJob(pc) && Holds(pc)
    ensures var v, u := FinishJob(w, t.job, status, c), t.(pc := pc);
            SlotEdge(w, t, v, u) && JobEdge(w, t, v, u)
  {
  }

  lemma ListTasksKeeps(w: World, t: Thread, c: Choice)
    requires WorldOk(w) && ThreadOk(w, t) && t.pc.ListTasks?
    ensures var (v, u) := ThreadStep(w, t, c); GoodStep(w, t, v, u)
  {
    var (v, u) := ThreadStep(w, t, c);
    Quiet(w, t, v, u);
  }

  lemma NextTaskKeeps(w: World, t: Thread, c: Choice)
    requires WorldOk(w) && ThreadOk(w, t) && t.pc.NextTask?
    ensures var (v, u) := ThreadStep(w, t, c); GoodStep(w, t, v, u)
  {
    var (v, u) := ThreadStep(w, t, c);
    Quiet(w, t, v, u);
  }

  // The row found for the record is the one the thread persisted, so its directory is the thread's.
  lemma LoadsOwnDirectory(w: World, t: Thread)
    requires CertsOk(w.certs, w.nextCert, w.records) && CertFacts(w.certs, w.nextCert, w.records, t)
    requires t.pc.LoadMaterial? && HasRow(w, t.record.id)
    ensures ParentDir(w.certs[RowOf(w, t.record.id)].certPath) == t.home
  {
    var row := RowOf(w, t.record.id);
    assert w.certs[row].record in w.records;
    assert row == t.cert;
    PathsOf(t);
  }

  lemma PathsOf(t: Thread)
    ensures ParentDir(IssuedRow(t).certPath) == t.home
  {
    ParentDirOf(t.home, "fullchain.pem");
    assert t.home + "/fullchain.pem" == t.home + "/" + "fullchain.pem";
  }

  lemma LoadMaterialKeeps(w: World, t: Thread, c: Choice)
    requires WorldOk(w) && ThreadOk(w, t) && t.pc.LoadMaterial?
    ensures var (v, u) := ThreadStep(w, t, c); GoodStep(w, t, v, u)
  {
    MaterialThread(w, t, c);
    Quiet(w, t, w, LoadMaterialStep(w, t, c).1);
  }

  lemma MaterialThread(w: World, t: Thread, c: Choice)
    requires WorldOk(w) && ThreadOk(w, t) && t.pc.LoadMaterial?
    ensures var (v, u) := LoadMaterialStep(w, t, c);
            v == w && ThreadOk(w, u) && Holds(u.pc) && !OwnsJob(u.pc) && u.record == t.record
  {
    if HasRow(w, t.record.id) {
      LoadsOwnDirectory(w, t);
    }
  }

  lemma ReadKeeps(w: World, t: Thread, c: Choice)
    requires WorldOk(w) && ThreadOk(w, t) && t.pc.Read?
    ensures var (v, u) := ThreadStep(w, t, c); GoodStep(w, t, v, u)
  {
    var (v, u) := ThreadStep(w, t, c);
    Quiet(w, t, v, u);
  }

  lemma PostKeeps(w: World, t: Thread, c: Choice)
    requires WorldOk(w) && ThreadOk(w, t) && t.pc.Post?
    ensures var (v, u) := ThreadStep(w, t, c); GoodStep(w, t, v, u)
  {
    var (v, u) := ThreadStep(w, t, c);
    Quiet(w, t, v, u);
  }

  lemma MarkFailedKeeps(w: World, t: Thread, c: Choice)
    requires WorldOk(w) && ThreadOk(w, t) && t.pc.MarkFailed?
    ensures var (v, u) := ThreadStep(w, t, c); GoodStep(w, t, v, u)
  {
    var (v, u) := ThreadStep(w, t, c);
    if v == w {
      Quiet(w, t, w, u);
    } else {
      RowStep(w, t, w.certs[t.cert].(status := Failed), u);
    }
  }

  lemma FinishFailedKeeps(w: World, t: Thread, c: Choice)
    requires WorldOk(w) && ThreadOk(w, t) && t.pc.FinishFailed?
    ensures var (v, u) := ThreadStep(w, t, c); GoodStep(w, t, v, u)
  {
    FinishJobKeeps(w, t.record.id, t.job, JobFailed, c);
    FinishEdges(w, t, JobFailed, c, Release);
  }

  lemma ReleaseKeeps(w: World, t: Thread, c: Choice)
    requires WorldOk(w) && ThreadOk(w, t) && t.pc.Release?
    ensures var (v, u) := ThreadStep(w, t, c); GoodStep(w, t, v, u)
  {
  }

  lemma ScanNextKeeps(w: World, t: Thread, c: Choice)
    requires WorldOk(w) && ThreadOk(w, t) && t.pc.ScanNext?
    ensures var (v, u) := ThreadStep(w, t, c); GoodStep(w, t, v, u)
  {
    Quiet(w, t, w, ScanNextStep(w, t, c));
  }

  lemma ScanKeeps(w: World, t: Thread, c: Choice)
    requires WorldOk(w) && ThreadOk(w, t) && (t.pc.ScanList? || t.pc.Done?)
    ensures var (v, u) := ThreadStep(w, t, c); GoodStep(w, t, v, u)
  {
    var (v, u) := ThreadStep(w, t, c);
    Quiet(w, t, v, u);
  }

  /** Every step keeps the tables right, re-establishes the facts its own thread relies on, and leaves
      other records alone. */
  lemma StepKeeps(w: World, t: Thread, c: Choice)
    requires WorldOk(w) && ThreadOk(w, t)
    ensures var (v, u) := ThreadStep(w, t, c); GoodStep(w, t, v, u)
  {
    match t.pc
    case Load => LoadKeeps(w, t, c);
    case Gate => GateKeeps(w, t, c);
    case Acquire => AcquireKeeps(w, t, c);
    case FindRow(_) => FindRowKeeps(w, t, c);
    case InsertRow(_) => InsertRowKeeps(w, t, c);
    case CreateJob => CreateJobKeeps(w, t, c);
    case Obtain => ObtainKeeps(w, t, c);
    case MakeDir => MakeDirKeeps(w, t, c);
    case Write(_) => WriteKeeps(w, t, c);
    case Parse => ParseKeeps(w, t, c);
    case Persist => PersistKeeps(w, t, c);
    case FinishOk => FinishOkKeeps(w, t, c);
    case ListTasks => ListTasksKeeps(w, t, c);
    case NextTask => NextTaskKeeps(w, t, c);
    case LoadMaterial => LoadMaterialKeeps(w, t, c);
    case Read(_) => ReadKeeps(w, t, c);
    case Post => PostKeeps(w, t, c);
    case MarkFailed => MarkFailedKeeps(w, t, c);
    case FinishFailed => FinishFailedKeeps(w, t, c);
    case Release => ReleaseKeeps(w, t, c);
    case ScanNext => ScanNextKeeps(w, t, c);
    case ScanList | Done => ScanKeeps(w, t, c);
  }

  // ----- the same step, seen by another thread

  lemma Stable(w: World, v: World, r: nat, u: Thread)
    requires WorldOk(w) && WorldOk(v) && Guarantee(w, v, r) && ThreadOk(w, u)
    requires Holds(u.pc) ==> u.record.id != r
    ensures ThreadOk(v, u)
  {
  }

  // ----- the whole system

  lemma OthersStable(s: System, tid: nat, c: Choice, other: nat)
    requires Inv(s) && tid in s.threads && other in s.threads && other != tid
    ensures ThreadOk(ThreadStep(s.w, s.threads[tid], c).0, s.threads[other])
  {
    var t, o := s.threads[tid], s.threads[other];
    var (v, u) := ThreadStep(s.w, t, c);
    StepKeeps(s.w, t, c);
    if v != s.w {
      Stable(s.w, v, u.record.id, o);
    }
  }

  lemma HoldersKept(s: System, tid: nat, v: World, u: Thread)
    requires Inv(s) && tid in s.threads && SlotEdge(s.w, s.threads[tid], v, u)
    ensures var after := System(v, s.threads[tid := u]);
            Exclusive(after) && forall r :: r in v.slots ==> HasHolder(after, r)
  {
    var after := System(v, s.threads[tid := u]);
    forall r | r in v.slots
      ensures HasHolder(after, r)
    {
      if Holds(u.pc) && u.record.id == r {
        assert after.threads[tid] == u;
      } else {
        assert HasHolder(s, r);
        var holder :| holder in s.threads && Holds(s.threads[holder].pc) && s.threads[holder].record.id == r;
        assert after.threads[holder] == s.threads[holder];
      }
    }
  }

  // A job that still runs after the step has its owner, or is taken over by the thread.
  lemma OwnerKept(s: System, tid: nat, v: World, u: Thread, j: nat)
    requires tid in s.threads && JobEdge(s.w, s.threads[tid], v, u)
    requires j in v.jobs && j in v.issues && v.jobs[j].status == Running && !v.issues[j].finishLost
    requires j in s.w.jobs && s.w.jobs[j].status == Running && j in s.w.issues && !s.w.issues[j].finishLost ==>
               HasOwner(s, j)
    requires OwnsJob(s.threads[tid].pc) && s.threads[tid].job == j && j in s.w.jobs ==> HasOwner(s, j)
    ensures HasOwner(System(v, s.threads[tid := u]), j)
  {
    var after := System(v, s.threads[tid := u]);
    if OwnsJob(u.pc) && u.job == j {
      assert after.threads[tid] == u;
    } else {
      assert j in s.w.jobs && HasOwner(s, j);
      var owner :| owner in s.threads && OwnsJob(s.threads[owner].pc) && s.threads[owner].job == j;
      assert after.threads[owner] == s.threads[owner];
    }
  }

  lemma OwnersKept(s: System, tid: nat, v: World, u: Thread)
    requires Inv(s) && tid in s.threads && WorldOk(v) && JobEdge(s.w, s.threads[tid], v, u)
    ensures var after := System(v, s.threads[tid := u]);
            forall j :: j in v.jobs && v.jobs[j].status == Running && !v.issues[j].finishLost ==> HasOwner(after, j)
  {
    forall j | j in v.jobs && v.jobs[j].status == Running && !v.issues[j].finishLost
      ensures HasOwner(System(v, s.threads[tid := u]), j)
    {
      OwnerKept(s, tid, v, u, j);
    }
  }

  lemma ThreadStepKeepsInv(s: System, tid: nat, c: Choice)
    requires Inv(s) && tid in s.threads
    ensures var (v, u) := ThreadStep(s.w, s.threads[tid], c); Inv(System(v, s.threads[tid := u]))
  {
    var (v, u) := ThreadStep(s.w, s.threads[tid], c);
    StepKeeps(s.w, s.threads[tid], c);
    HoldersKept(s, tid, v, u);
    OwnersKept(s, tid, v, u);
    forall other | other in s.threads && other != tid
      ensures ThreadOk(v, s.threads[other])
    {
      OthersStable(s, tid, c, other);
    }
  }

  lemma ThreadSurvivesCascade(w: World, id: nat, t: Thread)
    requires WorldOk(w) && ThreadOk(w, t)
    ensures ThreadOk(Cascade(w, id), t)
  {
  }

  // The tables may lose rows and records; slots, history and threads stay.
  lemma HoldersStay(s: System, v: World)
    requires Inv(s) && v.slots == s.w.slots
    ensures forall r :: r in v.slots ==> HasHolder(s.(w := v), r)
  {
    forall r | r in v.slots
      ensures HasHolder(s.(w := v), r)
    {
      assert HasHolder(s, r);
    }
  }

  lemma OwnersStay(s: System, v: World)
    requires Inv(s) && v.issues == s.w.issues
    requires forall j :: j in v.jobs ==> j in s.w.jobs && v.jobs[j] == s.w.jobs[j]
    ensures forall j :: j in v.jobs && v.jobs[j].status == Running && j in v.issues && !v.issues[j].finishLost ==>
              HasOwner(s.(w := v), j)
  {
    forall j | j in v.jobs && v.jobs[j].status == Running && j in v.issues && !v.issues[j].finishLost
      ensures HasOwner(s.(w := v), j)
    {
      assert HasOwner(s, j);
    }
  }

  lemma WorldSurvivesCascade(w: World, id: nat)
    requires WorldOk(w)
    ensures WorldOk(Cascade(w, id))
  {
  }

  lemma CascadeKeeps(s: System, id: nat)
    requires Inv(s)
    ensures Inv(s.(w := Cascade(s.w, id)))
  {
    var v := Cascade(s.w, id);
    WorldSurvivesCascade(s.w, id);
    forall tid | tid in s.threads
      ensures ThreadOk(v, s.threads[tid])
    {
      ThreadSurvivesCascade(s.w, id, s.threads[tid]);
    }
    HoldersStay(s, v);
    OwnersStay(s, v);
  }

  lemma RecordChangeKeeps(s: System, record: Record, nextRecord: nat)
    requires Inv(s) && s.w.nextRecord <= nextRecord && record.id < nextRecord
    requires record.id in s.w.records || s.w.nextRecord <= record.id
    ensures Inv(s.(w := s.w.(records := s.w.records[record.id := record], nextRecord := nextRecord)))
  {
    var v := s.w.(records := s.w.records[record.id := record], nextRecord := nextRecord);
    forall tid | tid in s.threads
      ensures ThreadOk(v, s.threads[tid])
    {
      ThreadSurvivesChange(s.w, v, record, s.threads[tid]);
    }
    HoldersStay(s, v);
    OwnersStay(s, v);
  }

  lemma ThreadSurvivesChange(w: World, v: World, record: Record, t: Thread)
    requires ThreadOk(w, t) && w.nextRecord <= v.nextRecord
    requires v == w.(records := w.records[record.id := record], nextRecord := v.nextRecord)
    requires record.id in w.records || w.nextRecord <= record.id
    ensures ThreadOk(v, t)
  {
  }

  lemma NewThreadOk(w: World, kind: Kind, target: nat)
    ensures ThreadOk(w, NewThread(kind, target)) && !Holds(NewThread(kind, target).pc)
  {
  }

  // A thread more changes nothing for those that hold slots or own jobs.
  lemma SpawnedAlongside(s: System, tid: nat, t: Thread)
    requires tid !in s.threads
    ensures var after := s.(threads := s.threads[tid := t]);
            && (forall r :: HasHolder(s, r) ==> HasHolder(after, r))
            && (forall j :: HasOwner(s, j) ==> HasOwner(after, j))
  {
    var after := s.(threads := s.threads[tid := t]);
    forall r | HasHolder(s, r)
      ensures HasHolder(after, r)
    {
      var holder :| holder in s.threads && Holds(s.threads[holder].pc) && s.threads[holder].record.id == r;
      assert after.threads[holder] == s.threads[holder];
    }
    forall j | HasOwner(s, j)
      ensures HasOwner(after, j)
    {
      var owner :| owner in s.threads && OwnsJob(s.threads[owner].pc) && s.threads[owner].job == j;
      assert after.threads[owner] == s.threads[owner];
    }
  }

  lemma SpawnKeeps(s: System, tid: nat, kind: Kind, target: nat)
    requires Inv(s) && tid !in s.threads
    ensures Inv(s.(threads := s.threads[tid := NewThread(kind, target)]))
  {
    NewThreadOk(s.w, kind, target);
    SpawnedAlongside(s, tid, NewThread(kind, target));
  }

  lemma AcmeKeeps(s: System, on: bool)
    requires Inv(s)
    ensures Inv(s.(w := s.w.(acme := on)))
  {
    var v := s.w.(acme := on);
    assert forall tid :: tid in s.threads ==> ThreadOk(s.w, s.threads[tid]);
    HoldersStay(s, v);
    OwnersStay(s, v);
  }

  /** Every action keeps the invariant. */
  lemma NextKeepsInv(s: System, a: Action)
    requires Inv(s) && Enabled(s, a)
    ensures Inv(Next(s, a))
  {
    match a
    case Spawn(tid, kind, target) => SpawnKeeps(s, tid, kind, target);
    case Step(tid, c) => ThreadStepKeepsInv(s, tid, c);
    case CreateRecord(r) => RecordChangeKeeps(s, r.(id := s.w.nextRecord), s.w.nextRecord + 1);
    case EditRecord(r) => RecordChangeKeeps(s, r, s.w.nextRecord);
    case DeleteRecord(id) => CascadeKeeps(s, id);
    case SetAcme(on) => AcmeKeeps(s, on);
  }

  /** The invariant holds in every state of every run. */
  lemma {:induction false} RunKeepsInv(states: seq<System>, actions: seq<Action>, n: nat)
    requires IsRun(states, actions) && n < |states|
    ensures Inv(states[n])
  {
    if n > 0 {
      RunKeepsInv(states, actions, n - 1);
      assert Follows(states, actions, n - 1);
      NextKeepsInv(states[n - 1], actions[n - 1]);
    }
  }

  lemma StateFollows(states: seq<System>, actions: seq<Action>, n: nat)
    requires IsRun(states, actions) && n < |actions|
    ensures Inv(states[n]) && Enabled(states[n], actions[n]) && states[n + 1] == Next(states[n], actions[n])
  {
    RunKeepsInv(states, actions, n);
    assert Follows(states, actions, n);
  }
}
