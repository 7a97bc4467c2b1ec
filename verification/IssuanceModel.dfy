/** Certificate issuance as a step machine (backend/pkg/dns/certificate.go, with the certificate
    tasks of backend/pkg/tasks/task.go).

    Threads share the in-memory slot map, the database tables and the certificate files. One step is
    one slot operation, one configuration read, one database statement, one file operation, one ACME
    order or one webhook request; any of them may fail, and steps of different threads interleave
    freely with each other and with changes to the records table. */
module IssuanceModel {
  import opened Common
  import opened CertificateNames
  import opened Tasks

  // What the ACME order returns: lego's certificate.Resource.
  datatype Resource = Resource(cert: string, issuer: string, key: string)

  // The fields of the parsed leaf certificate that are stored.
  datatype Leaf = Leaf(notBefore: int, notAfter: int, serial: string)

  datatype CertStatus = Pending | Valid | Failed

  // A row of the certificates table; None stands for NULL.
  datatype CertRow = CertRow(
    record: nat, status: CertStatus,
    notBefore: Option<int>, notAfter: Option<int>, serial: Option<string>,
    certPath: string, keyPath: string)

  datatype JobStatus = Running | Success | JobFailed

  datatype JobRow = JobRow(record: nat, cert: nat, status: JobStatus)

  // What goes into cert.pem, chain.pem, fullchain.pem and privkey.pem, in the order they are written and
  // read.
  function Contents(res: Resource): (pieces: seq<string>)
    ensures |pieces| == 4
  {
    [res.cert, res.issuer, res.cert + res.issuer, res.key]
  }

  // filepath.Dir for a path that holds a separator.
  function ParentDir(path: string): string {
    if path == "" then ""
    else if path[|path| - 1] == '/' then path[..|path| - 1]
    else ParentDir(path[..|path| - 1])
  }

  lemma {:induction false} ParentDirOf(dir: string, name: string)
    requires '/' !in name
    ensures ParentDir(dir + "/" + name) == dir
  {
    var path := dir + "/" + name;
    if name == "" {
      assert path[..|path| - 1] == dir;
    } else {
      var front := name[..|name| - 1];
      assert path[..|path| - 1] == dir + "/" + front;
      assert path[|path| - 1] == name[|name| - 1];
      ParentDirOf(dir, front);
    }
  }

  // What is remembered about each job ever created. The program keeps none of this: it is the
  // history that the properties speak about.
  datatype Issue = Issue(record: nat, resource: Option<Resource>, leaf: Option<Leaf>, finishLost: bool)

  // A webhook request made for a job, with the certificate material in its body, if any.
  datatype Delivery = Delivery(job: nat, task: Task, material: Option<seq<string>>)

  datatype World = World(
    acme: bool,
    slots: set<nat>,
    records: map<nat, Record>, nextRecord: nat,
    certs: map<nat, CertRow>, nextCert: nat,
    jobs: map<nat, JobRow>, nextJob: nat,
    files: map<(string, nat), string>,
    issues: map<nat, Issue>,
    deliveries: seq<Delivery>)

  // Who runs the issuance: StartIssuance and its goroutine, IssueCertificate, or the renewal scan.
  datatype Kind = Manual | Synchronous | Renewal

  datatype Pc =
    | Load | Gate | Acquire
    | FindRow(early: bool) | InsertRow(early: bool)
    | CreateJob | Obtain | MakeDir | Write(file: nat) | Parse | Persist | FinishOk
    | ListTasks | NextTask | LoadMaterial | Read(file: nat) | Post
    | MarkFailed | FinishFailed | Release
    | ScanList | ScanNext | Done

  // A row listed by the renewal scan.
  datatype Due = Due(cert: nat, record: nat, notAfter: int)

  datatype Thread = Thread(
    kind: Kind, pc: Pc,
    target: nat,            // the record id asked for
    record: Record,         // the snapshot that Load took
    cert: nat, job: nat, res: Resource, leaf: Leaf,
    tasks: seq<Task>,       // the tasks still to run
    home: string,           // the directory the files are written to
    dir: string,            // the directory the material is read from
    got: Option<seq<string>>,
    due: seq<Due>, next: nat, attempts: seq<nat>)

  datatype System = System(w: World, threads: map<nat, Thread>)

  // How the environment answers a step.
  datatype Choice =
    | Fails(junk: string)
    | Succeeds
    | Issued(res: Resource)
    | Parsed(leaf: Leaf)
    | Listed(tasks: seq<Task>)
    | DueRows(threshold: int, due: seq<Due>)

  datatype Action =
    | Spawn(tid: nat, kind: Kind, target: nat)
    | Step(tid: nat, choice: Choice)
    | CreateRecord(record: Record)
    | EditRecord(record: Record)
    | DeleteRecord(id: nat)
    | SetAcme(on: bool)

  // The program points in program order; the two failure points come after the tasks.
  function Point(pc: Pc): nat {
    match pc
    case Load => 0
    case Gate => 1
    case Acquire => 2
    case FindRow(_) => 3
    case InsertRow(_) => 4
    case CreateJob => 5
    case Obtain => 6
    case MakeDir => 7
    case Write(_) => 8
    case Parse => 9
    case Persist => 10
    case FinishOk => 11
    case ListTasks => 12
    case NextTask => 13
    case LoadMaterial => 14
    case Read(_) => 15
    case Post => 16
    case MarkFailed => 17
    case FinishFailed => 18
    case Release => 19
    case ScanList => 20
    case ScanNext => 21
    case Done => 22
  }

  // The program points between taking the slot and giving it back.
  predicate Holds(pc: Pc) {
    3 <= Point(pc) <= 19
  }

  ghost predicate HasRow(w: World, record: nat) {
    exists c :: c in w.certs && w.certs[c].record == record
  }

  // GetCertificateByRecord
  ghost function RowOf(w: World, record: nat): (c: nat)
    requires HasRow(w, record)
    ensures c in w.certs && w.certs[c].record == record
  {
    var c :| c in w.certs && w.certs[c].record == record;
    c
  }

  // Where a thread goes when its issuance is over or was turned down.
  function Ended(t: Thread): Thread {
    t.(pc := if t.kind.Renewal? then ScanNext else Done)
  }

  // ListCertificatesForRenewal: every row with an expiry up to the threshold, soonest first.
  ghost predicate IsDueList(w: World, threshold: int, due: seq<Due>) {
    && (forall i :: 0 <= i < |due| ==>
          && due[i].cert in w.certs
          && w.certs[due[i].cert].record == due[i].record
          && w.certs[due[i].cert].notAfter == Some(due[i].notAfter)
          && due[i].notAfter <= threshold)
    && (forall c :: c in w.certs && w.certs[c].notAfter.Some? && w.certs[c].notAfter.value <= threshold ==>
          exists i :: 0 <= i < |due| && due[i].cert == c)
    && (forall i, j :: 0 <= i < j < |due| ==> due[i].cert != due[j].cert && due[i].notAfter <= due[j].notAfter)
  }

  // The row that runIssuance persists.
  function IssuedRow(t: Thread): CertRow {
    CertRow(t.record.id, Valid, Some(t.leaf.notBefore), Some(t.leaf.notAfter), Some(t.leaf.serial),
            t.home + "/fullchain.pem", t.home + "/privkey.pem")
  }

  // ----- the steps, one function a program point

  function LoadStep(w: World, t: Thread, c: Choice): (World, Thread) {
    if c.Succeeds? && t.target in w.records
    then (w, t.(pc := Gate, record := w.records[t.target]))
    else (w, Ended(t))
  }

  function GateStep(w: World, t: Thread): (World, Thread) {
    if DoesCert(t.record.purpose) && w.acme then (w, t.(pc := Acquire)) else (w, Ended(t))
  }

  // pending.LoadOrStore
  function AcquireStep(w: World, t: Thread): (World, Thread) {
    var tried := if t.kind.Renewal? && t.next > 0 then t.(attempts := t.attempts + [t.next - 1]) else t;
    if t.record.id in w.slots then (w, Ended(tried))
    else (w.(slots := w.slots + {t.record.id}), tried.(pc := FindRow(t.kind.Manual?)))
  }

  // ensureCertificateRow is a lookup and, when there is no row, an insert. StartIssuance runs it
  // early, before its goroutine runs it again; every other issuance runs it once.
  ghost function FindRowStep(w: World, t: Thread, early: bool, c: Choice): (World, Thread) {
    if c.Fails? then (w, t.(pc := Release))
    else if !HasRow(w, t.record.id) then (w, t.(pc := InsertRow(early)))
    else if early then (w, t.(pc := FindRow(false)))
    else (w, t.(pc := CreateJob, cert := RowOf(w, t.record.id)))
  }

  // The foreign key refuses the row of a record deleted in the meantime.
  function InsertRowStep(w: World, t: Thread, early: bool, c: Choice): (World, Thread) {
    if c.Fails? || t.record.id !in w.records then (w, t.(pc := Release))
    else
      var row := CertRow(t.record.id, Pending, None, None, None, "", "");
      (w.(certs := w.certs[w.nextCert := row], nextCert := w.nextCert + 1),
       if early then t.(pc := FindRow(false)) else t.(pc := CreateJob, cert := w.nextCert))
  }

  function CreateJobStep(w: World, t: Thread, c: Choice): (World, Thread) {
    if c.Fails? || t.record.id !in w.records then (w, t.(pc := Release))
    else
      (w.(jobs := w.jobs[w.nextJob := JobRow(t.record.id, t.cert, Running)],
          issues := w.issues[w.nextJob := Issue(t.record.id, None, None, false)],
          nextJob := w.nextJob + 1),
       t.(pc := Obtain, job := w.nextJob))
  }

  function ObtainStep(w: World, t: Thread, c: Choice): (World, Thread) {
    if !c.Issued? || t.job !in w.issues then (w, t.(pc := MarkFailed))
    else
      (w.(issues := w.issues[t.job := w.issues[t.job].(resource := Some(c.res))]),
       t.(pc := MakeDir, res := c.res))
  }

  function MakeDirStep(t: Thread, c: Choice): Thread {
    if c.Fails? then t.(pc := MarkFailed) else t.(pc := Write(0), home := CertificateDir(t.record))
  }

  // A failed write may leave anything in the file.
  function WriteStep(w: World, t: Thread, i: nat, c: Choice): (World, Thread) {
    if i >= 4 then (w, t.(pc := MarkFailed))
    else
      var content := if c.Fails? then c.junk else Contents(t.res)[i];
      (w.(files := w.files[(t.home, i) := content]),
       t.(pc := if c.Fails? then MarkFailed else if i == 3 then Parse else Write(i + 1)))
  }

  function ParseStep(w: World, t: Thread, c: Choice): (World, Thread) {
    if !c.Parsed? || t.job !in w.issues then (w, t.(pc := MarkFailed))
    else
      (w.(issues := w.issues[t.job := w.issues[t.job].(leaf := Some(c.leaf))]),
       t.(pc := Persist, leaf := c.leaf))
  }

  function PersistStep(w: World, t: Thread, c: Choice): (World, Thread) {
    if c.Fails? then (w, t.(pc := MarkFailed))
    else (if t.cert in w.certs then w.(certs := w.certs[t.cert := IssuedRow(t)]) else w, t.(pc := FinishOk))
  }

  // UPDATE certificate_jobs ... WHERE id = job; the row is gone when the record was deleted.
  function FinishJob(w: World, job: nat, status: JobStatus, c: Choice): World {
    if c.Fails? then
      if job in w.issues then w.(issues := w.issues[job := w.issues[job].(finishLost := true)]) else w
    else if job in w.jobs then w.(jobs := w.jobs[job := w.jobs[job].(status := status)])
    else w
  }

  function MarkFailedStep(w: World, t: Thread, c: Choice): (World, Thread) {
    (if c.Fails? || t.cert !in w.certs then w
     else w.(certs := w.certs[t.cert := w.certs[t.cert].(status := Failed)]),
     t.(pc := FinishFailed))
  }

  // pending.Delete
  function ReleaseStep(w: World, t: Thread): (World, Thread) {
    (w.(slots := w.slots - {t.record.id}), Ended(t))
  }

  ghost function LoadMaterialStep(w: World, t: Thread, c: Choice): (World, Thread) {
    if c.Fails? || !HasRow(w, t.record.id) then (w, Skip(t))
    else
      var row := w.certs[RowOf(w, t.record.id)];
      if row.certPath == "" || row.keyPath == "" then (w, Skip(t))
      else (w, t.(pc := Read(0), dir := ParentDir(row.certPath), got := Some([])))
  }

  function ReadStep(w: World, t: Thread, i: nat, c: Choice): (World, Thread) {
    if c.Fails? || i >= 4 || (t.dir, i) !in w.files || t.got.None? then (w, Skip(t))
    else (w, t.(pc := if i == 3 then Post else Read(i + 1), got := Some(t.got.value + [w.files[(t.dir, i)]])))
  }

  // A failure here is one of rendering the body; a failed request may still have arrived.
  function PostStep(w: World, t: Thread, c: Choice): (World, Thread) {
    if c.Fails? || t.tasks == [] then (w, Skip(t))
    else (w.(deliveries := w.deliveries + [Delivery(t.job, t.tasks[0], t.got)]), Skip(t))
  }

  // The task at hand is over, the next one follows.
  function Skip(t: Thread): Thread {
    t.(pc := NextTask, tasks := if t.tasks == [] then [] else t.tasks[1..])
  }

  function NextTaskStep(t: Thread): Thread {
    if t.tasks == [] then t.(pc := Release)
    else t.(pc := if t.tasks[0].includeCertificate then LoadMaterial else Post, got := None)
  }

  function ScanNextStep(w: World, t: Thread, c: Choice): Thread {
    if t.next >= |t.due| then t.(pc := Done)
    else
      var id := t.due[t.next].record;
      if c.Succeeds? && id in w.records && DoesCert(w.records[id].purpose)
      then t.(pc := Gate, record := w.records[id], next := t.next + 1)
      else t.(next := t.next + 1)
  }

  ghost function ThreadStep(w: World, t: Thread, c: Choice): (World, Thread) {
    match t.pc
    case Load => LoadStep(w, t, c)
    case Gate => GateStep(w, t)
    case Acquire => AcquireStep(w, t)
    case FindRow(early) => FindRowStep(w, t, early, c)
    case InsertRow(early) => InsertRowStep(w, t, early, c)
    case CreateJob => CreateJobStep(w, t, c)
    case Obtain => ObtainStep(w, t, c)
    case MakeDir => (w, MakeDirStep(t, c))
    case Write(i) => WriteStep(w, t, i, c)
    case Parse => ParseStep(w, t, c)
    case Persist => PersistStep(w, t, c)
    case FinishOk => (FinishJob(w, t.job, Success, c), t.(pc := ListTasks))
    case ListTasks =>
      (w, if c.Listed? then t.(pc := NextTask, tasks := Matching(c.tasks, TRIGGER_CERT)) else t.(pc := Release))
    case NextTask => (w, NextTaskStep(t))
    case LoadMaterial => LoadMaterialStep(w, t, c)
    case Read(i) => ReadStep(w, t, i, c)
    case Post => PostStep(w, t, c)
    case MarkFailed => MarkFailedStep(w, t, c)
    case FinishFailed => (FinishJob(w, t.job, JobFailed, c), t.(pc := Release))
    case Release => ReleaseStep(w, t)
    case ScanList =>
      (w, if w.acme && c.DueRows? then t.(pc := ScanNext, due := c.due, next := 0, attempts := []) else t.(pc := Done))
    case ScanNext => (w, ScanNextStep(w, t, c))
    case Done => (w, t)
  }

  function NewThread(kind: Kind, target: nat): Thread {
    Thread(kind, if kind.Renewal? then ScanList else Load, target,
           Record(0, 0, "", "", 0, 0, false), 0, 0, Resource("", "", ""), Leaf(0, 0, ""),
           [], "", "", None, [], 0, [])
  }

  // Deleting a record takes its certificate and its jobs along.
  ghost function Cascade(w: World, id: nat): World {
    w.(records := w.records - {id},
       certs := map c | c in w.certs && w.certs[c].record != id :: w.certs[c],
       jobs := map j | j in w.jobs && w.jobs[j].record != id :: w.jobs[j])
  }

  ghost predicate Enabled(s: System, a: Action) {
    match a
    case Spawn(tid, _, _) => tid !in s.threads
    case Step(tid, c) =>
      && tid in s.threads
      && (s.threads[tid].pc.ScanList? && c.DueRows? ==> IsDueList(s.w, c.threshold, c.due))
    case CreateRecord(_) => true
    case EditRecord(r) => r.id in s.w.records
    case DeleteRecord(id) => id in s.w.records
    case SetAcme(_) => true
  }

  ghost function Next(s: System, a: Action): System
    requires Enabled(s, a)
  {
    match a
    case Spawn(tid, kind, target) => s.(threads := s.threads[tid := NewThread(kind, target)])
    case Step(tid, c) =>
      var (w, t) := ThreadStep(s.w, s.threads[tid], c);
      System(w, s.threads[tid := t])
    case CreateRecord(r) =>
      s.(w := s.w.(records := s.w.records[s.w.nextRecord := r.(id := s.w.nextRecord)],
                   nextRecord := s.w.nextRecord + 1))
    case EditRecord(r) => s.(w := s.w.(records := s.w.records[r.id := r]))
    case DeleteRecord(id) => s.(w := Cascade(s.w, id))
    case SetAcme(on) => s.(w := s.w.(acme := on))
  }

  ghost predicate RecordsOk(records: map<nat, Record>, nextRecord: nat) {
    forall r :: r in records ==> r < nextRecord && records[r].id == r
  }

  ghost predicate CertsOk(certs: map<nat, CertRow>, nextCert: nat, records: map<nat, Record>) {
    && (forall c :: c in certs ==> c < nextCert && certs[c].record in records)
    && (forall c, d :: c in certs && d in certs && certs[c].record == certs[d].record ==> c == d)
    && (forall c :: c in certs && certs[c].status.Valid? ==> FullyIssued(certs[c]))
  }

  ghost predicate JobsOk(jobs: map<nat, JobRow>, issues: map<nat, Issue>, nextJob: nat, records: map<nat, Record>) {
    && (forall j :: j in issues ==> j < nextJob)
    && (forall j :: j in jobs ==> j in issues && issues[j].record == jobs[j].record && jobs[j].record in records)
    && (forall j :: j in jobs && issues[j].finishLost ==> jobs[j].status == Running)
  }

  /** What the tables always satisfy. */
  ghost predicate WorldOk(w: World) {
    && RecordsOk(w.records, w.nextRecord)
    && CertsOk(w.certs, w.nextCert, w.records)
    && JobsOk(w.jobs, w.issues, w.nextJob, w.records)
  }

  // A valid row carries its dates, serial and both paths.
  predicate FullyIssued(row: CertRow) {
    row.notBefore.Some? && row.notAfter.Some? && row.serial.Some? && row.certPath != "" && row.keyPath != ""
  }

  /** A freshly started process: no slot, no thread, no request made yet. Jobs that a killed process
      left running are entered in the history as never finished. */
  ghost predicate Initial(s: System) {
    && s.threads == map[]
    && s.w.slots == {}
    && s.w.deliveries == []
    && WorldOk(s.w)
    && (forall j :: j in s.w.jobs && s.w.jobs[j].status == Running ==> s.w.issues[j].finishLost)
  }

  /** states is a run of the system under the given actions. */
  ghost predicate IsRun(states: seq<System>, actions: seq<Action>) {
    && |states| == |actions| + 1
    && Initial(states[0])
    && (forall i :: 0 <= i < |actions| ==> Follows(states, actions, i))
  }

  // Action i leads from state i to the next one.
  ghost predicate Follows(states: seq<System>, actions: seq<Action>, i: nat)
    requires i < |actions| < |states|
  {
    Enabled(states[i], actions[i]) && states[i + 1] == Next(states[i], actions[i])
  }
}
