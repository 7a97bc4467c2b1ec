/** An issuance that nothing goes wrong for does all of its work, whoever started it: the order is written to
    the four files, stored in the certificate row, recorded as a success, handed to every matching task, and
    the slot is free again. Nothing else is touched. */
module IssuanceCompletion {
  import opened Common
  import opened CertificateNames
  import opened Tasks
  import opened IssuanceModel
  import opened IssuanceSafety
  import opened IssuanceWitnesses

  // The slot is free, and the thread may take it.
  ghost predicate MayStart(s: System, tid: nat) {
    && tid in s.threads && s.threads[tid].pc.Gate? && s.w.acme
    && DoesCert(s.threads[tid].record.purpose) && s.threads[tid].record.id in s.w.records
    && s.threads[tid].record.id !in s.w.slots
  }

  lemma Take(h: History, s: System, tid: nat) returns (after: System)
    requires Reach(h, s) && MayStart(s, tid)
    ensures Reach(h, after) && tid in after.threads
    ensures var t := s.threads[tid];
            && after.w == s.w.(slots := s.w.slots + {t.record.id})
            && after.threads
               == s.threads[tid := t.(pc := FindRow(t.kind.Manual?), attempts := after.threads[tid].attempts)]
  {
    var s1 := Advance(h, s, tid, Succeeds);
    assert s1.w == s.w && s1.threads[tid] == s.threads[tid].(pc := Acquire);
    after := Advance(h, s1, tid, Succeeds);
  }

  // The certificate row of the record is found or made.
  ghost predicate RowReady(w: World, v: World, r: nat, c: nat) {
    && c in v.certs && v.certs[c].record == r
    && v == w.(certs := v.certs, nextCert := v.nextCert)
    && (forall d :: d in w.certs ==> d in v.certs && v.certs[d] == w.certs[d])
    && (forall d :: d in v.certs && d != c ==> d in w.certs)
  }

  lemma FindNow(h: History, s: System, tid: nat) returns (after: System)
    requires Reach(h, s) && tid in s.threads && s.threads[tid].pc == FindRow(false)
    requires s.threads[tid].record.id in s.w.records
    ensures Reach(h, after) && tid in after.threads
    ensures var u := after.threads[tid];
            && after.threads == s.threads[tid := s.threads[tid].(pc := CreateJob, cert := u.cert)]
            && RowReady(s.w, after.w, u.record.id, u.cert)
  {
    assert WorldOk(s.w) by {
      ReachInv(h, s);
    }
    after := Advance(h, s, tid, Succeeds);
    if after.threads[tid].pc != CreateJob {
      after := Advance(h, after, tid, Succeeds);
    }
  }

  lemma GetRow(h: History, s: System, tid: nat) returns (after: System)
    requires Reach(h, s) && tid in s.threads && s.threads[tid].pc.FindRow?
    requires s.threads[tid].record.id in s.w.records
    ensures Reach(h, after) && tid in after.threads
    ensures var u := after.threads[tid];
            && after.threads == s.threads[tid := s.threads[tid].(pc := CreateJob, cert := u.cert)]
            && RowReady(s.w, after.w, u.record.id, u.cert)
  {
    if s.threads[tid].pc.early {
      var s1 := FindOrInsert(h, s, tid);
      after := FindNow(h, s1, tid);
      FoundAgain(h, s, s1, after, s.threads[tid].record.id, after.threads[tid].cert);
    } else {
      after := FindNow(h, s, tid);
    }
  }

  lemma FoundAgain(h: History, s: System, s1: System, after: System, r: nat, c: nat)
    requires Reach(h, s1) && HasRow(s1.w, r) && RowReady(s1.w, after.w, r, c) && Reach(h, after)
    requires s1.w == s.w.(certs := s1.w.certs, nextCert := s1.w.nextCert)
    requires forall d :: d in s.w.certs ==> d in s1.w.certs && s1.w.certs[d] == s.w.certs[d]
    requires forall d :: d in s1.w.certs && d !in s.w.certs ==> s1.w.certs[d].record == r
    ensures RowReady(s.w, after.w, r, c)
  {
    ReachInv(h, after);
    assert CertsOk(after.w.certs, after.w.nextCert, after.w.records);
    forall d | d in after.w.certs && d != c
      ensures d in s.w.certs
    {
      assert d in s1.w.certs && after.w.certs[d] == s1.w.certs[d];
    }
  }

  // What the issuance leaves of its order.
  ghost predicate Stored(w: World, v: World, r: nat, c: nat, job: nat, dir: string, res: Resource, leaf: Leaf) {
    && v.certs == w.certs[c := CertRow(r, Valid, Some(leaf.notBefore), Some(leaf.notAfter), Some(leaf.serial),
                                       dir + "/fullchain.pem", dir + "/privkey.pem")]
    && v.jobs == w.jobs[job := JobRow(r, c, Success)]
    && v.files == w.files[(dir, 0) := res.cert][(dir, 1) := res.issuer]
                         [(dir, 2) := res.cert + res.issuer][(dir, 3) := res.key]
    && v == w.(certs := v.certs, jobs := v.jobs, files := v.files, issues := v.issues, nextJob := w.nextJob + 1)
  }

  // From creating the job to having written the files.
  lemma WriteOrder(h: History, s: System, tid: nat, res: Resource) returns (after: System)
    requires Reach(h, s) && tid in s.threads && s.threads[tid].pc == CreateJob
    requires s.threads[tid].record.id in s.w.records
    ensures Reach(h, after) && tid in after.threads
    ensures var t, dir := s.threads[tid], CertificateDir(s.threads[tid].record);
            && after.threads
               == s.threads[tid := t.(pc := Parse, job := s.w.nextJob, res := res, home := dir)]
            && s.w.nextJob in after.w.issues
            && after.w == s.w.(jobs := s.w.jobs[s.w.nextJob := JobRow(t.record.id, t.cert, Running)],
                               files := s.w.files[(dir, 0) := res.cert][(dir, 1) := res.issuer]
                                                 [(dir, 2) := res.cert + res.issuer][(dir, 3) := res.key],
                               issues := after.w.issues, nextJob := s.w.nextJob + 1)
  {
    var s1 := Create(h, s, tid);
    var s2 := Order(h, s1, tid, res);
    var s3 := WriteOne(h, s2, tid, 0);
    var s4 := WriteOne(h, s3, tid, 1);
    var s5 := WriteOne(h, s4, tid, 2);
    after := WriteOne(h, s5, tid, 3);
  }

  // From parsing the leaf to listing the tasks.
  lemma StoreOrder(h: History, s: System, tid: nat, leaf: Leaf, ts: seq<Task>) returns (after: System)
    requires Reach(h, s) && tid in s.threads && s.threads[tid].pc == Parse
    requires var t := s.threads[tid]; t.job in s.w.issues && t.cert in s.w.certs && t.job in s.w.jobs
    ensures Reach(h, after) && tid in after.threads
    ensures var t := s.threads[tid];
            && after.threads == s.threads[tid := t.(pc := NextTask, leaf := leaf, tasks := Matching(ts, TRIGGER_CERT))]
            && after.w == s.w.(certs := s.w.certs[t.cert := IssuedRow(t.(leaf := leaf))],
                               jobs := s.w.jobs[t.job := s.w.jobs[t.job].(status := Success)],
                               issues := after.w.issues)
  {
    var t := s.threads[tid];
    var s1 := Advance(h, s, tid, Parsed(leaf));
    assert s1.threads[tid] == t.(pc := Persist, leaf := leaf);
    var s2 := Advance(h, s1, tid, Succeeds);
    assert s2.threads[tid] == t.(pc := FinishOk, leaf := leaf);
    var s3 := Advance(h, s2, tid, Succeeds);
    assert s3.threads[tid] == t.(pc := ListTasks, leaf := leaf);
    after := Advance(h, s3, tid, Listed(ts));
  }

  // ----- the tasks

  function Sent(job: nat, task: Task, pieces: seq<string>): Delivery {
    Delivery(job, task, if task.includeCertificate then Some(pieces) else None)
  }

  // The requests for the tasks, in order.
  function AllSent(job: nat, tasks: seq<Task>, pieces: seq<string>): (d: seq<Delivery>)
    ensures |d| == |tasks| && forall k :: 0 <= k < |tasks| ==> d[k] == Sent(job, tasks[k], pieces)
  {
    seq(|tasks|, k requires 0 <= k < |tasks| => Sent(job, tasks[k], pieces))
  }

  // The thread has its files and its row, and takes up the next task.
  ghost predicate AtTasks(s: System, tid: nat, pieces: seq<string>) {
    && tid in s.threads && s.threads[tid].pc == NextTask && |pieces| == 4
    && s.threads[tid].record.id in s.w.records
    && (forall i :: 0 <= i < 4 ==>
          (s.threads[tid].home, i) in s.w.files && s.w.files[(s.threads[tid].home, i)] == pieces[i])
  }

  // A step later: the same but for the task at hand.
  ghost predicate SameThread(t: Thread, u: Thread) {
    u == t.(pc := u.pc, tasks := u.tasks, dir := u.dir, got := u.got)
  }

  // The request for the first task has been made.
  ghost predicate TaskSent(s: System, after: System, tid: nat, pieces: seq<string>) {
    tid in s.threads && tid in after.threads && s.threads[tid].tasks != []
    && var t := s.threads[tid];
       && SameThread(t, after.threads[tid]) && after.threads[tid].tasks == t.tasks[1..]
       && after.threads == s.threads[tid := after.threads[tid]]
       && after.w == s.w.(deliveries := s.w.deliveries + [Sent(t.job, t.tasks[0], pieces)])
  }

  // The requests for all of them have been made.
  ghost predicate TasksSent(s: System, after: System, tid: nat, pieces: seq<string>) {
    tid in s.threads && tid in after.threads
    && var t := s.threads[tid];
       && SameThread(t, after.threads[tid]) && after.threads[tid].tasks == []
       && after.threads == s.threads[tid := after.threads[tid]]
       && after.w == s.w.(deliveries := s.w.deliveries + AllSent(t.job, t.tasks, pieces))
  }

  lemma OneAndOthers(s: System, s1: System, after: System, tid: nat, pieces: seq<string>)
    requires TaskSent(s, s1, tid, pieces) && TasksSent(s1, after, tid, pieces)
    ensures TasksSent(s, after, tid, pieces)
  {
    var t, u := s.threads[tid], s1.threads[tid];
    assert u.job == t.job && u.tasks == t.tasks[1..];
    FirstSent(s.w.deliveries, t.job, t.tasks, pieces);
    assert after.threads == s.threads[tid := after.threads[tid]];
    assert after.w == s.w.(deliveries := s1.w.deliveries + AllSent(t.job, t.tasks[1..], pieces));
  }

  lemma FirstSent(before: seq<Delivery>, job: nat, tasks: seq<Task>, pieces: seq<string>)
    requires tasks != []
    ensures before + [Sent(job, tasks[0], pieces)] + AllSent(job, tasks[1..], pieces)
         == before + AllSent(job, tasks, pieces)
  {
    var first, others := [Sent(job, tasks[0], pieces)], AllSent(job, tasks[1..], pieces);
    AllSentIs(job, tasks, pieces, first + others);
    Regroup(before, first, others);
  }

  lemma AllSentIs(job: nat, tasks: seq<Task>, pieces: seq<string>, d: seq<Delivery>)
    requires |d| == |tasks| && forall k :: 0 <= k < |tasks| ==> d[k] == Sent(job, tasks[k], pieces)
    ensures AllSent(job, tasks, pieces) == d
  {
  }

  lemma Regroup<T>(a: seq<T>, b: seq<T>, c: seq<T>)
    ensures a + b + c == a + (b + c)
  {
  }

  lemma SendPlain(h: History, s: System, tid: nat, pieces: seq<string>) returns (after: System)
    requires Reach(h, s) && AtTasks(s, tid, pieces) && s.threads[tid].tasks != []
    requires !s.threads[tid].tasks[0].includeCertificate
    ensures Reach(h, after) && AtTasks(after, tid, pieces) && TaskSent(s, after, tid, pieces)
  {
    var t := s.threads[tid];
    var s1 := Advance(h, s, tid, Succeeds);
    assert s1.w == s.w && s1.threads[tid] == t.(pc := Post, got := None);
    after := Advance(h, s1, tid, Succeeds);
  }

  lemma SendMaterial(h: History, s: System, tid: nat, pieces: seq<string>) returns (after: System)
    requires Reach(h, s) && AtTasks(s, tid, pieces) && s.threads[tid].tasks != []
    requires s.threads[tid].tasks[0].includeCertificate
    ensures Reach(h, after) && AtTasks(after, tid, pieces) && TaskSent(s, after, tid, pieces)
  {
    var s1 := OpenMaterial(h, s, tid);
    var s2 := ReadFour(h, s1, tid, pieces);
    after := Advance(h, s2, tid, Succeeds);
  }

  lemma OpenMaterial(h: History, s: System, tid: nat) returns (after: System)
    requires Reach(h, s) && tid in s.threads && s.threads[tid].pc == NextTask && s.threads[tid].tasks != []
    requires s.threads[tid].tasks[0].includeCertificate && s.threads[tid].record.id in s.w.records
    ensures Reach(h, after) && after.w == s.w
    ensures var t := s.threads[tid];
            after.threads == s.threads[tid := t.(pc := Read(0), dir := t.home, got := Some([]))]
  {
    var s1 := Advance(h, s, tid, Succeeds);
    assert s1.w == s.w && s1.threads[tid] == s.threads[tid].(pc := LoadMaterial, got := None);
    assert WorldOk(s1.w) && ThreadOk(s1.w, s1.threads[tid]) by {
      ReachInv(h, s1);
    }
    after := FindMaterial(h, s1, tid);
  }

  lemma ReadFour(h: History, s: System, tid: nat, pieces: seq<string>) returns (after: System)
    requires Reach(h, s) && tid in s.threads && |pieces| == 4
    requires s.threads[tid].pc == Read(0) && s.threads[tid].got == Some([])
    requires forall i :: 0 <= i < 4 ==>
               (s.threads[tid].dir, i) in s.w.files && s.w.files[(s.threads[tid].dir, i)] == pieces[i]
    ensures Reach(h, after) && after.w == s.w
    ensures after.threads == s.threads[tid := s.threads[tid].(pc := Post, got := Some(pieces))]
  {
    assert pieces[..0] == [] && pieces[..4] == pieces;
    var s1 := ReadOne(h, s, tid, pieces, 0);
    var s2 := ReadOne(h, s1, tid, pieces, 1);
    var s3 := ReadOne(h, s2, tid, pieces, 2);
    after := ReadOne(h, s3, tid, pieces, 3);
  }

  lemma SendOne(h: History, s: System, tid: nat, pieces: seq<string>) returns (after: System)
    requires Reach(h, s) && AtTasks(s, tid, pieces) && s.threads[tid].tasks != []
    ensures Reach(h, after) && AtTasks(after, tid, pieces) && TaskSent(s, after, tid, pieces)
  {
    if s.threads[tid].tasks[0].includeCertificate {
      after := SendMaterial(h, s, tid, pieces);
    } else {
      after := SendPlain(h, s, tid, pieces);
    }
  }

  lemma {:induction false} SendAll(h: History, s: System, tid: nat, pieces: seq<string>) returns (after: System)
    requires Reach(h, s) && AtTasks(s, tid, pieces)
    ensures Reach(h, after) && AtTasks(after, tid, pieces) && TasksSent(s, after, tid, pieces)
    decreases |s.threads[tid].tasks|
  {
    var t := s.threads[tid];
    if t.tasks == [] {
      assert s.w.deliveries + AllSent(t.job, [], pieces) == s.w.deliveries;
      after := s;
    } else {
      var s1 := SendOne(h, s, tid, pieces);
      after := SendAll(h, s1, tid, pieces);
      OneAndOthers(s, s1, after, tid, pieces);
    }
  }

  // ----- the whole

  // From the row to the last request.
  lemma IssueAll(h: History, s: System, tid: nat, res: Resource, leaf: Leaf, ts: seq<Task>) returns (after: System)
    requires Reach(h, s) && tid in s.threads && s.threads[tid].pc == CreateJob
    requires var t := s.threads[tid]; t.record.id in s.w.records && t.cert in s.w.certs
    ensures Reach(h, after) && tid in after.threads
    ensures var t, u, dir := s.threads[tid], after.threads[tid], CertificateDir(s.threads[tid].record);
            var pieces := [res.cert, res.issuer, res.cert + res.issuer, res.key];
            && after.threads == s.threads[tid := u]
            && u.pc == NextTask && u.tasks == [] && u.record == t.record && u.kind == t.kind
            && u.due == t.due && u.next == t.next && u.attempts == t.attempts
            && Stored(s.w.(deliveries := after.w.deliveries), after.w, t.record.id, t.cert, s.w.nextJob, dir, res, leaf)
            && after.w.deliveries == s.w.deliveries + AllSent(s.w.nextJob, Matching(ts, TRIGGER_CERT), pieces)
  {
    var s1 := IssueAndStore(h, s, tid, res, leaf, ts);
    after := SendAll(h, s1, tid, [res.cert, res.issuer, res.cert + res.issuer, res.key]);
    var t := s.threads[tid];
    SentAfterwards(
      s.w, s1.w, t.record.id, t.cert, s.w.nextJob, CertificateDir(t.record), res, leaf, after.w.deliveries);
  }

  lemma IssueAndStore(h: History, s: System, tid: nat, res: Resource, leaf: Leaf, ts: seq<Task>)
    returns (after: System)
    requires Reach(h, s) && tid in s.threads && s.threads[tid].pc == CreateJob
    requires var t := s.threads[tid]; t.record.id in s.w.records && t.cert in s.w.certs
    ensures Reach(h, after) && AtTasks(after, tid, [res.cert, res.issuer, res.cert + res.issuer, res.key])
    ensures var t, dir := s.threads[tid], CertificateDir(s.threads[tid].record);
            && after.threads
               == s.threads[tid := t.(pc := NextTask, job := s.w.nextJob, res := res, home := dir, leaf := leaf,
                                      tasks := Matching(ts, TRIGGER_CERT))]
            && Stored(s.w, after.w, t.record.id, t.cert, s.w.nextJob, dir, res, leaf)
  {
    var s1 := WriteOrder(h, s, tid, res);
    after := StoreOrder(h, s1, tid, leaf, ts);
    OrderStored(s, s1, after, tid, res, leaf);
    var t := s.threads[tid];
    StoredFiles(s.w, after.w, t.record.id, t.cert, s.w.nextJob, CertificateDir(t.record), res, leaf);
  }

  lemma StoredFiles(w: World, v: World, r: nat, c: nat, job: nat, dir: string, res: Resource, leaf: Leaf)
    requires Stored(w, v, r, c, job, dir, res, leaf)
    ensures v.records == w.records
    ensures var pieces := [res.cert, res.issuer, res.cert + res.issuer, res.key];
            forall i :: 0 <= i < 4 ==> (dir, i) in v.files && v.files[(dir, i)] == pieces[i]
  {
  }

  lemma SentAfterwards(
    w: World, v: World, r: nat, c: nat, job: nat, dir: string, res: Resource, leaf: Leaf, deliveries: seq<Delivery>)
    requires Stored(w, v, r, c, job, dir, res, leaf)
    ensures Stored(w.(deliveries := deliveries), v.(deliveries := deliveries), r, c, job, dir, res, leaf)
  {
  }

  lemma OrderStored(s: System, s1: System, s2: System, tid: nat, res: Resource, leaf: Leaf)
    requires tid in s.threads && tid in s1.threads
    requires var t, dir := s.threads[tid], CertificateDir(s.threads[tid].record);
             && s1.threads[tid] == t.(pc := Parse, job := s.w.nextJob, res := res, home := dir)
             && s1.w == s.w.(jobs := s.w.jobs[s.w.nextJob := JobRow(t.record.id, t.cert, Running)],
                             files := s.w.files[(dir, 0) := res.cert][(dir, 1) := res.issuer]
                                               [(dir, 2) := res.cert + res.issuer][(dir, 3) := res.key],
                             issues := s1.w.issues, nextJob := s.w.nextJob + 1)
    requires var t := s1.threads[tid];
             && t.job in s1.w.jobs
             && s2.w == s1.w.(certs := s1.w.certs[t.cert := IssuedRow(t.(leaf := leaf))],
                              jobs := s1.w.jobs[t.job := s1.w.jobs[t.job].(status := Success)],
                              issues := s2.w.issues)
    ensures var t := s.threads[tid];
            Stored(s.w, s2.w, t.record.id, t.cert, s.w.nextJob, CertificateDir(t.record), res, leaf)
  {
    var job := s.w.nextJob;
    assert s2.w.jobs == s.w.jobs[job := JobRow(s.threads[tid].record.id, s.threads[tid].cert, Success)];
  }

  /** Completion. Whatever else is going on, an issuance of any kind that passes the gate with its slot free,
      and to which every step is answered, ends with the slots as before, the four files in the directory of
      its record, a valid certificate row with the dates and serial of the leaf and the paths of the files, a
      successful job, and one request for each listed task with the certificate trigger or both, in order,
      with the four pieces exactly if the task includes the certificate. A renewal goes on with its list. */
  lemma IssuanceCompletes(h: History, s: System, tid: nat, res: Resource, leaf: Leaf, ts: seq<Task>)
    returns (after: System, c: nat)
    requires Reach(h, s) && MayStart(s, tid)
    ensures Reach(h, after) && tid in after.threads
    ensures var t, u, dir := s.threads[tid], after.threads[tid], CertificateDir(s.threads[tid].record);
            var pieces := [res.cert, res.issuer, res.cert + res.issuer, res.key];
            && after.threads == s.threads[tid := u]
            && u.pc == (if t.kind.Renewal? then ScanNext else Done) && u.kind == t.kind
            && u.due == t.due && u.next == t.next
            && after.w.slots == s.w.slots && after.w.records == s.w.records && after.w.acme == s.w.acme
            && c in after.w.certs
            && after.w.certs[c] == CertRow(t.record.id, Valid, Some(leaf.notBefore), Some(leaf.notAfter),
                                           Some(leaf.serial), dir + "/fullchain.pem", dir + "/privkey.pem")
            && (forall d :: d in s.w.certs && d != c ==> d in after.w.certs && after.w.certs[d] == s.w.certs[d])
            && (forall d :: d in after.w.certs && d != c ==> d in s.w.certs)
            && after.w.jobs == s.w.jobs[s.w.nextJob := JobRow(t.record.id, c, Success)]
            && after.w.files == s.w.files[(dir, 0) := pieces[0]][(dir, 1) := pieces[1]]
                                         [(dir, 2) := pieces[2]][(dir, 3) := pieces[3]]
            && after.w.deliveries == s.w.deliveries + AllSent(s.w.nextJob, Matching(ts, TRIGGER_CERT), pieces)
  {
    var s1 := Take(h, s, tid);
    var s2 := GetRow(h, s1, tid);
    c := s2.threads[tid].cert;
    var s3 := IssueAll(h, s2, tid, res, leaf, ts);
    after := GiveBack(h, s3, tid);
    assert s.w.slots + {s.threads[tid].record.id} - {s.threads[tid].record.id} == s.w.slots;
  }

  // No task is left.
  lemma GiveBack(h: History, s: System, tid: nat) returns (after: System)
    requires Reach(h, s) && tid in s.threads && s.threads[tid].pc == NextTask && s.threads[tid].tasks == []
    ensures Reach(h, after)
    ensures var t := s.threads[tid];
            && after.threads == s.threads[tid := t.(pc := if t.kind.Renewal? then ScanNext else Done)]
            && after.w == s.w.(slots := s.w.slots - {t.record.id})
  {
    var s1 := Advance(h, s, tid, Succeeds);
    assert s1.w == s.w && s1.threads[tid] == s.threads[tid].(pc := Release);
    after := Advance(h, s1, tid, Succeeds);
  }
}
