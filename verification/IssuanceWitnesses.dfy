/** Runs of the issuances that mix up the certificates of two records. For a given history of the records
    table they are built step by step, the changes falling between the steps of the threads. */
module IssuanceWitnesses {
  import opened Common
  import opened CertificateNames
  import opened Tasks
  import opened IssuanceModel
  import opened IssuanceSafety
  import opened IssuanceDelivery
  import opened IssuanceHistory

  // Where a run starts, and the changes of the records table along it.
  datatype History = History(start: System, changes: seq<Action>)

  /** Some run with this history ends in s. The other actions, their interleaving with the changes and
      all failures are free. The tag has no meaning: quantified over, it keeps the run itself out of the
      proofs that only need to know that there is one. */
  ghost predicate Reach(h: History, s: System) {
    forall tag: nat :: IsReached(h, s, tag)
  }

  ghost predicate IsReached(h: History, s: System, tag: nat) {
    exists states, actions :: IsRunTo(states, actions, h, s)
  }

  lemma ReachIffRun(h: History, s: System)
    ensures Reach(h, s) <==> exists states, actions :: IsRunTo(states, actions, h, s)
  {
    if Reach(h, s) {
      assert IsReached(h, s, 0);
    }
  }

  ghost predicate IsRunTo(states: seq<System>, actions: seq<Action>, h: History, s: System) {
    IsRun(states, actions) && ChangesOf(actions) == h.changes && states[0] == h.start && states[|actions|] == s
  }

  // ----- extending runs

  lemma ReachAction(h: History, s: System, a: Action)
    requires Reach(h, s) && Enabled(s, a)
    ensures Reach(if IsChange(a) then h.(changes := h.changes + [a]) else h, Next(s, a))
  {
    ReachIffRun(h, s);
    var states, actions :| IsRunTo(states, actions, h, s);
    var h1 := if IsChange(a) then h.(changes := h.changes + [a]) else h;
    assert ChangesOf(actions + [a]) == h1.changes by {
      assert (actions + [a])[..|actions|] == actions;
    }
    LongerRun(states, actions, s, a);
    assert IsRunTo(states + [Next(s, a)], actions + [a], h1, Next(s, a));
    ReachIffRun(h1, Next(s, a));
  }

  lemma LongerRun(states: seq<System>, actions: seq<Action>, s: System, a: Action)
    requires IsRun(states, actions) && states[|actions|] == s && Enabled(s, a)
    ensures IsRun(states + [Next(s, a)], actions + [a])
  {
    var more, longer := states + [Next(s, a)], actions + [a];
    forall i | 0 <= i < |longer|
      ensures Follows(more, longer, i)
    {
      if i < |actions| {
        assert Follows(states, actions, i);
      }
    }
  }

  lemma ReachNext(h: History, s: System, a: Action)
    requires Reach(h, s) && Enabled(s, a) && !IsChange(a)
    ensures Reach(h, Next(s, a))
  {
    ReachAction(h, s, a);
  }

  lemma ReachInv(h: History, s: System)
    requires Reach(h, s)
    ensures Inv(s)
  {
    ReachIffRun(h, s);
    var states, actions :| IsRunTo(states, actions, h, s);
    RunKeepsInv(states, actions, |actions|);
  }

  /** Some request made for a job carries material that the job did not obtain. */
  ghost predicate ForeignDelivery(w: World) {
    exists k :: 0 <= k < |w.deliveries| && !OwnMaterial(w.issues, w.deliveries[k])
  }

  // The changes leave everything but the tables alone.
  ghost predicate OnlyTables(s: System, after: System) {
    && after.threads == s.threads
    && after.w.acme == s.w.acme && after.w.slots == s.w.slots && after.w.files == s.w.files
    && after.w.issues == s.w.issues && after.w.deliveries == s.w.deliveries && after.w.nextJob == s.w.nextJob
  }

  // The records table undergoes the changes while no thread makes a step.
  lemma {:induction false} Undergo(h: History, s: System, changes: seq<Action>) returns (after: System)
    requires Reach(h, s) && IsHistory(TableOf(s.w), changes)
    ensures Reach(h.(changes := h.changes + changes), after)
    ensures TableOf(after.w) == TableAfter(TableOf(s.w), changes) && OnlyTables(s, after)
    decreases |changes|
  {
    if changes == [] {
      assert h.changes + changes == h.changes;
      after := s;
    } else {
      var front, last := changes[..|changes| - 1], changes[|changes| - 1];
      var before := Undergo(h, s, front);
      assert h.changes + front + [last] == h.changes + changes;
      ReachAction(h.(changes := h.changes + front), before, last);
      after := Next(before, last);
    }
  }

  // ----- one thread on its own

  // One step of a thread.
  lemma Advance(h: History, s: System, tid: nat, c: Choice) returns (after: System)
    requires Reach(h, s) && tid in s.threads && !c.DueRows?
    ensures Reach(h, after)
    ensures var (v, u) := ThreadStep(s.w, s.threads[tid], c); after == System(v, s.threads[tid := u])
  {
    after := Next(s, Step(tid, c));
    ReachNext(h, s, Step(tid, c));
  }

  // A new issuance of r as StartIssuance makes it, ready to start.
  ghost predicate Ready(s: System, tid: nat, r: nat) {
    && tid in s.threads && s.threads[tid] == NewThread(Manual, r)
    && r in s.w.records && DoesCert(s.w.records[r].purpose) && s.w.records[r].id == r
    && s.w.acme && r !in s.w.slots
  }

  lemma TakeSlot(h: History, s: System, tid: nat, r: nat) returns (after: System)
    requires Reach(h, s) && Ready(s, tid, r)
    ensures Reach(h, after) && tid in after.threads
    ensures after.threads == s.threads[tid := after.threads[tid]]
    ensures after.threads[tid].pc == FindRow(true) && after.threads[tid].record == s.w.records[r]
    ensures after.w == s.w.(slots := s.w.slots + {r})
  {
    var s1 := Advance(h, s, tid, Succeeds);
    assert s1.w == s.w && s1.threads[tid] == NewThread(Manual, r).(pc := Gate, record := s.w.records[r]);
    var s2 := Advance(h, s1, tid, Succeeds);
    assert s2.w == s.w && s2.threads[tid] == s1.threads[tid].(pc := Acquire);
    after := Advance(h, s2, tid, Succeeds);
  }

  // The request itself makes sure that there is a certificate row.
  lemma FindOrInsert(h: History, s: System, tid: nat) returns (after: System)
    requires Reach(h, s) && tid in s.threads && s.threads[tid].pc == FindRow(true)
    requires s.threads[tid].record.id in s.w.records
    ensures Reach(h, after) && HasRow(after.w, s.threads[tid].record.id)
    ensures after.threads == s.threads[tid := s.threads[tid].(pc := FindRow(false))]
    ensures after.w == s.w.(certs := after.w.certs, nextCert := after.w.nextCert)
    ensures forall d :: d in s.w.certs ==> d in after.w.certs && after.w.certs[d] == s.w.certs[d]
    ensures forall d :: d in after.w.certs && d !in s.w.certs ==> after.w.certs[d].record == s.threads[tid].record.id
  {
    assert WorldOk(s.w) by {
      ReachInv(h, s);
    }
    after := Advance(h, s, tid, Succeeds);
    if after.threads[tid].pc != FindRow(false) {
      after := Advance(h, after, tid, Succeeds);
      assert s.w.nextCert in after.w.certs;
    }
  }

  // Its goroutine finds that row.
  lemma Prepare(h: History, s: System, tid: nat, r: nat) returns (after: System)
    requires Reach(h, s) && Ready(s, tid, r)
    ensures Reach(h, after) && tid in after.threads
    ensures after.threads == s.threads[tid := after.threads[tid]]
    ensures after.threads[tid].pc == CreateJob && after.threads[tid].record == s.w.records[r]
    ensures after.w == s.w.(slots := s.w.slots + {r}, certs := after.w.certs, nextCert := after.w.nextCert)
  {
    var s1 := TakeSlot(h, s, tid, r);
    var s2 := FindOrInsert(h, s1, tid);
    after := Advance(h, s2, tid, Succeeds);
  }

  // The job is created.
  lemma Create(h: History, s: System, tid: nat) returns (after: System)
    requires Reach(h, s) && tid in s.threads && s.threads[tid].pc == CreateJob
    requires s.threads[tid].record.id in s.w.records
    ensures Reach(h, after)
    ensures after.threads == s.threads[tid := s.threads[tid].(pc := Obtain, job := s.w.nextJob)]
    ensures after.w.issues == s.w.issues[s.w.nextJob := Issue(s.threads[tid].record.id, None, None, false)]
    ensures after.w == s.w.(issues := after.w.issues, jobs := after.w.jobs, nextJob := s.w.nextJob + 1)
    ensures after.w.jobs
         == s.w.jobs[s.w.nextJob := JobRow(s.threads[tid].record.id, s.threads[tid].cert, Running)]
  {
    after := Advance(h, s, tid, Succeeds);
  }

  // The order is answered with res.
  lemma Order(h: History, s: System, tid: nat, res: Resource) returns (after: System)
    requires Reach(h, s) && tid in s.threads && s.threads[tid].pc == Obtain
    requires s.threads[tid].job in s.w.issues
    ensures Reach(h, after)
    ensures after.threads
         == s.threads[tid := s.threads[tid].(pc := Write(0), res := res, home := CertificateDir(s.threads[tid].record))]
    ensures var job := s.threads[tid].job;
            after.w == s.w.(issues := s.w.issues[job := s.w.issues[job].(resource := Some(res))])
  {
    var s1 := Advance(h, s, tid, Issued(res));
    after := Advance(h, s1, tid, Succeeds);
  }

  // File i is written.
  lemma WriteOne(h: History, s: System, tid: nat, i: nat) returns (after: System)
    requires Reach(h, s) && tid in s.threads && i < 4 && s.threads[tid].pc == Write(i)
    ensures Reach(h, after)
    ensures after.threads == s.threads[tid := s.threads[tid].(pc := if i == 3 then Parse else Write(i + 1))]
    ensures var t := s.threads[tid];
            after.w == s.w.(files := s.w.files[(t.home, i) := Contents(t.res)[i]])
  {
    after := Advance(h, s, tid, Succeeds);
  }

  // All four files are written.
  lemma WriteAll(h: History, s: System, tid: nat) returns (after: System)
    requires Reach(h, s) && tid in s.threads && s.threads[tid].pc == Write(0)
    ensures Reach(h, after) && after.threads == s.threads[tid := s.threads[tid].(pc := Parse)]
    ensures after.w == s.w.(files := after.w.files)
    ensures forall i :: 0 <= i < 4 ==>
              && (s.threads[tid].home, i) in after.w.files
              && after.w.files[(s.threads[tid].home, i)] == Contents(s.threads[tid].res)[i]
  {
    var s1 := WriteOne(h, s, tid, 0);
    var s2 := WriteOne(h, s1, tid, 1);
    var s3 := WriteOne(h, s2, tid, 2);
    after := WriteOne(h, s3, tid, 3);
  }

  // An issuance comes as far as having written its files.
  lemma IssueFiles(h: History, s: System, tid: nat, r: nat, res: Resource) returns (after: System)
    requires Reach(h, s) && Ready(s, tid, r)
    ensures Reach(h, after) && tid in after.threads
    ensures after.threads == s.threads[tid := after.threads[tid]]
    ensures var t := after.threads[tid];
            && t.pc == Parse && t.record == s.w.records[r] && t.job == s.w.nextJob
            && t.home == CertificateDir(t.record)
            && after.w.issues == s.w.issues[t.job := Issue(r, Some(res), None, false)]
            && forall i :: 0 <= i < 4 ==>
                 (t.home, i) in after.w.files && after.w.files[(t.home, i)] == Contents(res)[i]
    ensures after.w.acme && TableOf(after.w) == TableOf(s.w) && after.w.slots == s.w.slots + {r}
    ensures after.w.deliveries == s.w.deliveries && after.w.nextJob == s.w.nextJob + 1
  {
    var s1 := Prepare(h, s, tid, r);
    var s2 := Create(h, s1, tid);
    var s3 := Order(h, s2, tid, res);
    after := WriteAll(h, s3, tid);
  }

  // The certificate is stored and the job has ended.
  lemma Persisted(h: History, s: System, tid: nat) returns (after: System)
    requires Reach(h, s) && tid in s.threads && s.threads[tid].pc == Parse
    requires s.threads[tid].job in s.w.issues
    ensures Reach(h, after) && tid in after.threads
    ensures after.threads == s.threads[tid := s.threads[tid].(pc := ListTasks, leaf := Leaf(0, 1, ""))]
    ensures SameResources(s.w.issues, after.w.issues)
    ensures after.w == s.w.(issues := after.w.issues, certs := after.w.certs, jobs := after.w.jobs)
  {
    var t, leaf := s.threads[tid], Leaf(0, 1, "");
    var s1 := Advance(h, s, tid, Parsed(leaf));
    assert s1.threads[tid] == t.(pc := Persist, leaf := leaf);
    var s2 := Advance(h, s1, tid, Succeeds);
    assert s2.threads[tid] == t.(pc := FinishOk, leaf := leaf);
    after := Advance(h, s2, tid, Succeeds);
  }

  ghost predicate SameResources(before: map<nat, Issue>, after: map<nat, Issue>) {
    forall j :: j in before ==> j in after && after[j].resource == before[j].resource
  }

  // The one task is listed and wants the certificate.
  lemma ListTask(h: History, s: System, tid: nat, task: Task) returns (after: System)
    requires Reach(h, s) && tid in s.threads && s.threads[tid].pc == ListTasks
    requires Matches(task, TRIGGER_CERT) && task.includeCertificate
    ensures Reach(h, after) && tid in after.threads && after.w == s.w
    ensures after.threads == s.threads[tid := s.threads[tid].(pc := LoadMaterial, tasks := [task], got := None)]
  {
    assert [task][1..] == [];
    assert Matching([task], TRIGGER_CERT) == [task];
    var s1 := Advance(h, s, tid, Listed([task]));
    assert s1.w == s.w && s1.threads[tid] == s.threads[tid].(pc := NextTask, tasks := [task]);
    after := Advance(h, s1, tid, Succeeds);
  }

  // The row found is the one just stored.
  lemma FindMaterial(h: History, s: System, tid: nat) returns (after: System)
    requires Reach(h, s) && tid in s.threads && s.threads[tid].pc == LoadMaterial
    requires WorldOk(s.w) && ThreadOk(s.w, s.threads[tid]) && s.threads[tid].record.id in s.w.records
    ensures Reach(h, after) && after.w == s.w
    ensures after.threads
         == s.threads[tid := s.threads[tid].(pc := Read(0), dir := s.threads[tid].home, got := Some([]))]
  {
    var t := s.threads[tid];
    assert CertFacts(s.w.certs, s.w.nextCert, s.w.records, t);
    assert t.cert in s.w.certs && HasRow(s.w, t.record.id);
    LoadsOwnDirectory(s.w, t);
    assert RowOf(s.w, t.record.id) == t.cert;
    after := Advance(h, s, tid, Succeeds);
  }

  // One file is read.
  lemma ReadOne(h: History, s: System, tid: nat, pieces: seq<string>, i: nat) returns (after: System)
    requires Reach(h, s) && tid in s.threads && i < 4 == |pieces|
    requires var t := s.threads[tid];
             && t.pc == Read(i) && t.got == Some(pieces[..i])
             && (t.dir, i) in s.w.files && s.w.files[(t.dir, i)] == pieces[i]
    ensures Reach(h, after) && after.w == s.w && tid in after.threads
    ensures after.threads[tid]
         == s.threads[tid].(pc := if i == 3 then Post else Read(i + 1), got := Some(pieces[..i + 1]))
    ensures after.threads == s.threads[tid := after.threads[tid]]
  {
    assert pieces[..i + 1] == pieces[..i] + [pieces[i]];
    after := Advance(h, s, tid, Succeeds);
  }

  lemma PostAll(h: History, s: System, tid: nat, pieces: seq<string>) returns (after: System)
    requires Reach(h, s) && tid in s.threads
    requires var t := s.threads[tid]; t.pc == Post && t.got == Some(pieces) && t.tasks != []
    ensures Reach(h, after)
    ensures var t := s.threads[tid];
            after.w == s.w.(deliveries := s.w.deliveries + [Delivery(t.job, t.tasks[0], Some(pieces))])
  {
    after := Advance(h, s, tid, Succeeds);
  }

  // The four files are read and sent.
  lemma ReadAndPost(h: History, s: System, tid: nat, pieces: seq<string>) returns (after: System)
    requires Reach(h, s) && tid in s.threads && |pieces| == 4
    requires var t := s.threads[tid]; t.pc == Read(0) && t.got == Some([]) && t.tasks != []
    requires forall i :: 0 <= i < 4 ==>
               (s.threads[tid].dir, i) in s.w.files && s.w.files[(s.threads[tid].dir, i)] == pieces[i]
    ensures Reach(h, after)
    ensures var t := s.threads[tid];
            after.w == s.w.(deliveries := s.w.deliveries + [Delivery(t.job, t.tasks[0], Some(pieces))])
  {
    assert pieces[..0] == [] && pieces[..4] == pieces;
    var s1 := ReadOne(h, s, tid, pieces, 0);
    var s2 := ReadOne(h, s1, tid, pieces, 1);
    var s3 := ReadOne(h, s2, tid, pieces, 2);
    var s4 := ReadOne(h, s3, tid, pieces, 3);
    after := PostAll(h, s4, tid, pieces);
  }

  // ----- a clash, and the run that mixes the two certificates up

  // A thread for the issuance is started.
  lemma Start(h: History, s: System, tid: nat, r: nat) returns (after: System)
    requires Reach(h, s) && tid !in s.threads
    requires r in s.w.records && DoesCert(s.w.records[r].purpose) && s.w.acme && r !in s.w.slots
    ensures Reach(h, after) && after.w == s.w && after.threads == s.threads[tid := NewThread(Manual, r)]
    ensures Ready(after, tid, r)
  {
    ReachNext(h, s, Spawn(tid, Manual, r));
    after := Next(s, Spawn(tid, Manual, r));
    assert RecordsOk(s.w.records, s.w.nextRecord) by {
      ReachInv(h, s);
    }
  }

  // The thread is about to read the files of its own order, for its one task.
  ghost predicate AboutToRead(s: System, t: Thread, dir: string, res: Resource, task: Task) {
    && t.pc == Read(0) && t.dir == dir && t.got == Some([]) && t.tasks == [task]
    && t.job in s.w.issues && t.job < s.w.nextJob && s.w.issues[t.job].resource == Some(res)
  }

  // The stored certificate is about to be read.
  lemma StoreAndFire(h: History, s: System, tid: nat, task: Task) returns (after: System)
    requires Reach(h, s) && tid in s.threads && s.threads[tid].pc == Parse
    requires s.threads[tid].job in s.w.issues && s.threads[tid].record.id in s.w.records
    requires Matches(task, TRIGGER_CERT) && task.includeCertificate
    ensures Reach(h, after) && tid in after.threads
    ensures after.threads == s.threads[tid := after.threads[tid]]
    ensures var t := after.threads[tid];
            && t.pc == Read(0) && t.dir == s.threads[tid].home && t.got == Some([])
            && t.job == s.threads[tid].job && t.tasks == [task]
    ensures SameResources(s.w.issues, after.w.issues)
    ensures after.w == s.w.(issues := after.w.issues, certs := after.w.certs, jobs := after.w.jobs)
  {
    var s1 := Persisted(h, s, tid);
    var s2 := ListTask(h, s1, tid, task);
    assert WorldOk(s2.w) && ThreadOk(s2.w, s2.threads[tid]) by {
      ReachInv(h, s2);
    }
    after := FindMaterial(h, s2, tid);
  }

  // The first issuance stores its certificate and its task is about to read the files.
  lemma FirstIssuance(h: History, s: System, a: nat, res: Resource, task: Task) returns (after: System)
    requires Reach(h, s) && s.threads == map[] && s.w.slots == {}
    requires a in s.w.records && DoesCert(s.w.records[a].purpose)
    requires Matches(task, TRIGGER_CERT) && task.includeCertificate
    ensures Reach(h, after) && 0 in after.threads && 1 !in after.threads
    ensures after.w.acme && after.w.slots == {a} && TableOf(after.w) == TableOf(s.w)
    ensures AboutToRead(after, after.threads[0], CertificateDir(s.w.records[a]), res, task)
  {
    ReachNext(h, s, SetAcme(true));
    var s1 := Start(h, Next(s, SetAcme(true)), 0, a);
    var s2 := IssueFiles(h, s1, 0, a, res);
    after := StoreAndFire(h, s2, 0, task);
  }

  // The second issuance overwrites the files before they are read.
  lemma SecondIssuance(h: History, s: System, b: nat, mine: Resource, other: Resource, task: Task)
    returns (after: System)
    requires Reach(h, s) && 0 in s.threads && 1 !in s.threads && s.w.acme && b !in s.w.slots
    requires b in s.w.records && DoesCert(s.w.records[b].purpose)
    requires AboutToRead(s, s.threads[0], CertificateDir(s.w.records[b]), mine, task) && mine.cert != other.cert
    ensures Reach(h, after) && ForeignDelivery(after.w) && TableOf(after.w) == TableOf(s.w)
  {
    var s1 := Start(h, s, 1, b);
    var s2 := IssueFiles(h, s1, 1, b, other);
    after := ReadAndPost(h, s2, 0, Contents(other));
    DeliversForeign(s2, after, s.threads[0], mine, other, task);
  }

  lemma DeliversForeign(s: System, after: System, t: Thread, mine: Resource, other: Resource, task: Task)
    requires t.job in s.w.issues && s.w.issues[t.job].resource == Some(mine) && mine.cert != other.cert
    requires after.w == s.w.(deliveries := s.w.deliveries + [Delivery(t.job, task, Some(Contents(other)))])
    ensures ForeignDelivery(after.w)
  {
    var k := |s.w.deliveries|;
    assert Contents(other)[0] != Contents(mine)[0];
    assert !OwnMaterial(after.w.issues, after.w.deliveries[k]);
  }

  // a is stored now and b after further changes.
  lemma MeetClash(h: History, s: System, between: seq<Action>, a: Record, b: Record) returns (after: System)
    requires Reach(h, s) && s.threads == map[] && s.w.slots == {}
    requires IsHistory(TableOf(s.w), between) && Clash(a, b)
    requires Has(TableOf(s.w), a) && Has(TableAfter(TableOf(s.w), between), b)
    ensures Reach(h.(changes := h.changes + between), after) && ForeignDelivery(after.w)
    ensures TableOf(after.w) == TableAfter(TableOf(s.w), between)
  {
    var mine, other, task := Resource("a", "", ""), Resource("b", "", ""), Task(0, a.id, TRIGGER_CERT, true, true);
    var s1 := FirstIssuance(h, s, a.id, mine, task);
    var s2 := Undergo(h, s1, between);
    after := SecondIssuance(h.(changes := h.changes + between), s2, b.id, mine, other, task);
  }

  lemma StartIsReached(start: System)
    requires Initial(start)
    ensures Reach(History(start, []), start) && start.threads == map[] && start.w.slots == {}
  {
    assert IsRunTo([start], [], History(start, []), start);
    ReachIffRun(History(start, []), start);
  }

  // a is stored after the changes p, b after q as well; r follows.
  ghost predicate StoresBoth(t: Table, p: seq<Action>, q: seq<Action>, r: seq<Action>, a: Record, b: Record) {
    var u, v := TableAfter(t, p), TableAfter(TableAfter(t, p), q);
    IsHistory(t, p) && IsHistory(u, q) && IsHistory(v, r) && Has(u, a) && Has(v, b)
  }

  lemma ThroughClash(start: System, p: seq<Action>, q: seq<Action>, r: seq<Action>, a: Record, b: Record)
    returns (after: System)
    requires Reach(History(start, []), start) && start.threads == map[] && start.w.slots == {} && Clash(a, b)
    requires StoresBoth(TableOf(start.w), p, q, r, a, b)
    ensures Reach(History(start, p + q + r), after) && ForeignDelivery(after.w)
  {
    var s1 := Undergo(History(start, []), start, p);
    assert [] + p == p;
    var s2 := MeetClash(History(start, p), s1, q, a, b);
    after := Undergo(History(start, p + q), s2, r);
  }

  lemma ClashGivesForeign(start: System, changes: seq<Action>, a: Record, i: nat, b: Record, j: nat)
    returns (after: System)
    requires Reach(History(start, []), start) && start.threads == map[] && start.w.slots == {}
    requires IsHistory(TableOf(start.w), changes) && Clash(a, b) && i <= j
    requires StoredAt(TableOf(start.w), changes, a, i) && StoredAt(TableOf(start.w), changes, b, j)
    ensures Reach(History(start, changes), after) && ForeignDelivery(after.w)
  {
    SplitHistory(TableOf(start.w), changes, a, i, b, j);
    PiecesOf(changes, i, j);
    after := ThroughClash(start, changes[..i], changes[i..j], changes[j..], a, b);
  }

  lemma PiecesOf(changes: seq<Action>, i: nat, j: nat)
    requires i <= j <= |changes|
    ensures changes[..i] + changes[i..j] + changes[j..] == changes
  {
  }

  lemma SplitHistory(t: Table, changes: seq<Action>, a: Record, i: nat, b: Record, j: nat)
    requires i <= j && IsHistory(t, changes) && StoredAt(t, changes, a, i) && StoredAt(t, changes, b, j)
    ensures StoresBoth(t, changes[..i], changes[i..j], changes[j..], a, b)
  {
    assert changes[..j] + changes[j..] == changes && changes[..i] + changes[i..j] == changes[..j];
    HistoryAppend(t, changes[..j], changes[j..]);
    HistoryAppend(t, changes[..i], changes[i..j]);
  }

  // The first issuance after the start is one of q, and it has written its files to the directory.
  ghost predicate HasWritten(start: World, s: System, q: nat, dir: string) {
    && 0 in s.threads && s.threads[0].pc == Parse && s.threads[0].home == dir
    && (forall i :: 0 <= i < 4 ==> (dir, i) in s.w.files)
    && (forall j :: j in s.w.issues && start.nextJob <= j ==> s.w.issues[j].record == q)
  }

  // The version v is stored after the changes p, its issuance writes its files, and r follows.
  lemma WriteThrough(start: System, p: seq<Action>, r: seq<Action>, v: Record) returns (after: System)
    requires Initial(start) && DoesCert(v.purpose)
    requires var t := TableOf(start.w); IsHistory(t, p) && IsHistory(TableAfter(t, p), r) && Has(TableAfter(t, p), v)
    ensures Reach(History(start, p + r), after) && HasWritten(start.w, after, v.id, CertificateDir(v))
  {
    StartIsReached(start);
    var h := History(start, p);
    var s1 := Undergo(History(start, []), start, p);
    assert [] + p == p;
    ReachNext(h, s1, SetAcme(true));
    var s2 := Start(h, Next(s1, SetAcme(true)), 0, v.id);
    var s3 := IssueFiles(h, s2, 0, v.id, Resource("", "", ""));
    assert HasWritten(start.w, s3, v.id, CertificateDir(v)) by {
      assert forall j :: j in start.w.issues ==> j < start.w.nextJob;
    }
    after := Undergo(h, s3, r);
  }

  lemma WriteSometime(start: System, changes: seq<Action>, v: Record) returns (after: System)
    requires Initial(start) && IsHistory(TableOf(start.w), changes)
    requires DoesCert(v.purpose) && Stored(TableOf(start.w), changes, v)
    ensures Reach(History(start, changes), after) && HasWritten(start.w, after, v.id, CertificateDir(v))
  {
    var k: nat :| StoredAt(TableOf(start.w), changes, v, k);
    assert changes[..k] + changes[k..] == changes;
    HistoryAppend(TableOf(start.w), changes[..k], changes[k..]);
    after := WriteThrough(start, changes[..k], changes[k..], v);
  }
}
