/** What holds in every state of every run of the issuance machine: who may hold a slot, how jobs
    live and end, and what the certificate rows are good for. */
module IssuanceLifecycle {
  import opened Common
  import opened IssuanceModel
  import opened IssuanceSafety

  /** Single flight. In every state of every run the slot map holds exactly the records of the threads
      between taking and returning a slot, and no record has two of them. */
  lemma SingleFlight(states: seq<System>, actions: seq<Action>, n: nat)
    requires IsRun(states, actions) && n < |states|
    ensures var s := states[n];
            && (forall r :: r in s.w.slots <==> HasHolder(s, r))
            && Exclusive(s)
  {
    RunKeepsInv(states, actions, n);
    var s := states[n];
    forall tid | tid in s.threads && Holds(s.threads[tid].pc)
      ensures s.threads[tid].record.id in s.w.slots
    {
      assert ThreadOk(s.w, s.threads[tid]);
    }
  }

  /** No action takes a record out of the slot map except the release step of the thread that put it
      there; the release after an early error is no exception. */
  lemma OnlyTheHolderReleases(states: seq<System>, actions: seq<Action>, n: nat, r: nat)
    requires IsRun(states, actions) && n < |actions|
    requires r in states[n].w.slots && r !in states[n + 1].w.slots
    ensures actions[n].Step? && actions[n].tid in states[n].threads
    ensures var t := states[n].threads[actions[n].tid];
            t.pc == Release && t.record.id == r
  {
    StateFollows(states, actions, n);
    LosesSlot(states[n], actions[n], r);
  }

  lemma LosesSlot(s: System, a: Action, r: nat)
    requires Inv(s) && Enabled(s, a) && r in s.w.slots && r !in Next(s, a).w.slots
    ensures a.Step? && s.threads[a.tid].pc == Release && s.threads[a.tid].record.id == r
  {
    if a.Step? {
      var t := s.threads[a.tid];
      var (v, u) := ThreadStep(s.w, t, a.choice);
      StepKeeps(s.w, t, a.choice);
      assert SlotEdge(s.w, t, v, u);
      SlotGivenBack(s.w, t, v, u, r);
      ReleasesAtRelease(s.w, t, a.choice);
    }
  }

  lemma SlotGivenBack(w: World, t: Thread, v: World, u: Thread, r: nat)
    requires SlotEdge(w, t, v, u) && r in w.slots && r !in v.slots
    ensures Holds(t.pc) && !Holds(u.pc) && t.record.id == r
  {
  }

  lemma ReleasesAtRelease(w: World, t: Thread, c: Choice)
    requires Holds(t.pc) && !Holds(ThreadStep(w, t, c).1.pc)
    ensures t.pc == Release
  {
    if t.pc != Release {
      HoldsOn(w, t, c);
    }
  }

  lemma HoldsOn(w: World, t: Thread, c: Choice)
    requires Holds(t.pc) && !t.pc.Release?
    ensures Holds(ThreadStep(w, t, c).1.pc)
  {
    if Point(t.pc) <= 6 {
      PreparingHoldsOn(w, t, c);
    } else if Point(t.pc) <= 11 {
      IssuingHoldsOn(w, t, c);
    } else if Point(t.pc) <= 14 {
      FiringHoldsOn(w, t, c);
    } else {
      EndingHoldsOn(w, t, c);
    }
  }

  lemma PreparingHoldsOn(w: World, t: Thread, c: Choice)
    requires 3 <= Point(t.pc) <= 6
    ensures Holds(ThreadStep(w, t, c).1.pc)
  {
  }

  lemma IssuingHoldsOn(w: World, t: Thread, c: Choice)
    requires 7 <= Point(t.pc) <= 11
    ensures Holds(ThreadStep(w, t, c).1.pc)
  {
  }

  lemma FiringHoldsOn(w: World, t: Thread, c: Choice)
    requires 12 <= Point(t.pc) <= 14
    ensures Holds(ThreadStep(w, t, c).1.pc)
  {
  }

  lemma EndingHoldsOn(w: World, t: Thread, c: Choice)
    requires 15 <= Point(t.pc) <= 18
    ensures Holds(ThreadStep(w, t, c).1.pc)
  {
  }

  /** Job lifecycle. In every state of every run a job is running exactly when a live thread owns it or
      the statement that should have finished it was lost, and the owner holds the slot of the job's
      record. Hence with no slot taken only the lost ones are left running. */
  lemma RunningJobs(states: seq<System>, actions: seq<Action>, n: nat, j: nat)
    requires IsRun(states, actions) && n < |states| && j in states[n].w.jobs
    ensures var s := states[n];
            && j in s.w.issues
            && (s.w.jobs[j].status == Running <==> HasOwner(s, j) || s.w.issues[j].finishLost)
            && (HasOwner(s, j) ==> s.w.jobs[j].record in s.w.slots)
            && (s.w.slots == {} ==> (s.w.jobs[j].status == Running <==> s.w.issues[j].finishLost))
  {
    RunKeepsInv(states, actions, n);
    var s := states[n];
    if HasOwner(s, j) {
      var owner :| owner in s.threads && OwnsJob(s.threads[owner].pc) && s.threads[owner].job == j;
      assert ThreadOk(s.w, s.threads[owner]);
    }
  }

  // ----- the end of a job

  /** The certificate row of job j is valid and carries the dates and serial of the leaf that the
      order of job j produced, with both paths, while the job is still running. */
  ghost predicate PersistedFor(w: World, j: nat) {
    && j in w.jobs && w.jobs[j].status == Running
    && j in w.issues && w.issues[j].resource.Some? && w.issues[j].leaf.Some?
    && w.jobs[j].cert in w.certs
    && var row, leaf := w.certs[w.jobs[j].cert], w.issues[j].leaf.value;
       && row.record == w.jobs[j].record && row.status == Valid
       && row.notBefore == Some(leaf.notBefore) && row.notAfter == Some(leaf.notAfter)
       && row.serial == Some(leaf.serial)
       && row.certPath != "" && row.keyPath != ""
  }

  // Job j has ended with the given row, which is still there or was deleted for good.
  ghost predicate Settled(w: World, j: nat, row: JobRow) {
    row.status != Running && j < w.nextJob && (j in w.jobs ==> w.jobs[j] == row)
  }

  lemma SettledStays(s: System, a: Action, j: nat, row: JobRow)
    requires Inv(s) && Enabled(s, a) && Settled(s.w, j, row)
    ensures Settled(Next(s, a).w, j, row)
  {
    if a.Step? {
      var t := s.threads[a.tid];
      var (v, u) := ThreadStep(s.w, t, a.choice);
      StepKeeps(s.w, t, a.choice);
      assert JobFacts(s.w.jobs, s.w.issues, s.w.nextJob, t);
      assert JobEdge(s.w, t, v, u);
    }
  }

  /** A job leaves the running state at most once: a row that is not running never changes again, and
      one deleted with its record never comes back. */
  lemma {:induction false} JobsEndOnce(states: seq<System>, actions: seq<Action>, m: nat, n: nat, j: nat)
    requires IsRun(states, actions) && m <= n < |states|
    requires j in states[m].w.jobs && states[m].w.jobs[j].status != Running
    ensures Settled(states[n].w, j, states[m].w.jobs[j])
    decreases n
  {
    if m < n {
      JobsEndOnce(states, actions, m, n - 1, j);
      StateFollows(states, actions, n - 1);
      SettledStays(states[n - 1], actions[n - 1], j, states[m].w.jobs[j]);
    } else {
      RunKeepsInv(states, actions, n);
      assert JobsOk(states[n].w.jobs, states[n].w.issues, states[n].w.nextJob, states[n].w.records);
    }
  }

  lemma SucceedsOnlyAtFinishOk(w: World, t: Thread, c: Choice, j: nat)
    requires WorldOk(w) && ThreadOk(w, t)
    requires var v := ThreadStep(w, t, c).0; j in v.jobs && v.jobs[j].status == Success
    requires j in w.jobs ==> w.jobs[j].status != Success
    ensures t.pc == FinishOk && t.job == j && j in w.jobs
  {
    if Point(t.pc) <= 4 {
      PreparingJobs(w, t, c);
    } else if 19 <= Point(t.pc) {
      IdleJobs(w, t, c);
    } else if 6 <= Point(t.pc) <= 10 || Point(t.pc) == 17 {
      IssuingJobs(w, t, c);
    } else if 12 <= Point(t.pc) <= 16 {
      FiringJobs(w, t, c);
    } else {
      ChangedJobs(w, t, c, j);
    }
  }

  lemma PreparingJobs(w: World, t: Thread, c: Choice)
    requires Point(t.pc) <= 4
    ensures ThreadStep(w, t, c).0.jobs == w.jobs
  {
  }

  lemma IdleJobs(w: World, t: Thread, c: Choice)
    requires 19 <= Point(t.pc)
    ensures ThreadStep(w, t, c).0.jobs == w.jobs
  {
  }

  lemma IssuingJobs(w: World, t: Thread, c: Choice)
    requires 6 <= Point(t.pc) <= 10 || Point(t.pc) == 17
    ensures ThreadStep(w, t, c).0.jobs == w.jobs
  {
  }

  lemma FiringJobs(w: World, t: Thread, c: Choice)
    requires 12 <= Point(t.pc) <= 16
    ensures ThreadStep(w, t, c).0.jobs == w.jobs
  {
  }

  lemma ChangedJobs(w: World, t: Thread, c: Choice, j: nat)
    requires JobFacts(w.jobs, w.issues, w.nextJob, t)
    requires t.pc.CreateJob? || t.pc.FinishOk? || t.pc.FinishFailed?
    requires var v := ThreadStep(w, t, c).0; j in v.jobs && v.jobs[j].status == Success
    requires j in w.jobs ==> w.jobs[j].status != Success
    ensures t.pc == FinishOk && t.job == j && j in w.jobs
  {
  }

  ghost predicate Succeeded(w: World, j: nat) {
    j in w.jobs && w.jobs[j].status == Success
  }

  lemma StepToSuccess(s: System, a: Action, j: nat)
    requires Inv(s) && Enabled(s, a) && !Succeeded(s.w, j) && Succeeded(Next(s, a).w, j)
    ensures PersistedFor(s.w, j)
  {
    if a.Step? {
      var t := s.threads[a.tid];
      SucceedsOnlyAtFinishOk(s.w, t, a.choice, j);
      assert s.w.jobs[j].record in s.w.records;
      assert CertFacts(s.w.certs, s.w.nextCert, s.w.records, t);
      assert FullyIssued(IssuedRow(t));
    }
  }

  /** Success means stored: before a job of this run turned successful there was a state in which its
      order had been answered, its certificate row was valid with the dates and serial of the parsed
      leaf and with both paths, and the job was still running. */
  lemma {:induction false} SuccessWasPersisted(states: seq<System>, actions: seq<Action>, n: nat, j: nat)
    requires IsRun(states, actions) && n < |states|
    requires !Succeeded(states[0].w, j) && Succeeded(states[n].w, j)
    ensures exists m :: 0 <= m < n && PersistedFor(states[m].w, j)
  {
    if n > 0 {
      if Succeeded(states[n - 1].w, j) {
        SuccessWasPersisted(states, actions, n - 1, j);
      } else {
        StateFollows(states, actions, n - 1);
        StepToSuccess(states[n - 1], actions[n - 1], j);
      }
    }
  }

  // ----- certificate rows

  /** In every state of every run no record has two certificate rows, an insert happens only where there
      is none, and a valid row carries its dates, serial and both paths. */
  lemma CertificateRows(states: seq<System>, actions: seq<Action>, n: nat)
    requires IsRun(states, actions) && n < |states|
    ensures var s := states[n];
            && (forall c, d ::
                  c in s.w.certs && d in s.w.certs && s.w.certs[c].record == s.w.certs[d].record ==> c == d)
            && (forall c :: c in s.w.certs && s.w.certs[c].status.Valid? ==> FullyIssued(s.w.certs[c]))
            && (forall tid :: tid in s.threads && s.threads[tid].pc.InsertRow? ==>
                  !HasRow(s.w, s.threads[tid].record.id))
  {
    RunKeepsInv(states, actions, n);
    var s := states[n];
    forall tid | tid in s.threads && s.threads[tid].pc.InsertRow?
      ensures !HasRow(s.w, s.threads[tid].record.id)
    {
      assert CertFacts(s.w.certs, s.w.nextCert, s.w.records, s.threads[tid]);
    }
  }

  ghost predicate HasExpiry(w: World, c: nat, r: nat) {
    c in w.certs && w.certs[c].record == r && w.certs[c].notAfter.Some?
  }

  lemma ExpiryStays(s: System, a: Action, c: nat, r: nat)
    requires Inv(s) && Enabled(s, a) && HasExpiry(s.w, c, r)
    ensures HasExpiry(Next(s, a).w, c, r) || a == DeleteRecord(r)
  {
    if a.Step? {
      StepKeeps(s.w, s.threads[a.tid], a.choice);
    }
  }

  /** A certificate issued once keeps an expiry date through any number of failures, until its record
      is deleted; so every renewal list with a late enough threshold names it. */
  lemma {:induction false} StaysRenewable(states: seq<System>, actions: seq<Action>, m: nat, n: nat, c: nat, r: nat)
    requires IsRun(states, actions) && m <= n < |states|
    requires HasExpiry(states[m].w, c, r)
    requires forall i :: m <= i < n ==> actions[i] != DeleteRecord(r)
    ensures HasExpiry(states[n].w, c, r)
    ensures forall threshold: int, due: seq<Due> ::
              IsDueList(states[n].w, threshold, due) && states[n].w.certs[c].notAfter.value <= threshold ==>
                exists i :: 0 <= i < |due| && due[i].cert == c && due[i].record == r
    decreases n
  {
    if m < n {
      StaysRenewable(states, actions, m, n - 1, c, r);
      StateFollows(states, actions, n - 1);
      ExpiryStays(states[n - 1], actions[n - 1], c, r);
    }
    forall threshold: int, due: seq<Due> |
      IsDueList(states[n].w, threshold, due) && states[n].w.certs[c].notAfter.value <= threshold
      ensures exists i :: 0 <= i < |due| && due[i].cert == c && due[i].record == r
    {
      var i :| 0 <= i < |due| && due[i].cert == c;
    }
  }
}
