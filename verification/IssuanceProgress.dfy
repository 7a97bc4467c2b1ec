/** Every accepted issuance gives its slot back after a bounded number of its own steps, whatever
    fails on the way, and a renewal scan works through its list in expiry order. */
module IssuanceProgress {
  import opened CertificateNames
  import opened Tasks
  import opened IssuanceModel
  import opened IssuanceSafety

  function Pred(n: nat): nat {
    if n == 0 then 0 else n - 1
  }

  // The steps a thread can still make before it lets its slot go, if it is to run at most m tasks.
  function Rank(t: Thread, m: nat): nat {
    var later := 7 * Pred(|t.tasks|) + 2;
    match t.pc
    case FindRow(early) => 7 * m + (if early then 17 else 15)
    case InsertRow(early) => 7 * m + (if early then 16 else 14)
    case CreateJob => 7 * m + 13
    case Obtain => 7 * m + 12
    case MakeDir => 7 * m + 11
    case Write(i) => 7 * m + 6 + (if i < 4 then 4 - i else 0)
    case Parse => 7 * m + 6
    case Persist => 7 * m + 5
    case FinishOk => 7 * m + 4
    case ListTasks => 7 * m + 3
    case NextTask => 7 * |t.tasks| + 2
    case LoadMaterial => later + 6
    case Read(i) => later + 1 + (if i < 4 then 4 - i else 0)
    case Post => later + 1
    case MarkFailed => 3
    case FinishFailed => 2
    case Release => 1
    case _ => 0
  }

  // The choices list at most m tasks to run.
  predicate ListsAtMost(c: Choice, m: nat) {
    c.Listed? ==> |Matching(c.tasks, TRIGGER_CERT)| <= m
  }

  lemma RankFalls(w: World, t: Thread, c: Choice, m: nat)
    requires Holds(t.pc) && ListsAtMost(c, m)
    ensures Rank(ThreadStep(w, t, c).1, m) < Rank(t, m) <= if Point(t.pc) <= 12 then 7 * m + 17 else Rank(t, m)
  {
    if Point(t.pc) <= 5 {
      RankFallsPreparing(w, t, c, m);
    } else if 12 <= Point(t.pc) <= 14 {
      RankFallsFiring(w, t, c, m);
    } else if 15 <= Point(t.pc) <= 16 {
      RankFallsReading(w, t, c, m);
    } else if Point(t.pc) <= 8 {
      RankFallsIssuing(w, t, c, m);
    } else if Point(t.pc) <= 11 {
      RankFallsStoring(w, t, c, m);
    } else {
      RankFallsEnding(w, t, c, m);
    }
  }

  lemma RankFallsPreparing(w: World, t: Thread, c: Choice, m: nat)
    requires 3 <= Point(t.pc) <= 5
    ensures Rank(ThreadStep(w, t, c).1, m) < Rank(t, m)
  {
  }

  lemma RankFallsFiring(w: World, t: Thread, c: Choice, m: nat)
    requires 12 <= Point(t.pc) <= 14 && ListsAtMost(c, m)
    ensures Rank(ThreadStep(w, t, c).1, m) < Rank(t, m)
  {
  }

  lemma RankFallsReading(w: World, t: Thread, c: Choice, m: nat)
    requires 15 <= Point(t.pc) <= 16
    ensures Rank(ThreadStep(w, t, c).1, m) < Rank(t, m)
  {
  }

  lemma RankFallsIssuing(w: World, t: Thread, c: Choice, m: nat)
    requires 6 <= Point(t.pc) <= 8
    ensures Rank(ThreadStep(w, t, c).1, m) < Rank(t, m)
  {
  }

  lemma RankFallsStoring(w: World, t: Thread, c: Choice, m: nat)
    requires 9 <= Point(t.pc) <= 11
    ensures Rank(ThreadStep(w, t, c).1, m) < Rank(t, m)
  {
  }

  lemma RankFallsEnding(w: World, t: Thread, c: Choice, m: nat)
    requires 17 <= Point(t.pc) <= 19
    ensures Rank(ThreadStep(w, t, c).1, m) < Rank(t, m)
  {
  }

  ghost predicate AllListAtMost(actions: seq<Action>, m: nat) {
    forall k :: 0 <= k < |actions| && actions[k].Step? ==> ListsAtMost(actions[k].choice, m)
  }

  // How many of the actions from i to n are steps of the thread.
  function OwnSteps(actions: seq<Action>, tid: nat, i: nat, n: nat): nat
    requires i <= n <= |actions|
    decreases n
  {
    if i == n then 0
    else OwnSteps(actions, tid, i, n - 1) + if actions[n - 1].Step? && actions[n - 1].tid == tid then 1 else 0
  }

  ghost predicate HoldsThroughout(states: seq<System>, tid: nat, i: nat, n: nat)
    requires i <= n < |states|
  {
    forall k :: i <= k <= n ==> tid in states[k].threads && Holds(states[k].threads[tid].pc)
  }

  lemma OneAction(s: System, a: Action, tid: nat, m: nat)
    requires Enabled(s, a) && tid in s.threads && Holds(s.threads[tid].pc)
    requires a.Step? ==> ListsAtMost(a.choice, m)
    ensures tid in Next(s, a).threads
    ensures Rank(Next(s, a).threads[tid], m) + (if a.Step? && a.tid == tid then 1 else 0) <= Rank(s.threads[tid], m)
  {
    if a.Step? && a.tid == tid {
      RankFalls(s.w, s.threads[tid], a.choice, m);
    }
  }

  // What falls by at least one with each step of its own bounds the number of those steps.
  lemma {:induction false} RankBounds(states: seq<System>, actions: seq<Action>, tid: nat, i: nat, n: nat, m: nat)
    requires IsRun(states, actions) && i <= n < |states|
    requires AllListAtMost(actions, m)
    requires HoldsThroughout(states, tid, i, n)
    ensures OwnSteps(actions, tid, i, n) + Rank(states[n].threads[tid], m) <= Rank(states[i].threads[tid], m)
    decreases n
  {
    if i < n {
      RankBounds(states, actions, tid, i, n - 1, m);
      RankBoundsNext(states, actions, tid, n - 1, m);
    }
  }

  lemma RankBoundsNext(states: seq<System>, actions: seq<Action>, tid: nat, k: nat, m: nat)
    requires IsRun(states, actions) && k < |actions| && AllListAtMost(actions, m)
    requires tid in states[k].threads && Holds(states[k].threads[tid].pc) && tid in states[k + 1].threads
    ensures Rank(states[k + 1].threads[tid], m) + (if actions[k].Step? && actions[k].tid == tid then 1 else 0)
            <= Rank(states[k].threads[tid], m)
  {
    assert Follows(states, actions, k);
    OneAction(states[k], actions[k], tid, m);
  }

  lemma HoldingIsPositive(t: Thread, m: nat)
    requires Holds(t.pc)
    ensures 1 <= Rank(t, m)
  {
  }

  /** An issuance that has just taken its slot at state i, and from there on has made 7 * m + 17 steps
      of its own, has given the slot back on the way, whatever failed. m is the largest number of
      matching tasks listed. */
  lemma IssuanceReleases(
    states: seq<System>, actions: seq<Action>, tid: nat, i: nat, n: nat, m: nat)
    requires IsRun(states, actions) && i <= n < |states|
    requires AllListAtMost(actions, m)
    requires tid in states[i].threads && states[i].threads[tid].pc.FindRow?
    requires OwnSteps(actions, tid, i, n) >= 7 * m + 17
    ensures exists k :: i < k <= n && tid in states[k].threads && !Holds(states[k].threads[tid].pc)
  {
    ThreadsStay(states, actions, tid, i, n);
    if HoldsThroughout(states, tid, i, n) {
      RankBounds(states, actions, tid, i, n, m);
      HoldingIsPositive(states[n].threads[tid], m);
    }
  }

  lemma {:induction false} ThreadsStay(states: seq<System>, actions: seq<Action>, tid: nat, i: nat, n: nat)
    requires IsRun(states, actions) && i <= n < |states| && tid in states[i].threads
    ensures forall k :: i <= k <= n ==> tid in states[k].threads
    decreases n
  {
    if i < n {
      ThreadsStay(states, actions, tid, i, n - 1);
      assert Follows(states, actions, n - 1);
    }
  }

  // ----- the renewal scan

  ghost predicate SortedDue(due: seq<Due>) {
    forall i, j :: 0 <= i < j < |due| ==>
      due[i].notAfter <= due[j].notAfter && due[i].cert != due[j].cert && due[i].record != due[j].record
  }

  // The attempts are entries of the list before bound, taken in order.
  ghost predicate InOrder(attempts: seq<nat>, bound: nat) {
    && (forall i, j :: 0 <= i < j < |attempts| ==> attempts[i] < attempts[j])
    && (forall i :: 0 <= i < |attempts| ==> attempts[i] < bound)
  }

  ghost predicate ScanOk(t: Thread) {
    && SortedDue(t.due) && t.next <= |t.due| && InOrder(t.attempts, t.next)
    && (t.kind.Renewal? ==>
          && !t.pc.Load? && (t.pc.ScanList? ==> t.due == [])
          && (1 <= Point(t.pc) <= 2 ==> t.next > 0 && InOrder(t.attempts, t.next - 1))
          && (1 <= Point(t.pc) <= 19 ==> 
                t.next > 0 && t.due[t.next - 1].record == t.record.id && DoesCert(t.record.purpose))
          && (t.pc.Done? ==> t.next == |t.due|))
  }

  // Nothing but the program point of the scan moves.
  predicate SameScan(t: Thread, u: Thread) {
    u.kind == t.kind && u.due == t.due && u.next == t.next && u.attempts == t.attempts && u.record == t.record
    && (u.pc.Load? || u.pc.Gate? || u.pc.Acquire? ==> u.pc == t.pc)
    && (u.pc.Done? ==> !t.kind.Renewal?) && !u.pc.ScanList?
  }

  lemma PreparingKeepsScan(w: World, t: Thread, c: Choice)
    requires 3 <= Point(t.pc) <= 4
    ensures SameScan(t, ThreadStep(w, t, c).1)
  {
  }

  lemma OrderingKeepsScan(w: World, t: Thread, c: Choice)
    requires 5 <= Point(t.pc) <= 6
    ensures SameScan(t, ThreadStep(w, t, c).1)
  {
  }

  lemma IssuingKeepsScan(w: World, t: Thread, c: Choice)
    requires 7 <= Point(t.pc) <= 12
    ensures SameScan(t, ThreadStep(w, t, c).1)
  {
  }

  lemma FiringKeepsScan(w: World, t: Thread, c: Choice)
    requires 13 <= Point(t.pc) <= 14
    ensures SameScan(t, ThreadStep(w, t, c).1)
  {
  }

  lemma ReadingKeepsScan(w: World, t: Thread, c: Choice)
    requires 15 <= Point(t.pc) <= 16
    ensures SameScan(t, ThreadStep(w, t, c).1)
  {
  }

  lemma EndingKeepsScan(w: World, t: Thread, c: Choice)
    requires 17 <= Point(t.pc) <= 19
    ensures SameScan(t, ThreadStep(w, t, c).1)
  {
  }

  lemma ListingIsSorted(w: World, threshold: int, due: seq<Due>)
    requires WorldOk(w) && IsDueList(w, threshold, due)
    ensures SortedDue(due)
  {
    forall i, j | 0 <= i < j < |due|
      ensures due[i].record != due[j].record
    {
      assert w.certs[due[i].cert].record == due[i].record && w.certs[due[j].cert].record == due[j].record;
    }
  }

  lemma GateKeepsScan(w: World, t: Thread, c: Choice)
    requires ScanOk(t) && (t.pc.Load? || t.pc.Gate?)
    ensures ScanOk(ThreadStep(w, t, c).1)
  {
  }

  lemma AcquireKeepsScan(w: World, t: Thread, c: Choice)
    requires ScanOk(t) && t.pc.Acquire?
    ensures ScanOk(ThreadStep(w, t, c).1)
  {
  }

  lemma ScanListKeeps(w: World, t: Thread, c: Choice)
    requires WorldOk(w) && ScanOk(t) && (t.pc.ScanList? || t.pc.Done?)
    requires t.pc.ScanList? && c.DueRows? ==> IsDueList(w, c.threshold, c.due)
    ensures ScanOk(ThreadStep(w, t, c).1)
  {
    if t.pc.ScanList? && c.DueRows? {
      ListingIsSorted(w, c.threshold, c.due);
    }
  }

  lemma ScanNextKeepsScan(w: World, t: Thread, c: Choice)
    requires RecordsOk(w.records, w.nextRecord) && ScanOk(t) && t.pc.ScanNext?
    ensures ScanOk(ThreadStep(w, t, c).1)
  {
  }

  ghost predicate ScansOk(s: System) {
    forall tid :: tid in s.threads ==> ScanOk(s.threads[tid])
  }

  lemma StepKeepsScan(w: World, t: Thread, c: Choice)
    requires WorldOk(w) && ScanOk(t)
    requires t.pc.ScanList? && c.DueRows? ==> IsDueList(w, c.threshold, c.due)
    ensures ScanOk(ThreadStep(w, t, c).1)
  {
    if 3 <= Point(t.pc) <= 19 {
      BusyKeepsScan(w, t, c);
      SameScanIsOk(t, ThreadStep(w, t, c).1);
    } else {
      IdleKeepsScan(w, t, c);
    }
  }

  lemma BusyKeepsScan(w: World, t: Thread, c: Choice)
    requires 3 <= Point(t.pc) <= 19
    ensures SameScan(t, ThreadStep(w, t, c).1)
  {
    if Point(t.pc) <= 4 {
      PreparingKeepsScan(w, t, c);
    } else if Point(t.pc) <= 6 {
      OrderingKeepsScan(w, t, c);
    } else if Point(t.pc) <= 12 {
      IssuingKeepsScan(w, t, c);
    } else if Point(t.pc) <= 14 {
      FiringKeepsScan(w, t, c);
    } else if Point(t.pc) <= 16 {
      ReadingKeepsScan(w, t, c);
    } else {
      EndingKeepsScan(w, t, c);
    }
  }

  lemma SameScanIsOk(t: Thread, u: Thread)
    requires 3 <= Point(t.pc) <= 19 && ScanOk(t) && SameScan(t, u)
    ensures ScanOk(u)
  {
  }

  lemma IdleKeepsScan(w: World, t: Thread, c: Choice)
    requires WorldOk(w) && ScanOk(t) && (Point(t.pc) <= 2 || 20 <= Point(t.pc))
    requires t.pc.ScanList? && c.DueRows? ==> IsDueList(w, c.threshold, c.due)
    ensures ScanOk(ThreadStep(w, t, c).1)
  {
    match t.pc
    case ScanNext => ScanNextKeepsScan(w, t, c);
    case Acquire => AcquireKeepsScan(w, t, c);
    case Load | Gate => GateKeepsScan(w, t, c);
    case ScanList | Done => ScanListKeeps(w, t, c);
  }

  lemma NextKeepsScans(s: System, a: Action)
    requires Inv(s) && Enabled(s, a) && ScansOk(s)
    ensures ScansOk(Next(s, a))
  {
    if a.Step? {
      StepKeepsScan(s.w, s.threads[a.tid], a.choice);
    }
  }

  lemma {:induction false} RunKeepsScans(states: seq<System>, actions: seq<Action>, n: nat)
    requires IsRun(states, actions) && n < |states|
    ensures ScansOk(states[n])
  {
    if n > 0 {
      RunKeepsScans(states, actions, n - 1);
      StateFollows(states, actions, n - 1);
      NextKeepsScans(states[n - 1], actions[n - 1]);
    }
  }

  /** A renewal scan takes up the rows it listed soonest expiry first and each record at most once, and
      a scan that has ended went through the whole list, past every failure. */
  lemma ScanInExpiryOrder(states: seq<System>, actions: seq<Action>, n: nat, tid: nat)
    requires IsRun(states, actions) && n < |states| && tid in states[n].threads
    requires states[n].threads[tid].kind.Renewal?
    ensures var t := states[n].threads[tid];
            && (forall i :: 0 <= i < |t.attempts| ==> t.attempts[i] < t.next <= |t.due|)
            && (forall i, j :: 0 <= i < j < |t.attempts| ==>
                  && t.attempts[i] < t.attempts[j]
                  && t.due[t.attempts[i]].notAfter <= t.due[t.attempts[j]].notAfter
                  && t.due[t.attempts[i]].record != t.due[t.attempts[j]].record)
            && (t.pc.Done? ==> t.next == |t.due|)
  {
    RunKeepsScans(states, actions, n);
  }

  /** A scan begins exactly if ACME is switched on and its list could be read, and goes through all of it. */
  lemma ScanTakesList(states: seq<System>, actions: seq<Action>, n: nat)
    requires IsRun(states, actions) && n < |actions| && actions[n].Step?
    requires actions[n].tid in states[n].threads && states[n].threads[actions[n].tid].pc.ScanList?
    ensures actions[n].tid in states[n + 1].threads
    ensures var u, c := states[n + 1].threads[actions[n].tid], actions[n].choice;
            if states[n].w.acme && c.DueRows? then
              u.pc.ScanNext? && u.due == c.due && u.next == 0 && u.attempts == []
              && IsDueList(states[n].w, c.threshold, u.due)
            else
              u.pc.Done?
  {
    StateFollows(states, actions, n);
  }

  // The scan has taken entry i up and is about to try for its slot.
  predicate AtHand(t: Thread, i: nat) {
    (t.pc.Gate? || t.pc.Acquire?) && i == t.next - 1
  }

  // Entry i is behind the scan, which never tried for its slot.
  predicate Left(t: Thread, i: nat) {
    i < t.next && i !in t.attempts && !AtHand(t, i)
  }

  // The record of the entry cannot be loaded or does not want a certificate, or ACME has been switched off.
  ghost predicate TurnsDown(w: World, t: Thread, c: Choice, d: Due) {
    || (t.pc.ScanNext? && t.next < |t.due| && t.due[t.next] == d
        && (!c.Succeeds? || d.record !in w.records || !DoesCert(w.records[d.record].purpose)))
    || (t.pc.Gate? && 0 < t.next <= |t.due| && t.due[t.next - 1] == d && !w.acme)
  }

  ghost predicate PassedOver(s: System, a: Action, tid: nat, d: Due) {
    a.Step? && a.tid == tid && tid in s.threads && TurnsDown(s.w, s.threads[tid], a.choice, d)
  }

  lemma GateLeaves(w: World, t: Thread, c: Choice, i: nat)
    requires ScanOk(t) && t.kind.Renewal? && 1 <= Point(t.pc) <= 2
    ensures var u := ThreadStep(w, t, c).1;
            Left(u, i) ==> u.due == t.due && i < |t.due| && (Left(t, i) || TurnsDown(w, t, c, t.due[i]))
  {
    if t.pc.Acquire? {
      var u := AcquireStep(w, t).1;
      assert u.attempts[|t.attempts|] == t.next - 1;
      assert forall k :: 0 <= k < |t.attempts| ==> u.attempts[k] == t.attempts[k];
    }
  }

  lemma ScanLeaves(w: World, t: Thread, c: Choice, i: nat)
    requires ScanOk(t) && t.kind.Renewal? && 20 <= Point(t.pc)
    ensures var u := ThreadStep(w, t, c).1;
            Left(u, i) ==> u.due == t.due && i < |t.due| && (Left(t, i) || TurnsDown(w, t, c, t.due[i]))
  {
  }

  lemma StepLeaves(w: World, t: Thread, c: Choice, i: nat)
    requires ScanOk(t) && t.kind.Renewal?
    ensures var u := ThreadStep(w, t, c).1;
            Left(u, i) ==> u.due == t.due && i < |t.due| && (Left(t, i) || TurnsDown(w, t, c, t.due[i]))
  {
    if 3 <= Point(t.pc) <= 19 {
      BusyKeepsScan(w, t, c);
    } else if Point(t.pc) <= 2 {
      GateLeaves(w, t, c, i);
    } else {
      ScanLeaves(w, t, c, i);
    }
  }

  lemma SameKind(w: World, t: Thread, c: Choice)
    ensures ThreadStep(w, t, c).1.kind == t.kind
  {
    if 3 <= Point(t.pc) <= 19 {
      BusyKeepsScan(w, t, c);
    }
  }

  // One action earlier the entry was left already, or it was being turned down.
  lemma LeftBefore(s: System, a: Action, tid: nat, i: nat)
    requires Enabled(s, a) && ScansOk(s) && tid in Next(s, a).threads
    requires Next(s, a).threads[tid].kind.Renewal? && Left(Next(s, a).threads[tid], i)
    ensures var u := Next(s, a).threads[tid];
            && tid in s.threads && s.threads[tid].kind.Renewal? && s.threads[tid].due == u.due && i < |u.due|
            && (Left(s.threads[tid], i) || PassedOver(s, a, tid, u.due[i]))
  {
    if tid in s.threads {
      assert ScanOk(s.threads[tid]);
      if a.Step? && a.tid == tid {
        SameKind(s.w, s.threads[tid], a.choice);
        StepLeaves(s.w, s.threads[tid], a.choice, i);
      }
    }
  }

  /** A scan leaves out no entry without a reason: one that it is past, and never tried for, was turned
      down at some step of the scan, because its record could not be loaded or does not want a certificate,
      or because ACME had been switched off. */
  lemma {:induction false} LeftWasTurnedDown(states: seq<System>, actions: seq<Action>, n: nat, tid: nat, i: nat)
    requires IsRun(states, actions) && n < |states| && tid in states[n].threads
    requires states[n].threads[tid].kind.Renewal? && Left(states[n].threads[tid], i)
    ensures i < |states[n].threads[tid].due|
    ensures exists m :: 0 <= m < n && PassedOver(states[m], actions[m], tid, states[n].threads[tid].due[i])
  {
    if n > 0 {
      StateFollows(states, actions, n - 1);
      RunKeepsScans(states, actions, n - 1);
      LeftBefore(states[n - 1], actions[n - 1], tid, i);
      if Left(states[n - 1].threads[tid], i) {
        LeftWasTurnedDown(states, actions, n - 1, tid, i);
      }
    }
  }
}
