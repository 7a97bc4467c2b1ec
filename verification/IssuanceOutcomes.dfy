/** What an issuance leaves behind: after a success every matching task is fired, once and in order; the job
    ends as the issuance did; and a failure stops the issuance where it happens. */
module IssuanceOutcomes {
  import opened Tasks
  import opened IssuanceModel
  import opened IssuanceSafety
  import opened IssuanceLifecycle

  // ----- firing the tasks

  // From taking up the first task to the end of the last one.
  predicate Fires(pc: Pc) {
    13 <= Point(pc) <= 16
  }

  // The task at hand, and what has been read for it.
  ghost predicate AtTask(t: Thread) {
    && (14 <= Point(t.pc) <= 16 ==> t.tasks != [])
    && (t.pc.LoadMaterial? || t.pc.Read? ==> t.tasks[0].includeCertificate)
    && (t.pc.Read? ==> t.pc.file < 4 && t.got.Some?)
    && (t.pc.Post? ==> (t.got.Some? <==> t.tasks[0].includeCertificate))
  }

  /** The request for the task at hand cannot be made: the certificate row or a file of the material cannot
      be read, or the body cannot be rendered. */
  ghost predicate Misses(w: World, t: Thread, c: Choice) {
    match t.pc
    case LoadMaterial =>
      || c.Fails? || !HasRow(w, t.record.id)
      || w.certs[RowOf(w, t.record.id)].certPath == "" || w.certs[RowOf(w, t.record.id)].keyPath == ""
    case Read(i) => c.Fails? || (t.dir, i) !in w.files
    case Post => c.Fails?
    case _ => false
  }

  /** The action ends the turn of the task: the request is made for the job, with certificate material exactly
      if the task includes it, or it cannot be made. */
  ghost predicate EndsTurn(before: System, a: Action, after: System, tid: nat, task: Task, job: nat) {
    && a.Step? && a.tid == tid && tid in before.threads
    && var t, sent := before.threads[tid], before.w.deliveries;
       && t.job == job && t.tasks != [] && t.tasks[0] == task
       && if Misses(before.w, t, a.choice) then after.w.deliveries == sent
          else t.pc.Post? && (t.got.Some? <==> task.includeCertificate)
               && after.w.deliveries == sent + [Delivery(job, task, t.got)]
  }

  // One step of the firing thread: the task at hand goes on, or its turn ends.
  ghost predicate TaskEdge(w: World, t: Thread, c: Choice, v: World, u: Thread) {
    && u.job == t.job && AtTask(u)
    && if t.pc.NextTask? then
         v.deliveries == w.deliveries && u.tasks == t.tasks
         && if t.tasks == [] then u.pc.Release? else 14 <= Point(u.pc) <= 16
       else if u.pc.NextTask? then
         && t.tasks != [] && u.tasks == t.tasks[1..]
         && if Misses(w, t, c) then v.deliveries == w.deliveries
            else t.pc.Post? && v.deliveries == w.deliveries + [Delivery(t.job, t.tasks[0], t.got)]
       else !Misses(w, t, c) && u.tasks == t.tasks && 14 <= Point(u.pc) <= 16 && v.deliveries == w.deliveries
  }

  lemma NextTaskEdge(w: World, t: Thread, c: Choice)
    requires AtTask(t) && t.pc.NextTask?
    ensures var (v, u) := ThreadStep(w, t, c); TaskEdge(w, t, c, v, u)
  {
  }

  lemma LoadEdge(w: World, t: Thread, c: Choice)
    requires AtTask(t) && t.pc.LoadMaterial?
    ensures var (v, u) := ThreadStep(w, t, c); TaskEdge(w, t, c, v, u)
  {
  }

  lemma ReadEdge(w: World, t: Thread, c: Choice)
    requires AtTask(t) && t.pc.Read?
    ensures var (v, u) := ThreadStep(w, t, c); TaskEdge(w, t, c, v, u)
  {
  }

  lemma PostEdge(w: World, t: Thread, c: Choice)
    requires AtTask(t) && t.pc.Post?
    ensures var (v, u) := ThreadStep(w, t, c); TaskEdge(w, t, c, v, u)
  {
  }

  lemma FiringEdge(w: World, t: Thread, c: Choice)
    requires AtTask(t) && Fires(t.pc)
    ensures var (v, u) := ThreadStep(w, t, c); TaskEdge(w, t, c, v, u)
  {
    match t.pc
    case NextTask => NextTaskEdge(w, t, c);
    case LoadMaterial => LoadEdge(w, t, c);
    case Read(_) => ReadEdge(w, t, c);
    case Post => PostEdge(w, t, c);
  }

  // The tasks are listed at m, and from then on the thread fires them, up to n.
  ghost predicate Burst(states: seq<System>, actions: seq<Action>, m: nat, n: nat, tid: nat, ts: seq<Task>) {
    && IsRun(states, actions) && m < n < |states|
    && actions[m] == Step(tid, Listed(ts)) && tid in states[m].threads && states[m].threads[tid].pc.ListTasks?
    && forall k :: m < k < n ==> tid in states[k].threads && Fires(states[k].threads[tid].pc)
  }

  // Action p ends the turn of the task.
  ghost predicate TurnAt(states: seq<System>, actions: seq<Action>, p: nat, tid: nat, task: Task, job: nat) {
    p < |actions| < |states| && EndsTurn(states[p], actions[p], states[p + 1], tid, task, job)
  }

  // Action k is none by which the thread sends anything, or gives a task up.
  ghost predicate Silent(states: seq<System>, actions: seq<Action>, k: nat, tid: nat) {
    k < |actions| < |states|
    && (actions[k].Step? && actions[k].tid == tid ==>
          && states[k + 1].w.deliveries == states[k].w.deliveries
          && (tid in states[k].threads ==> !Misses(states[k].w, states[k].threads[tid], actions[k].choice)))
  }

  // The turns of the first |ends| of the tasks end at these actions, and nothing else is sent by the thread.
  ghost predicate TurnsEnd(
    states: seq<System>, actions: seq<Action>, m: nat, n: nat, tid: nat, tasks: seq<Task>, job: nat, ends: seq<nat>)
  {
    && |ends| <= |tasks|
    && (forall i :: 0 <= i < |ends| ==> m < ends[i] < n && TurnAt(states, actions, ends[i], tid, tasks[i], job))
    && (forall i, j :: 0 <= i < j < |ends| ==> ends[i] < ends[j])
    && (forall k: nat :: m <= k < n && k !in ends ==> Silent(states, actions, k, tid))
  }

  lemma TurnsGoOn(
    states: seq<System>, actions: seq<Action>, m: nat, n: nat, tid: nat, tasks: seq<Task>, job: nat,
    ends: seq<nat>, more: seq<nat>)
    requires TurnsEnd(states, actions, m, n, tid, tasks, job, ends) && m < n
    requires || (more == ends && Silent(states, actions, n, tid))
             || (more == ends + [n] && |ends| < |tasks| && TurnAt(states, actions, n, tid, tasks[|ends|], job))
    ensures TurnsEnd(states, actions, m, n + 1, tid, tasks, job, more)
  {
    if more != ends {
      assert n in more && forall k :: k in ends ==> k in more;
    }
  }

  // Where the thread stands when that many turns are over.
  ghost predicate Stands(s: System, tid: nat, tasks: seq<Task>, job: nat, done: nat) {
    && tid in s.threads && done <= |tasks|
    && var t := s.threads[tid];
       && t.job == job && AtTask(t)
       && (if Fires(t.pc) then t.tasks == tasks[done..] else t.pc.Release? && done == |tasks|)
  }

  lemma BurstStarts(states: seq<System>, actions: seq<Action>, m: nat, tid: nat, ts: seq<Task>)
    requires Burst(states, actions, m, m + 1, tid, ts)
    ensures Stands(states[m + 1], tid, Matching(ts, TRIGGER_CERT), states[m].threads[tid].job, 0)
    ensures states[m + 1].w.deliveries == states[m].w.deliveries
  {
    StateFollows(states, actions, m);
  }

  lemma BurstStep(
    states: seq<System>, actions: seq<Action>, m: nat, n: nat, tid: nat, tasks: seq<Task>, job: nat, ends: seq<nat>)
    returns (more: seq<nat>)
    requires m < n < |actions| < |states|
    requires Enabled(states[n], actions[n]) && states[n + 1] == Next(states[n], actions[n])
    requires Stands(states[n], tid, tasks, job, |ends|) && Fires(states[n].threads[tid].pc)
    requires TurnsEnd(states, actions, m, n, tid, tasks, job, ends)
    ensures TurnsEnd(states, actions, m, n + 1, tid, tasks, job, more)
    ensures Stands(states[n + 1], tid, tasks, job, |more|)
  {
    if actions[n].Step? && actions[n].tid == tid {
      more := OwnBurstStep(states[n], actions[n].choice, tid, n, tasks, job, ends);
    } else {
      OthersStandBy(states[n], actions[n], tid, tasks, job, |ends|);
      more := ends;
    }
    TurnsGoOn(states, actions, m, n, tid, tasks, job, ends, more);
  }

  lemma OthersStandBy(s: System, a: Action, tid: nat, tasks: seq<Task>, job: nat, done: nat)
    requires Enabled(s, a) && Stands(s, tid, tasks, job, done) && !(a.Step? && a.tid == tid)
    ensures Stands(Next(s, a), tid, tasks, job, done)
  {
    assert Next(s, a).threads[tid] == s.threads[tid];
  }

  lemma OwnBurstStep(s: System, c: Choice, tid: nat, n: nat, tasks: seq<Task>, job: nat, ends: seq<nat>)
    returns (more: seq<nat>)
    requires Stands(s, tid, tasks, job, |ends|) && Fires(s.threads[tid].pc)
    ensures Stands(Next(s, Step(tid, c)), tid, tasks, job, |more|)
    ensures more == ends || (more == ends + [n] && |ends| < |tasks|)
    ensures more == ends ==>
              Next(s, Step(tid, c)).w.deliveries == s.w.deliveries && !Misses(s.w, s.threads[tid], c)
    ensures more != ends ==> EndsTurn(s, Step(tid, c), Next(s, Step(tid, c)), tid, tasks[|ends|], job)
  {
    var t := s.threads[tid];
    var (v, u) := ThreadStep(s.w, t, c);
    FiringEdge(s.w, t, c);
    assert Next(s, Step(tid, c)).threads[tid] == u && Next(s, Step(tid, c)).w == v;
    more := ends;
    if !t.pc.NextTask? && u.pc.NextTask? {
      assert tasks[|ends|..][1..] == tasks[|ends| + 1..] && tasks[|ends|..][0] == tasks[|ends|];
      more := ends + [n];
    }
  }

  lemma BurstFollows(states: seq<System>, actions: seq<Action>, m: nat, n: nat, tid: nat, ts: seq<Task>)
    requires Burst(states, actions, m, n + 1, tid, ts) && m < n
    ensures Burst(states, actions, m, n, tid, ts) && Fires(states[n].threads[tid].pc)
    ensures n < |actions| < |states| && Enabled(states[n], actions[n]) && states[n + 1] == Next(states[n], actions[n])
  {
    StateFollows(states, actions, n);
  }

  lemma {:induction false} FiringSoFar(
    states: seq<System>, actions: seq<Action>, m: nat, n: nat, tid: nat, ts: seq<Task>)
    returns (ends: seq<nat>)
    requires Burst(states, actions, m, n, tid, ts)
    ensures var tasks, job := Matching(ts, TRIGGER_CERT), states[m].threads[tid].job;
            TurnsEnd(states, actions, m, n, tid, tasks, job, ends) && Stands(states[n], tid, tasks, job, |ends|)
    decreases n
  {
    if n == m + 1 {
      BurstStarts(states, actions, m, tid, ts);
      ends := [];
      assert Silent(states, actions, m, tid);
    } else {
      var tasks, job := Matching(ts, TRIGGER_CERT), states[m].threads[tid].job;
      var before := FiringSoFar(states, actions, m, n - 1, tid, ts);
      BurstFollows(states, actions, m, n - 1, tid, ts);
      ends := BurstStep(states, actions, m, n - 1, tid, tasks, job, before);
    }
  }

  /** Every issuance that succeeded fires its tasks. Between listing the tasks and giving the slot back, each
      listed task with the certificate trigger or both gets one turn, in the order of the list (at holds the
      positions in the list, ends the actions that end the turns): its request is made for this job, with
      material exactly if the task includes it, unless its own row, files or body could not be had. No other
      request is made by the thread, and no turn goes on once something could not be had. */
  lemma EveryTaskIsFired(states: seq<System>, actions: seq<Action>, m: nat, n: nat, tid: nat, ts: seq<Task>)
    returns (at: seq<nat>, ends: seq<nat>)
    requires Burst(states, actions, m, n, tid, ts)
    requires tid in states[n].threads && states[n].threads[tid].pc.Release?
    ensures |at| == |ends|
    ensures forall p: nat :: p in at <==>
              p < |ts| && (ts[p].triggerOn == TRIGGER_CERT || ts[p].triggerOn == TRIGGER_BOTH)
    ensures forall i, j :: 0 <= i < j < |at| ==> at[i] < at[j] && ends[i] < ends[j]
    ensures forall i :: 0 <= i < |at| ==>
              at[i] < |ts| && m < ends[i] < n
              && TurnAt(states, actions, ends[i], tid, ts[at[i]], states[m].threads[tid].job)
    ensures forall k: nat :: m <= k < n && k !in ends ==> Silent(states, actions, k, tid)
  {
    ends := FiringSoFar(states, actions, m, n, tid, ts);
    at := MatchingRows(ts, TRIGGER_CERT);
    assert forall i :: 0 <= i < |at| ==> ts[at[i]] == Matching(ts, TRIGGER_CERT)[i];
  }

  // ----- how jobs end

  // The job of a thread that fires tasks has ended successfully.
  ghost predicate SucceededOrLost(w: World, t: Thread) {
    12 <= Point(t.pc) <= 16 && t.job in w.jobs && t.job in w.issues ==>
      w.jobs[t.job].status == Success || w.issues[t.job].finishLost
  }

  lemma EntersEarly(w: World, t: Thread, c: Choice)
    requires Point(t.pc) <= 2
    ensures var u := ThreadStep(w, t, c).1; Point(u.pc) <= 3 || 19 <= Point(u.pc)
  {
  }

  lemma EntersPreparing(w: World, t: Thread, c: Choice)
    requires 3 <= Point(t.pc) <= 5
    ensures var u := ThreadStep(w, t, c).1; Point(u.pc) <= 6 || 19 <= Point(u.pc)
  {
  }

  lemma EntersOrdering(w: World, t: Thread, c: Choice)
    requires 6 <= Point(t.pc) <= 10
    ensures var u := ThreadStep(w, t, c).1; Point(u.pc) <= 11 || 17 <= Point(u.pc)
  {
  }

  lemma EntersLate(w: World, t: Thread, c: Choice)
    requires 17 <= Point(t.pc) <= 19
    ensures var u := ThreadStep(w, t, c).1; 18 <= Point(u.pc)
  {
  }

  lemma EntersScan(w: World, t: Thread, c: Choice)
    requires 20 <= Point(t.pc)
    ensures var u := ThreadStep(w, t, c).1; Point(u.pc) <= 1 || 20 <= Point(u.pc)
  {
  }

  lemma FiringKeepsJob(w: World, t: Thread, c: Choice)
    requires 12 <= Point(t.pc) <= 16
    ensures ThreadStep(w, t, c).1.job == t.job
  {
  }

  lemma FinishDecides(w: World, t: Thread, c: Choice)
    requires t.pc.FinishOk? && t.job in w.issues
    ensures var (v, u) := ThreadStep(w, t, c); u.job == t.job && SucceededOrLost(v, u)
  {
  }

  // Only the finishing step of a success leads to the tasks.
  lemma OwnStepSucceeded(w: World, t: Thread, c: Choice)
    requires WorldOk(w) && ThreadOk(w, t) && SucceededOrLost(w, t)
    ensures var (v, u) := ThreadStep(w, t, c); SucceededOrLost(v, u)
  {
    var (v, u) := ThreadStep(w, t, c);
    if Point(t.pc) <= 2 {
      EntersEarly(w, t, c);
    } else if Point(t.pc) <= 5 {
      EntersPreparing(w, t, c);
    } else if Point(t.pc) <= 10 {
      EntersOrdering(w, t, c);
    } else if t.pc.FinishOk? {
      FinishDecides(w, t, c);
    } else if Point(t.pc) <= 16 {
      FiringKeepsJob(w, t, c);
      StepKeeps(w, t, c);
      FiringLeavesJobs(w, t, v, u);
    } else if Point(t.pc) <= 19 {
      EntersLate(w, t, c);
    } else {
      EntersScan(w, t, c);
    }
  }

  lemma FiringLeavesJobs(w: World, t: Thread, v: World, u: Thread)
    requires SucceededOrLost(w, t) && 12 <= Point(t.pc) <= 16 && u.job == t.job
    requires JobFacts(w.jobs, w.issues, w.nextJob, t) && JobEdge(w, t, v, u)
    requires JobsKept(w.jobs, v.jobs, w.nextJob, u.record.id)
    ensures SucceededOrLost(v, u)
  {
  }

  // A step of another thread.
  lemma OtherStepSucceeded(w: World, t: Thread, v: World, u: Thread, o: Thread)
    requires JobFacts(w.jobs, w.issues, w.nextJob, t) && JobFacts(w.jobs, w.issues, w.nextJob, o)
    requires JobEdge(w, t, v, u) && JobsKept(w.jobs, v.jobs, w.nextJob, u.record.id)
    requires SucceededOrLost(w, o)
    ensures SucceededOrLost(v, o)
  {
  }

  lemma NextSucceeded(s: System, a: Action, tid: nat)
    requires Inv(s) && Enabled(s, a) && tid in Next(s, a).threads
    requires tid in s.threads ==> SucceededOrLost(s.w, s.threads[tid])
    ensures SucceededOrLost(Next(s, a).w, Next(s, a).threads[tid])
  {
    if a.Step? {
      var (v, u) := ThreadStep(s.w, s.threads[a.tid], a.choice);
      if a.tid == tid {
        OwnStepSucceeded(s.w, s.threads[tid], a.choice);
      } else {
        StepKeeps(s.w, s.threads[a.tid], a.choice);
        OtherStepSucceeded(s.w, s.threads[a.tid], v, u, s.threads[tid]);
      }
    }
  }

  /** Whoever fires the tasks of an issuance has a successful job: its row says so, unless the finishing
      statement was lost or the row was deleted with its record. */
  lemma {:induction false} FiringJobSucceeded(states: seq<System>, actions: seq<Action>, n: nat, tid: nat)
    requires IsRun(states, actions) && n < |states| && tid in states[n].threads
    ensures SucceededOrLost(states[n].w, states[n].threads[tid])
  {
    if n > 0 {
      StateFollows(states, actions, n - 1);
      if tid in states[n - 1].threads {
        FiringJobSucceeded(states, actions, n - 1, tid);
      }
      NextSucceeded(states[n - 1], actions[n - 1], tid);
    }
  }

  /** The finishing statement decides for good: once it has gone through, the job row, as long as it is there,
      says success for an issuance that stored its certificate and failure for any other. */
  lemma JobEndsAsItShould(states: seq<System>, actions: seq<Action>, m: nat, n: nat, tid: nat)
    requires IsRun(states, actions) && m < n < |states| && tid in states[m].threads
    requires states[m].threads[tid].pc.FinishOk? || states[m].threads[tid].pc.FinishFailed?
    requires actions[m].Step? && actions[m].tid == tid && !actions[m].choice.Fails?
    requires states[m].threads[tid].job in states[m].w.jobs
    ensures var t := states[m].threads[tid];
            t.job in states[n].w.jobs ==>
              states[n].w.jobs[t.job].status == if t.pc.FinishOk? then Success else JobFailed
  {
    var t := states[m].threads[tid];
    assert states[m + 1].w == ThreadStep(states[m].w, t, actions[m].choice).0 by {
      StateFollows(states, actions, m);
    }
    FinishesAs(states[m].w, t, actions[m].choice);
    JobsEndOnce(states, actions, m + 1, n, t.job);
  }

  lemma FinishesAs(w: World, t: Thread, c: Choice)
    requires (t.pc.FinishOk? || t.pc.FinishFailed?) && !c.Fails? && t.job in w.jobs
    ensures var v := ThreadStep(w, t, c).0;
            t.job in v.jobs && v.jobs[t.job].status == if t.pc.FinishOk? then Success else JobFailed
  {
  }

  // ----- failures

  // The answer that lets the issuance go on.
  predicate Answers(pc: Pc, c: Choice) {
    match pc
    case Obtain => c.Issued?
    case Parse => c.Parsed?
    case _ => !c.Fails?
  }

  /** A failure stops the issuance. Before there is a job, the slot is given back and no table is touched.
      From the order to storing the certificate, the certificate is marked as failed, then the job, and then
      the slot is given back; no task is listed and no request is made. */
  lemma FailureStopsIssuance(states: seq<System>, actions: seq<Action>, n: nat)
    requires IsRun(states, actions) && n < |actions| && actions[n].Step?
    requires actions[n].tid in states[n].threads && 3 <= Point(states[n].threads[actions[n].tid].pc) <= 18
    ensures actions[n].tid in states[n + 1].threads
    ensures var t, u := states[n].threads[actions[n].tid], states[n + 1].threads[actions[n].tid];
            var w, v := states[n].w, states[n + 1].w;
            && (Point(t.pc) <= 5 && actions[n].choice.Fails? ==>
                  u.pc.Release? && v.certs == w.certs && v.jobs == w.jobs)
            && (6 <= Point(t.pc) <= 10 && !Answers(t.pc, actions[n].choice) ==>
                  u.pc.MarkFailed? && u.job == t.job && v.certs == w.certs && v.jobs == w.jobs)
            && (t.pc.MarkFailed? ==>
                  && u.pc.FinishFailed? && u.job == t.job
                  && v.certs == if actions[n].choice.Fails? || t.cert !in w.certs then w.certs
                                else w.certs[t.cert := w.certs[t.cert].(status := Failed)])
            && (t.pc.FinishFailed? ==> u.pc.Release? && v.certs == w.certs)
            && (Point(t.pc) <= 11 || 17 <= Point(t.pc) ==> v.deliveries == w.deliveries)
  {
    StateFollows(states, actions, n);
    var t, c := states[n].threads[actions[n].tid], actions[n].choice;
    assert ThreadOk(states[n].w, t);
    if Point(t.pc) <= 5 {
      EarlyFailure(states[n].w, t, c);
    } else if Point(t.pc) <= 7 {
      OrderFailure(states[n].w, t, c);
    } else if Point(t.pc) <= 11 {
      StoreFailure(states[n].w, t, c);
    } else if t.pc.MarkFailed? {
      MarkedAsFailed(states[n].w, t, c);
    } else if t.pc.FinishFailed? {
      JobFinishedAsFailed(states[n].w, t, c);
    }
  }

  lemma EarlyFailure(w: World, t: Thread, c: Choice)
    requires 3 <= Point(t.pc) <= 5
    ensures var (v, u) := ThreadStep(w, t, c);
            v.deliveries == w.deliveries && (c.Fails? ==> u.pc.Release? && v == w)
  {
  }

  lemma OrderFailure(w: World, t: Thread, c: Choice)
    requires 6 <= Point(t.pc) <= 7
    ensures var (v, u) := ThreadStep(w, t, c);
            && v.deliveries == w.deliveries
            && (!Answers(t.pc, c) ==> u.pc.MarkFailed? && u.job == t.job && v.certs == w.certs && v.jobs == w.jobs)
  {
  }

  lemma StoreFailure(w: World, t: Thread, c: Choice)
    requires 8 <= Point(t.pc) <= 11
    ensures var (v, u) := ThreadStep(w, t, c);
            && v.deliveries == w.deliveries
            && (Point(t.pc) <= 10 && !Answers(t.pc, c) ==>
                  u.pc.MarkFailed? && u.job == t.job && v.certs == w.certs && v.jobs == w.jobs)
  {
  }

  lemma MarkedAsFailed(w: World, t: Thread, c: Choice)
    requires t.pc.MarkFailed?
    ensures var (v, u) := ThreadStep(w, t, c);
            && v.deliveries == w.deliveries && u.pc.FinishFailed? && u.job == t.job
            && v.certs == if c.Fails? || t.cert !in w.certs then w.certs
                          else w.certs[t.cert := w.certs[t.cert].(status := Failed)]
  {
  }

  lemma JobFinishedAsFailed(w: World, t: Thread, c: Choice)
    requires t.pc.FinishFailed?
    ensures var (v, u) := ThreadStep(w, t, c);
            v.deliveries == w.deliveries && u.pc.Release? && v.certs == w.certs
  {
  }

  // ----- the gate

  /** A record that is stored and can be loaded comes to the gate with its row as it stands, whoever asked. */
  lemma LoadTakesTheRow(states: seq<System>, actions: seq<Action>, n: nat)
    requires IsRun(states, actions) && n < |actions| && actions[n].Step?
    requires actions[n].tid in states[n].threads && states[n].threads[actions[n].tid].pc.Load?
    ensures actions[n].tid in states[n + 1].threads
    ensures var t, u := states[n].threads[actions[n].tid], states[n + 1].threads[actions[n].tid];
            && (actions[n].choice.Succeeds? && t.target in states[n].w.records ==>
                  u == t.(pc := Gate, record := states[n].w.records[t.target]))
            && states[n + 1].w == states[n].w
  {
    StateFollows(states, actions, n);
  }

  /** No issuance goes on unless ACME was switched on when it passed the gate. */
  lemma {:induction false} PassedWithAcme(states: seq<System>, actions: seq<Action>, n: nat, tid: nat)
    requires IsRun(states, actions) && n < |states| && tid in states[n].threads
    requires 2 <= Point(states[n].threads[tid].pc) <= 19
    ensures exists m :: 0 <= m < n && GatePassed(states[m], actions[m], tid)
  {
    if n > 0 {
      StateFollows(states, actions, n - 1);
      var s, a := states[n - 1], actions[n - 1];
      if tid in s.threads && 2 <= Point(s.threads[tid].pc) <= 19 {
        PassedWithAcme(states, actions, n - 1, tid);
      } else {
        PassesNow(s, a, tid);
        assert GatePassed(states[n - 1], actions[n - 1], tid);
      }
    }
  }

  ghost predicate GatePassed(s: System, a: Action, tid: nat) {
    a.Step? && a.tid == tid && tid in s.threads && s.threads[tid].pc.Gate? && s.w.acme
  }

  lemma PassesNow(s: System, a: Action, tid: nat)
    requires Enabled(s, a) && tid in Next(s, a).threads && 2 <= Point(Next(s, a).threads[tid].pc) <= 19
    requires tid in s.threads ==> !(2 <= Point(s.threads[tid].pc) <= 19)
    ensures GatePassed(s, a, tid)
  {
    if a.Step? && a.tid == tid {
      ThroughGate(s.w, s.threads[tid], a.choice);
    }
  }

  lemma ThroughGate(w: World, t: Thread, c: Choice)
    requires !(2 <= Point(t.pc) <= 19) && 2 <= Point(ThreadStep(w, t, c).1.pc) <= 19
    ensures t.pc.Gate? && w.acme
  {
  }

  // ----- deleting a record

  /** Deleting a record takes its own certificate and jobs along and leaves all others as they are. */
  lemma DeleteTakesItsOwn(states: seq<System>, actions: seq<Action>, n: nat, id: nat)
    requires IsRun(states, actions) && n < |actions| && actions[n] == DeleteRecord(id)
    ensures var w, v := states[n].w, states[n + 1].w;
            && (forall c :: c in v.certs <==> c in w.certs && w.certs[c].record != id)
            && (forall c :: c in v.certs ==> v.certs[c] == w.certs[c])
            && (forall j :: j in v.jobs <==> j in w.jobs && w.jobs[j].record != id)
            && (forall j :: j in v.jobs ==> v.jobs[j] == w.jobs[j])
            && v.files == w.files && v.slots == w.slots && v.deliveries == w.deliveries
            && states[n + 1].threads == states[n].threads
  {
    StateFollows(states, actions, n);
  }
}
