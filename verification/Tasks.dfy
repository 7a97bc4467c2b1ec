/** The webhook tasks of a record and how an event fires them (backend/pkg/tasks/task.go). */
module Tasks {
  import opened Common

  // A row of the tasks table, as far as firing looks at it.
  datatype Task = Task(id: nat, record: nat, triggerOn: int, enabled: bool, includeCertificate: bool)

  const TRIGGER_IP := 1
  const TRIGGER_CERT := 2
  const TRIGGER_BOTH := 3

  predicate Matches(task: Task, event: int) {
    task.triggerOn == event || task.triggerOn == TRIGGER_BOTH
  }

  /** The tasks that an event fires, in their order. */
  function Matching(tasks: seq<Task>, event: int): seq<Task> {
    if tasks == [] then []
    else (if Matches(tasks[0], event) then [tasks[0]] else []) + Matching(tasks[1..], event)
  }

  // ListEnabledTasksByRecord
  function EnabledOf(tasks: seq<Task>, record: nat): seq<Task> {
    if tasks == [] then []
    else (if tasks[0].enabled && tasks[0].record == record then [tasks[0]] else []) + EnabledOf(tasks[1..], record)
  }

  lemma {:induction false} MatchingCounts(tasks: seq<Task>, event: int, t: Task)
    ensures multiset(Matching(tasks, event))[t] == if Matches(t, event) then multiset(tasks)[t] else 0
  {
    if tasks != [] {
      MatchingCounts(tasks[1..], event, t);
      assert tasks == [tasks[0]] + tasks[1..];
    }
  }

  lemma {:induction false} EnabledCounts(tasks: seq<Task>, record: nat, t: Task)
    ensures multiset(EnabledOf(tasks, record))[t] == if t.enabled && t.record == record then multiset(tasks)[t] else 0
  {
    if tasks != [] {
      EnabledCounts(tasks[1..], record, t);
      assert tasks == [tasks[0]] + tasks[1..];
    }
  }

  /** Fired are exactly the enabled tasks of the record whose trigger matches, each as often as it is
      listed. */
  lemma FiresExactly(tasks: seq<Task>, record: nat, event: int, t: Task)
    ensures multiset(Matching(EnabledOf(tasks, record), event))[t]
            == if t.enabled && t.record == record && Matches(t, event) then multiset(tasks)[t] else 0
  {
    MatchingCounts(EnabledOf(tasks, record), event, t);
    EnabledCounts(tasks, record, t);
  }

  lemma {:induction false} MatchingAppend(a: seq<Task>, b: seq<Task>, event: int)
    ensures Matching(a + b, event) == Matching(a, event) + Matching(b, event)
  {
    if a == [] {
      assert a + b == b;
    } else {
      MatchingAppend(a[1..], b, event);
      assert (a + b)[0] == a[0] && (a + b)[1..] == a[1..] + b;
      var head := if Matches(a[0], event) then [a[0]] else [];
      var rest, other := Matching(a[1..], event), Matching(b, event);
      assert head + (rest + other) == head + rest + other;
    }
  }

  /** Firing keeps the order of the list: of two fired tasks, the one listed first is fired first. */
  lemma {:induction false} FiresInOrder(tasks: seq<Task>, event: int, i: nat, j: nat)
    requires i < j < |Matching(tasks, event)|
    ensures exists p, q ::
              0 <= p < q < |tasks| && tasks[p] == Matching(tasks, event)[i] && tasks[q] == Matching(tasks, event)[j]
  {
    if Matches(tasks[0], event) {
      if i == 0 {
        var q := Listed(tasks[1..], event, j - 1);
        assert tasks[q + 1] == Matching(tasks, event)[j];
      } else {
        FiresInOrder(tasks[1..], event, i - 1, j - 1);
        var p, q :| 0 <= p < q < |tasks[1..]| && tasks[1..][p] == Matching(tasks[1..], event)[i - 1]
                    && tasks[1..][q] == Matching(tasks[1..], event)[j - 1];
        assert tasks[p + 1] == Matching(tasks, event)[i] && tasks[q + 1] == Matching(tasks, event)[j];
      }
    } else {
      FiresInOrder(tasks[1..], event, i, j);
      var p, q :| 0 <= p < q < |tasks[1..]| && tasks[1..][p] == Matching(tasks[1..], event)[i]
                  && tasks[1..][q] == Matching(tasks[1..], event)[j];
      assert tasks[p + 1] == Matching(tasks, event)[i] && tasks[q + 1] == Matching(tasks, event)[j];
    }
  }

  lemma {:induction false} Listed(tasks: seq<Task>, event: int, i: nat) returns (p: nat)
    requires i < |Matching(tasks, event)|
    ensures p < |tasks| && tasks[p] == Matching(tasks, event)[i]
  {
    if Matches(tasks[0], event) {
      if i == 0 {
        p := 0;
      } else {
        p := Listed(tasks[1..], event, i - 1);
        p := p + 1;
      }
    } else {
      p := Listed(tasks[1..], event, i);
      p := p + 1;
    }
  }

  /** Which rows of the table an event fires, and in which order: at holds their positions. */
  lemma {:induction false} FiredRows(tasks: seq<Task>, record: nat, event: int) returns (at: seq<nat>)
    ensures |at| == |Matching(EnabledOf(tasks, record), event)|
    ensures forall i :: 0 <= i < |at| ==>
              at[i] < |tasks| && tasks[at[i]] == Matching(EnabledOf(tasks, record), event)[i]
    ensures forall i, j :: 0 <= i < j < |at| ==> at[i] < at[j]
    ensures forall p: nat :: p in at <==>
              p < |tasks| && tasks[p].enabled && tasks[p].record == record
              && (tasks[p].triggerOn == event || tasks[p].triggerOn == TRIGGER_BOTH)
  {
    at := [];
    if tasks != [] {
      var front, last := tasks[..|tasks| - 1], tasks[|tasks| - 1];
      at := FiredRows(front, record, event);
      FiredLast(front, last, record, event);
      assert tasks == front + [last];
      if last.enabled && last.record == record && Matches(last, event) {
        at := at + [|front|];
      }
    }
  }

  lemma MatchingLast(front: seq<Task>, last: Task, event: int)
    ensures Matching(front + [last], event) == Matching(front, event) + if Matches(last, event) then [last] else []
  {
    assert [last][1..] == [];
    MatchingAppend(front, [last], event);
  }

  /** The same for a list as it is. */
  lemma {:induction false} MatchingRows(tasks: seq<Task>, event: int) returns (at: seq<nat>)
    ensures |at| == |Matching(tasks, event)|
    ensures forall i :: 0 <= i < |at| ==> at[i] < |tasks| && tasks[at[i]] == Matching(tasks, event)[i]
    ensures forall i, j :: 0 <= i < j < |at| ==> at[i] < at[j]
    ensures forall p: nat :: p in at <==>
              p < |tasks| && (tasks[p].triggerOn == event || tasks[p].triggerOn == TRIGGER_BOTH)
  {
    at := [];
    if tasks != [] {
      var front, last := tasks[..|tasks| - 1], tasks[|tasks| - 1];
      at := MatchingRows(front, event);
      MatchingLast(front, last, event);
      assert tasks == front + [last];
      if Matches(last, event) {
        at := at + [|front|];
      }
    }
  }

  lemma {:induction false} EnabledAppend(a: seq<Task>, b: seq<Task>, record: nat)
    ensures EnabledOf(a + b, record) == EnabledOf(a, record) + EnabledOf(b, record)
  {
    if a == [] {
      assert a + b == b;
    } else {
      EnabledAppend(a[1..], b, record);
      assert (a + b)[0] == a[0] && (a + b)[1..] == a[1..] + b;
      var head := if a[0].enabled && a[0].record == record then [a[0]] else [];
      var rest, other := EnabledOf(a[1..], record), EnabledOf(b, record);
      assert head + (rest + other) == head + rest + other;
    }
  }

  lemma FiredLast(front: seq<Task>, last: Task, record: nat, event: int)
    ensures Matching(EnabledOf(front + [last], record), event)
         == Matching(EnabledOf(front, record), event)
            + if last.enabled && last.record == record && Matches(last, event) then [last] else []
  {
    EnabledAppend(front, [last], record);
    assert [last][1..] == [];
    MatchingAppend(EnabledOf(front, record), EnabledOf([last], record), event);
  }

  // ----- running them

  datatype RunStatus = RunRunning | RunSuccess | RunFailed

  datatype Run = Run(task: nat, record: nat, job: Option<nat>, event: int, status: RunStatus)

  // The outcomes of one task: whether its run row could be created, whether the webhook call succeeded,
  // whether that could be recorded on the task, and whether the run row could be finished.
  datatype Attempt = Attempt(created: bool, succeeded: bool, recorded: bool, finished: bool)

  // A webhook call: the task, the event and the job it is made for.
  datatype Call = Call(task: nat, event: int, job: Option<nat>)

  // The task_runs table and, from the tasks table, whether the last recorded call of a task succeeded.
  datatype Log = Log(runs: seq<Run>, results: map<nat, bool>)

  function RunOf(t: Task, event: int, job: Option<nat>, a: Attempt): Run {
    Run(t.id, t.record, job, event, if !a.finished then RunRunning else if a.succeeded then RunSuccess else RunFailed)
  }

  function Logged(log: Log, t: Task, event: int, job: Option<nat>, a: Attempt): Log {
    Log(if a.created then log.runs + [RunOf(t, event, job, a)] else log.runs,
        if a.recorded then log.results[t.id := a.succeeded] else log.results)
  }

  /** The run row names the task, its record, the job and the event, and ends as the call did unless it could
      not be finished; the result of the call is that of the task. */
  lemma CallIsLogged(log: Log, t: Task, event: int, job: Option<nat>, a: Attempt)
    ensures var after := Logged(log, t, event, job, a);
            && (!a.created ==> after.runs == log.runs)
            && (a.created ==>
                  && |after.runs| == |log.runs| + 1 && after.runs[..|log.runs|] == log.runs
                  && var row := after.runs[|log.runs|];
                     && row.task == t.id && row.record == t.record && row.job == job && row.event == event
                     && (row.status == RunSuccess <==> a.finished && a.succeeded)
                     && (row.status == RunFailed <==> a.finished && !a.succeeded))
            && (forall id :: id in after.results <==> id in log.results || (a.recorded && id == t.id))
            && (forall id :: id in after.results ==>
                  after.results[id] == if a.recorded && id == t.id then a.succeeded else log.results[id])
  {
  }

  /** The log after the tasks, the k-th of which meets outcome(k). */
  function LogAfter(log: Log, tasks: seq<Task>, event: int, job: Option<nat>, outcome: nat -> Attempt): Log {
    if tasks == [] then log
    else
      var k := |tasks| - 1;
      Logged(LogAfter(log, tasks[..k], event, job, outcome), tasks[k], event, job, outcome(k))
  }

  function CallsFor(tasks: seq<Task>, event: int, job: Option<nat>): (calls: seq<Call>)
    ensures |calls| == |tasks|
  {
    seq(|tasks|, i requires 0 <= i < |tasks| => Call(tasks[i].id, event, job))
  }

  /** The tasks table, the log, and the webhook calls made. Run ids are positions. */
  class TaskStore {
    var tasks: seq<Task>
    var log: Log
    var calls: seq<Call>

    constructor (tasks: seq<Task>)
      ensures this.tasks == tasks && log == Log([], map[]) && calls == []
    {
      this.tasks := tasks;
      log, calls := Log([], map[]), [];
    }

    // runTask: a run row that cannot be created does not keep the webhook from being called.
    method RunTask(task: Task, event: int, job: Option<nat>, a: Attempt)
      modifies this`log, this`calls
      ensures calls == old(calls) + [Call(task.id, event, job)]
      ensures log == Logged(old(log), task, event, job, a)
    {
      var runId := |log.runs|;
      if a.created {
        log := log.(runs := log.runs + [Run(task.id, task.record, job, event, RunRunning)]);
      }
      calls := calls + [Call(task.id, event, job)];
      if a.recorded {
        log := log.(results := log.results[task.id := a.succeeded]);
      }
      if a.created && a.finished {
        var done := log.runs[runId].(status := if a.succeeded then RunSuccess else RunFailed);
        log := log.(runs := log.runs[runId := done]);
      }
    }

    /** FireTasks: calls the matching tasks of the record one after the other, past every failure. listed
        tells whether the task list could be loaded. */
    method FireTasks(record: nat, event: int, job: Option<nat>, listed: bool, outcome: nat -> Attempt)
      modifies this`log, this`calls
      ensures var fired := if listed then Matching(EnabledOf(tasks, record), event) else [];
              && calls == old(calls) + CallsFor(fired, event, job)
              && log == LogAfter(old(log), fired, event, job, outcome)
    {
      if !listed {
        return;
      }
      var list := EnabledOf(tasks, record);
      ghost var log0, calls0 := log, calls;
      var i, k := 0, 0;
      assert calls0 + CallsFor([], event, job) == calls0;
      while i < |list|
        invariant i <= |list|
        invariant SoFar(Matching(list[..i], event), event, job, outcome, log0, calls0, k, log, calls)
      {
        MatchingNext(list, i, event);
        if Matches(list[i], event) {
          SoFarNext(Matching(list[..i], event), list[i], event, job, outcome, log0, calls0, k, log, calls);
          RunTask(list[i], event, job, outcome(k));
          k := k + 1;
        }
        i := i + 1;
      }
      assert list[..i] == list;
    }
  }

  // The tasks fired so far have been called and logged.
  ghost predicate SoFar(
    fired: seq<Task>, event: int, job: Option<nat>, outcome: nat -> Attempt,
    log0: Log, calls0: seq<Call>, k: nat, log: Log, calls: seq<Call>)
  {
    k == |fired| && calls == calls0 + CallsFor(fired, event, job) && log == LogAfter(log0, fired, event, job, outcome)
  }

  lemma SoFarNext(
    fired: seq<Task>, t: Task, event: int, job: Option<nat>, outcome: nat -> Attempt,
    log0: Log, calls0: seq<Call>, k: nat, log: Log, calls: seq<Call>)
    requires SoFar(fired, event, job, outcome, log0, calls0, k, log, calls)
    ensures SoFar(fired + [t], event, job, outcome, log0, calls0, k + 1,
                  Logged(log, t, event, job, outcome(k)), calls + [Call(t.id, event, job)])
  {
    LogNext(log0, fired, t, event, job, outcome);
  }

  lemma LogNext(log: Log, fired: seq<Task>, t: Task, event: int, job: Option<nat>, outcome: nat -> Attempt)
    ensures CallsFor(fired + [t], event, job) == CallsFor(fired, event, job) + [Call(t.id, event, job)]
    ensures LogAfter(log, fired + [t], event, job, outcome)
         == Logged(LogAfter(log, fired, event, job, outcome), t, event, job, outcome(|fired|))
  {
    assert (fired + [t])[..|fired|] == fired;
  }

  lemma MatchingNext(tasks: seq<Task>, i: nat, event: int)
    requires i < |tasks|
    ensures Matching(tasks[..i + 1], event)
            == if Matches(tasks[i], event) then Matching(tasks[..i], event) + [tasks[i]]
               else Matching(tasks[..i], event)
  {
    var one := [tasks[i]];
    assert tasks[..i + 1] == tasks[..i] + one;
    MatchingAppend(tasks[..i], one, event);
    assert one[1..] == [];
    assert Matching(one, event) == if Matches(tasks[i], event) then one else [];
  }

  /** No run row is left running by a firing whose rows could all be finished. */
  lemma {:induction false} RunsAreFinished(
    log: Log, tasks: seq<Task>, event: int, job: Option<nat>, outcome: nat -> Attempt)
    requires forall k :: outcome(k).finished
    ensures var runs, after := log.runs, LogAfter(log, tasks, event, job, outcome).runs;
            && |runs| <= |after| && after[..|runs|] == runs
            && forall i :: |runs| <= i < |after| ==> after[i].status != RunRunning && after[i].job == job
  {
    if tasks != [] {
      RunsAreFinished(log, tasks[..|tasks| - 1], event, job, outcome);
    }
  }

  /** After a firing of different tasks each of them carries its own result, if that could be recorded,
      and all other tasks keep theirs. */
  lemma {:induction false} ResultsAreOwn(
    log: Log, tasks: seq<Task>, event: int, job: Option<nat>, outcome: nat -> Attempt)
    requires forall i, j :: 0 <= i < j < |tasks| ==> tasks[i].id != tasks[j].id
    ensures var results := LogAfter(log, tasks, event, job, outcome).results;
            && (forall i :: 0 <= i < |tasks| && outcome(i).recorded ==>
                  tasks[i].id in results && results[tasks[i].id] == outcome(i).succeeded)
            && (forall id :: (forall i :: 0 <= i < |tasks| && outcome(i).recorded ==> tasks[i].id != id) ==>
                  (id in results <==> id in log.results) && (id in results ==> results[id] == log.results[id]))
  {
    if tasks != [] {
      ResultsAreOwn(log, tasks[..|tasks| - 1], event, job, outcome);
    }
  }
}
