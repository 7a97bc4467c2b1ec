/** The DDNS refresh: driving the A record sets of many records to one address
    (backend/pkg/dns/service.go, with UpdateRecord of backend/pkg/dns/hetzner.go). */
module Reconciler {
  import opened Common
  import opened CertificateNames
  import opened Hetzner
  import opened Tasks

  datatype Address = Address(id: nat, ipv4: Option<string>)

  // What fails for one record: decrypting its token, reading its record set, the upsert, saving the
  // address id.
  datatype RecordFaults = RecordFaults(token: bool, fetch: bool, upsert: Faults, save: bool)

  const ALL_WORKS := RecordFaults(false, false, NO_FAULTS, false)

  datatype Verdict = Updated | Unchanged | NotRefreshed

  datatype Status = Status(record: nat, verdict: Verdict)

  // The record sets at Hetzner and the address_id column.
  datatype Remote = Remote(sets: RrSets, addressIds: map<nat, nat>)

  function KeyOf(record: Record): Key {
    Key(record.zoneId, record.name, A)
  }

  // The String field of a sql.NullString, which is empty for NULL.
  function ValueOf(address: Address): string {
    if address.ipv4.Some? then address.ipv4.value else ""
  }

  predicate UpToDate(sets: RrSets, record: Record, ip: string) {
    KeyOf(record) in sets && |sets[KeyOf(record)].values| > 0 && sets[KeyOf(record)].values[0] == ip
  }

  // ----- one record

  function Judge(sets: RrSets, record: Record, address: Address, f: RecordFaults): Verdict {
    if address.ipv4.None? || f.token || f.fetch then NotRefreshed
    else if UpToDate(sets, record, address.ipv4.value) then Unchanged
    else if !Works(f.upsert) || f.save then NotRefreshed
    else Updated
  }

  // A record whose address id cannot be saved counts as failed, but its record set has been changed.
  function Effect(s: Remote, record: Record, address: Address, f: RecordFaults): Remote {
    if address.ipv4.None? || f.token || f.fetch || UpToDate(s.sets, record, address.ipv4.value) then s
    else
      Remote(Upserted(s.sets, KeyOf(record), [address.ipv4.value], record.ttl, f.upsert),
             if !Works(f.upsert) || f.save then s.addressIds else s.addressIds[record.id := address.id])
  }

  // ----- all of them

  function Ddns(records: seq<Record>): seq<Record> {
    if records == [] then []
    else
      var front, last := Ddns(records[..|records| - 1]), records[|records| - 1];
      if DoesDdns(last.purpose) then front + [last] else front
  }

  function Swept(s: Remote, ddns: seq<Record>, address: Address, faults: nat -> RecordFaults): Remote {
    if ddns == [] then s
    else
      var last := ddns[|ddns| - 1];
      Effect(Swept(s, ddns[..|ddns| - 1], address, faults), last, address, faults(last.id))
  }

  function Statuses(s: Remote, ddns: seq<Record>, address: Address, faults: nat -> RecordFaults): (r: seq<Status>)
    ensures |r| == |ddns|
  {
    if ddns == [] then []
    else
      var front, last := ddns[..|ddns| - 1], ddns[|ddns| - 1];
      var verdict := Judge(Swept(s, front, address, faults).sets, last, address, faults(last.id));
      Statuses(s, front, address, faults) + [Status(last.id, verdict)]
  }

  function CountOf(statuses: seq<Status>, v: Verdict): nat {
    if statuses == [] then 0
    else CountOf(statuses[..|statuses| - 1], v) + if statuses[|statuses| - 1].verdict == v then 1 else 0
  }

  // How firing the tasks of a record goes: whether the list loads, and the attempts.
  datatype Firing = Firing(listed: bool, outcome: nat -> Attempt)

  function TasksFired(tasks: seq<Task>, status: Status, firing: Firing): seq<Task> {
    if status.verdict.Updated? && firing.listed then Matching(EnabledOf(tasks, status.record), TRIGGER_IP) else []
  }

  /** The webhook calls made for the updated records, in order. */
  function IpCalls(tasks: seq<Task>, statuses: seq<Status>, firings: nat -> Firing): seq<Call> {
    if statuses == [] then []
    else
      var last := statuses[|statuses| - 1];
      IpCalls(tasks, statuses[..|statuses| - 1], firings)
      + CallsFor(TasksFired(tasks, last, firings(last.record)), TRIGGER_IP, None)
  }

  /** A call is due: the k-th status is that of an updated record whose task list loads, and the j-th row of
      the tasks table is an enabled task of that record with the trigger for address changes or for both. */
  predicate IsDue(tasks: seq<Task>, statuses: seq<Status>, firings: nat -> Firing, k: nat, j: nat) {
    k < |statuses| && j < |tasks| && statuses[k].verdict == Updated && firings(statuses[k].record).listed
    && tasks[j].record == statuses[k].record && tasks[j].enabled && tasks[j].triggerOn in {TRIGGER_IP, TRIGGER_BOTH}
  }

  // Call i is one of the task in row from[i].1.
  ghost predicate CallsOf(tasks: seq<Task>, calls: seq<Call>, from: seq<(nat, nat)>) {
    |from| == |calls| && forall i :: 0 <= i < |calls| ==>
      from[i].1 < |tasks| && calls[i] == Call(tasks[from[i].1].id, TRIGGER_IP, None)
  }

  // By record and then by task.
  ghost predicate Ordered(from: seq<(nat, nat)>) {
    forall i, j :: 0 <= i < j < |from| ==>
      from[i].0 < from[j].0 || (from[i].0 == from[j].0 && from[i].1 < from[j].1)
  }

  /** The calls are exactly the due ones, each once, record by record in the order of the report and task by
      task in the order of the table: from tells for each call which one it is. */
  ghost predicate CallsFrom(
    tasks: seq<Task>, statuses: seq<Status>, firings: nat -> Firing, calls: seq<Call>, from: seq<(nat, nat)>)
  {
    && CallsOf(tasks, calls, from) && Ordered(from)
    && (forall k: nat, j: nat :: (k, j) in from <==> IsDue(tasks, statuses, firings, k, j))
  }

  ghost predicate CallsAreDue(tasks: seq<Task>, statuses: seq<Status>, firings: nat -> Firing, calls: seq<Call>) {
    exists from :: CallsFrom(tasks, statuses, firings, calls, from)
  }

  function IpLog(log: Log, tasks: seq<Task>, statuses: seq<Status>, firings: nat -> Firing): Log {
    if statuses == [] then log
    else
      var last := statuses[|statuses| - 1];
      LogAfter(IpLog(log, tasks, statuses[..|statuses| - 1], firings),
                TasksFired(tasks, last, firings(last.record)), TRIGGER_IP, None, firings(last.record).outcome)
  }

  datatype Severity = Silent | FailureReport | SuccessReport

  datatype Report = Report(
    addressError: bool, severity: Severity, statuses: seq<Status>,
    updatedCount: nat, failedCount: nat, unchangedCount: nat)

  class Service {
    const client: Client
    const store: TaskStore
    var records: seq<Record>
    var addressIds: map<nat, nat>

    ghost function Now(): Remote
      reads this, client
    {
      Remote(client.sets, addressIds)
    }

    constructor (client: Client, store: TaskStore, records: seq<Record>)
      ensures this.client == client && this.store == store && this.records == records && addressIds == map[]
    {
      this.client, this.store, this.records := client, store, records;
      addressIds := map[];
    }

    // An address without IPv4 is written as the empty string.
    method UpdateRecord(record: Record, address: Address, f: RecordFaults) returns (ok: bool)
      modifies this`addressIds, client
      ensures ok <==> !f.token && Works(f.upsert) && !f.save
      ensures Now() == if f.token then old(Now())
                       else Remote(
                              Upserted(old(client.sets), KeyOf(record), [ValueOf(address)], record.ttl, f.upsert),
                              if ok then old(addressIds)[record.id := address.id] else old(addressIds))
    {
      if f.token {
        return false;
      }
      var value := "";
      if address.ipv4.Some? {
        value := address.ipv4.value;
      }
      ok := client.Upsert(KeyOf(record), [value], record.ttl, f.upsert);
      if !ok {
        return;
      }
      ok := !f.save;
      if ok {
        addressIds := addressIds[record.id := address.id];
      }
    }

    method RefreshRecordStatus(record: Record, address: Address, f: RecordFaults) returns (status: Status)
      modifies this`addressIds, client
      ensures status == Status(record.id, Judge(old(client.sets), record, address, f))
      ensures Now() == Effect(old(Now()), record, address, f)
    {
      if address.ipv4.None? || f.token {
        return Status(record.id, NotRefreshed);
      }
      var found := client.Get(KeyOf(record), f.fetch);
      if found.Err? {
        return Status(record.id, NotRefreshed);
      }
      if found.value.Some? && |found.value.value.values| > 0 && found.value.value.values[0] == address.ipv4.value {
        return Status(record.id, Unchanged);
      }
      var ok := UpdateRecord(record, address, f);
      status := Status(record.id, if ok then Updated else NotRefreshed);
    }

    // One turn of the loop: an updated record fires its tasks.
    method RefreshAndFire(record: Record, address: Address, f: RecordFaults, firing: Firing) returns (status: Status)
      modifies this`addressIds, client, store`log, store`calls
      ensures status == Status(record.id, Judge(old(client.sets), record, address, f))
      ensures Now() == Effect(old(Now()), record, address, f)
      ensures var fired := TasksFired(store.tasks, status, firing);
              && store.calls == old(store.calls) + CallsFor(fired, TRIGGER_IP, None)
              && store.log == LogAfter(old(store.log), fired, TRIGGER_IP, None, firing.outcome)
    {
      status := RefreshRecordStatus(record, address, f);
      if status.verdict.Updated? {
        store.FireTasks(record.id, TRIGGER_IP, None, firing.listed, firing.outcome);
      }
    }

    /** RefreshRecord: one record against the current address of the database. A record that does no DDNS
        is left alone. */
    method RefreshRecord(record: Record, current: Option<Address>, f: RecordFaults, firing: Firing) returns (ok: bool)
      modifies this`addressIds, client, store`log, store`calls
      ensures !DoesDdns(record.purpose) || current.None? ==>
                ok == !DoesDdns(record.purpose) && Now() == old(Now())
                && store.calls == old(store.calls) && store.log == old(store.log)
      ensures DoesDdns(record.purpose) && current.Some? ==>
                var verdict := Judge(old(client.sets), record, current.value, f);
                var fired := TasksFired(store.tasks, Status(record.id, verdict), firing);
                && (ok <==> verdict != NotRefreshed)
                && Now() == Effect(old(Now()), record, current.value, f)
                && store.calls == old(store.calls) + CallsFor(fired, TRIGGER_IP, None)
                && store.log == LogAfter(old(store.log), fired, TRIGGER_IP, None, firing.outcome)
                && old(store.calls) <= store.calls
                && CallsAreDue(
                     store.tasks, [Status(record.id, verdict)], _ => firing, store.calls[|old(store.calls)|..])
    {
      if !DoesDdns(record.purpose) {
        return true;
      }
      if current.None? {
        return false;
      }
      var address := current.value;
      ghost var verdict := Judge(client.sets, record, address, f);
      OneRecordIsDue(store.tasks, Status(record.id, verdict), firing);
      if address.ipv4.None? || f.token {
        return false;
      }
      var found := client.Get(KeyOf(record), f.fetch);
      if found.Err? {
        return false;
      }
      if found.value.Some? && |found.value.value.values| > 0 && found.value.value.values[0] == address.ipv4.value {
        return true;
      }
      ok := UpdateRecord(record, address, f);
      if ok {
        store.FireTasks(record.id, TRIGGER_IP, None, firing.listed, firing.outcome);
      }
    }

    // The same, with the report so far.
    method RefreshNext(
      record: Record, address: Address, faults: nat -> RecordFaults, firings: nat -> Firing,
      ghost s0: Remote, ghost ddns: seq<Record>, ghost statuses: seq<Status>,
      ghost calls0: seq<Call>, ghost log0: Log)
      returns (status: Status)
      requires Along(s0, ddns, address, faults, statuses, Now())
      requires Fired(store.tasks, statuses, firings, calls0, log0, store.calls, store.log)
      modifies this`addressIds, client, store`log, store`calls
      ensures Along(s0, ddns + [record], address, faults, statuses + [status], Now())
      ensures Fired(store.tasks, statuses + [status], firings, calls0, log0, store.calls, store.log)
    {
      SweepNext(s0, ddns, record, address, faults);
      ghost var tasks, calls, log := store.tasks, store.calls, store.log;
      status := RefreshAndFire(record, address, faults(record.id), firings(record.id));
      FiredNext(tasks, statuses, status, firings, calls0, log0, calls, log);
    }

    // The loop over the listed records.
    method RefreshAll(list: seq<Record>, address: Address, faults: nat -> RecordFaults, firings: nat -> Firing)
      returns (statuses: seq<Status>, updated: nat, failed: nat, upToDate: nat)
      modifies this`addressIds, client, store`log, store`calls
      ensures statuses == Statuses(old(Now()), Ddns(list), address, faults)
      ensures updated == CountOf(statuses, Updated) && failed == CountOf(statuses, NotRefreshed)
      ensures upToDate == CountOf(statuses, Unchanged)
      ensures Now() == Swept(old(Now()), Ddns(list), address, faults)
      ensures store.calls == old(store.calls) + IpCalls(store.tasks, statuses, firings)
      ensures store.log == IpLog(old(store.log), store.tasks, statuses, firings)
    {
      ghost var s0, calls0, log0, tasks := Now(), store.calls, store.log, store.tasks;
      updated, failed, upToDate, statuses := 0, 0, 0, [];
      var i := 0;
      assert calls0 + [] == calls0;
      while i < |list|
        invariant i <= |list| && store.tasks == tasks
        invariant Along(s0, Ddns(list[..i]), address, faults, statuses, Now())
        invariant Counted(statuses, updated, failed, upToDate)
        invariant Fired(tasks, statuses, firings, calls0, log0, store.calls, store.log)
      {
        var record := list[i];
        DdnsNext(list, i);
        ghost var ddns := Ddns(list[..i]);
        i := i + 1;
        if DoesDdns(record.purpose) {
          var status := RefreshNext(record, address, faults, firings, s0, ddns, statuses, calls0, log0);
          CountedNext(statuses, status, updated, failed, upToDate);
          statuses := statuses + [status];
          match status.verdict {
            case Updated => updated := updated + 1;
            case NotRefreshed => failed := failed + 1;
            case Unchanged => upToDate := upToDate + 1;
          }
          assert Counted(statuses, updated, failed, upToDate);
        }
      }
      assert list[..i] == list;
    }

    /** Refresh: what UpdateAddress returned, whether the records could be listed, and what fails for
        each are parameters. */
    method Refresh(address: Option<Address>, listed: bool, faults: nat -> RecordFaults, firings: nat -> Firing)
      returns (report: Report)
      modifies this`addressIds, client, store`log, store`calls
      ensures address.None? || !listed ==>
                report == Report(true, FailureReport, [], 0, 0, 0) && Now() == old(Now())
                && store.calls == old(store.calls) && store.log == old(store.log)
      ensures address.Some? && listed ==>
                var statuses := Statuses(old(Now()), Ddns(records), address.value, faults);
                && report.statuses == statuses && !report.addressError
                && report.updatedCount == CountOf(statuses, Updated)
                && report.failedCount == CountOf(statuses, NotRefreshed)
                && report.unchangedCount == CountOf(statuses, Unchanged)
                && Now() == Swept(old(Now()), Ddns(records), address.value, faults)
                && store.calls == old(store.calls) + IpCalls(store.tasks, statuses, firings)
                && store.log == IpLog(old(store.log), store.tasks, statuses, firings)
      ensures old(store.calls) <= store.calls
      ensures CallsAreDue(store.tasks, report.statuses, firings, store.calls[|old(store.calls)|..])
      ensures report.severity == if report.addressError || report.failedCount > 0 then FailureReport
                                 else if report.updatedCount > 0 then SuccessReport else Silent
    {
      if address.None? || !listed {
        IpCallsAreDue(store.tasks, [], firings);
        assert store.calls[|store.calls|..] == [];
        return Report(true, FailureReport, [], 0, 0, 0);
      }
      var statuses, updated, failed, upToDate := RefreshAll(records, address.value, faults, firings);
      IpCallsAreDue(store.tasks, statuses, firings);
      assert store.calls[|old(store.calls)|..] == IpCalls(store.tasks, statuses, firings);
      var severity := if failed > 0 then FailureReport else if updated > 0 then SuccessReport else Silent;
      report := Report(false, severity, statuses, updated, failed, upToDate);
    }
  }

  // The records ddns have been refreshed from s0 on, and reported as statuses.
  ghost predicate Along(
    s0: Remote, ddns: seq<Record>, address: Address, faults: nat -> RecordFaults, statuses: seq<Status>, now: Remote)
  {
    now == Swept(s0, ddns, address, faults) && statuses == Statuses(s0, ddns, address, faults)
  }

  lemma SweepNext(s: Remote, front: seq<Record>, r: Record, address: Address, faults: nat -> RecordFaults)
    ensures var before := Swept(s, front, address, faults);
            && Swept(s, front + [r], address, faults) == Effect(before, r, address, faults(r.id))
            && Statuses(s, front + [r], address, faults)
               == Statuses(s, front, address, faults) + [Status(r.id, Judge(before.sets, r, address, faults(r.id)))]
  {
    assert (front + [r])[..|front|] == front;
  }

  lemma DdnsNext(records: seq<Record>, i: nat)
    requires i < |records|
    ensures Ddns(records[..i + 1])
            == if DoesDdns(records[i].purpose) then Ddns(records[..i]) + [records[i]] else Ddns(records[..i])
  {
    assert records[..i + 1][..i] == records[..i];
  }

  ghost predicate Counted(statuses: seq<Status>, updated: nat, failed: nat, upToDate: nat) {
    updated == CountOf(statuses, Updated) && failed == CountOf(statuses, NotRefreshed)
    && upToDate == CountOf(statuses, Unchanged)
  }

  lemma CountedNext(front: seq<Status>, last: Status, updated: nat, failed: nat, upToDate: nat)
    requires Counted(front, updated, failed, upToDate)
    ensures match last.verdict
            case Updated => Counted(front + [last], updated + 1, failed, upToDate)
            case NotRefreshed => Counted(front + [last], updated, failed + 1, upToDate)
            case Unchanged => Counted(front + [last], updated, failed, upToDate + 1)
  {
    assert (front + [last])[..|front|] == front;
  }

  // The calls and the run rows are those of the updated records so far.
  ghost predicate Fired(
    tasks: seq<Task>, statuses: seq<Status>, firings: nat -> Firing,
    calls0: seq<Call>, log0: Log, calls: seq<Call>, log: Log)
  {
    calls == calls0 + IpCalls(tasks, statuses, firings) && log == IpLog(log0, tasks, statuses, firings)
  }

  lemma FiredNext(
    tasks: seq<Task>, front: seq<Status>, last: Status, firings: nat -> Firing,
    calls0: seq<Call>, log0: Log, calls: seq<Call>, log: Log)
    requires Fired(tasks, front, firings, calls0, log0, calls, log)
    ensures var fired, firing := TasksFired(tasks, last, firings(last.record)), firings(last.record);
            Fired(tasks, front + [last], firings, calls0, log0,
                  calls + CallsFor(fired, TRIGGER_IP, None), LogAfter(log, fired, TRIGGER_IP, None, firing.outcome))
  {
    IpCallsNext(tasks, front, last, firings);
    IpLogNext(tasks, front, last, firings, log0);
    Regroup(calls0, IpCalls(tasks, front, firings),
            CallsFor(TasksFired(tasks, last, firings(last.record)), TRIGGER_IP, None));
  }

  lemma Regroup<T>(a: seq<T>, b: seq<T>, c: seq<T>)
    ensures a + b + c == a + (b + c)
  {
  }

  lemma IpCallsNext(tasks: seq<Task>, front: seq<Status>, last: Status, firings: nat -> Firing)
    ensures IpCalls(tasks, front + [last], firings)
         == IpCalls(tasks, front, firings) + CallsFor(TasksFired(tasks, last, firings(last.record)), TRIGGER_IP, None)
  {
    assert (front + [last])[..|front|] == front;
  }

  lemma IpLogNext(tasks: seq<Task>, front: seq<Status>, last: Status, firings: nat -> Firing, log0: Log)
    ensures IpLog(log0, tasks, front + [last], firings)
         == LogAfter(IpLog(log0, tasks, front, firings), TasksFired(tasks, last, firings(last.record)),
                      TRIGGER_IP, None, firings(last.record).outcome)
  {
    assert (front + [last])[..|front|] == front;
  }

  // ----- which tasks are called

  // The calls for one more status.
  lemma OneMoreFrom(
    tasks: seq<Task>, front: seq<Status>, last: Status, firings: nat -> Firing,
    calls: seq<Call>, from: seq<(nat, nat)>, at: seq<nat>)
    requires CallsFrom(tasks, front, firings, calls, from)
    requires var fired := TasksFired(tasks, last, firings(last.record));
             && |at| == |fired| && (forall i :: 0 <= i < |at| ==> at[i] < |tasks| && tasks[at[i]] == fired[i])
    requires forall i, j :: 0 <= i < j < |at| ==> at[i] < at[j]
    requires forall j: nat :: j in at <==> IsDue(tasks, front + [last], firings, |front|, j)
    ensures var fired := TasksFired(tasks, last, firings(last.record));
            var added: seq<(nat, nat)> := seq(|at|, i requires 0 <= i < |at| => (|front|, at[i]));
            CallsFrom(tasks, front + [last], firings, calls + CallsFor(fired, TRIGGER_IP, None), from + added)
  {
    var added: seq<(nat, nat)> := seq(|at|, i requires 0 <= i < |at| => (|front|, at[i]));
    assert forall i :: 0 <= i < |from| ==> from[i].0 < |front| by {
      forall i | 0 <= i < |from|
        ensures from[i].0 < |front|
      {
        assert (from[i].0, from[i].1) in from;
        assert IsDue(tasks, front, firings, from[i].0, from[i].1);
      }
    }
    MoreCalls(tasks, TasksFired(tasks, last, firings(last.record)), calls, from, at, added);
    MoreOrdered(|front|, from, at, added);
    forall k: nat, j: nat
      ensures (k, j) in from + added <==> IsDue(tasks, front + [last], firings, k, j)
    {
      DueOfBoth(tasks, front, last, firings, from, at, added, k, j);
    }
  }

  lemma MoreCalls(
    tasks: seq<Task>, fired: seq<Task>, calls: seq<Call>, from: seq<(nat, nat)>, at: seq<nat>, added: seq<(nat, nat)>)
    requires CallsOf(tasks, calls, from) && |at| == |fired| == |added|
    requires forall i :: 0 <= i < |at| ==> at[i] < |tasks| && tasks[at[i]] == fired[i] && added[i].1 == at[i]
    ensures CallsOf(tasks, calls + CallsFor(fired, TRIGGER_IP, None), from + added)
  {
  }

  lemma MoreOrdered(k: nat, from: seq<(nat, nat)>, at: seq<nat>, added: seq<(nat, nat)>)
    requires Ordered(from) && forall i :: 0 <= i < |from| ==> from[i].0 < k
    requires |at| == |added| && forall i :: 0 <= i < |at| ==> added[i] == (k, at[i])
    requires forall i, j :: 0 <= i < j < |at| ==> at[i] < at[j]
    ensures Ordered(from + added)
  {
  }

  lemma DueOfBoth(
    tasks: seq<Task>, front: seq<Status>, last: Status, firings: nat -> Firing,
    from: seq<(nat, nat)>, at: seq<nat>, added: seq<(nat, nat)>, k: nat, j: nat)
    requires (k, j) in from <==> IsDue(tasks, front, firings, k, j)
    requires j in at <==> IsDue(tasks, front + [last], firings, |front|, j)
    requires |added| == |at| && forall i :: 0 <= i < |at| ==> added[i] == (|front|, at[i])
    ensures (k, j) in from + added <==> IsDue(tasks, front + [last], firings, k, j)
  {
    if k < |front| {
      assert (k, j) !in added;
    } else if k == |front| && j in at {
      var i :| 0 <= i < |at| && at[i] == j;
      assert added[i] == (k, j);
    }
  }

  lemma RowsFired(tasks: seq<Task>, front: seq<Status>, last: Status, firings: nat -> Firing) returns (at: seq<nat>)
    ensures var fired := TasksFired(tasks, last, firings(last.record));
            && |at| == |fired| && (forall i :: 0 <= i < |at| ==> at[i] < |tasks| && tasks[at[i]] == fired[i])
    ensures forall i, j :: 0 <= i < j < |at| ==> at[i] < at[j]
    ensures forall j: nat :: j in at <==> IsDue(tasks, front + [last], firings, |front|, j)
  {
    at := [];
    if last.verdict.Updated? && firings(last.record).listed {
      at := FiredRows(tasks, last.record, TRIGGER_IP);
    }
  }

  lemma {:induction false} IpCallsAreDue(tasks: seq<Task>, statuses: seq<Status>, firings: nat -> Firing)
    ensures CallsAreDue(tasks, statuses, firings, IpCalls(tasks, statuses, firings))
  {
    if statuses == [] {
      assert CallsFrom(tasks, [], firings, [], []);
    } else {
      var front, last := statuses[..|statuses| - 1], statuses[|statuses| - 1];
      IpCallsAreDue(tasks, front, firings);
      assert statuses == front + [last];
      var from :| CallsFrom(tasks, front, firings, IpCalls(tasks, front, firings), from);
      var at := RowsFired(tasks, front, last, firings);
      OneMoreFrom(tasks, front, last, firings, IpCalls(tasks, front, firings), from, at);
      IpCallsNext(tasks, front, last, firings);
    }
  }

  lemma OneRecordIsDue(tasks: seq<Task>, status: Status, firing: Firing)
    ensures CallsAreDue(tasks, [status], _ => firing, CallsFor(TasksFired(tasks, status, firing), TRIGGER_IP, None))
  {
    var firings: nat -> Firing := _ => firing;
    IpCallsAreDue(tasks, [status], firings);
    IpCallsNext(tasks, [], status, firings);
    assert [] + [status] == [status];
    var calls := CallsFor(TasksFired(tasks, status, firing), TRIGGER_IP, None);
    assert IpCalls(tasks, [], firings) + calls == calls;
  }

  // ----- conservation

  /** The DDNS records keep their order: at holds their positions in the list. */
  lemma {:induction false} DdnsInOrder(records: seq<Record>) returns (at: seq<nat>)
    ensures |at| == |Ddns(records)|
    ensures forall i :: 0 <= i < |at| ==> at[i] < |records| && records[at[i]] == Ddns(records)[i]
    ensures forall i, j :: 0 <= i < j < |at| ==> at[i] < at[j]
  {
    at := [];
    if records != [] {
      at := DdnsInOrder(records[..|records| - 1]);
      if DoesDdns(records[|records| - 1].purpose) {
        at := at + [|records| - 1];
      }
    }
  }

  // The places in the report with this verdict.
  function ReportedAs(statuses: seq<Status>, v: Verdict): set<nat> {
    set k: nat | k < |statuses| && statuses[k].verdict == v
  }

  lemma ReportedNext(front: seq<Status>, last: Status, v: Verdict)
    ensures ReportedAs(front + [last], v)
         == if last.verdict == v then ReportedAs(front, v) + {|front|} else ReportedAs(front, v)
    ensures |front| !in ReportedAs(front, v)
  {
  }

  /** Each counter is the number of records reported that way. */
  lemma {:induction false} CountIsNumber(statuses: seq<Status>, v: Verdict)
    ensures CountOf(statuses, v) == |ReportedAs(statuses, v)|
  {
    if statuses != [] {
      var front, last := statuses[..|statuses| - 1], statuses[|statuses| - 1];
      CountIsNumber(front, v);
      ReportedNext(front, last, v);
      assert statuses == front + [last];
    }
  }

  lemma {:induction false} DdnsExactly(records: seq<Record>, r: Record)
    ensures multiset(Ddns(records))[r] == if DoesDdns(r.purpose) then multiset(records)[r] else 0
  {
    if records != [] {
      DdnsExactly(records[..|records| - 1], r);
      assert records == records[..|records| - 1] + [records[|records| - 1]];
    }
  }

  /** Every DDNS record is reported once, in order, and the three counters add up to the report. */
  lemma {:induction false} ReportConserves(s: Remote, ddns: seq<Record>, address: Address, faults: nat -> RecordFaults)
    ensures var statuses := Statuses(s, ddns, address, faults);
            && CountOf(statuses, Updated) + CountOf(statuses, NotRefreshed) + CountOf(statuses, Unchanged) == |ddns|
            && forall i :: 0 <= i < |ddns| ==> statuses[i].record == ddns[i].id
  {
    if ddns != [] {
      ReportConserves(s, ddns[..|ddns| - 1], address, faults);
      var statuses := Statuses(s, ddns, address, faults);
      assert statuses[..|statuses| - 1] == Statuses(s, ddns[..|ddns| - 1], address, faults);
    }
  }

  // ----- convergence

  /** UNIQUE KEY (zone_id, name) */
  ghost predicate UniqueNames(ddns: seq<Record>) {
    forall i, j :: 0 <= i < j < |ddns| ==> KeyOf(ddns[i]) != KeyOf(ddns[j])
  }

  ghost predicate SameSet(a: RrSets, b: RrSets, key: Key) {
    (key in a <==> key in b) && (key in a ==> a[key] == b[key])
  }

  ghost predicate NoneOf(ddns: seq<Record>, key: Key) {
    forall i :: 0 <= i < |ddns| ==> key != KeyOf(ddns[i])
  }

  lemma {:induction false} OthersUntouched(
    s: Remote, ddns: seq<Record>, address: Address, faults: nat -> RecordFaults, key: Key)
    requires NoneOf(ddns, key)
    ensures SameSet(Swept(s, ddns, address, faults).sets, s.sets, key)
  {
    if ddns != [] {
      OthersUntouched(s, ddns[..|ddns| - 1], address, faults, key);
      assert KeyOf(ddns[|ddns| - 1]) != key;
    }
  }

  /** What a sweep does to one record set does not depend on the order of the records or on the others:
      each record is judged, and its set changed, as if it were refreshed alone. */
  lemma {:induction false} EachAlone(
    s: Remote, ddns: seq<Record>, address: Address, faults: nat -> RecordFaults, i: nat)
    requires UniqueNames(ddns) && i < |ddns|
    ensures var r := ddns[i];
            && Statuses(s, ddns, address, faults)[i].verdict == Judge(s.sets, r, address, faults(r.id))
            && SameSet(Swept(s, ddns, address, faults).sets, Effect(s, r, address, faults(r.id)).sets, KeyOf(r))
  {
    var front, last := ddns[..|ddns| - 1], ddns[|ddns| - 1];
    var before := Swept(s, front, address, faults);
    if i < |front| {
      EachAlone(s, front, address, faults, i);
      assert KeyOf(last) != KeyOf(ddns[i]);
    } else {
      OthersUntouched(s, front, address, faults, KeyOf(last));
    }
  }

  /** Each report means what it says, and what it says of the record set. A record is unchanged exactly when
      its A set was found to lead with the address; it is updated exactly when it was found not to, and
      writing the set and saving the id worked. Then the set has the address as its one value, and keeps its
      TTL if it had one; nothing else is ever written. */
  lemma ReportedExactly(s: Remote, ddns: seq<Record>, address: Address, faults: nat -> RecordFaults, i: nat)
    requires UniqueNames(ddns) && i < |ddns|
    ensures var r, f, verdict := ddns[i], faults(ddns[i].id), Statuses(s, ddns, address, faults)[i].verdict;
            var key, sets := Key(r.zoneId, r.name, A), Swept(s, ddns, address, faults).sets;
            var found := address.ipv4.Some? && !f.token && !f.fetch;
            var leads := key in s.sets && |s.sets[key].values| > 0 && s.sets[key].values[0] == ValueOf(address);
            && (verdict == Unchanged <==> found && leads)
            && (verdict == Updated <==> found && !leads && !f.upsert.get && !f.upsert.write && !f.save)
            && (verdict != Updated ==> SameSet(sets, s.sets, key) || (found && !leads && !f.upsert.get))
            && (!SameSet(sets, s.sets, key) || verdict == Updated ==>
                  key in sets
                  && sets[key] == RrSet([address.ipv4.value], if key in s.sets then s.sets[key].ttl else r.ttl))
  {
    EachAlone(s, ddns, address, faults, i);
  }

  /** Convergence. After a sweep with an IPv4 address, every record not reported as failed has that
      address first in its A record set, and every record set of no DDNS record is as it was. */
  lemma Converges(s: Remote, ddns: seq<Record>, address: Address, faults: nat -> RecordFaults)
    requires UniqueNames(ddns) && address.ipv4.Some?
    ensures var after := Swept(s, ddns, address, faults);
            && (forall i :: 0 <= i < |ddns| && Statuses(s, ddns, address, faults)[i].verdict != NotRefreshed ==>
                  UpToDate(after.sets, ddns[i], address.ipv4.value))
            && (forall key :: NoneOf(ddns, key) ==> SameSet(after.sets, s.sets, key))
  {
    forall i | 0 <= i < |ddns| && Statuses(s, ddns, address, faults)[i].verdict != NotRefreshed
      ensures UpToDate(Swept(s, ddns, address, faults).sets, ddns[i], address.ipv4.value)
    {
      EachAlone(s, ddns, address, faults, i);
    }
    forall key | NoneOf(ddns, key)
      ensures SameSet(Swept(s, ddns, address, faults).sets, s.sets, key)
    {
      OthersUntouched(s, ddns, address, faults, key);
    }
  }

  /** A sweep of records that all are up to date, with nothing failing, writes nothing, reports all
      unchanged and fires no task. */
  lemma {:induction false} QuietWhenUpToDate(
    s: Remote, ddns: seq<Record>, address: Address, faults: nat -> RecordFaults,
    tasks: seq<Task>, firings: nat -> Firing)
    requires address.ipv4.Some? && forall id :: faults(id) == ALL_WORKS
    requires forall i :: 0 <= i < |ddns| ==> UpToDate(s.sets, ddns[i], address.ipv4.value)
    ensures Swept(s, ddns, address, faults) == s
    ensures var statuses := Statuses(s, ddns, address, faults);
            && (forall i :: 0 <= i < |ddns| ==> statuses[i].verdict == Unchanged)
            && IpCalls(tasks, statuses, firings) == []
  {
    if ddns != [] {
      var front := ddns[..|ddns| - 1];
      assert forall i :: 0 <= i < |front| ==> front[i] == ddns[i];
      QuietWhenUpToDate(s, front, address, faults, tasks, firings);
      var statuses := Statuses(s, ddns, address, faults);
      assert statuses[..|statuses| - 1] == Statuses(s, front, address, faults);
    }
  }

  /** A second refresh with the same address and no failures changes nothing, provided the first reported
      no record as failed. */
  lemma SecondRefreshIsQuiet(
    s: Remote, ddns: seq<Record>, address: Address, first: nat -> RecordFaults, second: nat -> RecordFaults,
    tasks: seq<Task>, firings: nat -> Firing)
    requires UniqueNames(ddns) && address.ipv4.Some? && forall id :: second(id) == ALL_WORKS
    requires forall i :: 0 <= i < |ddns| ==> Statuses(s, ddns, address, first)[i].verdict != NotRefreshed
    ensures var after := Swept(s, ddns, address, first);
            var statuses := Statuses(after, ddns, address, second);
            && Swept(after, ddns, address, second) == after
            && (forall i :: 0 <= i < |ddns| ==> statuses[i].verdict == Unchanged)
            && IpCalls(tasks, statuses, firings) == []
  {
    Converges(s, ddns, address, first);
    QuietWhenUpToDate(Swept(s, ddns, address, first), ddns, address, second, tasks, firings);
  }

  /** With failures in the first refresh, the second one updates exactly the records whose sets do not
      yet lead with the address. */
  lemma SecondRefreshRepairs(
    s: Remote, ddns: seq<Record>, address: Address, first: nat -> RecordFaults, second: nat -> RecordFaults, i: nat)
    requires UniqueNames(ddns) && address.ipv4.Some? && forall id :: second(id) == ALL_WORKS
    requires i < |ddns|
    ensures var after := Swept(s, ddns, address, first);
            Statuses(after, ddns, address, second)[i].verdict
            == if UpToDate(after.sets, ddns[i], address.ipv4.value) then Unchanged else Updated
    ensures UpToDate(Swept(Swept(s, ddns, address, first), ddns, address, second).sets, ddns[i], address.ipv4.value)
  {
    EachAlone(Swept(s, ddns, address, first), ddns, address, second, i);
  }

  // ----- what a lost address id leaves behind

  lemma {:induction false} AddressIdKept(
    s: Remote, ddns: seq<Record>, address: Address, faults: nat -> RecordFaults, r: Record)
    requires UniqueNames(ddns) && address.ipv4.Some? && UpToDate(s.sets, r, address.ipv4.value)
    requires forall i :: 0 <= i < |ddns| && ddns[i].id == r.id ==> ddns[i] == r
    ensures var after := Swept(s, ddns, address, faults);
            && UpToDate(after.sets, r, address.ipv4.value)
            && (r.id in after.addressIds <==> r.id in s.addressIds)
            && (r.id in s.addressIds ==> after.addressIds[r.id] == s.addressIds[r.id])
  {
    if ddns != [] {
      var front := ddns[..|ddns| - 1];
      AddressIdKept(s, front, address, faults, r);
    }
  }

  /** When only saving the address id fails, the record counts as failed although its record set has been
      changed; and no later refresh with that address saves the id, since it finds the set up to date. */
  lemma LostAddressIdStays(
    s: Remote, r: Record, f: RecordFaults, ddns: seq<Record>, address: Address, later: nat -> RecordFaults)
    requires UniqueNames(ddns) && address.ipv4.Some?
    requires forall i :: 0 <= i < |ddns| && ddns[i].id == r.id ==> ddns[i] == r
    requires f == ALL_WORKS.(save := true) && !UpToDate(s.sets, r, address.ipv4.value)
    ensures Judge(s.sets, r, address, f) == NotRefreshed
    ensures var lost := Effect(s, r, address, f);
            var after := Swept(lost, ddns, address, later);
            && UpToDate(after.sets, r, address.ipv4.value)
            && (r.id in after.addressIds <==> r.id in s.addressIds)
            && (r.id in s.addressIds ==> after.addressIds[r.id] == s.addressIds[r.id])
  {
    AddressIdKept(Effect(s, r, address, f), ddns, address, later, r);
  }

  // ----- exactly when the address id is stored

  predicate IdStored(s: Remote, r: Record, address: Address) {
    r.id in s.addressIds && s.addressIds[r.id] == address.id
  }

  ghost predicate UniqueIds(ddns: seq<Record>) {
    forall i, j :: 0 <= i < j < |ddns| ==> ddns[i].id != ddns[j].id
  }

  lemma {:induction false} OtherIdsKept(
    s: Remote, ddns: seq<Record>, address: Address, faults: nat -> RecordFaults, r: Record)
    requires forall i :: 0 <= i < |ddns| ==> ddns[i].id != r.id
    ensures IdStored(Swept(s, ddns, address, faults), r, address) <==> IdStored(s, r, address)
  {
    if ddns != [] {
      OtherIdsKept(s, ddns[..|ddns| - 1], address, faults, r);
      assert ddns[|ddns| - 1].id != r.id;
    }
  }

  lemma EffectStoresIff(s: Remote, r: Record, address: Address, f: RecordFaults)
    ensures IdStored(Effect(s, r, address, f), r, address)
            <==> IdStored(s, r, address) || Judge(s.sets, r, address, f) == Updated
  {
  }

  /** After a refresh the address id of a record is stored if and only if it was before or the record is
      reported as updated. */
  lemma {:induction false} AddressIdStoredIff(
    s: Remote, ddns: seq<Record>, address: Address, faults: nat -> RecordFaults, i: nat)
    requires UniqueNames(ddns) && UniqueIds(ddns) && i < |ddns|
    ensures var r := ddns[i];
            IdStored(Swept(s, ddns, address, faults), r, address)
            <==> IdStored(s, r, address) || Statuses(s, ddns, address, faults)[i].verdict == Updated
  {
    var front, last := ddns[..|ddns| - 1], ddns[|ddns| - 1];
    var before := Swept(s, front, address, faults);
    if i < |front| {
      AddressIdStoredIff(s, front, address, faults, i);
      assert front[i] == ddns[i] && last.id != ddns[i].id;
    } else {
      OtherIdsKept(s, front, address, faults, last);
      EffectStoresIff(before, last, address, faults(last.id));
    }
  }

  /** So a fault-free second refresh stores the id of a record that the first one left without it if and
      only if the first one also left its record set behind. A lost id with a changed set is never made
      up for. */
  lemma SecondRefreshStoresIff(
    s: Remote, ddns: seq<Record>, address: Address, first: nat -> RecordFaults, second: nat -> RecordFaults, i: nat)
    requires UniqueNames(ddns) && UniqueIds(ddns) && i < |ddns|
    requires address.ipv4.Some? && forall id :: second(id) == ALL_WORKS
    ensures var r, between := ddns[i], Swept(s, ddns, address, first);
            IdStored(Swept(between, ddns, address, second), r, address)
            <==> IdStored(between, r, address) || !UpToDate(between.sets, r, address.ipv4.value)
  {
    var between := Swept(s, ddns, address, first);
    AddressIdStoredIff(between, ddns, address, second, i);
    SecondRefreshRepairs(s, ddns, address, first, second, i);
  }
}
