/** How the records table changes along a run. A version is a row of the table as it stood at some time;
    an issuance works with the version it loaded, whatever happens to the row afterwards. */
module IssuanceHistory {
  import opened CertificateNames
  import opened IssuanceModel
  import opened IssuanceSafety

  // The records table and its next id.
  datatype Table = Table(records: map<nat, Record>, next: nat)

  function TableOf(w: World): Table {
    Table(w.records, w.nextRecord)
  }

  predicate IsChange(a: Action) {
    a.CreateRecord? || a.EditRecord? || a.DeleteRecord?
  }

  predicate CanChange(t: Table, a: Action) {
    match a
    case CreateRecord(_) => true
    case EditRecord(r) => r.id in t.records
    case DeleteRecord(id) => id in t.records
    case _ => false
  }

  function Changed(t: Table, a: Action): Table {
    match a
    case CreateRecord(r) => Table(t.records[t.next := r.(id := t.next)], t.next + 1)
    case EditRecord(r) => t.(records := t.records[r.id := r])
    case DeleteRecord(id) => t.(records := t.records - {id})
    case _ => t
  }

  // The changes of the table among the actions.
  function ChangesOf(actions: seq<Action>): seq<Action> {
    if actions == [] then []
    else
      var front, last := ChangesOf(actions[..|actions| - 1]), actions[|actions| - 1];
      if IsChange(last) then front + [last] else front
  }

  function TableAfter(t: Table, changes: seq<Action>): Table {
    if changes == [] then t else Changed(TableAfter(t, changes[..|changes| - 1]), changes[|changes| - 1])
  }

  /** The table can undergo the changes one after the other. */
  predicate IsHistory(t: Table, changes: seq<Action>) {
    changes == []
    || (IsHistory(t, changes[..|changes| - 1])
        && CanChange(TableAfter(t, changes[..|changes| - 1]), changes[|changes| - 1]))
  }

  predicate Has(t: Table, r: Record) {
    r.id in t.records && t.records[r.id] == r
  }

  /** r is a row of the table after the first k changes. */
  predicate StoredAt(t: Table, changes: seq<Action>, r: Record, k: nat) {
    k <= |changes| && Has(TableAfter(t, changes[..k]), r)
  }

  ghost predicate Stored(t: Table, changes: seq<Action>, r: Record) {
    exists k: nat :: StoredAt(t, changes, r, k)
  }

  /** Two records whose certificates go to the same directory. */
  predicate Clash(a: Record, b: Record) {
    a.id != b.id && DoesCert(a.purpose) && DoesCert(b.purpose) && ShareDirectory(a, b)
  }

  // ----- histories

  lemma {:induction false} HistoryAppend(t: Table, a: seq<Action>, b: seq<Action>)
    ensures TableAfter(t, a + b) == TableAfter(TableAfter(t, a), b)
    ensures IsHistory(t, a + b) <==> IsHistory(t, a) && IsHistory(TableAfter(t, a), b)
    decreases |b|
  {
    if b == [] {
      assert a + b == a;
    } else {
      HistoryAppend(t, a, b[..|b| - 1]);
      assert (a + b)[..|a + b| - 1] == a + b[..|b| - 1];
    }
  }

  lemma StoredStays(t: Table, changes: seq<Action>, a: Action, r: Record)
    requires Stored(t, changes, r)
    ensures Stored(t, changes + [a], r)
  {
    var k: nat :| StoredAt(t, changes, r, k);
    assert (changes + [a])[..k] == changes[..k];
    assert StoredAt(t, changes + [a], r, k);
  }

  lemma StoredNow(t: Table, changes: seq<Action>, r: Record)
    requires Has(TableAfter(t, changes), r)
    ensures Stored(t, changes, r)
  {
    assert changes[..|changes|] == changes;
    assert StoredAt(t, changes, r, |changes|);
  }

  // ----- where the records in use come from

  // The thread works with the version it has loaded.
  predicate InUse(t: Thread) {
    1 <= Point(t.pc) <= 19
  }

  /** The table is the one the changes give, and every version in use was stored at some time. */
  ghost predicate FromHistory(t: Table, changes: seq<Action>, s: System) {
    && TableOf(s.w) == TableAfter(t, changes)
    && forall tid :: tid in s.threads && InUse(s.threads[tid]) ==> Stored(t, changes, s.threads[tid].record)
  }

  // A step leaves the table alone, and a version in use is kept or has just been loaded.
  ghost predicate VersionEdge(w: World, t: Thread, v: World, u: Thread) {
    && TableOf(v) == TableOf(w)
    && (InUse(u) ==> (InUse(t) && u.record == t.record) || Has(TableOf(w), u.record))
  }

  lemma StepVersion(w: World, t: Thread, c: Choice)
    requires WorldOk(w) && ThreadOk(w, t)
    ensures var (v, u) := ThreadStep(w, t, c); VersionEdge(w, t, v, u)
  {
    var (v, u) := ThreadStep(w, t, c);
    StepKeeps(w, t, c);
    if Holds(t.pc) || Holds(u.pc) {
      assert SlotEdge(w, t, v, u);
      assert InUse(t) by {
        if !Holds(t.pc) {
          TakenFrom(w, t, c);
        }
      }
    } else {
      IdleVersion(w, t, c);
    }
  }

  lemma TakenFrom(w: World, t: Thread, c: Choice)
    requires !Holds(t.pc) && Holds(ThreadStep(w, t, c).1.pc)
    ensures t.pc.Acquire?
  {
  }

  lemma IdleVersion(w: World, t: Thread, c: Choice)
    requires RecordsOk(w.records, w.nextRecord) && !Holds(t.pc)
    ensures var u := ThreadStep(w, t, c).1;
            InUse(u) ==> (InUse(t) && u.record == t.record) || Has(TableOf(w), u.record)
  {
  }

  lemma NextKeepsHistory(t: Table, changes: seq<Action>, s: System, a: Action)
    requires Inv(s) && Enabled(s, a) && FromHistory(t, changes, s)
    ensures FromHistory(t, if IsChange(a) then changes + [a] else changes, Next(s, a))
  {
    var next := Next(s, a);
    if a.Step? {
      StepVersion(s.w, s.threads[a.tid], a.choice);
      var u := next.threads[a.tid];
      if InUse(u) && Has(TableOf(s.w), u.record) {
        StoredNow(t, changes, u.record);
      }
    } else if IsChange(a) {
      assert (changes + [a])[..|changes|] == changes;
      assert TableOf(next.w) == TableAfter(t, changes + [a]);
      forall tid | tid in next.threads && InUse(next.threads[tid])
        ensures Stored(t, changes + [a], next.threads[tid].record)
      {
        StoredStays(t, changes, a, next.threads[tid].record);
      }
    }
  }

  lemma ChangesNext(actions: seq<Action>, n: nat)
    requires n < |actions|
    ensures ChangesOf(actions[..n + 1])
         == if IsChange(actions[n]) then ChangesOf(actions[..n]) + [actions[n]] else ChangesOf(actions[..n])
  {
    assert actions[..n + 1][..n] == actions[..n];
  }

  /** Along every run the table is the one its changes give, and a thread works with a version that was
      stored before. */
  lemma {:induction false} RunKeepsHistory(states: seq<System>, actions: seq<Action>, n: nat)
    requires IsRun(states, actions) && n < |states|
    ensures FromHistory(TableOf(states[0].w), ChangesOf(actions[..n]), states[n])
  {
    if n > 0 {
      RunKeepsHistory(states, actions, n - 1);
      StateFollows(states, actions, n - 1);
      NextKeepsHistory(TableOf(states[0].w), ChangesOf(actions[..n - 1]), states[n - 1], actions[n - 1]);
      ChangesNext(actions, n - 1);
    }
  }

  /** What ChangesOf takes out of a run is a history of its table. */
  lemma {:induction false} RunHasHistory(states: seq<System>, actions: seq<Action>, n: nat)
    requires IsRun(states, actions) && n < |states|
    ensures IsHistory(TableOf(states[0].w), ChangesOf(actions[..n]))
  {
    if n > 0 {
      RunHasHistory(states, actions, n - 1);
      RunKeepsHistory(states, actions, n - 1);
      StateFollows(states, actions, n - 1);
      ChangesNext(actions, n - 1);
      var front := ChangesOf(actions[..n - 1]);
      assert (front + [actions[n - 1]])[..|front|] == front;
    }
  }

  lemma StoredLater(t: Table, changes: seq<Action>, all: seq<Action>, r: Record)
    requires changes <= all && Stored(t, changes, r)
    ensures Stored(t, all, r)
  {
    var k: nat :| StoredAt(t, changes, r, k);
    assert all[..k] == changes[..k];
    assert StoredAt(t, all, r, k);
  }

  lemma {:induction false} ChangesGrow(actions: seq<Action>, n: nat)
    requires n <= |actions|
    ensures ChangesOf(actions[..n]) <= ChangesOf(actions)
    decreases |actions| - n
  {
    if n < |actions| {
      ChangesGrow(actions, n + 1);
      ChangesNext(actions, n);
    } else {
      assert actions[..n] == actions;
    }
  }
}
