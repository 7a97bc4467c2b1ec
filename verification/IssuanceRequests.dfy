/** The requests made without a job: after an address change every matching task is called, once and in order,
    and a task run on demand is called whatever its trigger. */
module IssuanceRequests {
  import opened Tasks
  import opened IssuanceModel
  import opened IssuanceFirings

  // Between listing the tasks and the end.
  predicate Works(spot: Spot) {
    !spot.AtList? && !spot.AtEnd?
  }

  // The task at hand, and what has been read for it.
  ghost predicate AtTask(r: Reader) {
    && (r.spot.AtLoad? || r.spot.AtRead? || r.spot.AtPost? ==> r.tasks != [])
    && (r.spot.AtLoad? || r.spot.AtRead? ==> r.tasks[0].includeCertificate)
    && (r.spot.AtRead? ==> r.spot.file < 4 && r.pieces.Some?)
    && (r.spot.AtPost? ==> (r.pieces.Some? <==> r.tasks[0].includeCertificate))
  }

  /** The request for the task at hand cannot be made. */
  ghost predicate Misses(w: World, r: Reader, c: Choice) {
    match r.spot
    case AtLoad =>
      || c.Fails? || !HasRow(w, r.record)
      || w.certs[RowOf(w, r.record)].certPath == "" || w.certs[RowOf(w, r.record)].keyPath == ""
    case AtRead(i) => c.Fails? || (r.dir, i) !in w.files
    case AtPost => c.Fails?
    case _ => false
  }

  /** The event ends the turn of the task: its request is made, with material exactly if the task includes
      the certificate, or it cannot be made. */
  ghost predicate EndsTurn(before: Whole, e: Event, after: Whole, id: nat, task: Task) {
    && e.Go? && e.id == id && id in before.readers
    && var r, sent := before.readers[id], before.requests;
       && r.tasks != [] && r.tasks[0] == task
       && if Misses(before.s.w, r, e.choice) then after.requests == sent
          else r.spot.AtPost? && (r.pieces.Some? <==> task.includeCertificate)
               && after.requests == sent + [Request(r.record, task, r.pieces)]
  }

  // One step of the reader: the task at hand goes on, or its turn ends.
  ghost predicate TaskEdge(x: Whole, r: Reader, c: Choice, u: Reader, requests: seq<Request>) {
    && u.record == r.record && AtTask(u)
    && if r.spot.AtNext? then
         requests == x.requests && u.tasks == r.tasks && (if r.tasks == [] then u.spot.AtEnd? else Works(u.spot))
         && !u.spot.AtNext?
       else if u.spot.AtNext? then
         && r.tasks != [] && u.tasks == r.tasks[1..]
         && if Misses(x.s.w, r, c) then requests == x.requests
            else r.spot.AtPost? && requests == x.requests + [Request(r.record, r.tasks[0], r.pieces)]
       else !Misses(x.s.w, r, c) && u.tasks == r.tasks && Works(u.spot) && requests == x.requests
  }

  lemma ReaderEdge(x: Whole, id: nat, c: Choice)
    requires id in x.readers && AtTask(x.readers[id]) && Works(x.readers[id].spot)
    ensures var y := After(x, Go(id, c)); TaskEdge(x, x.readers[id], c, y.readers[id], y.requests)
  {
  }

  // The tasks that are called: after an address change the matching ones, on demand the given ones.
  function Called(trigger: Trigger, ts: seq<Task>): seq<Task> {
    if trigger.IpChange? then Matching(ts, TRIGGER_IP) else ts
  }

  // The tasks are listed at m, and from then on the reader works on them, up to n.
  ghost predicate Burst(states: seq<Whole>, events: seq<Event>, m: nat, n: nat, id: nat, ts: seq<Task>) {
    && IsWholeRun(states, events) && m < n < |states|
    && events[m] == Go(id, Listed(ts)) && id in states[m].readers && states[m].readers[id].spot.AtList?
    && forall k :: m < k < n ==> id in states[k].readers && Works(states[k].readers[id].spot)
  }

  ghost predicate TurnAt(states: seq<Whole>, events: seq<Event>, p: nat, id: nat, task: Task) {
    p < |events| < |states| && EndsTurn(states[p], events[p], states[p + 1], id, task)
  }

  // Event k is none by which the reader sends anything, or gives a task up.
  ghost predicate Silent(states: seq<Whole>, events: seq<Event>, k: nat, id: nat) {
    k < |events| < |states|
    && (events[k].Go? && events[k].id == id ==>
          && states[k + 1].requests == states[k].requests
          && (id in states[k].readers ==> !Misses(states[k].s.w, states[k].readers[id], events[k].choice)))
  }

  ghost predicate TurnsEnd(
    states: seq<Whole>, events: seq<Event>, m: nat, n: nat, id: nat, tasks: seq<Task>, ends: seq<nat>)
  {
    && |ends| <= |tasks|
    && (forall i :: 0 <= i < |ends| ==> m < ends[i] < n && TurnAt(states, events, ends[i], id, tasks[i]))
    && (forall i, j :: 0 <= i < j < |ends| ==> ends[i] < ends[j])
    && (forall k: nat :: m <= k < n && k !in ends ==> Silent(states, events, k, id))
  }

  lemma TurnsGoOn(
    states: seq<Whole>, events: seq<Event>, m: nat, n: nat, id: nat, tasks: seq<Task>, ends: seq<nat>, more: seq<nat>)
    requires TurnsEnd(states, events, m, n, id, tasks, ends) && m < n
    requires || (more == ends && Silent(states, events, n, id))
             || (more == ends + [n] && |ends| < |tasks| && TurnAt(states, events, n, id, tasks[|ends|]))
    ensures TurnsEnd(states, events, m, n + 1, id, tasks, more)
  {
    if more != ends {
      assert n in more && forall k :: k in ends ==> k in more;
    }
  }

  // Where the reader stands when that many turns are over.
  ghost predicate Stands(x: Whole, id: nat, tasks: seq<Task>, done: nat) {
    && id in x.readers && done <= |tasks|
    && var r := x.readers[id];
       && AtTask(r) && !r.spot.AtList?
       && (if Works(r.spot) then r.tasks == tasks[done..] else done == |tasks|)
  }

  lemma OwnBurstStep(x: Whole, c: Choice, id: nat, n: nat, tasks: seq<Task>, ends: seq<nat>) returns (more: seq<nat>)
    requires Stands(x, id, tasks, |ends|) && Works(x.readers[id].spot)
    ensures Stands(After(x, Go(id, c)), id, tasks, |more|)
    ensures more == ends || (more == ends + [n] && |ends| < |tasks|)
    ensures more == ends ==> After(x, Go(id, c)).requests == x.requests && !Misses(x.s.w, x.readers[id], c)
    ensures more != ends ==> EndsTurn(x, Go(id, c), After(x, Go(id, c)), id, tasks[|ends|])
  {
    var r, y := x.readers[id], After(x, Go(id, c));
    ReaderEdge(x, id, c);
    more := ends;
    if !r.spot.AtNext? && y.readers[id].spot.AtNext? {
      assert tasks[|ends|..][1..] == tasks[|ends| + 1..] && tasks[|ends|..][0] == tasks[|ends|];
      more := ends + [n];
    }
  }

  lemma OthersStandBy(x: Whole, e: Event, id: nat, tasks: seq<Task>, done: nat)
    requires CanHappen(x, e) && Stands(x, id, tasks, done) && !(e.Go? && e.id == id)
    ensures Stands(After(x, e), id, tasks, done)
  {
    assert After(x, e).readers[id] == x.readers[id];
  }

  lemma BurstStep(
    states: seq<Whole>, events: seq<Event>, m: nat, n: nat, id: nat, tasks: seq<Task>, ends: seq<nat>)
    returns (more: seq<nat>)
    requires m < n < |events| < |states|
    requires CanHappen(states[n], events[n]) && states[n + 1] == After(states[n], events[n])
    requires Stands(states[n], id, tasks, |ends|) && Works(states[n].readers[id].spot)
    requires TurnsEnd(states, events, m, n, id, tasks, ends)
    ensures TurnsEnd(states, events, m, n + 1, id, tasks, more)
    ensures Stands(states[n + 1], id, tasks, |more|)
  {
    if events[n].Go? && events[n].id == id {
      more := OwnBurstStep(states[n], events[n].choice, id, n, tasks, ends);
    } else {
      OthersStandBy(states[n], events[n], id, tasks, |ends|);
      more := ends;
    }
    TurnsGoOn(states, events, m, n, id, tasks, ends, more);
  }

  lemma BurstFollows(states: seq<Whole>, events: seq<Event>, m: nat, n: nat, id: nat, ts: seq<Task>)
    requires Burst(states, events, m, n + 1, id, ts)
    ensures n < |events| < |states| && CanHappen(states[n], events[n]) && states[n + 1] == After(states[n], events[n])
    ensures m < n ==> Burst(states, events, m, n, id, ts) && Works(states[n].readers[id].spot)
  {
    WholeFollows(states, events, n);
  }

  lemma BurstStarts(states: seq<Whole>, events: seq<Event>, m: nat, id: nat, ts: seq<Task>)
    requires Burst(states, events, m, m + 1, id, ts)
    ensures Stands(states[m + 1], id, Called(states[m].readers[id].trigger, ts), 0)
    ensures Silent(states, events, m, id)
  {
    BurstFollows(states, events, m, m, id, ts);
  }

  lemma {:induction false} CalledSoFar(states: seq<Whole>, events: seq<Event>, m: nat, n: nat, id: nat, ts: seq<Task>)
    returns (ends: seq<nat>)
    requires Burst(states, events, m, n, id, ts)
    ensures var tasks := Called(states[m].readers[id].trigger, ts);
            TurnsEnd(states, events, m, n, id, tasks, ends) && Stands(states[n], id, tasks, |ends|)
    decreases n
  {
    if n == m + 1 {
      BurstStarts(states, events, m, id, ts);
      ends := [];
    } else {
      BurstFollows(states, events, m, n - 1, id, ts);
      var before := CalledSoFar(states, events, m, n - 1, id, ts);
      ends := BurstStep(states, events, m, n - 1, id, Called(states[m].readers[id].trigger, ts), before);
    }
  }

  /** Every task is called. Between listing the tasks and the end, after an address change each listed task
      with that trigger or both, and on demand each given task, gets one turn, in the order of the list (at
      holds the positions in the list, ends the events that end the turns): its request is made, with
      material exactly if the task includes it, unless its own row, files or body could not be had. No other
      request is made by the reader. */
  lemma EveryTaskIsCalled(states: seq<Whole>, events: seq<Event>, m: nat, n: nat, id: nat, ts: seq<Task>)
    returns (at: seq<nat>, ends: seq<nat>)
    requires Burst(states, events, m, n, id, ts) && id in states[n].readers && states[n].readers[id].spot.AtEnd?
    ensures |at| == |ends|
    ensures forall p: nat :: p in at <==>
              p < |ts| && (states[m].readers[id].trigger.OnDemand?
                           || ts[p].triggerOn == TRIGGER_IP || ts[p].triggerOn == TRIGGER_BOTH)
    ensures forall i, j :: 0 <= i < j < |at| ==> at[i] < at[j] && ends[i] < ends[j]
    ensures forall i :: 0 <= i < |at| ==>
              at[i] < |ts| && m < ends[i] < n && TurnAt(states, events, ends[i], id, ts[at[i]])
    ensures forall k: nat :: m <= k < n && k !in ends ==> Silent(states, events, k, id)
  {
    ends := CalledSoFar(states, events, m, n, id, ts);
    at := CalledRows(states[m].readers[id].trigger, ts);
  }

  lemma CalledRows(trigger: Trigger, ts: seq<Task>) returns (at: seq<nat>)
    ensures |at| == |Called(trigger, ts)|
    ensures forall i :: 0 <= i < |at| ==> at[i] < |ts| && ts[at[i]] == Called(trigger, ts)[i]
    ensures forall i, j :: 0 <= i < j < |at| ==> at[i] < at[j]
    ensures forall p: nat :: p in at <==>
              p < |ts| && (trigger.OnDemand? || ts[p].triggerOn == TRIGGER_IP || ts[p].triggerOn == TRIGGER_BOTH)
  {
    if trigger.IpChange? {
      at := MatchingRows(ts, TRIGGER_IP);
    } else {
      at := seq(|ts|, i requires 0 <= i < |ts| => i);
      forall p: nat
        ensures p in at <==> p < |ts|
      {
        assert p < |ts| ==> at[p] == p;
      }
    }
  }
}
