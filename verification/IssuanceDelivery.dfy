/** Which certificate material the tasks fired by an issuance send out. The four files of a record lie
    in a directory named after it; two records may name the same one, and then the guarantee is lost.
    This module proves the guarantee for runs whose live issuances use distinct directories. When that
    can fail is the subject of IssuanceClashes and IssuanceSharing. */
module IssuanceDelivery {
  import opened Common
  import opened CertificateNames
  import opened IssuanceModel
  import opened IssuanceSafety

  /** No two live issuances write to the same directory. */
  ghost predicate DistinctDirs(s: System) {
    forall a, b :: a in s.threads && b in s.threads && a != b && Holds(s.threads[a].pc) && Holds(s.threads[b].pc)
      ==> !ShareDirectory(s.threads[a].record, s.threads[b].record)
  }

  // How many of the files are known to be the thread's own.
  function Written(pc: Pc): nat {
    if pc.Write? then pc.file else if 9 <= Point(pc) <= 16 then 4 else 0
  }

  ghost predicate FilesOk(files: map<(string, nat), string>, t: Thread) {
    && (forall i :: 0 <= i < Written(t.pc) && i < 4 ==>
          (t.home, i) in files && files[(t.home, i)] == Contents(t.res)[i])
    && (t.pc.Read? ==> t.pc.file < 4 && t.got == Some(Contents(t.res)[..t.pc.file]))
    && (t.pc.Post? ==> t.got.None? || t.got == Some(Contents(t.res)))
  }

  ghost predicate HomeOk(t: Thread) {
    8 <= Point(t.pc) <= 16 ==> t.home == CertificateDir(t.record)
  }

  ghost predicate OwnMaterial(issues: map<nat, Issue>, d: Delivery) {
    d.material.Some? ==>
      d.job in issues && issues[d.job].resource.Some? && d.material.value == Contents(issues[d.job].resource.value)
  }

  ghost predicate DeliveryInv(s: System) {
    && (forall tid :: tid in s.threads ==> FilesOk(s.w.files, s.threads[tid]) && HomeOk(s.threads[tid]))
    && (forall i :: 0 <= i < |s.w.deliveries| ==> OwnMaterial(s.w.issues, s.w.deliveries[i]))
  }

  ghost predicate FilesKept(before: map<(string, nat), string>, after: map<(string, nat), string>, dir: string) {
    forall key :: key in before && key.0 != dir ==> key in after && after[key] == before[key]
  }

  /** What a step does to the files and to the requests made. */
  ghost predicate FileEdge(w: World, t: Thread, v: World, u: Thread) {
    && FilesOk(v.files, u) && (HomeOk(t) ==> HomeOk(u))
    && (v.files == w.files || (t.pc.Write? && FilesKept(w.files, v.files, t.home)))
    && (v.deliveries == w.deliveries || exists d :: v.deliveries == w.deliveries + [d] && OwnMaterial(w.issues, d))
  }

  lemma GateFiles(w: World, t: Thread, c: Choice)
    requires t.pc.Load? || t.pc.Gate? || t.pc.Acquire?
    ensures var (v, u) := ThreadStep(w, t, c); FileEdge(w, t, v, u)
  {
  }

  lemma RowFiles(w: World, t: Thread, c: Choice)
    requires t.pc.FindRow? || t.pc.InsertRow?
    ensures var (v, u) := ThreadStep(w, t, c); FileEdge(w, t, v, u)
  {
  }

  lemma JobFiles(w: World, t: Thread, c: Choice)
    requires t.pc.CreateJob? || t.pc.Obtain? || t.pc.MakeDir?
    ensures var (v, u) := ThreadStep(w, t, c); FileEdge(w, t, v, u)
  {
  }

  lemma FailFiles(w: World, t: Thread, c: Choice)
    requires t.pc.MarkFailed? || t.pc.FinishFailed?
    ensures var (v, u) := ThreadStep(w, t, c); FileEdge(w, t, v, u)
  {
    var (v, u) := ThreadStep(w, t, c);
    assert u == t.(pc := if t.pc.MarkFailed? then FinishFailed else Release);
    assert v.files == w.files && v.deliveries == w.deliveries;
    assert HomeOk(u) && Written(u.pc) == 0;
  }

  lemma ReleaseFiles(w: World, t: Thread, c: Choice)
    requires t.pc.Release?
    ensures var (v, u) := ThreadStep(w, t, c); FileEdge(w, t, v, u)
  {
  }

  lemma ScanFiles(w: World, t: Thread, c: Choice)
    requires t.pc.ScanList? || t.pc.ScanNext? || t.pc.Done?
    ensures var (v, u) := ThreadStep(w, t, c); FileEdge(w, t, v, u)
  {
    var (v, u) := ThreadStep(w, t, c);
    assert v == w && (u.pc.Gate? || u.pc.ScanList? || u.pc.ScanNext? || u.pc.Done?);
    assert Written(u.pc) == 0 && FilesOk(v.files, u) && HomeOk(u);
  }

  lemma WriteFiles(w: World, t: Thread, c: Choice)
    requires t.pc.Write? && FilesOk(w.files, t)
    ensures var (v, u) := ThreadStep(w, t, c); FileEdge(w, t, v, u)
  {
    var (v, u) := WriteStep(w, t, t.pc.file, c);
    assert u == t.(pc := u.pc) && v.deliveries == w.deliveries && FilesKept(w.files, v.files, t.home);
    if u.pc.MarkFailed? {
      assert Written(u.pc) == 0;
    } else {
      WrittenFiles(w, t, t.pc.file, c);
    }
  }

  lemma WrittenFiles(w: World, t: Thread, i: nat, c: Choice)
    requires t.pc == Write(i) && i < 4 && !c.Fails? && FilesOk(w.files, t)
    ensures var (v, u) := WriteStep(w, t, i, c); FilesOk(v.files, u)
  {
  }

  lemma StoreFiles(w: World, t: Thread, c: Choice)
    requires FilesOk(w.files, t)
    requires t.pc.Parse? || t.pc.Persist? || t.pc.FinishOk? || t.pc.ListTasks?
    ensures var (v, u) := ThreadStep(w, t, c); FileEdge(w, t, v, u)
  {
    var (v, u) := ThreadStep(w, t, c);
    assert v.files == w.files && v.deliveries == w.deliveries && u.home == t.home && u.record == t.record;
    assert u.res == t.res && (Written(u.pc) == 4 || Written(u.pc) == 0) && !u.pc.Read? && !u.pc.Post?;
  }

  lemma NextTaskFiles(w: World, t: Thread, c: Choice)
    requires t.pc.NextTask? && FilesOk(w.files, t)
    ensures var (v, u) := ThreadStep(w, t, c); FileEdge(w, t, v, u)
  {
  }

  lemma LoadMaterialFiles(w: World, t: Thread, c: Choice)
    requires t.pc.LoadMaterial? && FilesOk(w.files, t)
    ensures var (v, u) := ThreadStep(w, t, c); FileEdge(w, t, v, u)
  {
    assert Contents(t.res)[..0] == [];
  }

  lemma ReadFiles(w: World, t: Thread, c: Choice)
    requires t.pc.Read? && FilesOk(w.files, t) && t.dir == t.home
    ensures var (v, u) := ThreadStep(w, t, c); FileEdge(w, t, v, u)
  {
    var all, i := Contents(t.res), t.pc.file;
    assert all[..i] + [all[i]] == all[..i + 1];
    assert all[..4] == all;
  }

  lemma PostFiles(w: World, t: Thread, c: Choice)
    requires t.pc.Post? && FilesOk(w.files, t) && JobFacts(w.jobs, w.issues, w.nextJob, t)
    ensures var (v, u) := ThreadStep(w, t, c); FileEdge(w, t, v, u)
  {
    var (v, u) := PostStep(w, t, c);
    if !c.Fails? && t.tasks != [] {
      var d := Delivery(t.job, t.tasks[0], t.got);
      assert OwnMaterial(w.issues, d);
      assert v.deliveries == w.deliveries + [d];
    }
  }

  lemma StepKeepsFiles(w: World, t: Thread, c: Choice)
    requires WorldOk(w) && ThreadOk(w, t) && FilesOk(w.files, t)
    ensures var (v, u) := ThreadStep(w, t, c); FileEdge(w, t, v, u)
  {
    match t.pc
    case Load | Gate | Acquire => GateFiles(w, t, c);
    case FindRow(_) | InsertRow(_) => RowFiles(w, t, c);
    case CreateJob | Obtain | MakeDir => JobFiles(w, t, c);
    case MarkFailed | FinishFailed => FailFiles(w, t, c);
    case Release => ReleaseFiles(w, t, c);
    case ScanList | ScanNext | Done => ScanFiles(w, t, c);
    case Write(_) => WriteFiles(w, t, c);
    case Parse | Persist | FinishOk | ListTasks => StoreFiles(w, t, c);
    case NextTask => NextTaskFiles(w, t, c);
    case LoadMaterial => LoadMaterialFiles(w, t, c);
    case Read(_) => ReadFiles(w, t, c);
    case Post => PostFiles(w, t, c);
  }

  // A write elsewhere leaves the files of another live issuance alone.
  lemma OthersFiles(s: System, tid: nat, v: World, u: Thread, other: nat)
    requires tid in s.threads && other in s.threads && other != tid
    requires DistinctDirs(s) && FileEdge(s.w, s.threads[tid], v, u)
    requires FilesOk(s.w.files, s.threads[other]) && HomeOk(s.threads[other]) && HomeOk(s.threads[tid])
    ensures FilesOk(v.files, s.threads[other])
  {
    var t, o := s.threads[tid], s.threads[other];
    if Written(o.pc) > 0 && v.files != s.w.files {
      assert t.home != o.home by {
        assert !ShareDirectory(t.record, o.record);
      }
      FilesElsewhere(s.w.files, v.files, t.home, o);
    }
  }

  lemma FilesElsewhere(before: map<(string, nat), string>, after: map<(string, nat), string>, dir: string, t: Thread)
    requires FilesOk(before, t) && FilesKept(before, after, dir) && t.home != dir
    ensures FilesOk(after, t)
  {
  }

  lemma DeliveriesKept(w: World, v: World, r: nat, t: Thread, u: Thread)
    requires IssuesKept(w.issues, v.issues, r) && FileEdge(w, t, v, u)
    requires forall i :: 0 <= i < |w.deliveries| ==> OwnMaterial(w.issues, w.deliveries[i])
    ensures forall i :: 0 <= i < |v.deliveries| ==> OwnMaterial(v.issues, v.deliveries[i])
  {
    assert forall d :: OwnMaterial(w.issues, d) ==> OwnMaterial(v.issues, d);
  }

  lemma StepKeepsDelivery(s: System, tid: nat, c: Choice)
    requires Inv(s) && DistinctDirs(s) && DeliveryInv(s) && tid in s.threads
    ensures var (v, u) := ThreadStep(s.w, s.threads[tid], c); DeliveryInv(System(v, s.threads[tid := u]))
  {
    var (v, u) := ThreadStep(s.w, s.threads[tid], c);
    StepKeeps(s.w, s.threads[tid], c);
    StepKeepsFiles(s.w, s.threads[tid], c);
    DeliveriesKept(s.w, v, u.record.id, s.threads[tid], u);
    forall other | other in s.threads && other != tid
      ensures FilesOk(v.files, s.threads[other])
    {
      OthersFiles(s, tid, v, u, other);
    }
  }

  lemma NextKeepsDelivery(s: System, a: Action)
    requires Inv(s) && DistinctDirs(s) && DeliveryInv(s) && Enabled(s, a)
    ensures DeliveryInv(Next(s, a))
  {
    if a.Step? {
      StepKeepsDelivery(s, a.tid, a.choice);
    }
  }

  lemma InitialDelivery(s: System)
    requires Initial(s)
    ensures DeliveryInv(s)
  {
  }

  lemma {:induction false} RunKeepsDelivery(states: seq<System>, actions: seq<Action>, n: nat)
    requires IsRun(states, actions) && n < |states|
    requires forall i :: 0 <= i < n ==> DistinctDirs(states[i])
    ensures DeliveryInv(states[n])
  {
    if n == 0 {
      InitialDelivery(states[0]);
    } else {
      RunKeepsDelivery(states, actions, n - 1);
      StateFollows(states, actions, n - 1);
      NextKeepsDelivery(states[n - 1], actions[n - 1]);
    }
  }

  /** Tasks deliver their own issuance. As long as live issuances use distinct directories, every
      request made for a job with certificate material carries exactly the four pieces that this job
      obtained, the full chain being certificate and chain put together. */
  lemma DeliversOwnIssuance(states: seq<System>, actions: seq<Action>, n: nat, k: nat)
    requires IsRun(states, actions) && n < |states|
    requires forall i :: 0 <= i < n ==> DistinctDirs(states[i])
    requires k < |states[n].w.deliveries| && states[n].w.deliveries[k].material.Some?
    ensures var d := states[n].w.deliveries[k];
            && d.job in states[n].w.issues && states[n].w.issues[d.job].resource.Some?
            && var res := states[n].w.issues[d.job].resource.value;
               d.material.value == [res.cert, res.issuer, res.cert + res.issuer, res.key]
  {
    RunKeepsDelivery(states, actions, n);
    assert OwnMaterial(states[n].w.issues, states[n].w.deliveries[k]);
  }
}
