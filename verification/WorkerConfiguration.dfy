/** The configuration of the worker and its validation (worker/pkg/config/config.go), which checks the
    tasks in order and normalises their optional fields in place. */
module WorkerConfiguration {
  import opened Common

  datatype FortiOS = FortiOS(host: string, accessToken: string, certName: string, scope: string)

  datatype ProfileUpdate = ProfileUpdate(path: string, mkey: string, field: string, verb: string)

  datatype CombinedFile = CombinedFile(filename: string, parts: seq<string>)

  datatype Action = Action(
    kind: string,
    certDir: string, certFile: string, chainFile: string, fullchainFile: string, keyFile: string,
    pkcs12File: string, combinedFiles: seq<CombinedFile>,
    serviceName: string, command: string,
    fortios: Option<FortiOS>, profileUpdates: seq<ProfileUpdate>)

  datatype Task = Task(name: string, actions: seq<Action>)

  // Why a configuration is refused, and where.
  datatype Problem =
    | NoPort
    | BlankName(task: nat)
    | DuplicateName(task: nat)
    | NoActions(task: nat)
    | BadAction(task: nat, action: nat)

  const CERT_SAVE := "cert_save"
  const SERVICE_RESTART := "service_restart"
  const EXEC := "exec"
  const UPLOAD := "fortios_upload"
  const PROFILE_REPLACE := "fortios_profile_cert_replace"
  const ADMIN_UPDATE := "fortios_admin_server_cert_update"

  predicate IsPart(s: string) {
    s == "cert" || s == "chain" || s == "fullchain" || s == "key"
  }

  predicate IsVerb(s: string) {
    s == "PUT" || s == "PATCH" || s == "POST"
  }

  predicate IsScope(s: string) {
    s == "vdom" || s == "global"
  }

  // strings.ToUpper, as far as it can produce an ASCII letter: the ASCII letters, the dotless i and
  // the long s.
  function UpperChar(c: char): char {
    if 'a' <= c <= 'z' then c - 'a' + 'A'
    else if c == '\U{0131}' then 'I'
    else if c == '\U{017F}' then 'S'
    else c
  }

  function ToUpper(s: string): (r: string)
    ensures |r| == |s| && forall i :: 0 <= i < |s| ==> r[i] == UpperChar(s[i])
  {
    seq(|s|, i requires 0 <= i < |s| => UpperChar(s[i]))
  }

  predicate UsesFortiOS(kind: string) {
    kind == UPLOAD || kind == PROFILE_REPLACE || kind == ADMIN_UPDATE
  }

  // ----- what is accepted

  predicate FortiOSNamed(f: FortiOS) {
    !Blank(f.host) && !Blank(f.accessToken) && !Blank(f.certName)
  }

  predicate FortiOSOk(f: FortiOS) {
    FortiOSNamed(f) && (Blank(f.scope) || IsScope(TrimSpace(f.scope)))
  }

  predicate UpdateOk(u: ProfileUpdate) {
    !Blank(u.path) && !Blank(u.field) && (Blank(u.verb) || IsVerb(ToUpper(TrimSpace(u.verb))))
  }

  predicate CombinedOk(c: CombinedFile) {
    !Blank(c.filename) && c.parts != [] && forall k :: 0 <= k < |c.parts| ==> IsPart(c.parts[k])
  }

  predicate CertSaveOk(a: Action) {
    !Blank(a.certDir)
    && (a.certFile != "" || a.chainFile != "" || a.fullchainFile != "" || a.keyFile != "" || a.pkcs12File != ""
        || a.combinedFiles != [])
    && forall k :: 0 <= k < |a.combinedFiles| ==> CombinedOk(a.combinedFiles[k])
  }

  predicate UpdatesOk(updates: seq<ProfileUpdate>) {
    forall k :: 0 <= k < |updates| ==> UpdateOk(updates[k])
  }

  predicate ActionOk(a: Action) {
    if a.kind == CERT_SAVE then CertSaveOk(a)
    else if a.kind == SERVICE_RESTART then !Blank(a.serviceName)
    else if a.kind == EXEC then !Blank(a.command)
    else if a.kind == PROFILE_REPLACE then
      a.fortios.Some? && FortiOSOk(a.fortios.value) && a.profileUpdates != [] && UpdatesOk(a.profileUpdates)
    else (a.kind == UPLOAD || a.kind == ADMIN_UPDATE) && a.fortios.Some? && FortiOSOk(a.fortios.value)
  }

  predicate ActionsOk(actions: seq<Action>) {
    forall j :: 0 <= j < |actions| ==> ActionOk(actions[j])
  }

  predicate TaskOk(t: Task) {
    !Blank(t.name) && t.actions != [] && ActionsOk(t.actions)
  }

  predicate TasksOk(tasks: seq<Task>) {
    && (forall i :: 0 <= i < |tasks| ==> TaskOk(tasks[i]))
    && (forall i, k :: 0 <= i < k < |tasks| ==> tasks[i].name != tasks[k].name)
  }

  predicate Accepted(port: nat, tasks: seq<Task>) {
    port != 0 && TasksOk(tasks)
  }

  // ----- what validation makes of the fields

  function NormalFortiOS(f: FortiOS): FortiOS {
    if !FortiOSNamed(f) then f
    else f.(scope := if Blank(f.scope) then "vdom" else TrimSpace(f.scope))
  }

  function NormalUpdate(u: ProfileUpdate): ProfileUpdate {
    var verb := ToUpper(TrimSpace(u.verb));
    ProfileUpdate(
      TrimSpace(u.path), u.mkey, TrimSpace(u.field),
      if verb == "" && !Blank(u.path) && !Blank(u.field) then "PUT" else verb)
  }

  // The updates are normalised up to the first that is refused, which is the last one touched.
  function NormalUpdates(updates: seq<ProfileUpdate>): (r: seq<ProfileUpdate>)
    ensures |r| == |updates|
  {
    if updates == [] then []
    else [NormalUpdate(updates[0])]
         + (if UpdateOk(updates[0]) then NormalUpdates(updates[1..]) else updates[1..])
  }

  // What is left of an action, accepted or not.
  function NormalAction(a: Action): Action {
    if !UsesFortiOS(a.kind) || a.fortios.None? then a
    else
      var b := a.(fortios := Some(NormalFortiOS(a.fortios.value)));
      if a.kind == PROFILE_REPLACE && FortiOSOk(a.fortios.value) then
        b.(profileUpdates := NormalUpdates(a.profileUpdates))
      else b
  }

  function NormalActions(actions: seq<Action>): (r: seq<Action>)
    ensures |r| == |actions|
  {
    seq(|actions|, j requires 0 <= j < |actions| => NormalAction(actions[j]))
  }

  function NormalTasks(tasks: seq<Task>): (r: seq<Task>)
    ensures |r| == |tasks|
  {
    seq(|tasks|, i requires 0 <= i < |tasks| => tasks[i].(actions := NormalActions(tasks[i].actions)))
  }

  /** A problem is the first in the order of the checks, and only what stands before it, and the refused
      action itself, has been normalised. */
  predicate Reports(e: Problem, port: nat, before: seq<Task>, after: seq<Task>) {
    if e.NoPort? then port == 0 && after == before
    else
      var i := e.task;
      && port != 0 && i < |before| && TasksOk(before[..i])
      && match e {
        case BlankName(_) => Blank(before[i].name) && after == NormalTasks(before[..i]) + before[i..]
        case DuplicateName(_) =>
          && !Blank(before[i].name) && (exists k :: 0 <= k < i && before[k].name == before[i].name)
          && after == NormalTasks(before[..i]) + before[i..]
        case NoActions(_) =>
          && NameIsNew(before, i) && before[i].actions == []
          && after == NormalTasks(before[..i]) + before[i..]
        case BadAction(_, j) =>
          var actions := before[i].actions;
          && NameIsNew(before, i) && j < |actions| && ActionsOk(actions[..j]) && !ActionOk(actions[j])
          && after == NormalTasks(before[..i])
                      + [before[i].(actions := NormalActions(actions[..j + 1]) + actions[j + 1..])]
                      + before[i + 1..]
      }
  }

  predicate NameIsNew(tasks: seq<Task>, i: nat)
    requires i < |tasks|
  {
    !Blank(tasks[i].name) && forall k :: 0 <= k < i ==> tasks[k].name != tasks[i].name
  }

  // ----- the configuration

  class WorkerConfig {
    var port: nat
    var tasks: seq<Task>

    /** An acceptable configuration is left normalised; otherwise the first problem is reported. By
        ProblemIsUnique the two cases exclude each other and determine the outcome. */
    method Validate() returns (problem: Option<Problem>)
      modifies this`tasks
      ensures problem.None? ==> Accepted(port, old(tasks)) && tasks == NormalTasks(old(tasks))
      ensures problem.Some? ==> Reports(problem.value, port, old(tasks), tasks)
    {
      if port == 0 {
        return Some(NoPort);
      }
      ghost var before := tasks;
      var names: set<string> := {};
      var i := 0;
      while i < |tasks|
        invariant 0 <= i <= |tasks| == |before|
        invariant tasks == NormalTasks(before[..i]) + before[i..]
        invariant TasksOk(before[..i])
        invariant forall name :: name in names <==> exists k :: 0 <= k < i && before[k].name == name
      {
        var t := tasks[i];
        assert t == before[i];
        if Blank(t.name) {
          return Some(BlankName(i));
        }
        if t.name in names {
          return Some(DuplicateName(i));
        }
        assert NameIsNew(before, i);
        names := names + {t.name};
        if t.actions == [] {
          return Some(NoActions(i));
        }
        var refused := CheckActions(i, before);
        if refused.Some? {
          return Some(BadAction(i, refused.value));
        }
        TaskDone(before, i);
        TaskAccepted(before, i);
        i := i + 1;
      }
      assert before[..i] == before;
      return None;
    }

    // The actions of task i, in order, up to the first that is refused.
    method CheckActions(i: nat, ghost before: seq<Task>) returns (refused: Option<nat>)
      requires i < |before| && tasks == NormalTasks(before[..i]) + before[i..]
      modifies this`tasks
      ensures refused.None? ==> ActionsOk(before[i].actions) && tasks == Progress(before, i, |before[i].actions|)
      ensures refused.Some? ==> var j, actions := refused.value, before[i].actions;
                                && j < |actions| && ActionsOk(actions[..j]) && !ActionOk(actions[j])
                                && tasks == Progress(before, i, j + 1)
    {
      TaskStarted(before, i);
      var j := 0;
      while j < |tasks[i].actions|
        invariant i < |tasks| == |before| && 0 <= j <= |tasks[i].actions| == |before[i].actions|
        invariant ActionsOk(before[i].actions[..j])
        invariant tasks == Progress(before, i, j)
      {
        ProgressAt(before, i, j);
        var ok := Defaults(i, j);
        ProgressStep(before, i, j);
        if !ok {
          return Some(j);
        }
        ActionsNext(before[i].actions, j);
        j := j + 1;
      }
      assert before[i].actions[..j] == before[i].actions;
      return None;
    }

    // Checks one action and normalises it; it is left normalised as far as the checks went.
    method Defaults(i: nat, j: nat) returns (ok: bool)
      requires i < |tasks| && j < |tasks[i].actions|
      modifies this`tasks
      ensures ok == ActionOk(old(tasks)[i].actions[j])
      ensures tasks == WithAction(old(tasks), i, j, NormalAction(old(tasks)[i].actions[j]))
    {
      var a := tasks[i].actions[j];
      assert WithAction(tasks, i, j, a) == tasks by {
        assert tasks[i].actions[j := a] == tasks[i].actions;
      }
      if a.kind == CERT_SAVE {
        ok := CheckCertSave(a);
      } else if a.kind == SERVICE_RESTART {
        ok := !Blank(a.serviceName);
      } else if a.kind == EXEC {
        ok := !Blank(a.command);
      } else if UsesFortiOS(a.kind) {
        if a.fortios.None? {
          return false;
        }
        var f;
        ok, f := CheckFortiOS(a.fortios.value);
        a := a.(fortios := Some(f));
        if ok && a.kind == PROFILE_REPLACE {
          var updates;
          ok, updates := CheckUpdates(a.profileUpdates);
          a := a.(profileUpdates := updates);
        }
        tasks := WithAction(tasks, i, j, a);
      } else {
        ok := false;
      }
    }

    /** Lookup by name; on an accepted configuration it is unambiguous. */
    method TaskByName(name: string) returns (found: Option<nat>)
      ensures found.None? <==> forall i :: 0 <= i < |tasks| ==> tasks[i].name != name
      ensures found.Some? ==> found.value < |tasks| && tasks[found.value].name == name
                              && forall i :: 0 <= i < found.value ==> tasks[i].name != name
      ensures Accepted(port, tasks) ==>
                forall i :: 0 <= i < |tasks| && tasks[i].name == name ==> found == Some(i)
    {
      for i := 0 to |tasks|
        invariant forall k :: 0 <= k < i ==> tasks[k].name != name
      {
        if tasks[i].name == name {
          return Some(i);
        }
      }
      return None;
    }
  }

  method CheckCertSave(a: Action) returns (ok: bool)
    ensures ok == CertSaveOk(a)
  {
    if Blank(a.certDir) {
      return false;
    }
    if a.certFile == "" && a.chainFile == "" && a.fullchainFile == "" && a.keyFile == "" && a.pkcs12File == ""
       && a.combinedFiles == []
    {
      return false;
    }
    for k := 0 to |a.combinedFiles|
      invariant forall m :: 0 <= m < k ==> CombinedOk(a.combinedFiles[m])
    {
      var c := a.combinedFiles[k];
      if Blank(c.filename) || c.parts == [] {
        return false;
      }
      for p := 0 to |c.parts|
        invariant forall m :: 0 <= m < p ==> IsPart(c.parts[m])
      {
        if !IsPart(c.parts[p]) {
          return false;
        }
      }
    }
    return true;
  }

  method CheckFortiOS(f: FortiOS) returns (ok: bool, left: FortiOS)
    ensures ok == FortiOSOk(f) && left == NormalFortiOS(f)
  {
    left := f;
    if Blank(f.host) || Blank(f.accessToken) || Blank(f.certName) {
      return false, f;
    }
    left := left.(scope := TrimSpace(left.scope));
    if left.scope == "" {
      left := left.(scope := "vdom");
    }
    ok := IsScope(left.scope);
  }

  method CheckUpdates(updates: seq<ProfileUpdate>) returns (ok: bool, left: seq<ProfileUpdate>)
    ensures ok == (updates != [] && UpdatesOk(updates))
    ensures left == NormalUpdates(updates)
  {
    left := updates;
    if updates == [] {
      return false, updates;
    }
    var k := 0;
    while k < |updates|
      invariant 0 <= k <= |updates| == |left|
      invariant UpdatesOk(updates[..k])
      invariant left[k..] == updates[k..]
      invariant NormalUpdates(updates) == left[..k] + NormalUpdates(updates[k..])
    {
      assert left[k] == left[k..][0] && left[k] == updates[k];
      UpdatesStep(updates, left, k);
      var w := left[k];
      w := w.(path := TrimSpace(w.path), field := TrimSpace(w.field), verb := ToUpper(TrimSpace(w.verb)));
      var bad := w.path == "" || w.field == "";
      if !bad && w.verb == "" {
        w := w.(verb := "PUT");
      }
      assert w == NormalUpdate(updates[k]);
      left := left[k := w];
      if bad || !IsVerb(w.verb) {
        return false, left;
      }
      k := k + 1;
    }
    assert updates[..k] == updates && left[..k] == left;
    ok := true;
  }

  // Update k is the next to be normalised; the result is final if it is refused.
  lemma UpdatesStep(updates: seq<ProfileUpdate>, left: seq<ProfileUpdate>, k: nat)
    requires k < |updates| == |left| && left[k..] == updates[k..]
    requires NormalUpdates(updates) == left[..k] + NormalUpdates(updates[k..])
    ensures var u := updates[k];
            var now := left[k := NormalUpdate(u)];
            && now[k + 1..] == updates[k + 1..]
            && (UpdateOk(u) ==> NormalUpdates(updates) == now[..k + 1] + NormalUpdates(updates[k + 1..]))
            && (!UpdateOk(u) ==> NormalUpdates(updates) == now)
    ensures UpdatesOk(updates[..k]) && UpdateOk(updates[k]) ==> UpdatesOk(updates[..k + 1])
  {
    Replaced(left, updates, k, NormalUpdate(updates[k]), NormalUpdates(updates[k + 1..]));
    assert NormalUpdates(updates[k..]) == [NormalUpdate(updates[k])]
           + (if UpdateOk(updates[k]) then NormalUpdates(updates[k + 1..]) else updates[k + 1..]) by {
      assert updates[k..][0] == updates[k] && updates[k..][1..] == updates[k + 1..];
    }
    UpdatesOkNext(updates, k);
  }

  lemma UpdatesOkNext(updates: seq<ProfileUpdate>, k: nat)
    requires k < |updates|
    ensures UpdatesOk(updates[..k]) && UpdateOk(updates[k]) ==> UpdatesOk(updates[..k + 1])
  {
    assert updates[..k + 1] == updates[..k] + [updates[k]];
  }

  lemma Replaced<T>(left: seq<T>, before: seq<T>, k: nat, w: T, rest: seq<T>)
    requires k < |left| == |before| && left[k..] == before[k..]
    ensures left[k := w][k + 1..] == before[k + 1..]
    ensures left[..k] + ([w] + before[k + 1..]) == left[k := w]
    ensures left[..k] + ([w] + rest) == left[k := w][..k + 1] + rest
  {
    assert left[k + 1..] == left[k..][1..];
    assert before[k + 1..] == before[k..][1..];
  }

  function WithAction(tasks: seq<Task>, i: nat, j: nat, a: Action): seq<Task>
    requires i < |tasks| && j < |tasks[i].actions|
  {
    tasks[i := tasks[i].(actions := tasks[i].actions[j := a])]
  }

  // The tasks when the actions before action j of task i have been accepted.
  ghost function Progress(before: seq<Task>, i: nat, j: nat): (r: seq<Task>)
    requires i < |before| && j <= |before[i].actions|
    ensures |r| == |before| && |r[i].actions| == |before[i].actions|
  {
    var actions := before[i].actions;
    NormalTasks(before[..i]) + [before[i].(actions := NormalActions(actions[..j]) + actions[j..])] + before[i + 1..]
  }

  lemma ProgressAt(before: seq<Task>, i: nat, j: nat)
    requires i < |before| && j < |before[i].actions|
    ensures Progress(before, i, j)[i].actions[j] == before[i].actions[j]
  {
  }

  lemma ActionsNext(actions: seq<Action>, j: nat)
    requires j < |actions| && ActionsOk(actions[..j]) && ActionOk(actions[j])
    ensures ActionsOk(actions[..j + 1])
  {
    assert actions[..j + 1] == actions[..j] + [actions[j]];
  }

  lemma ProgressStep(before: seq<Task>, i: nat, j: nat)
    requires i < |before| && j < |before[i].actions|
    ensures WithAction(Progress(before, i, j), i, j, NormalAction(before[i].actions[j])) == Progress(before, i, j + 1)
  {
    var actions := before[i].actions;
    var n := NormalAction(actions[j]);
    assert (NormalActions(actions[..j]) + actions[j..])[j := n]
        == NormalActions(actions[..j + 1]) + actions[j + 1..] by {
      assert NormalActions(actions[..j + 1]) == NormalActions(actions[..j]) + [n];
    }
  }

  lemma TaskStarted(before: seq<Task>, i: nat)
    requires i < |before|
    ensures Progress(before, i, 0) == NormalTasks(before[..i]) + before[i..]
  {
    var actions := before[i].actions;
    assert NormalActions(actions[..0]) + actions[0..] == actions;
    assert before[i..] == [before[i]] + before[i + 1..];
  }

  lemma TaskDone(before: seq<Task>, i: nat)
    requires i < |before|
    ensures Progress(before, i, |before[i].actions|) == NormalTasks(before[..i + 1]) + before[i + 1..]
  {
    var actions := before[i].actions;
    assert actions[..|actions|] == actions && actions[|actions|..] == [];
    assert NormalActions(actions) + [] == NormalActions(actions);
    assert NormalTasks(before[..i + 1])
        == NormalTasks(before[..i]) + [before[i].(actions := NormalActions(actions))];
  }

  lemma TaskAccepted(before: seq<Task>, i: nat)
    requires i < |before| && TasksOk(before[..i]) && NameIsNew(before, i) && TaskOk(before[i])
    ensures TasksOk(before[..i + 1])
  {
    assert before[..i + 1] == before[..i] + [before[i]];
    assert forall k :: 0 <= k < i ==> before[..i][k] == before[k];
  }

  // ----- validating again

  /** What validation leaves of an action, accepted or refused, it judges alike and leaves alone. */
  lemma NormalActionIsFixed(a: Action)
    ensures ActionOk(NormalAction(a)) == ActionOk(a)
    ensures NormalAction(NormalAction(a)) == NormalAction(a)
  {
    if a.fortios.Some? {
      NormalFortiOSIsFixed(a.fortios.value);
      NormalUpdatesAreFixed(a.profileUpdates);
    }
  }

  lemma NormalFortiOSIsFixed(f: FortiOS)
    ensures FortiOSOk(NormalFortiOS(f)) == FortiOSOk(f)
    ensures NormalFortiOS(NormalFortiOS(f)) == NormalFortiOS(f)
  {
    TrimSpaceIsTrimmed(f.scope);
    assert TrimSpace("vdom") == "vdom";
  }

  lemma NormalUpdateIsFixed(u: ProfileUpdate)
    ensures UpdateOk(NormalUpdate(u)) == UpdateOk(u)
    ensures NormalUpdate(NormalUpdate(u)) == NormalUpdate(u)
  {
    TrimSpaceIsTrimmed(u.path);
    TrimSpaceIsTrimmed(u.field);
    UpperOfTrimmed(u.verb);
    assert TrimSpace("PUT") == "PUT" && ToUpper("PUT") == "PUT";
  }

  lemma UpperOfTrimmed(s: string)
    ensures var v := ToUpper(TrimSpace(s)); TrimSpace(v) == v && ToUpper(v) == v
  {
    var t := TrimSpace(s);
    TrimSpaceIsTrimmed(s);
    assert Trimmed(ToUpper(t));
    TrimmedIsFixed(ToUpper(t));
  }

  lemma {:induction false} NormalUpdatesAreFixed(updates: seq<ProfileUpdate>)
    ensures UpdatesOk(NormalUpdates(updates)) == UpdatesOk(updates)
    ensures NormalUpdates(NormalUpdates(updates)) == NormalUpdates(updates)
  {
    if updates != [] {
      var r := NormalUpdates(updates);
      NormalUpdateIsFixed(updates[0]);
      UpdatesOkCons(updates);
      UpdatesOkCons(r);
      if UpdateOk(updates[0]) {
        NormalUpdatesAreFixed(updates[1..]);
        assert r[1..] == NormalUpdates(updates[1..]);
      } else {
        assert r[1..] == updates[1..];
      }
    }
  }

  lemma UpdatesOkCons(updates: seq<ProfileUpdate>)
    requires updates != []
    ensures UpdatesOk(updates) <==> UpdateOk(updates[0]) && UpdatesOk(updates[1..])
  {
    assert updates == [updates[0]] + updates[1..];
  }

  lemma NormalTasksAreFixed(tasks: seq<Task>)
    ensures NormalTasks(NormalTasks(tasks)) == NormalTasks(tasks)
    ensures TasksOk(NormalTasks(tasks)) == TasksOk(tasks)
  {
    var r := NormalTasks(tasks);
    forall i | 0 <= i < |tasks|
      ensures NormalActions(r[i].actions) == r[i].actions && TaskOk(r[i]) == TaskOk(tasks[i])
    {
      NormalActionsAreFixed(tasks[i].actions);
    }
  }

  lemma NormalActionsAreFixed(actions: seq<Action>)
    ensures NormalActions(NormalActions(actions)) == NormalActions(actions)
    ensures ActionsOk(NormalActions(actions)) == ActionsOk(actions)
  {
    var r := NormalActions(actions);
    forall j | 0 <= j < |actions|
      ensures NormalAction(r[j]) == r[j] && ActionOk(r[j]) == ActionOk(actions[j])
    {
      NormalActionIsFixed(actions[j]);
    }
    if ActionsOk(r) {
      forall j | 0 <= j < |actions|
        ensures ActionOk(actions[j])
      {
        assert ActionOk(r[j]);
      }
    }
  }

  /** After acceptance every request to FortiOS has a known scope, and every profile update a path and a
      field without surrounding space and a known method. */
  lemma {:induction false} NormalActionIsUsable(a: Action)
    requires ActionOk(a) && UsesFortiOS(a.kind)
    ensures NormalAction(a).fortios.Some? && IsScope(NormalAction(a).fortios.value.scope)
    ensures a.kind == PROFILE_REPLACE ==>
              forall u :: u in NormalAction(a).profileUpdates ==>
                u.path != "" && Trimmed(u.path) && u.field != "" && Trimmed(u.field) && IsVerb(u.verb)
  {
    if a.kind == PROFILE_REPLACE {
      NormalUpdatesAreUsable(a.profileUpdates);
    }
  }

  lemma {:induction false} NormalUpdatesAreUsable(updates: seq<ProfileUpdate>)
    requires UpdatesOk(updates)
    ensures forall u :: u in NormalUpdates(updates) ==>
              u.path != "" && Trimmed(u.path) && u.field != "" && Trimmed(u.field) && IsVerb(u.verb)
  {
    if updates != [] {
      UpdatesOkCons(updates);
      NormalUpdatesAreUsable(updates[1..]);
      TrimSpaceIsTrimmed(updates[0].path);
      TrimSpaceIsTrimmed(updates[0].field);
      assert ToUpper("") == "";
    }
  }

  /** An accepted configuration, once normalised, is a fixed point of validation. */
  lemma AcceptedIsFixed(port: nat, tasks: seq<Task>)
    requires Accepted(port, tasks)
    ensures Accepted(port, NormalTasks(tasks)) && NormalTasks(NormalTasks(tasks)) == NormalTasks(tasks)
  {
    NormalTasksAreFixed(tasks);
  }

  /** So is a refused one: validating what a refusal leaves reports the same problem and changes nothing. */
  lemma RefusedIsFixed(e: Problem, port: nat, before: seq<Task>, after: seq<Task>)
    requires Reports(e, port, before, after)
    ensures Reports(e, port, after, after)
  {
    if !e.NoPort? {
      var i := e.task;
      NormalTasksAreFixed(before[..i]);
      assert after[..i] == NormalTasks(before[..i]);
      if e.BadAction? {
        RefusedActionIsFixed(e, port, before, after);
      } else {
        assert after[i..] == before[i..] && after[i] == before[i];
        assert forall k :: 0 <= k < i ==> after[k].name == before[k].name;
        assert NormalTasks(after[..i]) + after[i..] == after;
      }
    }
  }

  lemma RefusedActionIsFixed(e: Problem, port: nat, before: seq<Task>, after: seq<Task>)
    requires Reports(e, port, before, after) && e.BadAction?
    requires TasksOk(after[..e.task]) && NormalTasks(after[..e.task]) == after[..e.task]
    ensures Reports(e, port, after, after)
  {
    var i, j := e.task, e.action;
    var actions := before[i].actions;
    var left := NormalActions(actions[..j + 1]) + actions[j + 1..];
    assert after[i] == before[i].(actions := left);
    NormalActionsAreFixed(actions[..j]);
    assert left[..j] == NormalActions(actions[..j]);
    NormalActionIsFixed(actions[j]);
    assert left[j] == NormalAction(actions[j]);
    assert NormalActions(left[..j + 1]) + left[j + 1..] == left by {
      assert left[..j + 1] == left[..j] + [left[j]];
      assert NormalActions(left[..j + 1]) == NormalActions(left[..j]) + [NormalAction(left[j])];
    }
    assert forall k :: 0 <= k < i ==> after[k].name == before[k].name;
    assert after == after[..i] + [after[i]] + after[i + 1..];
  }

  /** Every configuration is either accepted or has exactly one problem, which leaves one state. */
  lemma ProblemIsUnique(e: Problem, f: Problem, port: nat, before: seq<Task>, after: seq<Task>, other: seq<Task>)
    requires Reports(e, port, before, after)
    ensures !Accepted(port, before)
    ensures Reports(f, port, before, other) ==> f == e && other == after
  {
    if !e.NoPort? {
      ProblemComesFirst(e, |before|, port, before, after);
      assert before[..|before|] == before;
      if Reports(f, port, before, other) {
        if e.task < f.task {
          ProblemComesFirst(e, f.task, port, before, after);
        } else if f.task < e.task {
          ProblemComesFirst(f, e.task, port, before, other);
        } else if e.BadAction? && f.BadAction? {
          OkUpTo(before[e.task].actions, e.action);
          OkUpTo(before[e.task].actions, f.action);
        }
      }
    }
  }

  lemma OkUpTo(actions: seq<Action>, k: nat)
    requires k <= |actions| && ActionsOk(actions[..k])
    ensures forall j :: 0 <= j < k ==> ActionOk(actions[j])
  {
    assert forall j :: 0 <= j < k ==> actions[..k][j] == actions[j];
  }

  lemma ProblemComesFirst(e: Problem, n: nat, port: nat, before: seq<Task>, after: seq<Task>)
    requires Reports(e, port, before, after) && !e.NoPort? && e.task < n <= |before|
    ensures !TasksOk(before[..n])
  {
    var i := e.task;
    var front := before[..n];
    assert front[i] == before[i];
    if e.DuplicateName? {
      var k :| 0 <= k < i && before[k].name == before[i].name;
      assert front[k].name == front[i].name;
    } else {
      assert !TaskOk(front[i]);
    }
  }
}
