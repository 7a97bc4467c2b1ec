/** The rules of the worker configuration as an operator reads them: which settings each type of action needs,
    and what becomes of the optional ones. */
module WorkerRules {
  import opened Common
  import opened WorkerConfiguration

  // The same text but for the case of ASCII letters.
  predicate SameButCase(s: string, t: string) {
    |s| == |t| && forall i :: 0 <= i < |s| ==> s[i] == t[i] || ('A' <= t[i] <= 'Z' && s[i] == t[i] - 'A' + 'a')
  }

  // Host, token and certificate name are given, and the scope is one of the two or left out.
  predicate DeviceRule(f: FortiOS) {
    !Blank(f.host) && !Blank(f.accessToken) && !Blank(f.certName)
    && (TrimSpace(f.scope) == "" || TrimSpace(f.scope) == "vdom" || TrimSpace(f.scope) == "global")
  }

  // Path and field are given.
  predicate TargetRule(u: ProfileUpdate) {
    !Blank(u.path) && !Blank(u.field)
  }

  // The method is left out, or one of the three.
  predicate MethodRule(verb: string) {
    var v := ToUpper(TrimSpace(verb));
    v == "" || v == "PUT" || v == "PATCH" || v == "POST"
  }

  predicate SaveRule(a: Action) {
    !Blank(a.certDir)
    && !(a.certFile == "" && a.chainFile == "" && a.fullchainFile == "" && a.keyFile == "" && a.pkcs12File == ""
         && a.combinedFiles == [])
    && forall c :: c in a.combinedFiles ==>
         !Blank(c.filename) && c.parts != []
         && forall part :: part in c.parts ==> part in {"cert", "chain", "fullchain", "key"}
  }

  predicate IsListed(kind: string) {
    kind in {"cert_save", "service_restart", "exec",
             "fortios_upload", "fortios_profile_cert_replace", "fortios_admin_server_cert_update"}
  }

  /** Which actions are accepted, type by type; a type that is not listed never is. */
  lemma AcceptedByType(a: Action)
    ensures a.kind == "cert_save" ==> (ActionOk(a) <==> SaveRule(a))
    ensures a.kind == "service_restart" ==> (ActionOk(a) <==> !Blank(a.serviceName))
    ensures a.kind == "exec" ==> (ActionOk(a) <==> !Blank(a.command))
    ensures a.kind == "fortios_upload" || a.kind == "fortios_admin_server_cert_update" ==>
              (ActionOk(a) <==> a.fortios.Some? && DeviceRule(a.fortios.value))
    ensures a.kind == "fortios_profile_cert_replace" ==>
              (ActionOk(a) <==>
                 && a.fortios.Some? && DeviceRule(a.fortios.value) && a.profileUpdates != []
                 && forall u :: u in a.profileUpdates ==> TargetRule(u) && MethodRule(u.verb))
    ensures !IsListed(a.kind) ==> !ActionOk(a)
  {
    if a.kind == "cert_save" {
      SavesByRule(a);
    } else if a.fortios.Some? {
      DevicesByRule(a.fortios.value);
      UpdatesByRule(a.profileUpdates);
    }
  }

  lemma SavesByRule(a: Action)
    ensures CertSaveOk(a) <==> SaveRule(a)
  {
    forall c
      ensures CombinedOk(c) <==>
                !Blank(c.filename) && c.parts != []
                && forall part :: part in c.parts ==> part in {"cert", "chain", "fullchain", "key"}
    {
      PartsByRule(c.parts);
    }
  }

  lemma PartsByRule(parts: seq<string>)
    ensures (forall k :: 0 <= k < |parts| ==> IsPart(parts[k]))
            <==> forall part :: part in parts ==> part in {"cert", "chain", "fullchain", "key"}
  {
    assert forall part :: IsPart(part) <==> part in {"cert", "chain", "fullchain", "key"};
    if forall part :: part in parts ==> part in {"cert", "chain", "fullchain", "key"} {
      forall k | 0 <= k < |parts|
        ensures IsPart(parts[k])
      {
        assert parts[k] in parts;
      }
    }
  }

  lemma DevicesByRule(f: FortiOS)
    ensures FortiOSOk(f) <==> DeviceRule(f)
  {
  }

  lemma UpdatesByRule(updates: seq<ProfileUpdate>)
    ensures UpdatesOk(updates) <==> forall u :: u in updates ==> TargetRule(u) && MethodRule(u.verb)
  {
    forall k | 0 <= k < |updates|
      ensures UpdateOk(updates[k]) <==> TargetRule(updates[k]) && MethodRule(updates[k].verb)
    {
      UpdateByRule(updates[k]);
    }
  }

  lemma UpdateByRule(u: ProfileUpdate)
    ensures UpdateOk(u) <==> TargetRule(u) && MethodRule(u.verb)
  {
    assert |ToUpper(TrimSpace(u.verb))| == |TrimSpace(u.verb)|;
  }

  /** A method may be written in any case and with spaces around it. */
  lemma MethodInAnyCase(verb: string, method_: string)
    requires method_ in {"PUT", "PATCH", "POST"} && SameButCase(TrimSpace(verb), method_)
    ensures MethodRule(verb) && ToUpper(TrimSpace(verb)) == method_
  {
    var v := ToUpper(TrimSpace(verb));
    assert |v| == |method_| && forall i :: 0 <= i < |v| ==> v[i] == method_[i];
  }

  /** What an accepted action becomes. Only the scope and the profile updates change: a scope that is left out
      becomes vdom, a method that is left out becomes PUT, and what is given stays, without the space around
      it and the method in capitals. */
  lemma OnlyDefaultsAreFilledIn(a: Action)
    requires ActionOk(a)
    ensures a.kind in {"cert_save", "service_restart", "exec"} ==> NormalAction(a) == a
    ensures a.kind !in {"cert_save", "service_restart", "exec"} ==>
              var b, scope := NormalAction(a), TrimSpace(a.fortios.value.scope);
              b == a.(fortios := Some(a.fortios.value.(scope := if scope == "" then "vdom" else scope)),
                      profileUpdates := b.profileUpdates)
    ensures a.kind != "fortios_profile_cert_replace" ==> NormalAction(a).profileUpdates == a.profileUpdates
    ensures a.kind == "fortios_profile_cert_replace" ==>
              && |NormalAction(a).profileUpdates| == |a.profileUpdates|
              && forall k :: 0 <= k < |a.profileUpdates| ==>
                   var u, verb := a.profileUpdates[k], ToUpper(TrimSpace(a.profileUpdates[k].verb));
                   NormalAction(a).profileUpdates[k]
                   == ProfileUpdate(TrimSpace(u.path), u.mkey, TrimSpace(u.field), if verb == "" then "PUT" else verb)
  {
    if a.kind == "fortios_profile_cert_replace" {
      UpdatesBecome(a.profileUpdates);
    }
  }

  lemma {:induction false} UpdatesBecome(updates: seq<ProfileUpdate>)
    requires UpdatesOk(updates)
    ensures |NormalUpdates(updates)| == |updates|
    ensures forall k :: 0 <= k < |updates| ==>
              var u, verb := updates[k], ToUpper(TrimSpace(updates[k].verb));
              NormalUpdates(updates)[k]
              == ProfileUpdate(TrimSpace(u.path), u.mkey, TrimSpace(u.field), if verb == "" then "PUT" else verb)
  {
    if updates != [] {
      UpdatesOkCons(updates);
      UpdatesBecome(updates[1..]);
    }
  }

  /** What a refused action becomes: nothing changes unless the device settings are complete; then the scope
      is filled in, and the profile updates up to and with the first that is refused. */
  lemma RefusedKeepsTheRest(a: Action)
    requires a.fortios.Some? && UsesFortiOS(a.kind)
    ensures var f := a.fortios.value;
            Blank(f.host) || Blank(f.accessToken) || Blank(f.certName) ==> NormalAction(a) == a
    ensures a.kind != "fortios_profile_cert_replace" || !DeviceRule(a.fortios.value) ==>
              NormalAction(a).profileUpdates == a.profileUpdates
    ensures forall k, m :: 0 <= k < m < |a.profileUpdates|
                           && !(TargetRule(a.profileUpdates[k]) && MethodRule(a.profileUpdates[k].verb)) ==>
              NormalAction(a).profileUpdates[m] == a.profileUpdates[m]
  {
    DevicesByRule(a.fortios.value);
    var f := a.fortios.value;
    assert NormalFortiOS(f) == f || FortiOSNamed(f);
    forall k, m | 0 <= k < m < |a.profileUpdates|
                  && !(TargetRule(a.profileUpdates[k]) && MethodRule(a.profileUpdates[k].verb))
      ensures NormalAction(a).profileUpdates[m] == a.profileUpdates[m]
    {
      UpdateByRule(a.profileUpdates[k]);
      LaterUpdatesStay(a.profileUpdates, k, m);
    }
  }

  lemma {:induction false} LaterUpdatesStay(updates: seq<ProfileUpdate>, k: nat, m: nat)
    requires k < m < |updates| && !UpdateOk(updates[k])
    ensures NormalUpdates(updates)[m] == updates[m]
  {
    if UpdateOk(updates[0]) {
      LaterUpdatesStay(updates[1..], k - 1, m - 1);
      assert NormalUpdates(updates)[m] == NormalUpdates(updates[1..])[m - 1];
    } else {
      assert NormalUpdates(updates)[1..] == updates[1..];
    }
  }

  /** A configuration is accepted exactly when it has a port, its tasks have different names that are not
      blank, and every task has actions, all of them acceptable. */
  lemma AcceptedConfiguration(port: nat, tasks: seq<Task>)
    ensures Accepted(port, tasks) <==>
              && port != 0
              && (forall i :: 0 <= i < |tasks| ==> !Blank(tasks[i].name) && tasks[i].actions != [])
              && (forall i, k :: 0 <= i < k < |tasks| ==> tasks[i].name != tasks[k].name)
              && (forall i, j :: 0 <= i < |tasks| && 0 <= j < |tasks[i].actions| ==> ActionOk(tasks[i].actions[j]))
  {
  }
}
