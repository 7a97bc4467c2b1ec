/** The worker's execution of a task (worker/pkg/task/executor.go) and its cert_save action
    (worker/pkg/task/cert.go). */
module WorkerExecution {
  import opened Common
  import opened WorkerConfiguration

  datatype Payload = Payload(
    cert: string, chain: string, fullchain: string, privateKey: string, pkcs12: string, pkcs12Base64: string)

  type Disk = map<string, string>

  // What the operating system does to one action: whether the directory can be made, which of the
  // action's writes fail (and what a failed write leaves in its file, None for nothing changed), what a
  // command or a restarted service does to the files, and whether an action other than cert_save succeeds.
  datatype Env = Env(mkdir: bool, faults: map<nat, Option<string>>, command: Disk -> Disk, succeeds: bool)

  datatype SaveError = NoDirectory | BadArchive | Lacking(what: string) | NotWritten(path: string)

  datatype ExecError = UnknownType(action: nat) | ActionFailed(action: nat)

  // ----- what a cert_save action has to write

  datatype Step = Put(path: string, content: string) | Lack(what: string)

  function PieceOf(p: Payload, part: string): string {
    if part == "cert" then p.cert
    else if part == "chain" then p.chain
    else if part == "fullchain" then p.fullchain
    else if part == "key" then p.privateKey
    else ""
  }

  // strings.TrimRight(s, "\n")
  function TrimNewlines(s: string): string {
    if s != "" && s[|s| - 1] == '\n' then TrimNewlines(s[..|s| - 1]) else s
  }

  // One part of a combined file.
  function Block(p: Payload, part: string): string {
    TrimNewlines(PieceOf(p, part)) + "\n"
  }

  function Blocks(p: Payload, parts: seq<string>): string {
    if parts == [] then "" else Block(p, parts[0]) + Blocks(p, parts[1..])
  }

  // The first part the payload lacks.
  function Missing(p: Payload, parts: seq<string>): Option<string> {
    if parts == [] then None
    else if Blank(PieceOf(p, parts[0])) then Some(parts[0])
    else Missing(p, parts[1..])
  }

  function Archive(p: Payload, decode: string -> Option<string>): Option<string> {
    var raw := if Blank(p.pkcs12Base64) then p.pkcs12 else p.pkcs12Base64;
    if Blank(raw) then Some("") else decode(raw)
  }

  datatype Entry = Entry(name: string, content: string, what: string)

  function Entries(a: Action, p: Payload, archive: string): seq<Entry> {
    [Entry(a.certFile, p.cert, "cert"), Entry(a.chainFile, p.chain, "chain"),
     Entry(a.fullchainFile, p.fullchain, "fullchain"), Entry(a.keyFile, p.privateKey, "private_key"),
     Entry(a.pkcs12File, archive, "pkcs12")]
  }

  // A file that is not named is skipped.
  function EntrySteps(path: (string, string) -> string, dir: string, entries: seq<Entry>): seq<Step> {
    if entries == [] then []
    else
      var e := entries[0];
      (if Blank(e.name) then []
       else if e.content == "" then [Lack(e.what)]
       else [Put(path(dir, e.name), e.content)])
      + EntrySteps(path, dir, entries[1..])
  }

  function CombinedStep(path: (string, string) -> string, dir: string, c: CombinedFile, p: Payload): Step {
    match Missing(p, c.parts)
    case Some(part) => Lack(part)
    case None => Put(path(dir, c.filename), Blocks(p, c.parts))
  }

  function CombinedSteps(
    path: (string, string) -> string, dir: string, files: seq<CombinedFile>, p: Payload): seq<Step>
  {
    if files == [] then [] else [CombinedStep(path, dir, files[0], p)] + CombinedSteps(path, dir, files[1..], p)
  }

  function Steps(path: (string, string) -> string, a: Action, p: Payload, archive: string): seq<Step> {
    EntrySteps(path, a.certDir, Entries(a, p, archive)) + CombinedSteps(path, a.certDir, a.combinedFiles, p)
  }

  // ----- carrying the steps out

  // The disk, and what ended the steps early if anything did, when n writes precede them.
  function Carry(disk: Disk, steps: seq<Step>, faults: map<nat, Option<string>>, n: nat): (Disk, Option<SaveError>)
    decreases |steps|
  {
    if steps == [] then (disk, None)
    else
      match steps[0]
      case Lack(what) => (disk, Some(Lacking(what)))
      case Put(file, content) =>
        if n !in faults then Carry(disk[file := content], steps[1..], faults, n + 1)
        else (AfterFault(disk, file, faults[n]), Some(NotWritten(file)))
  }

  function AfterFault(disk: Disk, file: string, left: Option<string>): Disk {
    match left
    case None => disk
    case Some(content) => disk[file := content]
  }

  // The disk after a cert_save action, and its error.
  function Saved(
    path: (string, string) -> string, decode: string -> Option<string>, disk: Disk, a: Action, p: Payload, env: Env)
    : (Disk, Option<SaveError>)
  {
    var archive := Archive(p, decode);
    if !env.mkdir then (disk, Some(NoDirectory))
    else if archive.None? then (disk, Some(BadArchive))
    else Carry(disk, Steps(path, a, p, archive.value), env.faults, 0)
  }

  // One action, and a chain of actions with the number of those that succeeded.
  function Performed(
    path: (string, string) -> string, decode: string -> Option<string>, disk: Disk, a: Action, p: Payload, env: Env)
    : (Disk, bool)
  {
    if a.kind == CERT_SAVE then
      var (after, error) := Saved(path, decode, disk, a, p, env);
      (after, error.None?)
    else (if RunsCommand(a.kind) then env.command(disk) else disk, Known(a.kind) && env.succeeds)
  }

  // These run a program of the machine, which may do anything to the files, also when it fails.
  predicate RunsCommand(kind: string) {
    kind == SERVICE_RESTART || kind == EXEC
  }

  predicate Known(kind: string) {
    kind == CERT_SAVE || RunsCommand(kind) || UsesFortiOS(kind)
  }

  // What an action does to the disk, and whether it succeeds, by its position in the chain.
  type Effect = (Disk, Action, nat) -> (Disk, bool)

  function EffectOf(
    path: (string, string) -> string, decode: string -> Option<string>, p: Payload, env: nat -> Env): Effect
  {
    (disk, a, n: nat) => Performed(path, decode, disk, a, p, env(n))
  }

  function Chain(effect: Effect, disk: Disk, actions: seq<Action>, n: nat): (r: (Disk, nat))
    requires n <= |actions|
    ensures n <= r.1 <= |actions|
    decreases |actions| - n
  {
    if n == |actions| then (disk, n)
    else
      var (next, ok) := effect(disk, actions[n], n);
      if ok then Chain(effect, next, actions, n + 1) else (next, n)
  }

  // ----- the machine the worker runs on

  class Machine {
    const path: (string, string) -> string         // filepath.Join of the cleaned directory and a name
    const decode: string -> Option<string>         // base64
    var disk: Disk
    var ran: seq<Action>                           // the actions started, oldest first

    constructor (path: (string, string) -> string, decode: string -> Option<string>, disk: Disk)
      ensures this.path == path && this.decode == decode && this.disk == disk && ran == []
    {
      this.path, this.decode, this.disk, ran := path, decode, disk, [];
    }

    method WriteFile(file: string, content: string, fault: Option<Option<string>>) returns (ok: bool)
      modifies this`disk
      ensures ok == fault.None?
      ensures disk == if ok then old(disk)[file := content] else AfterFault(old(disk), file, fault.value)
    {
      match fault {
        case None => disk := disk[file := content];
        case Some(None) =>
        case Some(Some(left)) => disk := disk[file := left];
      }
      ok := fault.None?;
    }

    /** The individual files, then the combined ones, each written in turn; the first that lacks its
        content or cannot be written ends the action. */
    method Save(a: Action, p: Payload, env: Env) returns (error: Option<SaveError>)
      modifies this`disk
      ensures (disk, error) == Saved(path, decode, old(disk), a, p, env)
    {
      if !env.mkdir {
        return Some(NoDirectory);
      }
      var raw := p.pkcs12Base64;
      if Blank(raw) {
        raw := p.pkcs12;
      }
      var archive := "";
      if !Blank(raw) {
        var decoded := decode(raw);
        if decoded.None? {
          return Some(BadArchive);
        }
        archive := decoded.value;
      }
      error := SaveAll(a, p, archive, env.faults);
    }

    method SaveAll(a: Action, p: Payload, archive: string, faults: map<nat, Option<string>>)
      returns (error: Option<SaveError>)
      modifies this`disk
      ensures (disk, error) == Carry(old(disk), Steps(path, a, p, archive), faults, 0)
    {
      CarryAppend(
        disk, EntrySteps(path, a.certDir, Entries(a, p, archive)),
        CombinedSteps(path, a.certDir, a.combinedFiles, p), faults, 0);
      var done;
      error, done := SaveEntries(Entries(a, p, archive), a.certDir, faults);
      if error.None? {
        error := SaveCombined(a.combinedFiles, p, a.certDir, faults, done);
      }
    }

    method SaveEntries(entries: seq<Entry>, dir: string, faults: map<nat, Option<string>>)
      returns (error: Option<SaveError>, done: nat)
      modifies this`disk
      ensures (disk, error) == Carry(old(disk), EntrySteps(path, dir, entries), faults, 0)
      ensures error.None? ==> done == |EntrySteps(path, dir, entries)|
    {
      done := 0;
      for k := 0 to |entries|
        invariant Carry(old(disk), EntrySteps(path, dir, entries), faults, 0)
               == Carry(disk, EntrySteps(path, dir, entries[k..]), faults, done)
        invariant done + |EntrySteps(path, dir, entries[k..])| == |EntrySteps(path, dir, entries)|
      {
        var e := entries[k];
        EntryStepsAt(path, dir, entries, k);
        if !Blank(e.name) {
          if e.content == "" {
            return Some(Lacking(e.what)), done;
          }
          var dest := path(dir, e.name);
          var ok := WriteFile(dest, e.content, if done in faults then Some(faults[done]) else None);
          if !ok {
            return Some(NotWritten(dest)), done;
          }
          done := done + 1;
        }
      }
      error := None;
    }

    // One combined file.
    method SaveBlocks(c: CombinedFile, p: Payload, dir: string, fault: Option<Option<string>>)
      returns (error: Option<SaveError>)
      modifies this`disk
      ensures var dest, missing := path(dir, c.filename), Missing(p, c.parts);
              (disk, error)
              == if missing.Some? then (old(disk), Some(Lacking(missing.value)))
                 else if fault.Some? then (AfterFault(old(disk), dest, fault.value), Some(NotWritten(dest)))
                 else (old(disk)[dest := Blocks(p, c.parts)], None)
    {
      var missing, content := Combine(c.parts, p);
      if missing.Some? {
        return Some(Lacking(missing.value));
      }
      var dest := path(dir, c.filename);
      var ok := WriteFile(dest, content, fault);
      error := if ok then None else Some(NotWritten(dest));
    }

    method SaveCombined(
      files: seq<CombinedFile>, p: Payload, dir: string, faults: map<nat, Option<string>>, written: nat)
      returns (error: Option<SaveError>)
      modifies this`disk
      ensures (disk, error) == Carry(old(disk), CombinedSteps(path, dir, files, p), faults, written)
    {
      ghost var outcome := Carry(disk, CombinedSteps(path, dir, files, p), faults, written);
      var n := written;
      for k := 0 to |files|
        invariant n == written + k && outcome == Carry(disk, CombinedSteps(path, dir, files[k..], p), faults, n)
      {
        CarryCombined(disk, path, dir, files, k, p, faults, n);
        error := SaveBlocks(files[k], p, dir, if n in faults then Some(faults[n]) else None);
        if error.Some? {
          return;
        }
        n := n + 1;
      }
      error := None;
    }

    // The dispatch on the type of the action; None for an unknown type.
    method Perform(a: Action, p: Payload, env: Env) returns (ok: Option<bool>)
      modifies this`disk
      ensures ok.Some? <==> Known(a.kind)
      ensures (disk, ok == Some(true)) == Performed(path, decode, old(disk), a, p, env)
    {
      if a.kind == CERT_SAVE {
        var failure := Save(a, p, env);
        ok := Some(failure.None?);
      } else if a.kind == SERVICE_RESTART || a.kind == EXEC {
        disk := env.command(disk);
        ok := Some(env.succeeds);
      } else if UsesFortiOS(a.kind) {
        ok := Some(env.succeeds);
      } else {
        ok := None;
      }
    }

    /** Runs the actions in order until the first that fails. What has run is a prefix of the actions,
        and on a task of an accepted configuration no action is of an unknown type. */
    method Execute(task: Task, p: Payload, env: nat -> Env) returns (error: Option<ExecError>)
      modifies this`disk, this`ran
      ensures error.None? ==>
                ran == old(ran) + task.actions
                && Chain(EffectOf(path, decode, p, env), old(disk), task.actions, 0) == (disk, |task.actions|)
      ensures error.Some? ==>
                var n := error.value.action;
                && n < |task.actions|
                && Chain(EffectOf(path, decode, p, env), old(disk), task.actions, 0) == (disk, n)
                && ran == old(ran) + task.actions[..if error.value.UnknownType? then n else n + 1]
                && (error.value.UnknownType? <==> !Known(task.actions[n].kind))
      ensures ActionsOk(task.actions) ==> error.None? || error.value.ActionFailed?
    {
      ghost var effect := EffectOf(path, decode, p, env);
      ghost var outcome := Chain(effect, disk, task.actions, 0);
      var i := 0;
      while i < |task.actions|
        invariant 0 <= i <= |task.actions|
        invariant ran == old(ran) + task.actions[..i]
        invariant outcome == Chain(effect, disk, task.actions, i)
      {
        var a := task.actions[i];
        ChainAt(effect, disk, task.actions, i);
        assert effect(disk, a, i) == Performed(path, decode, disk, a, p, env(i));
        assert task.actions[..i + 1] == task.actions[..i] + [a];
        var result := Perform(a, p, env(i));
        if result.None? {
          return Some(UnknownType(i));
        }
        ran := ran + [a];
        if !result.value {
          return Some(ActionFailed(i));
        }
        i := i + 1;
      }
      assert task.actions[..i] == task.actions;
      return None;
    }
  }

  lemma ChainAt(effect: Effect, disk: Disk, actions: seq<Action>, n: nat)
    requires n < |actions|
    ensures var (next, ok) := effect(disk, actions[n], n);
            Chain(effect, disk, actions, n) == if ok then Chain(effect, next, actions, n + 1) else (next, n)
  {
  }

  /** The content of a combined file is built part by part. */
  method Combine(parts: seq<string>, p: Payload) returns (missing: Option<string>, content: string)
    ensures missing == Missing(p, parts)
    ensures missing.None? ==> content == Blocks(p, parts)
  {
    content := "";
    for k := 0 to |parts|
      invariant content + Blocks(p, parts[k..]) == Blocks(p, parts)
      invariant Missing(p, parts[k..]) == Missing(p, parts)
    {
      BlocksNext(p, parts, k, content);
      var piece := PieceOf(p, parts[k]);
      if Blank(piece) {
        return Some(parts[k]), content;
      }
      content := content + TrimNewlines(piece);
      content := content + "\n";
    }
    missing := None;
  }

  lemma BlocksNext(p: Payload, parts: seq<string>, k: nat, before: string)
    requires k < |parts|
    ensures before + Blocks(p, parts[k..])
         == before + TrimNewlines(PieceOf(p, parts[k])) + "\n" + Blocks(p, parts[k + 1..])
    ensures Missing(p, parts[k..])
         == if Blank(PieceOf(p, parts[k])) then Some(parts[k]) else Missing(p, parts[k + 1..])
  {
    var piece, rest := TrimNewlines(PieceOf(p, parts[k])), Blocks(p, parts[k + 1..]);
    assert parts[k..][0] == parts[k] && parts[k..][1..] == parts[k + 1..];
    assert before + piece + "\n" + rest == before + (piece + "\n" + rest);
  }

  lemma EntryStepsAt(path: (string, string) -> string, dir: string, entries: seq<Entry>, k: nat)
    requires k < |entries|
    ensures var e := entries[k];
            var now, later := EntrySteps(path, dir, entries[k..]), EntrySteps(path, dir, entries[k + 1..]);
            if Blank(e.name) then now == later
            else now == [if e.content == "" then Lack(e.what) else Put(path(dir, e.name), e.content)] + later
  {
    assert entries[k..][0] == entries[k] && entries[k..][1..] == entries[k + 1..];
  }

  lemma CarryCombined(
    disk: Disk, path: (string, string) -> string, dir: string, files: seq<CombinedFile>, k: nat, p: Payload,
    faults: map<nat, Option<string>>, n: nat)
    requires k < |files|
    ensures var dest, content := path(dir, files[k].filename), Blocks(p, files[k].parts);
            Carry(disk, CombinedSteps(path, dir, files[k..], p), faults, n)
            == if Missing(p, files[k].parts).Some? then (disk, Some(Lacking(Missing(p, files[k].parts).value)))
               else if n in faults then (AfterFault(disk, dest, faults[n]), Some(NotWritten(dest)))
               else Carry(disk[dest := content], CombinedSteps(path, dir, files[k + 1..], p), faults, n + 1)
  {
    var steps := CombinedSteps(path, dir, files[k..], p);
    assert files[k..][0] == files[k] && files[k..][1..] == files[k + 1..];
    assert steps[0] == CombinedStep(path, dir, files[k], p);
    assert steps[1..] == CombinedSteps(path, dir, files[k + 1..], p);
  }

  // ----- what a saved certificate looks like

  /** Steps can be carried out in two goes. */
  lemma {:induction false} CarryAppend(
    disk: Disk, a: seq<Step>, b: seq<Step>, faults: map<nat, Option<string>>, n: nat)
    ensures var (next, error) := Carry(disk, a, faults, n);
            Carry(disk, a + b, faults, n) == if error.None? then Carry(next, b, faults, n + |a|) else (next, error)
    decreases |a|
  {
    if a == [] {
      assert a + b == b;
    } else {
      assert (a + b)[1..] == a[1..] + b;
      if a[0].Put? {
        CarryAppend(disk[a[0].path := a[0].content], a[1..], b, faults, n + 1);
      }
    }
  }

  function FileAt(disk: Disk, file: string): Option<string> {
    if file in disk then Some(disk[file]) else None
  }

  ghost predicate NoStepFor(steps: seq<Step>, file: string) {
    forall k :: 0 <= k < |steps| && steps[k].Put? ==> steps[k].path != file
  }

  /** All steps are carried out if and only if none lacks its content and no write fails. */
  lemma {:induction false} CarriedIff(disk: Disk, steps: seq<Step>, faults: map<nat, Option<string>>, n: nat)
    ensures Carry(disk, steps, faults, n).1.None?
            <==> AllPut(steps) && forall m :: n <= m < n + |steps| ==> m !in faults
    decreases |steps|
  {
    if steps != [] {
      var head, rest := steps[0], steps[1..];
      assert AllPut(steps) <==> head.Put? && AllPut(rest) by {
        assert steps == [head] + rest;
      }
      if head.Put? && n !in faults {
        CarriedIff(disk[head.path := head.content], rest, faults, n + 1);
      }
    }
  }

  predicate AllPut(steps: seq<Step>) {
    forall k :: 0 <= k < |steps| ==> steps[k].Put?
  }

  /** Whether or not they are all carried out, the steps touch only their own files. */
  lemma {:induction false} CarryTouches(
    disk: Disk, steps: seq<Step>, faults: map<nat, Option<string>>, n: nat, file: string)
    requires NoStepFor(steps, file)
    ensures FileAt(Carry(disk, steps, faults, n).0, file) == FileAt(disk, file)
    decreases |steps|
  {
    if steps != [] && steps[0].Put? && n !in faults {
      assert NoStepFor(steps[1..], file);
      CarryTouches(disk[steps[0].path := steps[0].content], steps[1..], faults, n + 1, file);
    }
  }

  /** When they are, each file holds what the last step for it put there. */
  lemma {:induction false} CarryLeaves(disk: Disk, steps: seq<Step>, faults: map<nat, Option<string>>, n: nat, k: nat)
    requires Carry(disk, steps, faults, n).1.None? && k < |steps| && steps[k].Put?
    requires NoStepFor(steps[k + 1..], steps[k].path)
    ensures FileAt(Carry(disk, steps, faults, n).0, steps[k].path) == Some(steps[k].content)
    decreases k
  {
    var next := disk[steps[0].path := steps[0].content];
    if k == 0 {
      CarryTouches(next, steps[1..], faults, n + 1, steps[0].path);
    } else {
      assert steps[1..][k - 1] == steps[k] && steps[1..][k..] == steps[k + 1..];
      CarryLeaves(next, steps[1..], faults, n + 1, k - 1);
    }
  }

  /** A combined file is its listed parts in order. */
  lemma {:induction false} BlocksAppend(p: Payload, a: seq<string>, b: seq<string>)
    ensures Blocks(p, a + b) == Blocks(p, a) + Blocks(p, b)
  {
    if a == [] {
      assert a + b == b;
    } else {
      assert (a + b)[1..] == a[1..] + b;
      BlocksAppend(p, a[1..], b);
    }
  }

  /** The names of the parts mean the pieces of the payload, and a file of one part is that part. */
  lemma PartsArePieces(p: Payload, part: string)
    ensures PieceOf(p, "cert") == p.cert && PieceOf(p, "chain") == p.chain
    ensures PieceOf(p, "fullchain") == p.fullchain && PieceOf(p, "key") == p.privateKey
    ensures Blocks(p, []) == "" && Blocks(p, [part]) == Block(p, part)
  {
    assert [part][1..] == [];
  }

  /** A part of a written file is not blank, and ends in exactly one newline. */
  lemma BlockEndsOnce(p: Payload, part: string)
    requires !Blank(PieceOf(p, part))
    ensures var b := Block(p, part);
            && |b| >= 2 && b[|b| - 1] == '\n' && b[|b| - 2] != '\n' && b[..|b| - 1] <= PieceOf(p, part)
            && forall i :: |b| - 1 <= i < |PieceOf(p, part)| ==> PieceOf(p, part)[i] == '\n'
    ensures !Blank(Block(p, part))
  {
    var piece := PieceOf(p, part);
    TrimNewlinesEnds(piece);
    BlankIffSpaces(piece);
    BlankIffSpaces(Block(p, part));
    var i :| 0 <= i < |piece| && !IsSpace(piece[i]);
    assert i < |TrimNewlines(piece)| && Block(p, part)[i] == piece[i];
  }

  lemma {:induction false} TrimNewlinesEnds(s: string)
    ensures var t := TrimNewlines(s);
            && t <= s && (t == "" || t[|t| - 1] != '\n')
            && forall i :: |t| <= i < |s| ==> s[i] == '\n'
  {
    if s != "" && s[|s| - 1] == '\n' {
      TrimNewlinesEnds(s[..|s| - 1]);
    }
  }

  lemma {:induction false} EntriesAvoid(
    path: (string, string) -> string, dir: string, entries: seq<Entry>, file: string)
    requires forall j :: 0 <= j < |entries| && !Blank(entries[j].name) ==> path(dir, entries[j].name) != file
    ensures NoStepFor(EntrySteps(path, dir, entries), file)
  {
    if entries != [] {
      EntriesAvoid(path, dir, entries[1..], file);
    }
  }

  lemma NoStepForAppend(a: seq<Step>, b: seq<Step>, file: string)
    requires NoStepFor(a, file) && NoStepFor(b, file)
    ensures NoStepFor(a + b, file)
  {
  }

  // An individual file holds its content, if nothing later goes to the same file.
  lemma {:induction false} EntryIsSaved(
    path: (string, string) -> string, dir: string, entries: seq<Entry>, k: nat, rest: seq<Step>,
    disk: Disk, faults: map<nat, Option<string>>, n: nat)
    requires k < |entries| && !Blank(entries[k].name)
    requires Carry(disk, EntrySteps(path, dir, entries) + rest, faults, n).1.None?
    requires forall j :: k < j < |entries| && !Blank(entries[j].name) ==>
               path(dir, entries[j].name) != path(dir, entries[k].name)
    requires NoStepFor(rest, path(dir, entries[k].name))
    ensures entries[k].content != ""
    ensures FileAt(Carry(disk, EntrySteps(path, dir, entries) + rest, faults, n).0, path(dir, entries[k].name))
         == Some(entries[k].content)
    decreases k
  {
    var steps, later := EntrySteps(path, dir, entries) + rest, EntrySteps(path, dir, entries[1..]) + rest;
    EntryStepsAt(path, dir, entries, 0);
    assert entries[0..] == entries;
    var e := entries[0];
    if Blank(e.name) {
      assert steps == later;
      EntryIsSaved(path, dir, entries[1..], k - 1, rest, disk, faults, n);
    } else {
      assert steps[0] == (if e.content == "" then Lack(e.what) else Put(path(dir, e.name), e.content));
      assert steps[1..] == later;
      var next := disk[path(dir, e.name) := e.content];
      if k == 0 {
        EntriesAvoid(path, dir, entries[1..], path(dir, e.name));
        NoStepForAppend(EntrySteps(path, dir, entries[1..]), rest, path(dir, e.name));
        CarryTouches(next, later, faults, n + 1, path(dir, e.name));
      } else {
        EntryIsSaved(path, dir, entries[1..], k - 1, rest, next, faults, n + 1);
      }
    }
  }

  function Names(a: Action): seq<string> {
    [a.certFile, a.chainFile, a.fullchainFile, a.keyFile, a.pkcs12File]
    + seq(|a.combinedFiles|, k requires 0 <= k < |a.combinedFiles| => a.combinedFiles[k].filename)
  }

  /** No two names of the action lead to one file. */
  ghost predicate DistinctFiles(path: (string, string) -> string, a: Action) {
    forall i, j :: 0 <= i < j < |Names(a)| && !Blank(Names(a)[i]) && !Blank(Names(a)[j]) ==>
      path(a.certDir, Names(a)[i]) != path(a.certDir, Names(a)[j])
  }

  lemma CombinedAvoids(path: (string, string) -> string, a: Action, p: Payload, k: nat)
    requires DistinctFiles(path, a) && k < 5 && !Blank(Names(a)[k])
    requires forall c :: c in a.combinedFiles ==> !Blank(c.filename)
    ensures NoStepFor(CombinedSteps(path, a.certDir, a.combinedFiles, p), path(a.certDir, Names(a)[k]))
  {
    var combined := CombinedSteps(path, a.certDir, a.combinedFiles, p);
    CombinedStepIs(path, a.certDir, a.combinedFiles, p);
    forall m | 0 <= m < |combined| && combined[m].Put?
      ensures combined[m].path != path(a.certDir, Names(a)[k])
    {
      assert combined[m] == CombinedStep(path, a.certDir, a.combinedFiles[m], p);
      assert Names(a)[5 + m] == a.combinedFiles[m].filename;
    }
  }

  lemma EntryOfSaved(
    path: (string, string) -> string, decode: string -> Option<string>, disk: Disk, a: Action, p: Payload,
    env: Env, k: nat)
    requires Saved(path, decode, disk, a, p, env).1.None? && DistinctFiles(path, a)
    requires forall c :: c in a.combinedFiles ==> !Blank(c.filename)
    requires k < 5 && !Blank(Names(a)[k])
    ensures var e := Entries(a, p, Archive(p, decode).value)[k];
            && e.name == Names(a)[k] && e.content != ""
            && FileAt(Saved(path, decode, disk, a, p, env).0, path(a.certDir, e.name)) == Some(e.content)
  {
    var entries := Entries(a, p, Archive(p, decode).value);
    var combined := CombinedSteps(path, a.certDir, a.combinedFiles, p);
    assert forall j :: 0 <= j < 5 ==> entries[j].name == Names(a)[j];
    CombinedAvoids(path, a, p, k);
    EntryIsSaved(path, a.certDir, entries, k, combined, disk, env.faults, 0);
  }

  /** After a successful save to different files, every named file holds its own piece of the payload. */
  lemma FilesAreSaved(
    path: (string, string) -> string, decode: string -> Option<string>, disk: Disk, a: Action, p: Payload, env: Env)
    requires Saved(path, decode, disk, a, p, env).1.None? && DistinctFiles(path, a)
    requires forall c :: c in a.combinedFiles ==> !Blank(c.filename)
    ensures var after := Saved(path, decode, disk, a, p, env).0;
            && (!Blank(a.certFile) ==> p.cert != "" && FileAt(after, path(a.certDir, a.certFile)) == Some(p.cert))
            && (!Blank(a.chainFile) ==> p.chain != "" && FileAt(after, path(a.certDir, a.chainFile)) == Some(p.chain))
            && (!Blank(a.fullchainFile) ==>
                  p.fullchain != "" && FileAt(after, path(a.certDir, a.fullchainFile)) == Some(p.fullchain))
            && (!Blank(a.keyFile) ==>
                  p.privateKey != "" && FileAt(after, path(a.certDir, a.keyFile)) == Some(p.privateKey))
            && (!Blank(a.pkcs12File) ==>
                  var archive := if !Blank(p.pkcs12Base64) then decode(p.pkcs12Base64) else decode(p.pkcs12);
                  && (!Blank(p.pkcs12Base64) || !Blank(p.pkcs12))
                  && archive.Some? && archive.value != ""
                  && FileAt(after, path(a.certDir, a.pkcs12File)) == archive)
  {
    forall k | 0 <= k < 5 && !Blank(Names(a)[k])
      ensures var e := Entries(a, p, Archive(p, decode).value)[k];
              && e.name == Names(a)[k] && e.content != ""
              && FileAt(Saved(path, decode, disk, a, p, env).0, path(a.certDir, e.name)) == Some(e.content)
    {
      EntryOfSaved(path, decode, disk, a, p, env, k);
    }
    var names := Names(a);
    assert names[0] == a.certFile && names[1] == a.chainFile && names[2] == a.fullchainFile;
    assert names[3] == a.keyFile && names[4] == a.pkcs12File;
  }

  lemma {:induction false} EntryStepsAppend(
    path: (string, string) -> string, dir: string, a: seq<Entry>, b: seq<Entry>)
    ensures EntrySteps(path, dir, a + b) == EntrySteps(path, dir, a) + EntrySteps(path, dir, b)
  {
    if a == [] {
      assert a + b == b;
    } else {
      EntryStepsAppend(path, dir, a[1..], b);
      assert (a + b)[0] == a[0] && (a + b)[1..] == a[1..] + b;
      var e := a[0];
      var head := if Blank(e.name) then []
                  else if e.content == "" then [Lack(e.what)] else [Put(path(dir, e.name), e.content)];
      var rest, other := EntrySteps(path, dir, a[1..]), EntrySteps(path, dir, b);
      assert head + (rest + other) == head + rest + other;
    }
  }

  lemma {:induction false} EntriesWithContent(path: (string, string) -> string, dir: string, entries: seq<Entry>)
    requires forall j :: 0 <= j < |entries| ==> Blank(entries[j].name) || entries[j].content != ""
    ensures AllPut(EntrySteps(path, dir, entries))
  {
    if entries != [] {
      EntriesWithContent(path, dir, entries[1..]);
    }
  }

  /** The pieces are looked for in this order: cert, chain, fullchain, private_key, pkcs12. When writing does not
      fail, the first that is to be saved and missing is the one reported, whatever comes behind it, and no
      file but those before it has been touched. */
  lemma FirstMissingIsReported(
    path: (string, string) -> string, decode: string -> Option<string>, disk: Disk, a: Action, p: Payload,
    env: Env, k: nat)
    requires env.mkdir && env.faults == map[] && Archive(p, decode).Some? && k < 5
    requires var names := [a.certFile, a.chainFile, a.fullchainFile, a.keyFile, a.pkcs12File];
             var pieces := [p.cert, p.chain, p.fullchain, p.privateKey, Archive(p, decode).value];
             !Blank(names[k]) && pieces[k] == "" && forall j :: 0 <= j < k ==> Blank(names[j]) || pieces[j] != ""
    ensures var names := [a.certFile, a.chainFile, a.fullchainFile, a.keyFile, a.pkcs12File];
            var (after, error) := Saved(path, decode, disk, a, p, env);
            && error == Some(Lacking(["cert", "chain", "fullchain", "private_key", "pkcs12"][k]))
            && forall file :: (forall j :: 0 <= j < k && !Blank(names[j]) ==> path(a.certDir, names[j]) != file) ==>
                 FileAt(after, file) == FileAt(disk, file)
  {
    var entries := Entries(a, p, Archive(p, decode).value);
    var names := [a.certFile, a.chainFile, a.fullchainFile, a.keyFile, a.pkcs12File];
    assert forall j :: 0 <= j < 5 ==> entries[j].name == names[j];
    FirstLackEnds(path, a.certDir, entries, CombinedSteps(path, a.certDir, a.combinedFiles, p), disk, k);
  }

  lemma FirstLackEnds(
    path: (string, string) -> string, dir: string, entries: seq<Entry>, rest: seq<Step>, disk: Disk, k: nat)
    requires k < |entries| && !Blank(entries[k].name) && entries[k].content == ""
    requires forall j :: 0 <= j < k ==> Blank(entries[j].name) || entries[j].content != ""
    ensures var (after, error) := Carry(disk, EntrySteps(path, dir, entries) + rest, map[], 0);
            && error == Some(Lacking(entries[k].what))
            && forall file ::
                 (forall j :: 0 <= j < k && !Blank(entries[j].name) ==> path(dir, entries[j].name) != file) ==>
                   FileAt(after, file) == FileAt(disk, file)
  {
    var front, back := entries[..k], entries[k..];
    var steps, later := EntrySteps(path, dir, front), EntrySteps(path, dir, back) + rest;
    assert EntrySteps(path, dir, entries) + rest == steps + later by {
      assert entries == front + back;
      EntryStepsAppend(path, dir, front, back);
    }
    EntriesWithContent(path, dir, front);
    CarriedIff(disk, steps, map[], 0);
    CarryAppend(disk, steps, later, map[], 0);
    assert later[0] == Lack(entries[k].what);
    forall file | forall j :: 0 <= j < k && !Blank(entries[j].name) ==> path(dir, entries[j].name) != file
      ensures FileAt(Carry(disk, steps, map[], 0).0, file) == FileAt(disk, file)
    {
      EntriesAvoid(path, dir, front, file);
      CarryTouches(disk, steps, map[], 0, file);
    }
  }

  /** Actions other than cert_save write no certificate file: a command or a restarted service may do anything
      to the files, the FortiOS actions nothing; they succeed as their environment says. */
  lemma OtherActionsAreDelegated(
    path: (string, string) -> string, decode: string -> Option<string>, disk: Disk, a: Action, p: Payload, env: Env)
    ensures a.kind == "exec" || a.kind == "service_restart" ==>
              Performed(path, decode, disk, a, p, env) == (env.command(disk), env.succeeds)
    ensures a.kind in {"fortios_upload", "fortios_profile_cert_replace", "fortios_admin_server_cert_update"} ==>
              Performed(path, decode, disk, a, p, env) == (disk, env.succeeds)
  {
  }

  /** A combined file that is written holds its parts in order, and nothing it holds is blank. */
  lemma CombinedIsSaved(
    path: (string, string) -> string, decode: string -> Option<string>, disk: Disk, a: Action, p: Payload,
    env: Env, k: nat)
    requires Saved(path, decode, disk, a, p, env).1.None? && k < |a.combinedFiles|
    requires forall m :: k < m < |a.combinedFiles| ==>
               path(a.certDir, a.combinedFiles[m].filename) != path(a.certDir, a.combinedFiles[k].filename)
    ensures var c := a.combinedFiles[k];
            && (forall part :: part in c.parts ==> !Blank(PieceOf(p, part)))
            && FileAt(Saved(path, decode, disk, a, p, env).0, path(a.certDir, c.filename)) == Some(Blocks(p, c.parts))
  {
    var archive := Archive(p, decode).value;
    var entries, combined := EntrySteps(path, a.certDir, Entries(a, p, archive)),
                             CombinedSteps(path, a.certDir, a.combinedFiles, p);
    var (next, _) := Carry(disk, entries, env.faults, 0);
    CarryAppend(disk, entries, combined, env.faults, 0);
    CombinedStepIs(path, a.certDir, a.combinedFiles, p);
    CarriedIff(next, combined, env.faults, |entries|);
    assert combined[k] == CombinedStep(path, a.certDir, a.combinedFiles[k], p);
    var later := combined[k + 1..];
    forall m | 0 <= m < |later| && later[m].Put?
      ensures later[m].path != combined[k].path
    {
      assert later[m] == CombinedStep(path, a.certDir, a.combinedFiles[k + 1 + m], p);
    }
    CarryLeaves(next, combined, env.faults, |entries|, k);
    MissingIff(p, a.combinedFiles[k].parts);
  }

  lemma {:induction false} MissingIff(p: Payload, parts: seq<string>)
    ensures Missing(p, parts).None? <==> forall part :: part in parts ==> !Blank(PieceOf(p, part))
  {
    if parts != [] && !Blank(PieceOf(p, parts[0])) {
      MissingIff(p, parts[1..]);
      assert parts == [parts[0]] + parts[1..];
    }
  }

  lemma {:induction false} CombinedStepIs(
    path: (string, string) -> string, dir: string, files: seq<CombinedFile>, p: Payload)
    ensures var steps := CombinedSteps(path, dir, files, p);
            |steps| == |files| && forall k :: 0 <= k < |files| ==> steps[k] == CombinedStep(path, dir, files[k], p)
  {
    if files != [] {
      CombinedStepIs(path, dir, files[1..], p);
    }
  }

  /** A cert_save action whose files are all blank names writes nothing and still succeeds. Validation
      accepts it, as it asks only that some name be non-empty. */
  lemma WritesNothingIff(
    path: (string, string) -> string, decode: string -> Option<string>, disk: Disk, a: Action, p: Payload, env: Env)
    requires ActionOk(a) && a.kind == CERT_SAVE && env.mkdir && Archive(p, decode).Some?
    ensures Steps(path, a, p, Archive(p, decode).value) == []
            <==> Blank(a.certFile) && Blank(a.chainFile) && Blank(a.fullchainFile) && Blank(a.keyFile)
                 && Blank(a.pkcs12File) && a.combinedFiles == []
    ensures Steps(path, a, p, Archive(p, decode).value) == [] ==> Saved(path, decode, disk, a, p, env) == (disk, None)
  {
    var archive := Archive(p, decode).value;
    var entries := Entries(a, p, archive);
    NoStepsIff(path, a.certDir, entries);
    assert entries[0].name == a.certFile && entries[1].name == a.chainFile && entries[2].name == a.fullchainFile;
    assert entries[3].name == a.keyFile && entries[4].name == a.pkcs12File;
    assert CombinedSteps(path, a.certDir, a.combinedFiles, p) == [] <==> a.combinedFiles == [];
  }

  lemma {:induction false} NoStepsIff(path: (string, string) -> string, dir: string, entries: seq<Entry>)
    ensures EntrySteps(path, dir, entries) == [] <==> forall k :: 0 <= k < |entries| ==> Blank(entries[k].name)
  {
    if entries != [] {
      NoStepsIff(path, dir, entries[1..]);
      assert entries == [entries[0]] + entries[1..];
    }
  }

  // ----- chains of actions

  /** Running one list of actions after another is running the two one after the other, the second only
      if all of the first succeeded. */
  lemma {:induction false} ChainAppend(effect: Effect, disk: Disk, a: seq<Action>, b: seq<Action>, n: nat)
    requires n <= |a|
    ensures var (next, k) := Chain(effect, disk, a, n);
            Chain(effect, disk, a + b, n) == if k < |a| then (next, k) else Chain(effect, next, a + b, |a|)
    decreases |a| - n
  {
    if n < |a| {
      assert (a + b)[n] == a[n];
      var (next, ok) := effect(disk, a[n], n);
      if ok {
        ChainAppend(effect, next, a, b, n + 1);
      }
    }
  }

  /** The actions that succeeded come first, and the one the chain ended at is the first that failed. */
  lemma {:induction false} ChainEndsAtFailure(effect: Effect, disk: Disk, actions: seq<Action>, n: nat)
    requires n <= |actions|
    ensures var (last, m) := Chain(effect, disk, actions, n);
            var (before, k) := Chain(effect, disk, actions[..m], n);
            k == m && (m < |actions| ==> effect(before, actions[m], m) == (last, false))
    decreases |actions| - n
  {
    var (last, m) := Chain(effect, disk, actions, n);
    if n < m {
      assert actions[..m][n] == actions[n];
      ChainEndsAtFailure(effect, effect(disk, actions[n], n).0, actions, n + 1);
    }
  }
}
