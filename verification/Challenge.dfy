/** Publishing DNS-01 challenges (backend/pkg/dns/acme.go; section 8.4 of RFC 8555). */
module Challenge {
  import opened Common
  import opened Hetzner

  // ----- names

  /** relativeName: the name of a challenge below the zone, "@" for the zone itself. */
  function RelativeName(fqdn: string, zone: string): string {
    var f, z := TrimSuffix(fqdn, "."), TrimSuffix(zone, ".");
    if f == z then "@"
    else if HasSuffix(f, "." + z) then TrimSuffix(f, "." + z)
    else f
  }

  // Puts the zone back behind a relative name.
  function Attach(name: string, zone: string): string {
    var z := TrimSuffix(zone, ".");
    if name == "@" then z else name + "." + z
  }

  predicate IsUnder(fqdn: string, zone: string) {
    var f, z := TrimSuffix(fqdn, "."), TrimSuffix(zone, ".");
    f == z || HasSuffix(f, "." + z)
  }

  /** For a name in the zone, putting the zone back undoes relativeName exactly when the name is not
      written as "@" below the zone. */
  lemma AttachInvertsIff(fqdn: string, zone: string)
    requires IsUnder(fqdn, zone)
    ensures Attach(RelativeName(fqdn, zone), zone) == TrimSuffix(fqdn, ".")
            <==> TrimSuffix(fqdn, ".") != "@." + TrimSuffix(zone, ".")
  {
    var f, z := TrimSuffix(fqdn, "."), TrimSuffix(zone, ".");
    if f != z {
      var name := RelativeName(fqdn, zone);
      assert f == name + ("." + z);
      assert "@." + z == "@" + ("." + z);
      if f == "@." + z {
        assert name == "@";
        assert |f| == |z| + 2;
      }
    } else {
      assert |"@." + z| == |z| + 2;
    }
  }

  /** A name outside the zone stays as it is, but for a final dot. */
  lemma OthersStayWhole(fqdn: string, zone: string)
    ensures !IsUnder(fqdn, zone) ==> RelativeName(fqdn, zone) == TrimSuffix(fqdn, ".")
    ensures TrimSuffix(fqdn, ".") == if HasSuffix(fqdn, ".") then fqdn[..|fqdn| - 1] else fqdn
  {
  }

  /** So two names in the zone share a relative name only if they are the same name, or one is the zone
      and the other is "@" below it. */
  lemma RelativeNamesCollideIff(a: string, b: string, zone: string)
    requires IsUnder(a, zone) && IsUnder(b, zone)
    ensures var x, y, z := TrimSuffix(a, "."), TrimSuffix(b, "."), TrimSuffix(zone, ".");
            RelativeName(a, zone) == RelativeName(b, zone)
            <==> x == y || (x == z && y == "@." + z) || (y == z && x == "@." + z)
  {
    var x, y, z := TrimSuffix(a, "."), TrimSuffix(b, "."), TrimSuffix(zone, ".");
    AttachInvertsIff(a, zone);
    AttachInvertsIff(b, zone);
    AtBelowZone(z);
    if x == "@." + z {
      assert RelativeName(a, zone) == "@";
    }
    if y == "@." + z {
      assert RelativeName(b, zone) == "@";
    }
  }

  lemma AtBelowZone(z: string)
    ensures TrimSuffix("@." + z, "." + z) == "@" && HasSuffix("@." + z, "." + z)
  {
    assert "@." + z == "@" + ("." + z);
  }

  // ----- Present and CleanUp

  // The values map of the provider and the record sets at Hetzner.
  datatype State = State(values: map<string, seq<string>>, sets: RrSets)

  function Values(s: State, name: string): seq<string> {
    if name in s.values then s.values[name] else []
  }

  const CHALLENGE_TTL := 60

  function Presented(s: State, zoneId: int, name: string, value: string, f: Faults): State {
    var values := Values(s, name) + [value];
    State(s.values[name := values], Upserted(s.sets, Key(zoneId, name, TXT), QuoteAll(values), CHALLENGE_TTL, f))
  }

  function CleanedUp(s: State, zoneId: int, name: string, f: Faults): State {
    State(s.values - {name}, Deleted(s.sets, Key(zoneId, name, TXT), f))
  }

  /** The challenge provider of one order. */
  class Provider {
    const client: Client
    const zoneId: int
    const zone: string
    var values: map<string, seq<string>>

    ghost function Now(): State
      reads this, client
    {
      State(values, client.sets)
    }

    constructor (client: Client, zoneId: int, zone: string)
      ensures this.client == client && this.zoneId == zoneId && this.zone == zone && values == map[]
    {
      this.client, this.zoneId, this.zone := client, zoneId, zone;
      values := map[];
    }

    // The value is kept even when publishing it fails.
    method Present(fqdn: string, value: string, f: Faults) returns (ok: bool)
      modifies this, client
      ensures Now() == Presented(old(Now()), zoneId, RelativeName(fqdn, zone), value, f)
      ensures ok <==> Works(f)
    {
      var name := RelativeName(fqdn, zone);
      values := values[name := (if name in values then values[name] else []) + [value]];
      ok := client.UpsertTxtRecord(zoneId, name, values[name], CHALLENGE_TTL, f);
    }

    method CleanUp(fqdn: string, f: Faults) returns (ok: bool)
      modifies this, client
      ensures Now() == CleanedUp(old(Now()), zoneId, RelativeName(fqdn, zone), f)
      ensures ok <==> DeleteWorks(old(client.sets), Key(zoneId, RelativeName(fqdn, zone), TXT), f)
    {
      var name := RelativeName(fqdn, zone);
      values := values - {name};
      ok := client.DeleteTxtRecord(zoneId, name, f);
    }
  }

  // ----- runs

  // A call on a relative name.
  datatype Op =
    | Present(name: string, value: string, f: Faults)
    | CleanUp(name: string, f: Faults)

  function Apply(s: State, zoneId: int, op: Op): State {
    match op
    case Present(name, value, f) => Presented(s, zoneId, name, value, f)
    case CleanUp(name, f) => CleanedUp(s, zoneId, name, f)
  }

  function After(s: State, zoneId: int, ops: seq<Op>): State {
    if ops == [] then s
    else Apply(After(s, zoneId, ops[..|ops| - 1]), zoneId, ops[|ops| - 1])
  }

  /** The values presented for the name since its last clean-up. */
  function Outstanding(ops: seq<Op>, name: string): seq<string> {
    if ops == [] then []
    else
      var last := ops[|ops| - 1];
      if last.name != name then Outstanding(ops[..|ops| - 1], name)
      else if last.CleanUp? then []
      else Outstanding(ops[..|ops| - 1], name) + [last.value]
  }

  predicate Touched(ops: seq<Op>, name: string) {
    ops != [] && (ops[|ops| - 1].name == name || Touched(ops[..|ops| - 1], name))
  }

  // The last call on the name succeeded.
  predicate LastWorked(s: State, zoneId: int, ops: seq<Op>, name: string) {
    ops != [] &&
    var front, last := ops[..|ops| - 1], ops[|ops| - 1];
    if last.name != name then LastWorked(s, zoneId, front, name)
    else if last.CleanUp? then DeleteWorks(After(s, zoneId, front).sets, Key(zoneId, name, TXT), last.f)
    else Works(last.f)
  }

  // The values as they are published: each in quotes, and only once.
  ghost predicate Publishes(published: seq<string>, values: seq<string>) {
    |published| == |values|
    && forall i :: 0 <= i < |values| ==>
         var v := values[i];
         if |v| >= 2 && v[0] == '"' && v[|v| - 1] == '"' then published[i] == v else published[i] == "\"" + v + "\""
  }

  /** Publication. After any sequence of calls of a new provider, failed ones included, the TXT set of a
      name whose last call succeeded holds exactly the quoted values presented since its last clean-up,
      in order, and is absent when there are none; every other record set is as it was. */
  lemma {:induction false} PublishesOutstanding(sets: RrSets, zoneId: int, ops: seq<Op>, name: string)
    ensures var s0, s := State(map[], sets), After(State(map[], sets), zoneId, ops);
            && Values(s, name) == Outstanding(ops, name)
            && (LastWorked(s0, zoneId, ops, name) ==>
                  var key := Key(zoneId, name, TXT);
                  if Outstanding(ops, name) == [] then key !in s.sets
                  else key in s.sets && s.sets[key].values == QuoteAll(Outstanding(ops, name))
                       && Publishes(s.sets[key].values, Outstanding(ops, name)))
            && (Key(zoneId, name, TXT) !in sets && Key(zoneId, name, TXT) in s.sets ==>
                  s.sets[Key(zoneId, name, TXT)].ttl == 60)
  {
    if ops != [] {
      PublishesOutstanding(sets, zoneId, ops[..|ops| - 1], name);
    }
  }

  lemma {:induction false} OthersUntouched(s: State, zoneId: int, ops: seq<Op>, key: Key)
    requires key.zoneId != zoneId || key.kind != TXT || !Touched(ops, key.name)
    ensures var after := After(s, zoneId, ops);
            (key in after.sets <==> key in s.sets) && (key in s.sets ==> after.sets[key] == s.sets[key])
  {
    if ops != [] {
      OthersUntouched(s, zoneId, ops[..|ops| - 1], key);
    }
  }

  /** A clean-up that succeeds leaves no challenge set for its name, whatever was presented or failed before. */
  lemma CleanedUpLeavesNothing(sets: RrSets, zoneId: int, ops: seq<Op>, name: string, f: Faults)
    requires var s := After(State(map[], sets), zoneId, ops); DeleteWorks(s.sets, Key(zoneId, name, TXT), f)
    ensures Key(zoneId, name, TXT) !in After(State(map[], sets), zoneId, ops + [CleanUp(name, f)]).sets
  {
    var all := ops + [CleanUp(name, f)];
    assert all[..|all| - 1] == ops;
  }
}
