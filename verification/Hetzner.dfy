/** The DNS record sets at Hetzner and the calls that change them (backend/pkg/dns/hetzner.go). */
module Hetzner {
  import opened Common

  datatype RrType = A | TXT

  datatype Key = Key(zoneId: int, name: string, kind: RrType)

  datatype RrSet = RrSet(values: seq<string>, ttl: int)

  type RrSets = map<Key, RrSet>

  // Which of the two requests of an upsert or a delete fail, and whether a failed write took effect all
  // the same, as one that timed out may have.
  datatype Faults = Faults(get: bool, write: bool, applied: bool)

  const NO_FAULTS := Faults(false, false, false)

  predicate Works(f: Faults) {
    !f.get && !f.write
  }

  // The write reached the record sets.
  predicate Writes(f: Faults) {
    !f.get && (!f.write || f.applied)
  }

  /** After an upsert: an existing set keeps its TTL, only its values are replaced. */
  function Upserted(sets: RrSets, key: Key, values: seq<string>, ttl: int, f: Faults): RrSets {
    if !Writes(f) then sets
    else sets[key := RrSet(values, if key in sets then sets[key].ttl else ttl)]
  }

  // Deleting a set that is not there succeeds without the second request.
  predicate DeleteWorks(sets: RrSets, key: Key, f: Faults) {
    !f.get && (key in sets ==> !f.write)
  }

  function Deleted(sets: RrSets, key: Key, f: Faults): RrSets {
    if Writes(f) then sets - {key} else sets
  }

  function QuoteTxtValue(v: string): string {
    if |v| >= 2 && v[0] == '"' && v[|v| - 1] == '"' then v else "\"" + v + "\""
  }

  function QuoteAll(values: seq<string>): (r: seq<string>)
    ensures |r| == |values|
  {
    seq(|values|, i requires 0 <= i < |values| => QuoteTxtValue(values[i]))
  }

  /** The quoted value always is quoted, quoting again changes nothing, and values that hold no quote are
      told apart. */
  lemma QuotingIsIdempotent(v: string, w: string)
    ensures var q := QuoteTxtValue(v); |q| >= 2 && q[0] == '"' && q[|q| - 1] == '"' && QuoteTxtValue(q) == q
    ensures var q := QuoteTxtValue(v);
            if |v| >= 2 && v[0] == '"' && v[|v| - 1] == '"' then q == v
            else |q| == |v| + 2 && forall i :: 0 <= i < |v| ==> q[i + 1] == v[i]
    ensures '"' !in v && '"' !in w && QuoteTxtValue(v) == QuoteTxtValue(w) ==> v == w
  {
    if '"' !in v && '"' !in w && QuoteTxtValue(v) == QuoteTxtValue(w) {
      assert v == QuoteTxtValue(v)[1..|v| + 1];
      assert w == QuoteTxtValue(w)[1..|w| + 1];
    }
  }

  /** The zone API client, with the record sets behind it. */
  class Client {
    var sets: RrSets

    constructor (sets: RrSets)
      ensures this.sets == sets
    {
      this.sets := sets;
    }

    // GetRRSetByNameAndType
    method Get(key: Key, fails: bool) returns (r: Result<Option<RrSet>, ()>)
      ensures r == if fails then Err(()) else Ok(if key in sets then Some(sets[key]) else None)
    {
      r := if fails then Err(()) else Ok(if key in sets then Some(sets[key]) else None);
    }

    method CreateRRSet(key: Key, rrset: RrSet, f: Faults) returns (ok: bool)
      modifies this
      ensures ok == !f.write
      ensures sets == if f.write && !f.applied then old(sets) else old(sets)[key := rrset]
    {
      ok := !f.write;
      if ok || f.applied {
        sets := sets[key := rrset];
      }
    }

    method SetRRSetRecords(key: Key, values: seq<string>, f: Faults) returns (ok: bool)
      requires key in sets
      modifies this
      ensures ok == !f.write
      ensures sets == if f.write && !f.applied then old(sets)
                      else old(sets)[key := old(sets)[key].(values := values)]
    {
      ok := !f.write;
      if ok || f.applied {
        sets := sets[key := sets[key].(values := values)];
      }
    }

    method DeleteRRSet(key: Key, f: Faults) returns (ok: bool)
      modifies this
      ensures ok == !f.write
      ensures sets == if f.write && !f.applied then old(sets) else old(sets) - {key}
    {
      ok := !f.write;
      if ok || f.applied {
        sets := sets - {key};
      }
    }

    // upsertResourceRecordSet and, after quoting, upsertTXTRecord
    method Upsert(key: Key, values: seq<string>, ttl: int, f: Faults) returns (ok: bool)
      modifies this
      ensures ok <==> Works(f)
      ensures sets == Upserted(old(sets), key, values, ttl, f)
      ensures ok <==> !f.get && !f.write
      ensures ok || (!f.get && f.applied) ==>
                && key in sets && sets[key].values == values
                && sets[key].ttl == (if key in old(sets) then old(sets)[key].ttl else ttl)
                && forall k :: k != key ==> (k in sets <==> k in old(sets)) && (k in sets ==> sets[k] == old(sets)[k])
      ensures !ok && (f.get || !f.applied) ==> sets == old(sets)
    {
      var found := Get(key, f.get);
      if found.Err? {
        return false;
      }
      if found.value.None? {
        ok := CreateRRSet(key, RrSet(values, ttl), f);
        return;
      }
      ok := SetRRSetRecords(key, values, f);
    }

    method UpsertTxtRecord(zoneId: int, name: string, values: seq<string>, ttl: int, f: Faults) returns (ok: bool)
      modifies this
      ensures ok <==> Works(f)
      ensures sets == Upserted(old(sets), Key(zoneId, name, TXT), QuoteAll(values), ttl, f)
    {
      var records: seq<string> := [];
      var i := 0;
      while i < |values|
        invariant i <= |values| && records == QuoteAll(values)[..i]
      {
        records := records + [QuoteTxtValue(values[i])];
        i := i + 1;
      }
      assert records == QuoteAll(values);
      ok := Upsert(Key(zoneId, name, TXT), records, ttl, f);
    }

    method DeleteTxtRecord(zoneId: int, name: string, f: Faults) returns (ok: bool)
      modifies this
      ensures ok <==> DeleteWorks(old(sets), Key(zoneId, name, TXT), f)
      ensures Key(zoneId, name, TXT) !in old(sets) ==> sets == old(sets) && (ok <==> !f.get)
      ensures Key(zoneId, name, TXT) in old(sets) ==>
                (ok <==> !f.get && !f.write) && (ok ==> sets == old(sets) - {Key(zoneId, name, TXT)})
      ensures sets == Deleted(old(sets), Key(zoneId, name, TXT), f)
    {
      var key := Key(zoneId, name, TXT);
      var found := Get(key, f.get);
      if found.Err? {
        return false;
      }
      if found.value.None? {
        assert sets - {key} == sets;
        return true;
      }
      ok := DeleteRRSet(key, f);
    }
  }
}
