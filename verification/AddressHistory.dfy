/** The addresses table and UpdateAddress (backend/pkg/dns/address.go,
    backend/pkg/database/schema/addresses.sql.go). Each statement commits on its own. */
module AddressHistory {
  import opened Common

  // None stands for NULL.
  datatype Row = Row(ipv4: Option<string>, ipv6: Option<string>, current: bool)

  datatype Table = Table(rows: map<nat, Row>, nextId: nat)

  // A resolved pair; the empty string stands for a family without an answer.
  datatype Pair = Pair(ipv4: string, ipv6: string)

  // Which statements the database refuses.
  datatype Faults = Faults(get: bool, reset: bool, create: bool, getAgain: bool)

  const NO_FAULTS := Faults(false, false, false, false)

  datatype Error = NotResolved | NotSaved

  // sql.NullString of a possibly empty string, and its String field.
  function Nullable(s: string): Option<string> {
    if s == "" then None else Some(s)
  }

  function Text(s: Option<string>): string {
    if s.Some? then s.value else ""
  }

  predicate Carries(row: Row, pair: Pair) {
    Text(row.ipv4) == pair.ipv4 && Text(row.ipv6) == pair.ipv6
  }

  ghost predicate IsCurrent(t: Table, id: nat) {
    id in t.rows && t.rows[id].current
  }

  ghost predicate HasCurrent(t: Table) {
    exists id :: IsCurrent(t, id)
  }

  // UNIQUE KEY (ipv4, ipv6): a NULL never collides.
  ghost predicate Collides(t: Table, pair: Pair) {
    pair.ipv4 != "" && pair.ipv6 != "" && exists id :: id in t.rows && Carries(t.rows[id], pair)
  }

  // ----- the statements

  // GetCurrentAddress: any current row.
  ghost function CurrentRow(t: Table): (id: nat)
    requires HasCurrent(t)
    ensures IsCurrent(t, id)
  {
    var id :| IsCurrent(t, id);
    id
  }

  function Reset(t: Table): Table {
    t.(rows := map id | id in t.rows :: t.rows[id].(current := false))
  }

  function Create(t: Table, pair: Pair): Table {
    Table(t.rows[t.nextId := Row(Nullable(pair.ipv4), Nullable(pair.ipv6), true)], t.nextId + 1)
  }

  // ----- UpdateAddress

  /** The table and the outcome of one call, given what the resolvers said. */
  ghost function Updated(t: Table, pair: Pair, faults: Faults): (Table, Result<Row, Error>) {
    if pair.ipv4 == "" && pair.ipv6 == "" then (t, Err(NotResolved))
    else if faults.get then (t, Err(NotSaved))
    else if HasCurrent(t) && Carries(t.rows[CurrentRow(t)], pair) then (t, Ok(t.rows[CurrentRow(t)]))
    else if faults.reset then (t, Err(NotSaved))
    else if faults.create || Collides(t, pair) then (Reset(t), Err(NotSaved))
    else
      var created := Create(Reset(t), pair);
      if faults.getAgain then (created, Err(NotSaved)) else (created, Ok(created.rows[t.nextId]))
  }

  /** The addresses table as the program changes it. */
  class AddressStore {
    var table: Table

    ghost predicate Valid()
      reads this
    {
      TableOk(table)
    }

    constructor ()
      ensures Valid() && table == Table(map[], 0)
    {
      table := Table(map[], 0);
    }

    // GetCurrentAddress; sql.ErrNoRows still hands out an empty row.
    method GetCurrentAddress() returns (row: Row)
      requires Valid()
      ensures row == if HasCurrent(table) then table.rows[CurrentRow(table)] else Row(None, None, false)
    {
      var left := table.rows.Keys;
      row := Row(None, None, false);
      while left != {}
        invariant left <= table.rows.Keys
        invariant forall id :: id in table.rows && id !in left ==> !table.rows[id].current
        invariant row == Row(None, None, false)
        decreases left
      {
        var id :| id in left;
        if table.rows[id].current {
          assert IsCurrent(table, id);
          row := table.rows[id];
          return;
        }
        left := left - {id};
      }
    }

    method ResetCurrentAddresses()
      modifies this
      ensures table == Reset(old(table))
    {
      table := Reset(table);
    }

    // The insert, refused for a stored pair without NULL.
    method CreateAddress(pair: Pair) returns (ok: bool)
      modifies this
      ensures ok <==> !Collides(old(table), pair)
      ensures table == if ok then Create(old(table), pair) else old(table)
    {
      var stored := exists id :: id in table.rows.Keys && Carries(table.rows[id], pair);
      ok := pair.ipv4 == "" || pair.ipv6 == "" || !stored;
      if ok {
        table := Create(table, pair);
      }
    }

    /** UpdateAddress, with the resolved pair and the refused statements as parameters. */
    method UpdateAddress(pair: Pair, faults: Faults) returns (r: Result<Row, Error>)
      requires Valid()
      modifies this
      ensures Valid()
      ensures (table, r) == Updated(old(table), pair, faults)
    {
      UpdatedIsOk(table, pair, faults);
      if pair.ipv4 == "" && pair.ipv6 == "" {
        return Err(NotResolved);
      }
      if faults.get {
        return Err(NotSaved);
      }
      var addr := GetCurrentAddress();
      if Carries(addr, pair) {
        return Ok(addr);
      }
      if faults.reset {
        return Err(NotSaved);
      }
      ResetCurrentAddresses();
      ResetCollides(old(table), pair);
      if faults.create {
        return Err(NotSaved);
      }
      var created := CreateAddress(pair);
      if !created {
        return Err(NotSaved);
      }
      if faults.getAgain {
        return Err(NotSaved);
      }
      assert IsCurrent(table, old(table).nextId);
      addr := GetCurrentAddress();
      r := Ok(addr);
    }
  }

  lemma ResetCollides(t: Table, pair: Pair)
    ensures Collides(Reset(t), pair) <==> Collides(t, pair)
  {
    var r := Reset(t);
    assert forall id :: id in t.rows ==> Carries(r.rows[id], pair) == Carries(t.rows[id], pair);
  }

  // ----- what every call keeps

  ghost predicate AtMostOneCurrent(t: Table) {
    forall a, b :: IsCurrent(t, a) && IsCurrent(t, b) ==> a == b
  }

  /** At most one row is current, ids are not reused, and pairs without NULL are unique. */
  ghost predicate TableOk(t: Table) {
    && AtMostOneCurrent(t)
    && (forall id :: id in t.rows ==> id < t.nextId)
    && (forall a, b :: a in t.rows && b in t.rows && a != b && t.rows[a].ipv4.Some? && t.rows[a].ipv6.Some? ==>
          t.rows[a].ipv4 != t.rows[b].ipv4 || t.rows[a].ipv6 != t.rows[b].ipv6)
    && (forall id :: id in t.rows ==> t.rows[id].ipv4 != Some("") && t.rows[id].ipv6 != Some(""))
  }

  /** Every row of the first table is in the second, with its addresses unaltered. */
  ghost predicate KeepsAddresses(before: Table, after: Table) {
    forall id :: id in before.rows ==>
      id in after.rows && after.rows[id].ipv4 == before.rows[id].ipv4 && after.rows[id].ipv6 == before.rows[id].ipv6
  }

  lemma ResetIsOk(t: Table)
    requires TableOk(t)
    ensures TableOk(Reset(t)) && KeepsAddresses(t, Reset(t)) && !HasCurrent(Reset(t))
  {
  }

  lemma CreatedIsOk(t: Table, pair: Pair)
    requires TableOk(t) && !HasCurrent(t) && !Collides(t, pair)
    ensures TableOk(Create(t, pair)) && KeepsAddresses(t, Create(t, pair))
  {
    if pair.ipv4 != "" && pair.ipv6 != "" {
      forall id | id in t.rows
        ensures t.rows[id].ipv4 != Some(pair.ipv4) || t.rows[id].ipv6 != Some(pair.ipv6)
      {
        assert !Carries(t.rows[id], pair);
      }
    }
    forall id | IsCurrent(Create(t, pair), id)
      ensures id == t.nextId
    {
      assert id != t.nextId ==> IsCurrent(t, id);
    }
  }

  lemma UpdatedIsOk(t: Table, pair: Pair, faults: Faults)
    requires TableOk(t)
    ensures TableOk(Updated(t, pair, faults).0) && KeepsAddresses(t, Updated(t, pair, faults).0)
  {
    var (after, r) := Updated(t, pair, faults);
    ResetIsOk(t);
    if after.nextId != t.nextId {
      ResetCollides(t, pair);
      CreatedIsOk(Reset(t), pair);
    }
  }

  /** A call that returns no error leaves exactly one current row, and it carries the resolved pair. */
  lemma SuccessIsCurrent(t: Table, pair: Pair, faults: Faults)
    requires TableOk(t) && Updated(t, pair, faults).1.Ok?
    ensures var (after, r) := Updated(t, pair, faults);
            && Carries(r.value, pair)
            && HasCurrent(after) && after.rows[CurrentRow(after)] == r.value
            && forall id :: IsCurrent(after, id) <==> id == CurrentRow(after)
  {
    var (after, r) := Updated(t, pair, faults);
    UpdatedIsOk(t, pair, faults);
    if after != t || after.nextId != t.nextId {
      assert IsCurrent(after, t.nextId);
    }
  }

  // ----- one call, by what the database holds

  // The row has these addresses, a family without an answer being NULL.
  predicate IsPair(row: Row, pair: Pair) {
    && (if pair.ipv4 == "" then row.ipv4.None? else row.ipv4 == Some(pair.ipv4))
    && (if pair.ipv6 == "" then row.ipv6.None? else row.ipv6 == Some(pair.ipv6))
  }

  // Both addresses stand in one row, so the unique key refuses them; NULL is never equal to anything.
  ghost predicate BothStored(t: Table, pair: Pair) {
    exists id :: id in t.rows && t.rows[id].ipv4 == Some(pair.ipv4) && t.rows[id].ipv6 == Some(pair.ipv6)
  }

  ghost predicate CurrentIs(t: Table, pair: Pair) {
    exists id :: IsCurrent(t, id) && IsPair(t.rows[id], pair)
  }

  lemma CarriesIsPair(t: Table, id: nat, pair: Pair)
    requires TableOk(t) && id in t.rows
    ensures Carries(t.rows[id], pair) <==> IsPair(t.rows[id], pair)
  {
  }

  lemma PairsOfTable(t: Table, pair: Pair)
    requires TableOk(t)
    ensures CurrentIs(t, pair) <==> IsCurrentPair(t, pair)
    ensures BothStored(t, pair) <==> Collides(t, pair)
  {
    forall id | id in t.rows
      ensures Carries(t.rows[id], pair) <==> IsPair(t.rows[id], pair)
    {
      CarriesIsPair(t, id, pair);
    }
    if BothStored(t, pair) {
      var id :| id in t.rows && t.rows[id].ipv4 == Some(pair.ipv4) && t.rows[id].ipv6 == Some(pair.ipv6);
      assert t.rows[id].ipv4 != Some("") && t.rows[id].ipv6 != Some("");
      assert Carries(t.rows[id], pair);
    }
  }

  /** A call, whatever fails. It changes nothing when no address was resolved, when the pair is the current one
      already, or when reading or resetting fails. Otherwise no old row stays current, and a row is added,
      the only current one, with exactly the resolved addresses, unless the insert fails or both addresses
      stand in one row already. It returns no error exactly when the pair then is the current one and
      nothing failed on the way. */
  lemma OneCall(t: Table, pair: Pair, faults: Faults)
    requires TableOk(t)
    ensures var (after, r) := Updated(t, pair, faults);
            var resolved := pair.ipv4 != "" || pair.ipv6 != "";
            var quiet := !resolved || faults.get || CurrentIs(t, pair) || faults.reset;
            var added := !quiet && !faults.create && !BothStored(t, pair);
            && (quiet ==> after == t)
            && (!quiet ==>
                  && (forall id :: id in t.rows ==> id in after.rows && after.rows[id] == t.rows[id].(current := false))
                  && (forall id :: id in after.rows <==> id in t.rows || (added && id == t.nextId))
                  && (added ==> after.rows[t.nextId].current && IsPair(after.rows[t.nextId], pair)))
            && (r == Err(NotResolved) <==> !resolved)
            && (r.Ok? <==> resolved && !faults.get && (CurrentIs(t, pair) || (added && !faults.getAgain)))
            && (r.Ok? ==> r.value.current && IsPair(r.value, pair))
  {
    PairsOfTable(t, pair);
    var (after, r) := Updated(t, pair, faults);
    if HasCurrent(t) {
      assert forall id :: IsCurrent(t, id) ==> id == CurrentRow(t);
      CarriesIsPair(t, CurrentRow(t), pair);
    }
  }

  // ----- runs

  datatype Call = Call(pair: Pair, faults: Faults)

  ghost function After(t: Table, calls: seq<Call>): Table {
    if calls == [] then t
    else
      var before := After(t, calls[..|calls| - 1]);
      Updated(before, calls[|calls| - 1].pair, calls[|calls| - 1].faults).0
  }

  /** Over any sequence of calls, whatever statements fail, at most one row is current and no stored
      address is altered or lost. */
  lemma {:induction false} EveryRunKeepsHistory(t: Table, calls: seq<Call>)
    requires TableOk(t)
    ensures TableOk(After(t, calls)) && KeepsAddresses(t, After(t, calls))
  {
    if calls != [] {
      EveryRunKeepsHistory(t, calls[..|calls| - 1]);
      var call := calls[|calls| - 1];
      UpdatedIsOk(After(t, calls[..|calls| - 1]), call.pair, call.faults);
    }
  }

  // ----- when a call succeeds

  ghost predicate IsCurrentPair(t: Table, pair: Pair) {
    exists id :: IsCurrent(t, id) && Carries(t.rows[id], pair)
  }

  /** With a resolved address and no statement refused the call succeeds exactly when the pair is the
      current one already or is not stored as a pair of both families. An address that comes back after
      another one was current is refused by the unique key, after the reset: then no row is current. */
  lemma SucceedsIff(t: Table, pair: Pair)
    requires TableOk(t) && (pair.ipv4 != "" || pair.ipv6 != "")
    ensures var (after, r) := Updated(t, pair, NO_FAULTS);
            && (r.Ok? <==> IsCurrentPair(t, pair) || !Collides(t, pair))
            && (r.Err? ==> !HasCurrent(after))
  {
    if HasCurrent(t) {
      assert forall id :: IsCurrent(t, id) ==> id == CurrentRow(t);
    }
  }

  /** Nothing repairs it: as long as the resolvers keep giving that pair, every further call fails and no
      row becomes current. */
  lemma {:induction false} ReturningPairStaysRefused(t: Table, pair: Pair, calls: seq<Call>)
    requires TableOk(t) && Collides(t, pair) && !IsCurrentPair(t, pair) && calls != []
    requires forall i :: 0 <= i < |calls| ==> calls[i] == Call(pair, NO_FAULTS)
    ensures var before := After(t, calls[..|calls| - 1]);
            Updated(before, pair, NO_FAULTS).1.Err? && !HasCurrent(After(t, calls))
  {
    var front := calls[..|calls| - 1];
    var before := After(t, front);
    EveryRunKeepsHistory(t, front);
    if front != [] {
      ReturningPairStaysRefused(t, pair, front);
    }
    assert Collides(before, pair) by {
      var id :| id in t.rows && Carries(t.rows[id], pair);
      assert Carries(before.rows[id], pair);
    }
    SucceedsIff(before, pair);
  }

  /** Such a run: one address, another, and the first again. */
  lemma ReturningPairExample()
    ensures var first, other := Pair("198.51.100.7", "2001:db8::7"), Pair("203.0.113.9", "2001:db8::9");
            var t := After(Table(map[], 0), [Call(first, NO_FAULTS), Call(other, NO_FAULTS)]);
            TableOk(t) && HasCurrent(t) && Updated(t, first, NO_FAULTS).1 == Err(NotSaved)
  {
    var first, other := Pair("198.51.100.7", "2001:db8::7"), Pair("203.0.113.9", "2001:db8::9");
    var calls := [Call(first, NO_FAULTS), Call(other, NO_FAULTS)];
    var empty := Table(map[], 0);
    assert calls[..1] == [Call(first, NO_FAULTS)] && calls[..1][..0] == [];
    assert !HasCurrent(empty) && !Collides(empty, first);
    assert Updated(empty, first, NO_FAULTS).0 == Create(Reset(empty), first);
    var t1 := After(empty, calls[..1]);
    assert After(empty, calls[..1][..0]) == empty;
    assert t1 == Create(Reset(empty), first);
    var t := After(empty, calls);
    EveryRunKeepsHistory(empty, calls);
    assert !Carries(t1.rows[0], other) && forall id :: id in t1.rows ==> id == 0;
    assert t == Create(Reset(t1), other);
    assert IsCurrent(t, 1) && Carries(t.rows[0], first) && !Carries(t.rows[1], first);
    SucceedsIff(t, first);
  }
}
