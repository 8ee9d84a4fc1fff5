/** The session store: the catalog as an object whose methods insert and update rows. The clock, a
 *  random id, the tape table and the rows that other writers insert meanwhile are parameters. */
module SessionStore {
  import opened SessionCatalog
  import opened Wrappers
  import TapeModel

  datatype BootstrapResult = BootstrapResult(created: nat, skipped: nat)

  class SessionStore {
    var rows: seq<Session>

    ghost predicate Valid() reads this { UniqueKeys(rows) }

    constructor ()
      ensures Valid() && rows == []
    {
      rows := [];
    }

    method Get(id: string) returns (found: Option<Session>)
      ensures found == FindId(rows, id)
    {
      found := FindId(rows, id);
    }

    method FindByAddress(address: Address) returns (found: Option<Session>)
      ensures found == FindAddress(rows, address)
    {
      found := FindAddress(rows, address);
    }

    /** Inserts a row unless its id is empty or one of its keys is taken. */
    method CreateSession(options: CreateOptions, now: int, randomId: string) returns (result: Result<Session, Error>)
      requires Valid()
      modifies this
      ensures Valid()
      ensures result == Create(old(rows), options, now, randomId)
      ensures rows == if result.Ok? then old(rows) + [result.value] else old(rows)
    {
      result := Create(rows, options, now, randomId);
      if result.Ok? {
        AddedUnique(rows, result.value);
        rows := rows + [result.value];
      }
    }

    method Ensure(id: string, now: int, others: Others) returns (result: Result<Session, Error>)
      requires UniqueKeys(rows + others.first + others.second)
      modifies this
      ensures Valid()
      ensures (rows, result) == Ensured(old(rows), others, id, now)
    {
      PrefixUnique(rows + others.first, others.second);
      PrefixUnique(rows, others.first);
      var existing := Get(id);
      if existing.Some? { return Ok(existing.value); }
      var (kind, address) := LegacySession(id);
      rows := rows + others.first;
      result := CreateSession(EnsureOptions(id, address), now, id);
      if result.Err? {
        var concurrent := Get(id);
        if concurrent.Some? { return Ok(concurrent.value); }
        rows := rows + others.second;
        result := CreateSession(EnsureOptions(id, FallbackAddress(id)), now, id);
        if result.Err? {
          var raced := Get(id);
          if raced.Some? { return Ok(raced.value); }
        }
      }
    }

    method ResolveOrCreate(options: CreateOptions, now: int, randomId: string, others: seq<Session>)
            returns (result: Result<Session, Error>)
      requires UniqueKeys(rows + others)
      modifies this
      ensures Valid()
      ensures (rows, result) == Resolved(old(rows), others, options, now, randomId)
    {
      PrefixUnique(rows, others);
      var existing := FindByAddress(options.address);
      if existing.Some? { return Ok(existing.value); }
      rows := rows + others;
      result := CreateSession(options, now, randomId);
      if result.Err? {
        var concurrent := FindByAddress(options.address);
        if concurrent.Some? { return Ok(concurrent.value); }
      }
    }

    /** Moves the turn and update times of one session forward, and no other row. */
    method RecordTurn(id: string, occurredAt: int, recordedAt: int) returns (result: Result<(), Error>)
      requires Valid()
      modifies this
      ensures Valid()
      ensures result.Ok? <==> old(FindId(rows, id)).Some?
      ensures result.Err? ==> result.error == NotFound && rows == old(rows)
      ensures |rows| == |old(rows)|
      ensures forall i :: 0 <= i < |rows| ==>
        rows[i] == if old(rows)[i].id == id then WithTurn(old(rows)[i], occurredAt, recordedAt) else old(rows)[i]
    {
      var changes := 0;
      for i := 0 to |rows|
        invariant |rows| == |old(rows)|
        invariant forall j :: 0 <= j < i ==>
          rows[j] == if old(rows)[j].id == id then WithTurn(old(rows)[j], occurredAt, recordedAt) else old(rows)[j]
        invariant forall j :: i <= j < |rows| ==> rows[j] == old(rows)[j]
        invariant changes > 0 <==> exists j :: 0 <= j < i && old(rows)[j].id == id
      {
        if rows[i].id == id {
          rows := rows[i := WithTurn(rows[i], occurredAt, recordedAt)];
          changes := changes + 1;
        }
      }
      if changes == 0 {
        assert rows == old(rows);
        return Err(NotFound);
      }
      result := Ok(());
    }

    /** Inserts one row for each session of the tape that is not in the way of an existing one, and
     *  counts those inserted and those skipped. */
    method BootstrapFromTape(tape: Option<seq<TapeModel.Row>>) returns (result: BootstrapResult)
      requires Valid()
      modifies this
      ensures Valid()
      ensures tape.None? ==> rows == old(rows) && result == BootstrapResult(0, 0)
      ensures tape.Some? ==> rows == Bootstrapped(old(rows), tape.value)
      ensures tape.Some? ==> result.created + result.skipped == |TapeSessions(tape.value)|
      ensures old(rows) <= rows && result.created == |rows| - |old(rows)|
    {
      if tape.None? { return BootstrapResult(0, 0); }
      BootstrapAdds(rows, tape.value);
      var groups := TapeSessions(tape.value);
      var created: nat := 0;
      var i: nat := 0;
      while i < |groups|
        invariant i <= |groups| && created <= i
        invariant InsertAll(rows, tape.value, groups[i..]) == Bootstrapped(old(rows), tape.value)
        invariant old(rows) <= rows && created == |rows| - |old(rows)|
      {
        var row := LegacyRow(tape.value, groups[i]);
        assert groups[i..][1..] == groups[i + 1..];
        if FindId(rows, row.id).None? && FindAddress(rows, row.address).None? {
          rows := rows + [row];
          created := created + 1;
        }
        i := i + 1;
      }
      result := BootstrapResult(created, |groups| - created);
    }
  }
}
