/** The tape as an object, and the checkpoint functions that write to it. The clock and the JSON of
 *  an entry are parameters. */
module Tape {
  import opened StableSort
  import opened TapeModel
  import opened Wrappers
  import Checkpoints

  class Tape {
    var rows: seq<Row>
    var nextId: nat

    constructor ()
      ensures rows == [] && nextId == 1
    {
      rows, nextId := [], 1;
    }

    method Append(ts: int, session: string, kind: Kind, payload: string)
      modifies this
      ensures rows == old(rows) + [Row(old(nextId), ts, session, kind, payload)] && nextId == old(nextId) + 1
    {
      rows := rows + [Row(nextId, ts, session, kind, payload)];
      nextId := nextId + 1;
    }

    /** Deletes, timestamp by timestamp, and counts the rows deleted. */
    method PruneCheckpoints(session: string, keep: int) returns (deleted: nat)
      modifies this`rows
      ensures rows == AfterPrune(old(rows), session, keep)
      ensures deleted == |old(rows)| - |rows|
    {
      var found := PruneOrder(rows, session);
      ghost var before := rows;
      DeleteNothing(rows, session);
      if |found| <= keep { return 0; }
      var toDelete := found[SliceStart(keep, |found|)..];
      deleted := 0;
      ghost var done: set<int> := {};
      for i := 0 to |toDelete|
        invariant done == Stamps(toDelete[..i])
        invariant rows == AfterDelete(before, session, done)
        invariant deleted == |before| - |rows|
      {
        var held := |rows|;
        var ts := toDelete[i].ts;
        rows := AfterDelete(rows, session, {ts});
        deleted := deleted + (held - |rows|);
        DeleteTwice(before, session, done, {ts});
        StampsNext(toDelete, i);
        done := done + {ts};
      }
      assert toDelete[..|toDelete|] == toDelete;
    }
  }

  lemma {:induction false} DeleteNothing(rows: seq<Row>, session: string)
    ensures AfterDelete(rows, session, {}) == rows
  {
    FilterAll(rows, (r: Row) => Survives(r, session, {}));
  }

  lemma {:induction false} StampsNext(rows: seq<Row>, i: nat)
    requires i < |rows|
    ensures Stamps(rows[..i + 1]) == Stamps(rows[..i]) + {rows[i].ts}
  {
    assert rows[..i + 1] == rows[..i] + [rows[i]];
  }

  lemma {:induction false} DeleteTwice(rows: seq<Row>, session: string, a: set<int>, b: set<int>)
    ensures AfterDelete(AfterDelete(rows, session, a), session, b) == AfterDelete(rows, session, a + b)
  {
    if rows != [] { DeleteTwice(rows[..|rows| - 1], session, a, b); }
  }

  /** The process's checkpoint counter and the tape it writes to. */
  class CheckpointWriter {
    var checkpointCounter: nat
    const tape: Tape

    constructor (tape: Tape)
      ensures this.tape == tape && checkpointCounter == 0
    {
      this.tape := tape;
      checkpointCounter := 0;
    }

    ghost function Value(): Checkpoints.Log reads this, tape {
      Checkpoints.Log(tape.rows, tape.nextId, checkpointCounter)
    }

    method SaveCheckpoint(now: nat, session: string, messages: string)
      modifies this, tape
      ensures Value() == Checkpoints.Next(old(Value()), Checkpoints.Save(now, session, messages))
    {
      var ts := now * 1000 + checkpointCounter % 1000;
      checkpointCounter := checkpointCounter + 1;
      tape.Append(ts, session, Checkpoint, messages);
    }

    method LoadLatestCheckpoint(session: string) returns (latest: Option<Row>)
      ensures latest == LoadLatest(tape.rows, session)
    {
      latest := None;
      var entries := Replay(tape.rows, session);
      for i := 0 to |entries|
        invariant latest == Last(Filter(entries[..i], IsCheckpoint))
      {
        if IsCheckpoint(entries[i]) { latest := Some(entries[i]); }
        assert entries[..i + 1][..i] == entries[..i];
      }
      assert entries[..|entries|] == entries;
    }

    method ListAll(session: string) returns (list: seq<Row>)
      ensures list == ListCheckpoints(tape.rows, session)
    {
      var all: seq<Row> := [];
      var entries := Replay(tape.rows, session);
      for i := 0 to |entries|
        invariant all == Filter(entries[..i], IsCheckpoint)
      {
        if IsCheckpoint(entries[i]) { all := all + [entries[i]]; }
        assert entries[..i + 1][..i] == entries[..i];
      }
      assert entries[..|entries|] == entries;
      list := Sort(all, Newer);
    }

    method Prune(session: string, keep: int) returns (deleted: nat)
      modifies tape`rows
      ensures Value() == Checkpoints.Next(old(Value()), Checkpoints.Prune(session, keep))
      ensures deleted == |old(tape.rows)| - |tape.rows|
    {
      deleted := tape.PruneCheckpoints(session, keep);
    }
  }

  function Last(s: seq<Row>): Option<Row> { if s == [] then None else Some(s[|s| - 1]) }
}
