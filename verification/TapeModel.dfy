/** The tape: an append-only table of entries, read in time order, from which only checkpoint rows
 *  are ever deleted. */
module TapeModel {
  import opened StableSort
  import opened Wrappers

  datatype Kind = Turn | Checkpoint | Anchor | Other

  /** `id` is the autoincremented key; rows are kept in insertion order. */
  datatype Row = Row(id: nat, ts: int, session: string, kind: Kind, payload: string)

  predicate Earlier(a: Row, b: Row) { a.ts < b.ts }

  predicate Newer(a: Row, b: Row) { a.ts > b.ts }

  /** `ORDER BY ts DESC, id DESC`. */
  predicate NewestFirst(a: Row, b: Row) { a.ts > b.ts || (a.ts == b.ts && a.id > b.id) }

  predicate IsCheckpoint(r: Row) { r.kind == Checkpoint }

  predicate CheckpointOf(r: Row, session: string) { r.session == session && IsCheckpoint(r) }

  /** `replay`: the session's rows, or all of them for an empty session name, oldest first. */
  function Replay(rows: seq<Row>, session: string): seq<Row> {
    Sort(Filter(rows, (r: Row) => session == "" || r.session == session), Earlier)
  }

  /** Every checkpoint of the session, newest first; those with one timestamp in insertion order. */
  function ListCheckpoints(rows: seq<Row>, session: string): seq<Row> {
    Sort(Filter(Replay(rows, session), IsCheckpoint), Newer)
  }

  function LoadLatest(rows: seq<Row>, session: string): Option<Row> {
    var all := Filter(Replay(rows, session), IsCheckpoint);
    if all == [] then None else Some(all[|all| - 1])
  }

  /** The rows pruning looks at. */
  function PruneOrder(rows: seq<Row>, session: string): seq<Row> {
    Sort(Filter(rows, (r: Row) => CheckpointOf(r, session)), NewestFirst)
  }

  /** The start of `slice(keep)` of `n` elements. */
  function SliceStart(keep: int, n: nat): nat {
    if keep >= 0 then (if keep < n then keep else n) else if n + keep > 0 then n + keep else 0
  }

  function Stamps(rows: seq<Row>): set<int> { set r | r in rows :: r.ts }

  /** The timestamps whose checkpoint rows pruning deletes. */
  function Pruned(rows: seq<Row>, session: string, keep: int): set<int> {
    var found := PruneOrder(rows, session);
    if |found| <= keep then {} else Stamps(found[SliceStart(keep, |found|)..])
  }

  predicate Survives(r: Row, session: string, stamps: set<int>) { !(CheckpointOf(r, session) && r.ts in stamps) }

  function AfterDelete(rows: seq<Row>, session: string, stamps: set<int>): seq<Row> {
    Filter(rows, (r: Row) => Survives(r, session, stamps))
  }

  function AfterPrune(rows: seq<Row>, session: string, keep: int): seq<Row> {
    AfterDelete(rows, session, Pruned(rows, session, keep))
  }

  /** Deleting rows from the table deletes them from every list read from it. */
  lemma {:induction false} ListAfterDelete(rows: seq<Row>, session: string, keeps: Row -> bool)
    ensures ListCheckpoints(Filter(rows, keeps), session) == Filter(ListCheckpoints(rows, session), keeps)
    ensures Filter(Replay(Filter(rows, keeps), session), IsCheckpoint) ==
      Filter(Filter(Replay(rows, session), IsCheckpoint), keeps)
  {
    var mine := (r: Row) => session == "" || r.session == session;
    FilterTwice(rows, keeps, mine);
    SortFilter(Filter(rows, mine), Earlier, keeps);
    FilterTwice(Replay(rows, session), keeps, IsCheckpoint);
    SortFilter(Filter(Replay(rows, session), IsCheckpoint), Newer, keeps);
  }

  /** A new row that a reader does not look for changes nothing for it. */
  lemma {:induction false} AppendUnseen(rows: seq<Row>, row: Row, session: string, p: Row -> bool)
    requires !p(row) || (session != "" && row.session != session)
    ensures Filter(Replay(rows + [row], session), p) == Filter(Replay(rows, session), p)
  {
    var mine := (r: Row) => session == "" || r.session == session;
    SortFilter(Filter(rows + [row], mine), Earlier, p);
    SortFilter(Filter(rows, mine), Earlier, p);
    FilterAppend(rows, [row], mine);
    FilterAppend(Filter(rows, mine), Filter([row], mine), p);
    FilterIn([row], mine);
    FilterNone(Filter([row], mine), p);
    assert Filter(Filter(rows, mine), p) + [] == Filter(Filter(rows, mine), p);
  }

  /** A new row that it does look for is read behind all that are not later. */
  lemma {:induction false} AppendSeen(rows: seq<Row>, row: Row, session: string, p: Row -> bool)
    requires p(row) && (session == "" || row.session == session)
    ensures Filter(Replay(rows + [row], session), p) == Insert(Filter(Replay(rows, session), p), row, Earlier)
  {
    var mine := (r: Row) => session == "" || r.session == session;
    var found := Filter(Filter(rows, mine), p);
    SortFilter(Filter(rows + [row], mine), Earlier, p);
    SortFilter(Filter(rows, mine), Earlier, p);
    assert (rows + [row])[..|rows|] == rows;
    assert Filter(rows + [row], mine) == Filter(rows, mine) + [row];
    assert (Filter(rows, mine) + [row])[..|Filter(rows, mine)|] == Filter(rows, mine);
    assert (found + [row])[..|found|] == found;
  }

  /** After saving, the new checkpoint is the latest unless the latest before is of a later time. */
  lemma {:induction false} LatestAfterSave(rows: seq<Row>, row: Row, session: string)
    requires CheckpointOf(row, session)
    ensures var before := LoadLatest(rows, session);
      LoadLatest(rows + [row], session) == if before.Some? && row.ts < before.value.ts then before else Some(row)
  {
    AppendSeen(rows, row, session, IsCheckpoint);
  }

  lemma {:induction false} LatestIsOwn(rows: seq<Row>, session: string)
    ensures var latest := LoadLatest(rows, session); latest.Some? ==> latest.value in rows && IsCheckpoint(latest.value)
  {
    ReadIsOwn(rows, session);
    var all := Filter(Replay(rows, session), IsCheckpoint);
    assert all != [] ==> all[|all| - 1] in all;
  }

  lemma {:induction false} ReadIsOwn(rows: seq<Row>, session: string)
    ensures forall r :: r in Filter(Replay(rows, session), IsCheckpoint) ==>
      r in rows && IsCheckpoint(r) && (session == "" || r.session == session)
  {
    var mine := (r: Row) => session == "" || r.session == session;
    FilterIn(Replay(rows, session), IsCheckpoint);
    SortSorts(Filter(rows, mine), Earlier);
    FilterIn(rows, mine);
  }

  /** Of two checkpoints saved one after the other, the second with an earlier time is not the latest;
   *  the first is, if nothing before it is later. */
  lemma {:induction false} EarlierIsMissed(rows: seq<Row>, a: Row, b: Row, session: string)
    requires CheckpointOf(a, session) && CheckpointOf(b, session) && b.ts < a.ts
    ensures LoadLatest(rows + [a] + [b], session) != Some(b)
    ensures (forall r :: r in rows && IsCheckpoint(r) ==> r.ts <= a.ts) ==>
      LoadLatest(rows + [a] + [b], session) == Some(a)
  {
    LatestIsOwn(rows, session);
    LatestAfterSave(rows, a, session);
    LatestAfterSave(rows + [a], b, session);
  }

  /** The list and the rows pruning looks at hold the same checkpoints. */
  lemma {:induction false} SameCheckpoints(rows: seq<Row>, session: string)
    requires session != ""
    ensures multiset(ListCheckpoints(rows, session)) == multiset(PruneOrder(rows, session))
    ensures Sorted(ListCheckpoints(rows, session), Newer) && Sorted(PruneOrder(rows, session), NewestFirst)
  {
    SortSorts(Filter(Replay(rows, session), IsCheckpoint), Newer);
    SortSorts(Filter(rows, (r: Row) => CheckpointOf(r, session)), NewestFirst);
    forall x ensures multiset(ListCheckpoints(rows, session))[x] == multiset(PruneOrder(rows, session))[x] {
      CheckpointCount(rows, session, x);
    }
    assert multiset(ListCheckpoints(rows, session)) == multiset(PruneOrder(rows, session));
  }

  lemma {:induction false} CheckpointCount(rows: seq<Row>, session: string, x: Row)
    requires session != ""
    ensures multiset(Filter(Replay(rows, session), IsCheckpoint))[x] ==
      multiset(Filter(rows, (r: Row) => CheckpointOf(r, session)))[x]
  {
    var mine := (r: Row) => session == "" || r.session == session;
    SortSorts(Filter(rows, mine), Earlier);
    KeptCount(rows, mine, x);
    KeptCount(Replay(rows, session), IsCheckpoint, x);
    KeptCount(rows, (r: Row) => CheckpointOf(r, session), x);
  }

  lemma {:induction false} KeptCount(s: seq<Row>, p: Row -> bool, x: Row)
    ensures multiset(Filter(s, p))[x] == if p(x) then multiset(s)[x] else 0
  {
    FilterMultiset(s, p);
  }

  ghost predicate Descending(s: seq<Row>) { forall i, j :: 0 <= i < j < |s| ==> s[i].ts >= s[j].ts }

  /** A descending list splits at any timestamp: at least `i + 1` rows are as new as its `i`-th. */
  lemma {:induction false} DescendingSplit(s: seq<Row>, i: nat, p: Row -> bool)
    requires i <= |s|
    requires forall j :: 0 <= j < i ==> p(s[j])
    requires forall j :: i <= j < |s| ==> !p(s[j])
    ensures Filter(s, p) == s[..i]
  {
    assert s == s[..i] + s[i..];
    FilterAppend(s[..i], s[i..], p);
    FilterAll(s[..i], p);
    FilterNone(s[i..], p);
  }

  lemma {:induction false} AtLeast(s: seq<Row>, i: nat, p: Row -> bool)
    requires i < |s| && forall j :: 0 <= j <= i ==> p(s[j])
    ensures |Filter(s, p)| > i
  {
    assert s == s[..i + 1] + s[i + 1..];
    FilterAppend(s[..i + 1], s[i + 1..], p);
    FilterAll(s[..i + 1], p);
  }

  lemma {:induction false} AtMost(s: seq<Row>, i: nat, p: Row -> bool)
    requires i < |s| && forall j :: i <= j < |s| ==> !p(s[j])
    ensures |Filter(s, p)| <= i
  {
    assert s == s[..i] + s[i..];
    FilterAppend(s[..i], s[i..], p);
    FilterNone(s[i..], p);
  }

  /** Two descending arrangements of the same rows show the same timestamps at each position. */
  lemma {:induction false} SameStamps(s: seq<Row>, t: seq<Row>, i: nat)
    requires Descending(s) && Descending(t) && multiset(s) == multiset(t) && i < |s| == |t|
    ensures s[i].ts == t[i].ts
  {
    NoLater(s, t, i);
    NoLater(t, s, i);
  }

  lemma {:induction false} NoLater(s: seq<Row>, t: seq<Row>, i: nat)
    requires Descending(s) && Descending(t) && multiset(s) == multiset(t) && i < |s| == |t|
    ensures s[i].ts <= t[i].ts
  {
    var bound := s[i].ts;
    var p := (r: Row) => r.ts >= bound;
    AtLeast(s, i, p);
    FilterCount(s, t, p);
    if t[i].ts < bound { AtMost(t, i, p); }
  }

  // ---- what reading gives

  /** `ORDER BY ts ASC, id ASC`. */
  predicate ReadBefore(a: Row, b: Row) { a.ts < b.ts || (a.ts == b.ts && a.id < b.id) }

  ghost predicate InReadOrder(s: seq<Row>) { forall i, j :: 0 <= i < j < |s| ==> ReadBefore(s[i], s[j]) }

  ghost predicate AllReadBefore(s: seq<Row>, x: Row) { forall r :: r in s ==> ReadBefore(r, x) }

  /** Keys are given out in ascending order. */
  ghost predicate Keyed(rows: seq<Row>) { forall i, j :: 0 <= i < j < |rows| ==> rows[i].id < rows[j].id }

  lemma {:induction false} LastIsBehind(s: seq<Row>)
    requires s != []
    ensures var n := |s| - 1;
      && (InReadOrder(s) ==> InReadOrder(s[..n]) && AllReadBefore(s[..n], s[n]))
      && (Keyed(s) ==> Keyed(s[..n]) && forall r :: r in s[..n] ==> r.id < s[n].id)
  {
    var n := |s| - 1;
    forall r | r in s[..n] ensures InReadOrder(s) ==> ReadBefore(r, s[n]) {
      var i :| 0 <= i < n && s[..n][i] == r;
      assert s[i] == r;
    }
    forall r | r in s[..n] ensures Keyed(s) ==> r.id < s[n].id {
      var i :| 0 <= i < n && s[..n][i] == r;
      assert s[i] == r;
    }
  }

  lemma {:induction false} BehindAll(s: seq<Row>, x: Row)
    requires InReadOrder(s) && AllReadBefore(s, x)
    ensures InReadOrder(s + [x])
  {
    var all := s + [x];
    forall i, j | 0 <= i < j < |all| ensures ReadBefore(all[i], all[j]) {
      assert all[i] == s[i] && s[i] in s;
      if j < |s| { assert all[j] == s[j]; }
    }
  }

  lemma {:induction false} InsertInOrder(s: seq<Row>, x: Row)
    requires InReadOrder(s) && forall r :: r in s ==> r.id < x.id
    ensures InReadOrder(Insert(s, x, Earlier))
    ensures forall r :: r in Insert(s, x, Earlier) <==> r in s || r == x
    decreases |s|
  {
    if s != [] {
      var n := |s| - 1;
      assert s == s[..n] + [s[n]];
      LastIsBehind(s);
      if Earlier(x, s[n]) {
        InsertInOrder(s[..n], x);
        BehindAll(Insert(s[..n], x, Earlier), s[n]);
      } else {
        forall r | r in s ensures ReadBefore(r, x) {
          assert r in s[..n] || r == s[n];
        }
        BehindAll(s, x);
      }
    }
  }

  lemma {:induction false} SortInOrder(s: seq<Row>)
    requires Keyed(s)
    ensures InReadOrder(Sort(s, Earlier)) && forall r :: r in Sort(s, Earlier) <==> r in s
  {
    if s != [] {
      var n := |s| - 1;
      assert s == s[..n] + [s[n]];
      LastIsBehind(s);
      SortInOrder(s[..n]);
      InsertInOrder(Sort(s[..n], Earlier), s[n]);
    }
  }

  lemma {:induction false} FilterKeyed(s: seq<Row>, p: Row -> bool)
    requires Keyed(s)
    ensures Keyed(Filter(s, p))
  {
    if s != [] {
      var n := |s| - 1;
      LastIsBehind(s);
      FilterKeyed(s[..n], p);
      FilterIn(s[..n], p);
      KeyedAppend(Filter(s[..n], p), s[n]);
    }
  }

  lemma {:induction false} KeyedAppend(s: seq<Row>, x: Row)
    requires Keyed(s) && forall r :: r in s ==> r.id < x.id
    ensures Keyed(s + [x])
  {
  }

  lemma {:induction false} FilterInOrder(s: seq<Row>, p: Row -> bool)
    requires InReadOrder(s)
    ensures InReadOrder(Filter(s, p))
  {
    if s != [] {
      var n := |s| - 1;
      LastIsBehind(s);
      FilterInOrder(s[..n], p);
      FilterIn(s[..n], p);
      BehindAll(Filter(s[..n], p), s[n]);
    }
  }

  /** Replaying reads exactly the session's rows, or all rows for an empty name, oldest first and, of one
   *  time, in the order of their keys; and so does reading only some of them. */
  lemma {:induction false} ReadsInOrder(rows: seq<Row>, session: string, p: Row -> bool)
    requires Keyed(rows)
    ensures var read := Filter(Replay(rows, session), p);
      && InReadOrder(Replay(rows, session)) && InReadOrder(read)
      && (forall r :: r in Replay(rows, session) <==> r in rows && (session == "" || r.session == session))
      && (forall r :: r in read <==> r in rows && (session == "" || r.session == session) && p(r))
  {
    var mine := (r: Row) => session == "" || r.session == session;
    FilterKeyed(rows, mine);
    FilterIn(rows, mine);
    SortInOrder(Filter(rows, mine));
    FilterInOrder(Replay(rows, session), p);
    FilterIn(Replay(rows, session), p);
  }

  /** Listing gives exactly the session's checkpoints, newest first. */
  lemma {:induction false} ListsNewestFirst(rows: seq<Row>, session: string)
    requires Keyed(rows)
    ensures var listed := ListCheckpoints(rows, session);
      && (forall i, j :: 0 <= i < j < |listed| ==> listed[i].ts >= listed[j].ts)
      && (forall r :: r in listed <==> r in rows && (session == "" || r.session == session) && r.kind == Checkpoint)
  {
    ReadsInOrder(rows, session, IsCheckpoint);
    SortSorts(Filter(Replay(rows, session), IsCheckpoint), Newer);
    var listed := ListCheckpoints(rows, session);
    assert forall i, j :: 0 <= i < j < |listed| ==> !Newer(listed[j], listed[i]);
  }
}
