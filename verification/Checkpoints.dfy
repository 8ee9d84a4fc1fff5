/** Saving, listing and pruning checkpoints. The clock is a parameter. */
module Checkpoints {
  import opened StableSort
  import opened TapeModel
  import opened Wrappers

  // Timestamps

  /** `Date.now() * 1000 + counter % 1000`. */
  function Stamp(now: nat, counter: nat): nat { now * 1000 + counter % 1000 }

  /** The timestamps of saves at the times `nows`, the first with the counter at `counter`. */
  function SavedStamps(nows: seq<nat>, counter: nat): seq<nat> {
    seq(|nows|, i requires 0 <= i < |nows| => Stamp(nows[i], counter + i))
  }

  predicate NonDecreasing(nows: seq<nat>) { forall i, j :: 0 <= i < j < |nows| ==> nows[i] <= nows[j] }

  predicate DistinctStamps(stamps: seq<nat>) { forall i, j :: 0 <= i < j < |stamps| ==> stamps[i] != stamps[j] }

  /** No millisecond sees more than a thousand saves: two saves a thousand places apart are in
   *  different ones. */
  ghost predicate AtMostThousandPerMs(nows: seq<nat>) {
    forall i, j :: 0 <= i < j < |nows| && j == i + 1000 ==> nows[i] != nows[j]
  }

  /** With a clock that never goes back the timestamps are distinct exactly when at most a thousand
   *  checkpoints are saved in each millisecond. */
  lemma {:induction false} StampsDistinctIff(nows: seq<nat>, counter: nat)
    requires NonDecreasing(nows)
    ensures DistinctStamps(SavedStamps(nows, counter)) <==> AtMostThousandPerMs(nows)
  {
    var stamps := SavedStamps(nows, counter);
    if AtMostThousandPerMs(nows) {
      forall i, j | 0 <= i < j < |nows| ensures stamps[i] != stamps[j] {
        assert nows[i] <= nows[j];
        SameStampIff(nows[i], nows[j], counter + i, j - i);
        if j >= i + 1000 {
          assert nows[i] != nows[i + 1000];
          assert nows[i] <= nows[i + 1000] && (j > i + 1000 ==> nows[i + 1000] <= nows[j]);
        }
      }
    }
    if DistinctStamps(stamps) {
      forall i, j | 0 <= i < j < |nows| && j == i + 1000 ensures nows[i] != nows[j] {
        assert stamps[i] != stamps[j];
        SameStampIff(nows[i], nows[j], counter + i, 1000);
      }
    }
  }

  lemma {:induction false} SameStampIff(now: nat, later: nat, counter: nat, d: nat)
    requires now <= later
    ensures Stamp(now, counter) == Stamp(later, counter + d) <==> now == later && d % 1000 == 0
  {
    assert (counter + d) % 1000 == counter % 1000 <==> d % 1000 == 0;
  }

  /** The counter does not wrap between two saves in one millisecond. */
  ghost predicate NoWrapWithinMs(nows: seq<nat>, counter: nat) {
    forall k :: 0 <= k < |nows| - 1 && (counter + k) % 1000 == 999 ==> nows[k] != nows[k + 1]
  }

  ghost predicate Increasing(stamps: seq<nat>) { forall i, j :: 0 <= i < j < |stamps| ==> stamps[i] < stamps[j] }

  /** Later saves have later timestamps exactly when the counter never wraps within a millisecond. */
  lemma {:induction false} StampsIncreaseIff(nows: seq<nat>, counter: nat)
    requires NonDecreasing(nows)
    ensures Increasing(SavedStamps(nows, counter)) <==> NoWrapWithinMs(nows, counter)
  {
    var stamps := SavedStamps(nows, counter);
    if NoWrapWithinMs(nows, counter) {
      forall i, j | 0 <= i < j < |stamps| ensures stamps[i] < stamps[j] { StampsClimb(nows, counter, i, j); }
    }
    if Increasing(stamps) {
      forall k | 0 <= k < |nows| - 1 && (counter + k) % 1000 == 999 ensures nows[k] != nows[k + 1] {
        assert stamps[k] < stamps[k + 1];
      }
    }
  }

  lemma {:induction false} StampsClimb(nows: seq<nat>, counter: nat, i: nat, j: nat)
    requires NonDecreasing(nows) && NoWrapWithinMs(nows, counter) && i < j < |nows|
    ensures SavedStamps(nows, counter)[i] < SavedStamps(nows, counter)[j]
    decreases j
  {
    if i < j - 1 { StampsClimb(nows, counter, i, j - 1); }
    assert nows[j - 1] <= nows[j];
    assert (counter + (j - 1)) % 1000 == 999 ==> nows[j - 1] != nows[j - 1 + 1];
    OneStampOn(nows[j - 1], nows[j], counter + (j - 1));
  }

  lemma {:induction false} OneStampOn(now: nat, later: nat, counter: nat)
    requires now <= later && (counter % 1000 == 999 ==> now != later)
    ensures Stamp(now, counter) < Stamp(later, counter + 1)
  {
  }

  // Pruning

  /** The newest checkpoint that pruning deletes is older than the oldest it means to keep. */
  predicate CleanCut(list: seq<Row>, k: nat) { 0 < k < |list| ==> list[k - 1].ts != list[k].ts }

  /** How many checkpoints pruning means to keep: at most so many, or for a negative number all but the
   *  oldest so many. */
  function KeepCount(rows: seq<Row>, session: string, keep: int): nat {
    var n := |ListCheckpoints(rows, session)|;
    if keep < 0 then (if n < -keep then 0 else n + keep) else if n < keep then n else keep
  }

  lemma {:induction false} ListDescends(rows: seq<Row>, session: string)
    requires session != ""
    ensures Descending(ListCheckpoints(rows, session)) && Descending(PruneOrder(rows, session))
    ensures |ListCheckpoints(rows, session)| == |PruneOrder(rows, session)|
    ensures forall r :: r in ListCheckpoints(rows, session) ==> CheckpointOf(r, session) && r in rows
  {
    SameCheckpoints(rows, session);
    var list, order := ListCheckpoints(rows, session), PruneOrder(rows, session);
    assert |multiset(list)| == |multiset(order)|;
    ReadIsOwn(rows, session);
    SortSorts(Filter(Replay(rows, session), IsCheckpoint), Newer);
    assert forall i, j :: 0 <= i < j < |list| ==> !Newer(list[j], list[i]);
    assert forall i, j :: 0 <= i < j < |order| ==> !NewestFirst(order[j], order[i]);
  }

  /** The deleted timestamps are those of the list behind the kept part. */
  lemma {:induction false} PrunedIs(rows: seq<Row>, session: string, keep: int)
    requires session != ""
    ensures var list := ListCheckpoints(rows, session);
      Pruned(rows, session, keep) == Stamps(list[KeepCount(rows, session, keep)..])
  {
    var list, order := ListCheckpoints(rows, session), PruneOrder(rows, session);
    ListDescends(rows, session);
    SameCheckpoints(rows, session);
    forall i | 0 <= i < |list| ensures list[i].ts == order[i].ts {
      SameStamps(list, order, i);
    }
    var k := KeepCount(rows, session, keep);
  }

  /** Which checkpoints of the list survive: those newer than every deleted timestamp. */
  lemma {:induction false} SurvivorsOf(rows: seq<Row>, session: string, keep: int, i: nat)
    requires session != "" && i < |ListCheckpoints(rows, session)|
    ensures var list := ListCheckpoints(rows, session); var k := KeepCount(rows, session, keep);
      Survives(list[i], session, Pruned(rows, session, keep)) <==> (k == |list| || list[i].ts > list[k].ts)
  {
    var list := ListCheckpoints(rows, session);
    var k := KeepCount(rows, session, keep);
    ListDescends(rows, session);
    PrunedIs(rows, session, keep);
    assert list[i] in list;
    if k < |list| {
      assert list[k..][0] == list[k];
      if list[i].ts <= list[k].ts {
        assert if i < k then list[i].ts == list[k].ts else list[i] == list[k..][i - k];
      } else {
        forall j | 0 <= j < |list[k..]| ensures list[k..][j].ts != list[i].ts {}
      }
    }
  }

  /** Pruning leaves exactly the first checkpoints of the list, as many as it means to keep, when
   *  and only when the cut does not fall between two checkpoints with one timestamp. */
  lemma {:induction false} PruneExactIff(rows: seq<Row>, session: string, keep: int)
    requires session != ""
    ensures var list := ListCheckpoints(rows, session); var k := KeepCount(rows, session, keep);
      ListCheckpoints(AfterPrune(rows, session, keep), session) == list[..k] <==> CleanCut(list, k)
  {
    var list := ListCheckpoints(rows, session);
    var k := KeepCount(rows, session, keep);
    var stamps := Pruned(rows, session, keep);
    var keeps := (r: Row) => Survives(r, session, stamps);
    ListAfterDelete(rows, session, keeps);
    ListDescends(rows, session);
    forall i | 0 <= i < |list| ensures keeps(list[i]) <==> (k == |list| || list[i].ts > list[k].ts) {
      SurvivorsOf(rows, session, keep, i);
    }
    CutIff(list, k, keeps);
  }

  /** Of a descending list the rows newer than its `k`-th are the first `k`, if the cut is clean. */
  lemma {:induction false} CutIff(list: seq<Row>, k: nat, keeps: Row -> bool)
    requires Descending(list) && k <= |list|
    requires forall i :: 0 <= i < |list| ==> (keeps(list[i]) <==> (k == |list| || list[i].ts > list[k].ts))
    ensures Filter(list, keeps) == list[..k] <==> CleanCut(list, k)
    ensures |Filter(list, keeps)| == k <==> CleanCut(list, k)
  {
    if CleanCut(list, k) {
      DescendingSplit(list, k, keeps);
    } else {
      AtMost(list, k - 1, keeps);
    }
  }

  /** Pruning returns how many checkpoints lie behind the kept part, under the same condition. */
  lemma {:induction false} PruneCountIff(rows: seq<Row>, session: string, keep: int)
    requires session != ""
    ensures var list := ListCheckpoints(rows, session); var k := KeepCount(rows, session, keep);
      |rows| - |AfterPrune(rows, session, keep)| == |list| - k <==> CleanCut(list, k)
  {
    var list := ListCheckpoints(rows, session);
    var k := KeepCount(rows, session, keep);
    var stamps := Pruned(rows, session, keep);
    var keeps := (r: Row) => Survives(r, session, stamps);
    DeletedCount(rows, session, keeps);
    ListDescends(rows, session);
    forall i | 0 <= i < |list| ensures keeps(list[i]) <==> (k == |list| || list[i].ts > list[k].ts) {
      SurvivorsOf(rows, session, keep, i);
    }
    CutIff(list, k, keeps);
  }

  /** Deleting only checkpoints of the session shortens the table and the list by the same. */
  lemma {:induction false} DeletedCount(rows: seq<Row>, session: string, keeps: Row -> bool)
    requires session != "" && forall r :: !CheckpointOf(r, session) ==> keeps(r)
    ensures |rows| - |Filter(rows, keeps)| ==
      |ListCheckpoints(rows, session)| - |Filter(ListCheckpoints(rows, session), keeps)|
  {
    var list := ListCheckpoints(rows, session);
    var own := (r: Row) => CheckpointOf(r, session);
    var gone := (r: Row) => !keeps(r);
    FilterSplit(rows, keeps, gone);
    FilterSplit(list, keeps, gone);
    FilterWithin(rows, own, gone);
    SameCheckpoints(rows, session);
    SortSorts(Filter(rows, own), NewestFirst);
    FilterCount(list, Filter(rows, own), gone);
  }

  /** Rows of other kinds and of other sessions all stay, in order. */
  lemma {:induction false} PruneTouchesNoOther(rows: seq<Row>, session: string, keep: int)
    ensures Filter(AfterPrune(rows, session, keep), (r: Row) => !CheckpointOf(r, session)) ==
      Filter(rows, (r: Row) => !CheckpointOf(r, session))
  {
    var stamps := Pruned(rows, session, keep);
    var keeps := (r: Row) => Survives(r, session, stamps);
    var other := (r: Row) => !CheckpointOf(r, session);
    FilterTwice(rows, keeps, other);
    FilterIn(rows, other);
    FilterAll(Filter(rows, other), keeps);
  }

  /** The latest checkpoint stays the latest exactly when nothing is deleted or its timestamp is
   *  newer than the deleted ones. */
  lemma {:induction false} LatestKeptIff(rows: seq<Row>, session: string, keep: int)
    requires session != ""
    ensures var list := ListCheckpoints(rows, session); var k := KeepCount(rows, session, keep);
      LoadLatest(AfterPrune(rows, session, keep), session) == LoadLatest(rows, session) <==>
        (k == |list| || list[0].ts > list[k].ts)
  {
    var list := ListCheckpoints(rows, session);
    var k := KeepCount(rows, session, keep);
    var stamps := Pruned(rows, session, keep);
    var keeps := (r: Row) => Survives(r, session, stamps);
    var all := Filter(Replay(rows, session), IsCheckpoint);
    ListAfterDelete(rows, session, keeps);
    SortSorts(all, Newer);
    if all != [] {
      var last := all[|all| - 1];
      LatestIsFirst(rows, session);
      SurvivorsOf(rows, session, keep, 0);
      ListDescends(rows, session);
      assert last in list && list[0] in list;
      assert keeps(last) == keeps(list[0]);
      FilterIn(all, keeps);
      assert keeps(last) ==> Filter(all, keeps) != [] && Filter(all, keeps)[|Filter(all, keeps)| - 1] == last;
    }
  }

  lemma {:induction false} LatestIsFirst(rows: seq<Row>, session: string)
    requires Filter(Replay(rows, session), IsCheckpoint) != []
    ensures ListCheckpoints(rows, session) != []
    ensures LoadLatest(rows, session).value.ts == ListCheckpoints(rows, session)[0].ts
  {
    var mine := (r: Row) => session == "" || r.session == session;
    var all := Filter(Replay(rows, session), IsCheckpoint);
    HeadIsLeftmostLeast(all, Newer);
    SortSorts(Filter(rows, mine), Earlier);
    SortFilter(Filter(rows, mine), Earlier, IsCheckpoint);
    SortSorts(Filter(Filter(rows, mine), IsCheckpoint), Earlier);
    assert Sorted(all, Earlier);
    var first := ListCheckpoints(rows, session)[0];
    var k :| 0 <= k < |all| && all[k] == first && forall j :: 0 <= j < |all| ==> !Newer(all[j], first);
    assert k < |all| - 1 ==> !Earlier(all[|all| - 1], all[k]);
  }

  ghost predicate ExactFor(rows: seq<Row>, session: string, keep: int) {
    ListCheckpoints(AfterPrune(rows, session, keep), session) ==
      ListCheckpoints(rows, session)[..KeepCount(rows, session, keep)]
  }

  ghost predicate DistinctTs(list: seq<Row>) { forall i, j :: 0 <= i < j < |list| ==> list[i].ts != list[j].ts }

  lemma {:induction false} ExactWhenDistinct(rows: seq<Row>, session: string, keep: int)
    requires session != "" && DistinctTs(ListCheckpoints(rows, session))
    ensures ExactFor(rows, session, keep)
  {
    PruneExactIff(rows, session, keep);
  }

  lemma {:induction false} DistinctWhenExact(rows: seq<Row>, session: string, i: nat, j: nat)
    requires session != "" && i < j < |ListCheckpoints(rows, session)| && ExactFor(rows, session, j)
    ensures ListCheckpoints(rows, session)[i].ts != ListCheckpoints(rows, session)[j].ts
  {
    PruneExactIff(rows, session, j);
    ListDescends(rows, session);
    assert KeepCount(rows, session, j) == j;
  }

  /** Pruning is exact for every number to keep if and only if the session's checkpoints have
   *  distinct timestamps. */
  lemma {:induction false} PruneAlwaysExactIff(rows: seq<Row>, session: string)
    requires session != ""
    ensures (forall keep: int :: ExactFor(rows, session, keep)) <==> DistinctTs(ListCheckpoints(rows, session))
  {
    var list := ListCheckpoints(rows, session);
    if DistinctTs(list) {
      forall keep: int ensures ExactFor(rows, session, keep) { ExactWhenDistinct(rows, session, keep); }
    }
    if forall keep: int :: ExactFor(rows, session, keep) {
      forall i, j | 0 <= i < j < |list| ensures list[i].ts != list[j].ts {
        assert ExactFor(rows, session, j);
        DistinctWhenExact(rows, session, i, j);
      }
    }
  }

  // Runs of saves

  datatype Event =
    | Save(now: nat, session: string, messages: string)
    | Append(ts: int, session: string, kind: Kind, payload: string)
    | Prune(session: string, keep: int)

  /** The table, its next key, and the process's checkpoint counter. */
  datatype Log = Log(rows: seq<Row>, nextId: nat, counter: nat)

  function Next(log: Log, e: Event): Log {
    match e
    case Save(now, session, messages) =>
      Log(log.rows + [Row(log.nextId, Stamp(now, log.counter), session, Checkpoint, messages)], log.nextId + 1,
        log.counter + 1)
    case Append(ts, session, kind, payload) =>
      Log(log.rows + [Row(log.nextId, ts, session, kind, payload)], log.nextId + 1, log.counter)
    case Prune(session, keep) => log.(rows := AfterPrune(log.rows, session, keep))
  }

  function Run(log: Log, events: seq<Event>): Log {
    if events == [] then log else Next(Run(log, events[..|events| - 1]), events[|events| - 1])
  }

  /** Keys ascend, and the next one is new. */
  ghost predicate FreshKeys(log: Log) { Keyed(log.rows) && forall r :: r in log.rows ==> r.id < log.nextId }

  /** Whatever is saved, appended and pruned, keys stay in ascending order and are never given out twice. */
  lemma {:induction false} KeysAscend(log: Log, events: seq<Event>)
    requires FreshKeys(log)
    ensures FreshKeys(Run(log, events)) && log.nextId <= Run(log, events).nextId
  {
    if events != [] {
      var n := |events| - 1;
      var before := Run(log, events[..n]);
      KeysAscend(log, events[..n]);
      match events[n]
      case Save(_, _, _) => KeyedAppend(before.rows, Next(before, events[n]).rows[|before.rows|]);
      case Append(_, _, _, _) => KeyedAppend(before.rows, Next(before, events[n]).rows[|before.rows|]);
      case Prune(session, keep) =>
        var survives := (r: Row) => Survives(r, session, Pruned(before.rows, session, keep));
        FilterKeyed(before.rows, survives);
        FilterIn(before.rows, survives);
    }
  }

  function SaveTimes(events: seq<Event>): seq<nat> {
    if events == [] then []
    else
      var e := events[|events| - 1];
      if e.Save? then SaveTimes(events[..|events| - 1]) + [e.now] else SaveTimes(events[..|events| - 1])
  }

  /** The checkpoints a process finds on its tape: older than its first save, no two of one time. */
  ghost predicate Older(rows: seq<Row>, nows: seq<nat>) {
    && DistinctCheckpoints(rows)
    && (nows != [] ==> forall r :: r in rows && IsCheckpoint(r) ==> r.ts < nows[0] * 1000)
  }

  ghost predicate DistinctCheckpoints(rows: seq<Row>) {
    forall i, j :: 0 <= i < j < |rows| && IsCheckpoint(rows[i]) && IsCheckpoint(rows[j]) ==> rows[i].ts != rows[j].ts
  }

  /** Checkpoints come from `saveCheckpoint` only. */
  ghost predicate SavedOnly(events: seq<Event>) { forall e :: e in events && e.Append? ==> e.kind != Checkpoint }

  /** No checkpoint has a timestamp that is still to be given, from the `m`-th on. */
  ghost predicate Unused(rows: seq<Row>, stamps: seq<nat>, m: nat) {
    forall r, j :: r in rows && IsCheckpoint(r) && m <= j < |stamps| ==> r.ts != stamps[j]
  }

  /** Every checkpoint is older than the timestamps still to be given. */
  ghost predicate Before(rows: seq<Row>, stamps: seq<nat>, m: nat) {
    forall r, j :: r in rows && IsCheckpoint(r) && m <= j < |stamps| ==> r.ts < stamps[j]
  }

  ghost predicate AllBefore(rows: seq<Row>, t: int) { forall r :: r in rows && IsCheckpoint(r) ==> r.ts < t }

  lemma {:induction false} DistinctAppend(rows: seq<Row>, row: Row)
    requires DistinctCheckpoints(rows)
    requires IsCheckpoint(row) ==> forall r :: r in rows && IsCheckpoint(r) ==> r.ts != row.ts
    ensures DistinctCheckpoints(rows + [row])
  {
    var all := rows + [row];
    forall i, j | 0 <= i < j < |all| && IsCheckpoint(all[i]) && IsCheckpoint(all[j]) ensures all[i].ts != all[j].ts {
      assert all[i] in rows;
    }
  }

  lemma {:induction false} DistinctLast(rows: seq<Row>)
    requires rows != [] && DistinctCheckpoints(rows)
    ensures var n := |rows| - 1;
      DistinctCheckpoints(rows[..n])
        && (IsCheckpoint(rows[n]) ==> forall r :: r in rows[..n] && IsCheckpoint(r) ==> r.ts != rows[n].ts)
  {
  }

  lemma {:induction false} DistinctFilter(rows: seq<Row>, p: Row -> bool)
    requires DistinctCheckpoints(rows)
    ensures DistinctCheckpoints(Filter(rows, p))
  {
    if rows != [] {
      var n := |rows| - 1;
      DistinctLast(rows);
      DistinctFilter(rows[..n], p);
      FilterIn(rows[..n], p);
      if p(rows[n]) { DistinctAppend(Filter(rows[..n], p), rows[n]); }
    }
  }

  /** What one event does to the checkpoints: no new ones but a save's. */
  lemma {:induction false} NextRows(log: Log, e: Event, t: nat)
    requires DistinctCheckpoints(log.rows) && (e.Append? ==> e.kind != Checkpoint)
    requires e.Save? ==> Stamp(e.now, log.counter) == t && forall r :: r in log.rows && IsCheckpoint(r) ==> r.ts != t
    ensures DistinctCheckpoints(Next(log, e).rows)
    ensures forall r :: r in Next(log, e).rows && IsCheckpoint(r) ==> r in log.rows || (e.Save? && r.ts == t)
  {
    match e
    case Save(ms, session, messages) =>
      DistinctAppend(log.rows, Row(log.nextId, Stamp(ms, log.counter), session, Checkpoint, messages));
    case Append(ts, session, kind, payload) => DistinctAppend(log.rows, Row(log.nextId, ts, session, kind, payload));
    case Prune(session, keep) =>
      var gone := Pruned(log.rows, session, keep);
      DistinctFilter(log.rows, (r: Row) => Survives(r, session, gone));
      FilterIn(log.rows, (r: Row) => Survives(r, session, gone));
  }

  lemma {:induction false} OldStampsUnused(rows: seq<Row>, nows: seq<nat>, counter: nat)
    requires Older(rows, nows) && NonDecreasing(nows)
    ensures Before(rows, SavedStamps(nows, counter), 0)
  {
    var stamps := SavedStamps(nows, counter);
    forall r, j | r in rows && IsCheckpoint(r) && 0 <= j < |stamps| ensures r.ts < stamps[j] {
      assert nows[0] <= nows[j];
    }
  }

  /** Along a run whose saves are the first of those at `nows`: no two checkpoints have one timestamp. */
  lemma {:induction false} RunStampsOnce(log: Log, events: seq<Event>, nows: seq<nat>)
    requires Older(log.rows, nows) && SavedOnly(events) && SaveTimes(events) <= nows
    requires NonDecreasing(nows) && AtMostThousandPerMs(nows)
    ensures Run(log, events).counter == log.counter + |SaveTimes(events)|
    ensures DistinctCheckpoints(Run(log, events).rows)
    ensures Unused(Run(log, events).rows, SavedStamps(nows, log.counter), |SaveTimes(events)|)
  {
    var stamps := SavedStamps(nows, log.counter);
    if events == [] {
      OldStampsUnused(log.rows, nows, log.counter);
    } else {
      var n := |events| - 1;
      var m := |SaveTimes(events[..n])|;
      PrefixRuns(events, nows);
      StampsDistinctIff(nows, log.counter);
      RunStampsOnce(log, events[..n], nows);
      if events[n].Save? { StampAt(nows, log.counter, m); }
      NextRows(Run(log, events[..n]), events[n], if m < |nows| then stamps[m] else 0);
      if events[n].Save? { NextUnused(Run(log, events[..n]).rows, Run(log, events).rows, stamps, m); }
    }
  }

  lemma {:induction false} NextUnused(rows: seq<Row>, after: seq<Row>, stamps: seq<nat>, m: nat)
    requires Unused(rows, stamps, m) && DistinctStamps(stamps) && m < |stamps|
    requires forall r :: r in after && IsCheckpoint(r) ==> r in rows || r.ts == stamps[m]
    ensures Unused(after, stamps, m + 1)
  {
  }

  lemma {:induction false} NextBefore(rows: seq<Row>, after: seq<Row>, stamps: seq<nat>, m: nat)
    requires Before(rows, stamps, m) && Increasing(stamps) && m < |stamps|
    requires forall r :: r in after && IsCheckpoint(r) ==> r in rows || r.ts == stamps[m]
    ensures Before(after, stamps, m + 1)
  {
  }

  lemma {:induction false} IncreasingIsSpaced(nows: seq<nat>, counter: nat)
    requires NonDecreasing(nows) && NoWrapWithinMs(nows, counter)
    ensures AtMostThousandPerMs(nows) && Increasing(SavedStamps(nows, counter))
  {
    StampsIncreaseIff(nows, counter);
    StampsDistinctIff(nows, counter);
  }

  /** Without a wrap inside a millisecond, every save is later than every checkpoint before it. */
  lemma {:induction false} RunStampsClimb(log: Log, events: seq<Event>, nows: seq<nat>)
    requires Older(log.rows, nows) && SavedOnly(events) && SaveTimes(events) <= nows
    requires NonDecreasing(nows) && AtMostThousandPerMs(nows) && Increasing(SavedStamps(nows, log.counter))
    ensures Before(Run(log, events).rows, SavedStamps(nows, log.counter), |SaveTimes(events)|)
  {
    if events == [] {
      OldStampsUnused(log.rows, nows, log.counter);
    } else {
      var n := |events| - 1;
      PrefixRuns(events, nows);
      RunStampsOnce(log, events[..n], nows);
      RunStampsClimb(log, events[..n], nows);
      if events[n].Save? { StampAt(nows, log.counter, |SaveTimes(events[..n])|); }
      OneClimb(Run(log, events[..n]), events[n], SavedStamps(nows, log.counter), |SaveTimes(events[..n])|);
    }
  }

  lemma {:induction false} OneClimb(log: Log, e: Event, stamps: seq<nat>, m: nat)
    requires DistinctCheckpoints(log.rows) && (e.Append? ==> e.kind != Checkpoint)
    requires Before(log.rows, stamps, m) && Increasing(stamps)
    requires e.Save? ==> m < |stamps| && stamps[m] == Stamp(e.now, log.counter)
    ensures Before(Next(log, e).rows, stamps, if e.Save? then m + 1 else m)
  {
    NextRows(log, e, if e.Save? then stamps[m] else 0);
    if e.Save? { NextBefore(log.rows, Next(log, e).rows, stamps, m); }
  }

  /** After any run of saves, prunes and other entries, with a clock that never goes back and at
   *  most a thousand saves in each millisecond, pruning any session is exact. The tape may hold older
   *  checkpoints, as after a restart. */
  lemma {:induction false} PruneExactInEveryRun(log: Log, events: seq<Event>, session: string, keep: int)
    requires Older(log.rows, SaveTimes(events)) && SavedOnly(events) && session != ""
    requires NonDecreasing(SaveTimes(events)) && AtMostThousandPerMs(SaveTimes(events))
    ensures ExactFor(Run(log, events).rows, session, keep)
  {
    RunStampsOnce(log, events, SaveTimes(events));
    var rows := Run(log, events).rows;
    ListDistinct(rows, session);
    ExactWhenDistinct(rows, session, keep);
  }

  lemma {:induction false} ListDistinct(rows: seq<Row>, session: string)
    requires DistinctCheckpoints(rows) && session != ""
    ensures DistinctTs(ListCheckpoints(rows, session))
  {
    var list := ListCheckpoints(rows, session);
    ListDescends(rows, session);
    SameCheckpoints(rows, session);
    var own := (r: Row) => CheckpointOf(r, session);
    SortSorts(Filter(rows, own), NewestFirst);
    forall i, j | 0 <= i < j < |list| ensures list[i].ts != list[j].ts {
      var t := list[i].ts;
      var same := (r: Row) => own(r) && r.ts == t;
      FilterCount(list, Filter(rows, own), same);
      FilterWithin(rows, own, same);
      OneWithStamp(rows, t, same);
      if list[j].ts == t { TwoKept(list, i, j, same); }
    }
  }

  lemma {:induction false} OneWithStamp(rows: seq<Row>, t: int, p: Row -> bool)
    requires DistinctCheckpoints(rows) && forall r :: p(r) ==> IsCheckpoint(r) && r.ts == t
    ensures |Filter(rows, p)| <= 1
  {
    if rows != [] {
      var n := |rows| - 1;
      OneWithStamp(rows[..n], t, p);
      if p(rows[n]) { FilterNone(rows[..n], p); }
    }
  }

  lemma {:induction false} TwoKept(list: seq<Row>, i: nat, j: nat, p: Row -> bool)
    requires i < j < |list| && p(list[i]) && p(list[j])
    ensures |Filter(list, p)| >= 2
  {
    assert list == list[..j] + list[j..];
    FilterAppend(list[..j], list[j..], p);
    FilterIn(list[..j], p);
    FilterIn(list[j..], p);
    assert list[..j][i] in Filter(list[..j], p) && list[j..][0] in Filter(list[j..], p);
  }

  /** After the run, pruning leaves what it means to keep and returns how many it deleted. */
  ghost predicate PrunesRight(log: Log, events: seq<Event>, session: string, keep: int) {
    var rows := Run(log, events).rows;
    && ExactFor(rows, session, keep)
    && |rows| - |AfterPrune(rows, session, keep)| == |ListCheckpoints(rows, session)| - KeepCount(rows, session, keep)
  }

  lemma {:induction false} PrunesRightIff(log: Log, events: seq<Event>, session: string, keep: int)
    requires session != ""
    ensures PrunesRight(log, events, session, keep) <==> ExactFor(Run(log, events).rows, session, keep)
  {
    PruneExactIff(Run(log, events).rows, session, keep);
    PruneCountIff(Run(log, events).rows, session, keep);
  }

  /** For a clock that never goes back: after every run whose saves are the first of those at `nows`,
   *  pruning any session to any number is exact and counted right, if and only if no millisecond of
   *  `nows` sees more than a thousand saves. */
  lemma {:induction false} PrunesRightInEveryRunIff(nows: seq<nat>, counter: nat)
    requires NonDecreasing(nows)
    ensures AtMostThousandPerMs(nows) <==>
      forall log: Log, events, session, keep ::
        log.counter == counter && Resumable(log, events, nows) && session != "" ==>
        PrunesRight(log, events, session, keep)
  {
    if AtMostThousandPerMs(nows) {
      forall log: Log, events, session, keep | log.counter == counter && Resumable(log, events, nows) && session != ""
        ensures PrunesRight(log, events, session, keep)
      {
        RunStampsOnce(log, events, nows);
        ListDistinct(Run(log, events).rows, session);
        ExactWhenDistinct(Run(log, events).rows, session, keep);
        PrunesRightIff(log, events, session, keep);
      }
    } else {
      var i, j :| 0 <= i < j < |nows| && j == i + 1000 && nows[i] == nows[j];
      var log := Log([], 1, counter);
      var events := Saves(nows, "s");
      SavesRun(nows, log, "s");
      TwoOfOneStamp(nows, log, i, j, "s");
      PruneAlwaysExactIff(Run(log, events).rows, "s");
      var keep: int :| !ExactFor(Run(log, events).rows, "s", keep);
      PrunesRightIff(log, events, "s", keep);
      assert log.counter == counter && Resumable(log, events, nows) && !PrunesRight(log, events, "s", keep);
    }
  }

  lemma {:induction false} SavesOwn(nows: seq<nat>, log: Log, session: string)
    requires log.rows == []
    ensures var after := Run(log, Saves(nows, session));
      after.nextId == log.nextId + |nows| && forall r :: r in after.rows ==> CheckpointOf(r, session)
  {
    if nows != [] {
      var n := |nows| - 1;
      SavesOwn(nows[..n], log, session);
      assert nows[..n + 1] == nows;
      OneMoreOfSaves(nows, n, log, session);
    }
  }

  /** The row of the `k`-th save stays in the table. */
  lemma {:induction false} SavedIn(nows: seq<nat>, log: Log, k: nat, session: string, row: Row)
    requires log.rows == [] && k < |nows|
    requires row == Row(log.nextId + k, Stamp(nows[k], log.counter + k), session, Checkpoint, "")
    ensures row in Run(log, Saves(nows, session)).rows
  {
    var n := |nows| - 1;
    assert nows[..n + 1] == nows;
    OneMoreOfSaves(nows, n, log, session);
    if k < n {
      SavedIn(nows[..n], log, k, session, row);
    } else {
      SavesRun(nows[..n], log, session);
      SavesOwn(nows[..n], log, session);
    }
  }

  lemma {:induction false} TwoOfOneStamp(nows: seq<nat>, log: Log, i: nat, j: nat, session: string)
    requires i < j < |nows| && j == i + 1000 && nows[i] == nows[j] && session != "" && log.rows == []
    ensures !DistinctTs(ListCheckpoints(Run(log, Saves(nows, session)).rows, session))
  {
    SameStampIff(nows[i], nows[j], log.counter + i, 1000);
    TwoSaved(nows, log, i, j, session, Stamp(nows[i], log.counter + i), Stamp(nows[j], log.counter + j));
  }

  lemma {:induction false} TwoSaved(nows: seq<nat>, log: Log, i: nat, j: nat, session: string, s: nat, t: nat)
    requires i < j < |nows| && session != "" && log.rows == []
    requires s == Stamp(nows[i], log.counter + i) && t == Stamp(nows[j], log.counter + j) && s == t
    ensures !DistinctTs(ListCheckpoints(Run(log, Saves(nows, session)).rows, session))
  {
    var a := Row(log.nextId + i, s, session, Checkpoint, "");
    var b := Row(log.nextId + j, t, session, Checkpoint, "");
    SavedIn(nows, log, i, session, a);
    SavedIn(nows, log, j, session, b);
    SavesOwn(nows, log, session);
    TwoListed(Run(log, Saves(nows, session)).rows, session, a, b);
  }

  lemma {:induction false} TwoListed(rows: seq<Row>, session: string, a: Row, b: Row)
    requires session != "" && forall r :: r in rows ==> CheckpointOf(r, session)
    requires a in rows && b in rows && a != b && a.ts == b.ts
    ensures !DistinctTs(ListCheckpoints(rows, session))
  {
    AllListed(rows, session);
    SharedStamp(ListCheckpoints(rows, session), a, b);
  }

  lemma {:induction false} SharedStamp(list: seq<Row>, a: Row, b: Row)
    requires a in list && b in list && a != b && a.ts == b.ts
    ensures !DistinctTs(list)
  {
    var i :| 0 <= i < |list| && list[i] == a;
    var j :| 0 <= j < |list| && list[j] == b;
    assert list[if i < j then i else j].ts == list[if i < j then j else i].ts;
  }

  lemma {:induction false} AllListed(rows: seq<Row>, session: string)
    requires session != "" && forall r :: r in rows ==> CheckpointOf(r, session)
    ensures forall r :: r in rows ==> r in ListCheckpoints(rows, session)
  {
    SameCheckpoints(rows, session);
    FilterAll(rows, (r: Row) => CheckpointOf(r, session));
    SortSorts(rows, NewestFirst);
    forall r | r in rows ensures r in ListCheckpoints(rows, session) {
      assert multiset(PruneOrder(rows, session))[r] > 0;
    }
  }

  // The latest checkpoint

  /** What a session should resume from: its last save, or nothing once a prune keeps none. */
  function LastSaved(log: Log, events: seq<Event>, session: string): Option<Row> {
    if events == [] then LoadLatest(log.rows, session)
    else
      var earlier := events[..|events| - 1];
      AfterEvent(Run(log, earlier), events[|events| - 1], session, LastSaved(log, earlier, session))
  }

  function AfterEvent(now: Log, e: Event, session: string, last: Option<Row>): Option<Row> {
    match e
    case Save(ms, s, messages) =>
      if s == session then Some(Row(now.nextId, Stamp(ms, now.counter), s, Checkpoint, messages)) else last
    case Append(_, _, _, _) => last
    case Prune(s, keep) => if s == session && KeepCount(now.rows, s, keep) == 0 then None else last
  }

  ghost predicate LatestRight(log: Log, events: seq<Event>, session: string) {
    LoadLatest(Run(log, events).rows, session) == LastSaved(log, events, session)
  }

  lemma {:induction false} LatestAfterPrune(rows: seq<Row>, s: string, keep: int, session: string)
    requires session != "" && DistinctCheckpoints(rows)
    ensures LoadLatest(AfterPrune(rows, s, keep), session) ==
      if s == session && KeepCount(rows, s, keep) == 0 then None else LoadLatest(rows, session)
  {
    var stamps := Pruned(rows, s, keep);
    var keeps := (r: Row) => Survives(r, s, stamps);
    if s != session {
      ReadIsOwn(rows, session);
      ListAfterDelete(rows, session, keeps);
      FilterAll(Filter(Replay(rows, session), IsCheckpoint), keeps);
    } else {
      ListDistinct(rows, session);
      LatestAfterOwnPrune(rows, session, keep);
    }
  }

  lemma {:induction false} LatestAfterOwnPrune(rows: seq<Row>, session: string, keep: int)
    requires session != "" && DistinctTs(ListCheckpoints(rows, session))
    ensures LoadLatest(AfterPrune(rows, session, keep), session) == if KeepCount(rows, session, keep) == 0 then None
      else LoadLatest(rows, session)
  {
    var list := ListCheckpoints(rows, session);
    var k := KeepCount(rows, session, keep);
    if k == 0 {
      PruneExactIff(rows, session, keep);
      ListedIffLatest(AfterPrune(rows, session, keep), session);
    } else {
      ListDescends(rows, session);
      LatestKeptIff(rows, session, keep);
    }
  }

  lemma {:induction false} ListedIffLatest(rows: seq<Row>, session: string)
    ensures ListCheckpoints(rows, session) == [] <==> LoadLatest(rows, session) == None
  {
    SortSorts(Filter(Replay(rows, session), IsCheckpoint), Newer);
  }

  lemma {:induction false} LatestAfterRow(rows: seq<Row>, row: Row, session: string)
    requires session != "" && IsCheckpoint(row) && AllBefore(rows, row.ts)
    ensures LoadLatest(rows + [row], session) == if row.session == session then Some(row) else LoadLatest(rows, session)
  {
    if row.session == session {
      LatestIsOwn(rows, session);
      LatestAfterSave(rows, row, session);
    } else {
      AppendUnseen(rows, row, session, IsCheckpoint);
    }
  }

  lemma {:induction false} NextLatest(log: Log, e: Event, session: string, expected: Option<Row>)
    requires session != "" && LoadLatest(log.rows, session) == expected && DistinctCheckpoints(log.rows)
    requires e.Append? ==> e.kind != Checkpoint
    requires e.Save? ==> AllBefore(log.rows, Stamp(e.now, log.counter))
    ensures LoadLatest(Next(log, e).rows, session) == AfterEvent(log, e, session, expected)
  {
    match e
    case Save(ms, s, messages) =>
      var row := Row(log.nextId, Stamp(ms, log.counter), s, Checkpoint, messages);
      LatestAfterRow(log.rows, row, session);
      assert Next(log, e).rows == log.rows + [row];
    case Append(ts, s, kind, payload) =>
      var row := Row(log.nextId, ts, s, kind, payload);
      AppendUnseen(log.rows, row, session, IsCheckpoint);
      assert Next(log, e).rows == log.rows + [row];
    case Prune(s, keep) =>
      LatestAfterPrune(log.rows, s, keep, session);
  }

  /** After any run without a wrap inside a millisecond, a session resumes from its last save. */
  lemma {:induction false} LatestIsLastSaved(log: Log, events: seq<Event>, session: string, nows: seq<nat>)
    requires Older(log.rows, nows) && SavedOnly(events) && SaveTimes(events) <= nows && session != ""
    requires NonDecreasing(nows) && NoWrapWithinMs(nows, log.counter)
    ensures LatestRight(log, events, session)
  {
    if events != [] {
      var n := |events| - 1;
      PrefixRuns(events, nows);
      LatestIsLastSaved(log, events[..n], session, nows);
      NextIsLater(log, events[..n], nows);
      NextLatest(Run(log, events[..n]), events[n], session, LastSaved(log, events[..n], session));
    }
  }

  lemma {:induction false} NextIsLater(log: Log, events: seq<Event>, nows: seq<nat>)
    requires Older(log.rows, nows) && SavedOnly(events) && SaveTimes(events) <= nows
    requires NonDecreasing(nows) && NoWrapWithinMs(nows, log.counter)
    ensures var m, now := |SaveTimes(events)|, Run(log, events);
      DistinctCheckpoints(now.rows) && (m < |nows| ==> AllBefore(now.rows, Stamp(nows[m], now.counter)))
  {
    IncreasingIsSpaced(nows, log.counter);
    RunStampsOnce(log, events, nows);
    RunStampsClimb(log, events, nows);
    if |SaveTimes(events)| < |nows| { NextStampLater(Run(log, events).rows, nows, log.counter, |SaveTimes(events)|); }
  }

  lemma {:induction false} NextStampLater(rows: seq<Row>, nows: seq<nat>, counter: nat, m: nat)
    requires Before(rows, SavedStamps(nows, counter), m) && m < |nows|
    ensures AllBefore(rows, Stamp(nows[m], counter + m))
  {
    StampAt(nows, counter, m);
  }

  lemma {:induction false} PrefixRuns(events: seq<Event>, nows: seq<nat>)
    requires events != [] && SavedOnly(events) && SaveTimes(events) <= nows
    ensures var n := |events| - 1; var m := |SaveTimes(events[..n])|;
      && SavedOnly(events[..n]) && SaveTimes(events[..n]) <= nows
      && (events[n].Append? ==> events[n].kind != Checkpoint)
      && (events[n].Save? ==> m < |nows| && nows[m] == events[n].now)
  {
    assert events[|events| - 1] in events;
  }

  lemma {:induction false} StampAt(nows: seq<nat>, counter: nat, m: nat)
    requires m < |nows|
    ensures SavedStamps(nows, counter)[m] == Stamp(nows[m], counter + m)
  {
  }

  /** When the counter wraps between two saves of a session in one millisecond, the older of the two
   *  is what the session resumes from. */
  lemma {:induction false} WrapResumesOlder(log: Log, ms: nat, session: string, older: string, newer: string)
    requires log.counter % 1000 == 999 && session != ""
    requires forall r :: r in log.rows && IsCheckpoint(r) ==> r.ts <= Stamp(ms, log.counter)
    ensures LoadLatest(Run(log, [Save(ms, session, older), Save(ms, session, newer)]).rows, session)
      == Some(Row(log.nextId, Stamp(ms, log.counter), session, Checkpoint, older))
  {
    var a := Row(log.nextId, Stamp(ms, log.counter), session, Checkpoint, older);
    var b := Row(log.nextId + 1, Stamp(ms, log.counter + 1), session, Checkpoint, newer);
    TwoSaves(log, ms, session, older, newer, a, b);
    StampWraps(ms, log.counter);
    EarlierIsMissed(log.rows, a, b, session);
  }

  lemma {:induction false} StampWraps(ms: nat, counter: nat)
    requires counter % 1000 == 999
    ensures Stamp(ms, counter + 1) < Stamp(ms, counter)
  {
  }

  lemma {:induction false} TwoSaves(log: Log, ms: nat, session: string, older: string, newer: string, a: Row, b: Row)
    requires a == Row(log.nextId, Stamp(ms, log.counter), session, Checkpoint, older)
    requires b == Row(log.nextId + 1, Stamp(ms, log.counter + 1), session, Checkpoint, newer)
    ensures Run(log, [Save(ms, session, older), Save(ms, session, newer)]).rows == log.rows + [a] + [b]
  {
    var x, y := Save(ms, session, older), Save(ms, session, newer);
    assert [x, y][..1] == [x] && [x][..0] == [];
    assert Run(log, [x]) == Next(Run(log, []), x);
  }

  /** For a clock that never goes back: in every run whose saves are the first of those at `nows`,
   *  every session resumes from its last save, if and only if the counter never wraps within a
   *  millisecond of `nows`. */
  lemma {:induction false} LatestIsLastSavedIff(nows: seq<nat>, counter: nat)
    requires NonDecreasing(nows)
    ensures NoWrapWithinMs(nows, counter) <==>
      forall log: Log, events, session :: log.counter == counter && Resumable(log, events, nows) && session != "" ==>
        LatestRight(log, events, session)
  {
    if NoWrapWithinMs(nows, counter) {
      forall log: Log, events, session | log.counter == counter && Resumable(log, events, nows) && session != ""
        ensures LatestRight(log, events, session)
      {
        LatestIsLastSaved(log, events, session, nows);
      }
    } else {
      var k: nat :| 0 <= k < |nows| - 1 && (counter + k) % 1000 == 999 && nows[k] == nows[k + 1];
      var log := Log([], 1, counter);
      var events := Saves(nows[..k + 2], "s");
      SavesRun(nows[..k + 2], log, "s");
      WrapGivesOlder(nows, counter, k, log, "s");
      assert log.counter == counter && Resumable(log, events, nows) && !LatestRight(log, events, "s");
    }
  }

  /** A run over a tape with older checkpoints whose saves are the first of those at `nows`. */
  ghost predicate Resumable(log: Log, events: seq<Event>, nows: seq<nat>) {
    Older(log.rows, nows) && SavedOnly(events) && SaveTimes(events) <= nows
  }

  /** Saves of one session at the times `nows`. */
  function Saves(nows: seq<nat>, session: string): seq<Event> {
    if nows == [] then [] else Saves(nows[..|nows| - 1], session) + [Save(nows[|nows| - 1], session, "")]
  }

  lemma {:induction false} SavesRun(nows: seq<nat>, log: Log, session: string)
    ensures SaveTimes(Saves(nows, session)) == nows && SavedOnly(Saves(nows, session))
      && |Saves(nows, session)| == |nows|
    ensures Run(log, Saves(nows, session)).counter == log.counter + |nows|
  {
    if nows != [] {
      var n := |nows| - 1;
      SavesRun(nows[..n], log, session);
      assert Saves(nows, session)[..n] == Saves(nows[..n], session);
      assert nows == nows[..n] + [nows[n]];
    }
  }

  lemma {:induction false} OneMoreOfSaves(nows: seq<nat>, k: nat, log: Log, session: string)
    requires k < |nows|
    ensures Saves(nows[..k + 1], session) == Saves(nows[..k], session) + [Save(nows[k], session, "")]
    ensures Run(log, Saves(nows[..k + 1], session)) ==
      Next(Run(log, Saves(nows[..k], session)), Save(nows[k], session, ""))
  {
    assert nows[..k + 1][..k] == nows[..k];
    var events := Saves(nows[..k], session);
    assert (events + [Save(nows[k], session, "")])[..|events|] == events;
  }

  lemma {:induction false} WrapGivesOlder(nows: seq<nat>, counter: nat, k: nat, log: Log, session: string)
    requires k < |nows| - 1 && (counter + k) % 1000 == 999 && nows[k] == nows[k + 1]
    requires log.counter == counter && session != ""
    ensures !LatestRight(log, Saves(nows[..k + 2], session), session)
  {
    var events := Saves(nows[..k + 1], session);
    SavesRun(nows[..k], log, session);
    OneMoreOfSaves(nows, k, log, session);
    OneMoreOfSaves(nows, k + 1, log, session);
    StampWraps(nows[k], counter + k);
    SecondIsMissed(Run(log, Saves(nows[..k], session)), nows[k], session);
    LastOfSaves(log, events, nows[k + 1], session);
  }

  lemma {:induction false} LastOfSaves(log: Log, events: seq<Event>, ms: nat, session: string)
    ensures var now := Run(log, events);
      LastSaved(log, events + [Save(ms, session, "")], session) ==
        Some(Row(now.nextId, Stamp(ms, now.counter), session, Checkpoint, ""))
  {
    assert (events + [Save(ms, session, "")])[..|events|] == events;
  }

  lemma {:induction false} SecondIsMissed(log: Log, ms: nat, session: string)
    requires Stamp(ms, log.counter + 1) < Stamp(ms, log.counter) && session != ""
    ensures var after := Next(log, Save(ms, session, ""));
      LoadLatest(Next(after, Save(ms, session, "")).rows, session) !=
        Some(Row(after.nextId, Stamp(ms, after.counter), session, Checkpoint, ""))
  {
    TwoRowsMissed(log, Save(ms, session, ""), Row(log.nextId, Stamp(ms, log.counter), session, Checkpoint, ""),
      Row(log.nextId + 1, Stamp(ms, log.counter + 1), session, Checkpoint, ""), session);
  }

  lemma {:induction false} TwoRowsMissed(log: Log, e: Event, a: Row, b: Row, session: string)
    requires Next(log, e).rows == log.rows + [a] && Next(Next(log, e), e).rows == log.rows + [a] + [b]
    requires CheckpointOf(a, session) && CheckpointOf(b, session) && b.ts < a.ts
    ensures LoadLatest(Next(Next(log, e), e).rows, session) != Some(b)
  {
    EarlierIsMissed(log.rows, a, b, session);
  }
}
