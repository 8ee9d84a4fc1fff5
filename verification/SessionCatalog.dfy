/** The session catalog as a table with two unique keys, and the addresses given to sessions known
 *  only from the tape. */
module SessionCatalog {
  import opened StableSort
  import opened Wrappers
  import TapeModel

  datatype SessionKind = Conversation | Scheduled | Subagent | SystemKind

  datatype Status = Open | Closed | Archived

  /** A missing thread key is stored as the empty string. */
  datatype Address = Address(channel: string, scope: string, conversationKey: string, threadKey: string)

  datatype Session = Session(id: string, kind: SessionKind, status: Status, address: Address, parent: Option<string>,
          title: Option<string>, tags: seq<string>, metadata: map<string, string>, createdAt: int, updatedAt: int,
          lastTurnAt: Option<int>)

  datatype CreateOptions = CreateOptions(id: Option<string>, kind: Option<SessionKind>, status: Option<Status>,
          address: Address, parent: Option<string>, title: Option<string>, tags: seq<string>,
          metadata: map<string, string>, createdAt: Option<int>, updatedAt: Option<int>, lastTurnAt: Option<int>)

  datatype Error = EmptyId | IdTaken | AddressTaken | NotFound

  function FindId(rows: seq<Session>, id: string): (found: Option<Session>)
    ensures found.Some? <==> exists s :: s in rows && s.id == id
    ensures found.Some? ==> found.value in rows && found.value.id == id
  {
    if rows == [] then None else if rows[0].id == id then Some(rows[0]) else FindId(rows[1..], id)
  }

  function FindAddress(rows: seq<Session>, address: Address): (found: Option<Session>)
    ensures found.Some? <==> exists s :: s in rows && s.address == address
    ensures found.Some? ==> found.value in rows && found.value.address == address
  {
    if rows == [] then None else if rows[0].address == address then Some(rows[0]) else FindAddress(rows[1..], address)
  }

  /** The primary key and the unique index. */
  ghost predicate UniqueKeys(rows: seq<Session>) {
    forall i, j :: 0 <= i < j < |rows| ==> rows[i].id != rows[j].id && rows[i].address != rows[j].address
  }

  function Create(rows: seq<Session>, options: CreateOptions, now: int, randomId: string): Result<Session, Error> {
    if options.id == Some("") then Err(EmptyId)
    else
      var id := if options.id.Some? then options.id.value else randomId;
      var createdAt := if options.createdAt.Some? then options.createdAt.value else now;
      if FindId(rows, id).Some? then Err(IdTaken)
      else if FindAddress(rows, options.address).Some? then Err(AddressTaken)
      else Ok(Session(id,
                      if options.kind.Some? then options.kind.value else Conversation,
                      if options.status.Some? then options.status.value else Open,
                      options.address, options.parent, options.title, options.tags, options.metadata,
                      createdAt,
                      if options.updatedAt.Some? then options.updatedAt.value else createdAt,
                      options.lastTurnAt))
  }

  // Legacy addresses

  const LEGACY_CHANNELS := {"cli", "tui", "telegram", "slack", "websocket", "sse", "email", "whatsapp"}

  function IndexOf(s: string, c: char): (i: int)
    ensures -1 <= i < |s| && (i >= 0 ==> s[i] == c) && (i < 0 ==> c !in s)
  {
    if s == "" then -1 else if s[0] == c then 0
    else var i := IndexOf(s[1..], c); if i < 0 then -1 else i + 1
  }

  function LastIndexOf(s: string, c: char): (i: int)
    ensures -1 <= i < |s| && (i >= 0 ==> s[i] == c) && (i < 0 ==> c !in s)
  {
    if s == "" then -1 else if s[|s| - 1] == c then |s| - 1 else LastIndexOf(s[..|s| - 1], c)
  }

  function LegacySession(id: string): (SessionKind, Address) {
    if id == "_system" then (SystemKind, Address("system", "legacy", "_system", ""))
    else
      var firstColon := IndexOf(id, ':');
      if firstColon > 0 && firstColon == LastIndexOf(id, ':') && firstColon < |id| - 1
        && id[..firstColon] in LEGACY_CHANNELS then
        (Conversation, Address(id[..firstColon], "legacy", id[firstColon + 1..], ""))
      else (Conversation, Address("legacy", "legacy", id, ""))
  }

  /** The session a legacy address was made for. */
  function LegacyOwner(address: Address): string {
    if address.channel == "system" || address.channel == "legacy" then address.conversationKey
    else address.channel + ":" + address.conversationKey
  }

  /** A legacy address gives back the session it was made for, so no two sessions share one. */
  lemma {:induction false} LegacyRoundTrip(id: string)
    ensures LegacyOwner(LegacySession(id).1) == id && LegacySession(id).1.scope == "legacy"
  {
    var firstColon := IndexOf(id, ':');
    var address := LegacySession(id).1;
    if address.channel != "system" && address.channel != "legacy" {
      assert id == id[..firstColon] + ":" + id[firstColon + 1..];
    }
  }

  lemma {:induction false} LegacyInjective(a: string, b: string)
    requires LegacySession(a).1 == LegacySession(b).1
    ensures a == b
  {
    LegacyRoundTrip(a);
    LegacyRoundTrip(b);
  }

  /** The id is a known channel, a colon, and a key without one. */
  predicate SplitsAs(id: string, channel: string, key: string) {
    && channel in {"cli", "tui", "telegram", "slack", "websocket", "sse", "email", "whatsapp"}
    && id == channel + ":" + key && key != "" && ':' !in key
  }

  lemma {:induction false} OneColon(before: string, after: string)
    requires ':' !in before && ':' !in after
    ensures IndexOf(before + ":" + after, ':') == |before| == LastIndexOf(before + ":" + after, ':')
  {
    var id := before + ":" + after;
    assert id[|before|] == ':';
    assert forall i :: 0 <= i < |id| && id[i] == ':' ==> i == |before|;
  }

  lemma {:induction false} FirstAndLast(s: string, c: char)
    ensures forall i :: 0 <= i < IndexOf(s, c) ==> s[i] != c
    ensures forall i :: LastIndexOf(s, c) < i < |s| ==> s[i] != c
  {
    if s != "" {
      FirstAndLast(s[1..], c);
      FirstAndLast(s[..|s| - 1], c);
    }
  }

  /** A session that names a known channel and a key has that for its address, and only such a one;
   *  `_system` has an address of its own; every other session has its whole id for the key. */
  lemma {:induction false} LegacyAddressIs(id: string)
    ensures forall channel, key ::
      SplitsAs(id, channel, key) ==> LegacySession(id) == (Conversation, Address(channel, "legacy", key, ""))
    ensures !(exists channel, key :: SplitsAs(id, channel, key)) ==>
      LegacySession(id) ==
        if id == "_system" then (SystemKind, Address("system", "legacy", "_system", ""))
        else (Conversation, Address("legacy", "legacy", id, ""))
  {
    forall channel, key | SplitsAs(id, channel, key)
      ensures LegacySession(id) == (Conversation, Address(channel, "legacy", key, ""))
    {
      SplitAddress(id, channel, key);
    }
    WholeAddress(id);
  }

  lemma {:induction false} SplitAddress(id: string, channel: string, key: string)
    requires SplitsAs(id, channel, key)
    ensures LegacySession(id) == (Conversation, Address(channel, "legacy", key, ""))
  {
    NoColons(channel);
    OneColon(channel, key);
    var at := |channel|;
    assert id[at] == ':' && "_system"[0] != ':' && ':' !in "_system";
    assert id[..at] == channel && id[at + 1..] == key;
  }

  lemma {:induction false} NoColons(channel: string)
    requires channel in {"cli", "tui", "telegram", "slack", "websocket", "sse", "email", "whatsapp"}
    ensures ':' !in channel && channel != ""
  {
  }

  lemma {:induction false} WholeAddress(id: string)
    ensures var (kind, address) := LegacySession(id);
      || (exists channel, key :: SplitsAs(id, channel, key))
      || (kind, address) ==
           if id == "_system" then (SystemKind, Address("system", "legacy", "_system", ""))
           else (Conversation, Address("legacy", "legacy", id, ""))
  {
    var at := IndexOf(id, ':');
    if id != "_system" && at > 0 && at == LastIndexOf(id, ':') && at < |id| - 1 && id[..at] in LEGACY_CHANNELS {
      FirstAndLast(id, ':');
      assert id == id[..at] + ":" + id[at + 1..];
      assert SplitsAs(id, id[..at], id[at + 1..]);
    }
  }

  /** The address used when the legacy one is taken. */
  function FallbackAddress(id: string): Address { Address("legacy", "runtime-compat:" + id, id, "") }

  const RUNTIME_COMPAT := "runtime-compat"

  function EnsureOptions(id: string, address: Address): CreateOptions {
    CreateOptions(Some(id), Some(LegacySession(id).0), None, address, None, None, [],
                  map["legacyId" := id, "source" := RUNTIME_COMPAT], None, None, None)
  }

  // Bootstrap

  /** One row of the grouping query. */
  datatype TapeSession = TapeSession(id: string, minTs: int, maxTs: int, lastTurnTs: Option<int>)

  function Later(a: Option<int>, b: int): int { if a.Some? && a.value > b then a.value else b }

  function Sooner(a: Option<int>, b: int): int { if a.Some? && a.value < b then a.value else b }

  /** `MIN(ts)`, `MAX(ts)` and the latest turn of one session's rows, nothing for a session without rows. */
  function Aggregate(tape: seq<TapeModel.Row>, id: string): Option<TapeSession> {
    if tape == [] then None
    else
      var before := Aggregate(tape[..|tape| - 1], id);
      var r := tape[|tape| - 1];
      if r.session != id then before
      else
        var turn := if before.Some? then before.value.lastTurnTs else None;
        Some(TapeSession(id,
                         Sooner(if before.Some? then Some(before.value.minTs) else None, r.ts),
                         Later(if before.Some? then Some(before.value.maxTs) else None, r.ts),
                         if r.kind == TapeModel.Turn then Some(Later(turn, r.ts)) else turn))
  }

  predicate StringLess(a: string, b: string) {
    b != "" && (a == "" || a[0] < b[0] || (a[0] == b[0] && StringLess(a[1..], b[1..])))
  }

  function TapeIds(tape: seq<TapeModel.Row>): seq<string> {
    if tape == [] then []
    else
      var before := TapeIds(tape[..|tape| - 1]);
      var id := tape[|tape| - 1].session;
      if id in before then before else before + [id]
  }

  /** `GROUP BY session_id ORDER BY session_id ASC`. */
  function TapeSessions(tape: seq<TapeModel.Row>): seq<string> { Sort(TapeIds(tape), StringLess) }

  function LegacyRow(tape: seq<TapeModel.Row>, id: string): Session {
    var (kind, address) := LegacySession(id);
    var group := Aggregate(tape, id);
    var t := if group.Some? then group.value else TapeSession(id, 0, 0, None);
    Session(id, kind, Open, address, None, None, [], map["legacyId" := id], t.minTs, t.maxTs, t.lastTurnTs)
  }

  /** Whether `INSERT ... ON CONFLICT DO NOTHING` inserts. */
  predicate Free(rows: seq<Session>, id: string, address: Address) {
    FindId(rows, id).None? && FindAddress(rows, address).None?
  }

  function InsertAll(rows: seq<Session>, tape: seq<TapeModel.Row>, ids: seq<string>): seq<Session>
    decreases |ids|
  {
    if ids == [] then rows
    else
      var row := LegacyRow(tape, ids[0]);
      InsertAll(if Free(rows, row.id, row.address) then rows + [row] else rows, tape, ids[1..])
  }

  function Bootstrapped(rows: seq<Session>, tape: seq<TapeModel.Row>): seq<Session> {
    InsertAll(rows, tape, TapeSessions(tape))
  }

  /** The rows made for those sessions that, with their legacy address, are not in the catalog. */
  function NewRows(rows: seq<Session>, tape: seq<TapeModel.Row>, ids: seq<string>): seq<Session> {
    if ids == [] then []
    else
      var row := LegacyRow(tape, ids[0]);
      if Free(rows, row.id, row.address) then [row] + NewRows(rows, tape, ids[1..]) else NewRows(rows, tape, ids[1..])
  }

  /** Ascending is by the first character that differs, a string before its extensions. */
  lemma {:induction false} StringLessIs(a: string, b: string)
    ensures StringLess(a, b) <==> a < b || exists k :: 0 <= k < |a| && k < |b| && DifferFrom(a, b, k) && a[k] < b[k]
  {
    if a != "" && b != "" && a[0] == b[0] {
      StringLessIs(a[1..], b[1..]);
      assert a == [a[0]] + a[1..] && b == [b[0]] + b[1..];
      forall k: nat | k < |a| - 1 && k < |b| - 1
        ensures DifferFrom(a[1..], b[1..], k) && a[1..][k] < b[1..][k]
          <==> DifferFrom(a, b, k + 1) && a[k + 1] < b[k + 1]
      {
        assert a[..k + 1] == [a[0]] + a[1..][..k] && b[..k + 1] == [b[0]] + b[1..][..k];
      }
    }
  }

  /** The strings are the same up to there. */
  predicate DifferFrom(a: string, b: string, k: nat)
    requires k < |a| && k < |b|
  {
    a[..k] == b[..k] && a[k] != b[k]
  }

  lemma {:induction false} StringLessIsTotal(a: string, b: string)
    ensures StringLess(a, b) ==> !StringLess(b, a)
    ensures !StringLess(a, b) && !StringLess(b, a) ==> a == b
  {
    if a != "" && b != "" && a[0] == b[0] { StringLessIsTotal(a[1..], b[1..]); }
    assert a != "" ==> a == [a[0]] + a[1..];
    assert b != "" ==> b == [b[0]] + b[1..];
  }

  lemma {:induction false} StringLessTransits(a: string, b: string, c: string)
    ensures StringLess(a, b) ==> StringLess(a, c) || StringLess(c, b)
  {
    if a != "" && b != "" && c != "" && a[0] == b[0] == c[0] { StringLessTransits(a[1..], b[1..], c[1..]); }
  }

  lemma {:induction false} StringLessIsWeakOrder()
    ensures WeakOrder(StringLess)
  {
    forall a, b ensures StringLess(a, b) ==> !StringLess(b, a) { StringLessIsTotal(a, b); }
    forall a, b, c ensures StringLess(a, b) ==> StringLess(a, c) || StringLess(c, b) { StringLessTransits(a, b, c); }
  }

  lemma {:induction false} TapeIdsAre(tape: seq<TapeModel.Row>)
    ensures Distinct(TapeIds(tape)) && forall id :: id in TapeIds(tape) <==> exists r :: r in tape && r.session == id
  {
    if tape != [] {
      var n := |tape| - 1;
      TapeIdsAre(tape[..n]);
      assert forall r :: r in tape <==> r in tape[..n] || r == tape[n];
    }
  }

  /** The grouped sessions: each session of the tape once, in ascending order. */
  lemma {:induction false} TapeSessionsAre(tape: seq<TapeModel.Row>)
    ensures Distinct(TapeSessions(tape)) && Sorted(TapeSessions(tape), StringLess)
    ensures forall id :: id in TapeSessions(tape) <==> exists r :: r in tape && r.session == id
  {
    StringLessIsWeakOrder();
    TapeIdsAre(tape);
    SortSorts(TapeIds(tape), StringLess);
    forall i, j | 0 <= i < j < |TapeSessions(tape)| ensures TapeSessions(tape)[i] != TapeSessions(tape)[j] {
      DistinctCounts(TapeIds(tape), TapeSessions(tape)[i]);
      SameTwice(TapeSessions(tape), i, j);
    }
  }

  lemma {:induction false} SameTwice(ids: seq<string>, i: nat, j: nat)
    requires i < j < |ids|
    ensures ids[i] == ids[j] ==> multiset(ids)[ids[i]] >= 2
  {
    assert ids == ids[..j] + ids[j..];
    assert ids[..j][i] in ids[..j] && ids[j..][0] in ids[j..];
    assert multiset(ids) == multiset(ids[..j]) + multiset(ids[j..]);
  }

  /** What the grouping query computes for a session of the tape. */
  lemma {:induction false} AggregateIs(tape: seq<TapeModel.Row>, id: string)
    ensures Aggregate(tape, id).Some? <==> exists r :: r in tape && r.session == id
    ensures Aggregate(tape, id).Some? ==> GroupOf(tape, id, Aggregate(tape, id).value)
  {
    if tape != [] {
      var n := |tape| - 1;
      AggregateIs(tape[..n], id);
      assert forall r :: r in tape <==> r in tape[..n] || r == tape[n];
    }
  }

  /** Bounds that rows of the session attain. */
  ghost predicate GroupOf(tape: seq<TapeModel.Row>, id: string, t: TapeSession) {
    && (forall r :: r in tape && r.session == id ==> t.minTs <= r.ts <= t.maxTs)
    && (exists r :: r in tape && r.session == id && r.ts == t.minTs)
    && (exists r :: r in tape && r.session == id && r.ts == t.maxTs)
    && (forall r :: r in tape && r.session == id && r.kind == TapeModel.Turn ==>
      t.lastTurnTs.Some? && r.ts <= t.lastTurnTs.value)
    && (t.lastTurnTs.Some? ==> exists r ::
      r in tape && r.session == id && r.kind == TapeModel.Turn && r.ts == t.lastTurnTs.value)
  }

  lemma {:induction false} InsertAllIs(rows: seq<Session>, tape: seq<TapeModel.Row>, ids: seq<string>)
    requires Distinct(ids)
    ensures InsertAll(rows, tape, ids) == rows + NewRows(rows, tape, ids)
    decreases |ids|
  {
    if ids != [] {
      var row := LegacyRow(tape, ids[0]);
      var later := ids[1..];
      if Free(rows, row.id, row.address) {
        InsertAllIs(rows + [row], tape, later);
        NewRowsBeside(rows, row, tape, later);
        AppendOne(rows, row, NewRows(rows, tape, later));
      } else {
        InsertAllIs(rows, tape, later);
      }
    }
  }

  lemma {:induction false} AppendOne(rows: seq<Session>, row: Session, later: seq<Session>)
    ensures rows + [row] + later == rows + ([row] + later)
  {
  }

  /** A row made for another session is in nobody's way. */
  lemma {:induction false} NewRowsBeside(rows: seq<Session>, row: Session, tape: seq<TapeModel.Row>, ids: seq<string>)
    requires row == LegacyRow(tape, row.id) && row.id !in ids
    ensures NewRows(rows + [row], tape, ids) == NewRows(rows, tape, ids)
  {
    if ids != [] {
      var next := LegacyRow(tape, ids[0]);
      NewRowsBeside(rows, row, tape, ids[1..]);
      if next.address == row.address { LegacyInjective(ids[0], row.id); }
      assert forall s :: s in rows + [row] <==> s in rows || s == row;
    }
  }

  // What bootstrapping does

  lemma {:induction false} NewRowsAre(rows: seq<Session>, tape: seq<TapeModel.Row>, ids: seq<string>)
    ensures forall s :: s in NewRows(rows, tape, ids) <==>
      s.id in ids && s == LegacyRow(tape, s.id) && Free(rows, s.id, s.address)
    ensures |NewRows(rows, tape, ids)| <= |ids|
  {
    if ids != [] {
      NewRowsAre(rows, tape, ids[1..]);
      assert forall id :: id in ids <==> id == ids[0] || id in ids[1..];
    }
  }

  lemma {:induction false} NewRowsKeys(rows: seq<Session>, tape: seq<TapeModel.Row>, ids: seq<string>)
    requires Distinct(ids)
    ensures UniqueKeys(NewRows(rows, tape, ids))
  {
    if ids != [] {
      var row := LegacyRow(tape, ids[0]);
      var later := NewRows(rows, tape, ids[1..]);
      NewRowsKeys(rows, tape, ids[1..]);
      NewRowsAre(rows, tape, ids[1..]);
      forall s | s in later ensures s.id != row.id && s.address != row.address {
        if s.address == row.address { LegacyInjective(s.id, row.id); }
      }
    }
  }

  /** Rows are added behind the existing ones, which stay as they are; a session of the tape gets
   *  one exactly when neither its id nor its legacy address is in the catalog; and both keys stay
   *  unique. */
  lemma {:induction false} BootstrapAdds(rows: seq<Session>, tape: seq<TapeModel.Row>)
    requires UniqueKeys(rows)
    ensures rows <= Bootstrapped(rows, tape) && UniqueKeys(Bootstrapped(rows, tape))
    ensures forall s :: s in Bootstrapped(rows, tape)[|rows|..] <==>
      OnTape(tape, s.id) && s == LegacyRow(tape, s.id) && Free(rows, s.id, s.address)
  {
    var ids := TapeSessions(tape);
    var added := NewRows(rows, tape, ids);
    TapeSessionsAre(tape);
    InsertAllIs(rows, tape, ids);
    NewRowsAre(rows, tape, ids);
    NewRowsKeys(rows, tape, ids);
    forall s, t | s in rows && t in added ensures s.id != t.id && s.address != t.address {}
    assert (rows + added)[|rows|..] == added;
  }

  ghost predicate OnTape(tape: seq<TapeModel.Row>, id: string) { exists r :: r in tape && r.session == id }

  lemma {:induction false} AllNew(tape: seq<TapeModel.Row>, ids: seq<string>)
    ensures |NewRows([], tape, ids)| == |ids|
    ensures forall i :: 0 <= i < |ids| ==> NewRows([], tape, ids)[i] == LegacyRow(tape, ids[i])
  {
    if ids != [] { AllNew(tape, ids[1..]); }
  }

  /** From an empty catalog every session of the tape gets its row, in ascending order of ids. */
  lemma {:induction false} BootstrapFromEmpty(tape: seq<TapeModel.Row>)
    ensures |Bootstrapped([], tape)| == |TapeSessions(tape)|
    ensures forall i :: 0 <= i < |TapeSessions(tape)| ==>
      Bootstrapped([], tape)[i] == LegacyRow(tape, TapeSessions(tape)[i])
  {
    TapeSessionsAre(tape);
    InsertAllIs([], tape, TapeSessions(tape));
    AllNew(tape, TapeSessions(tape));
    assert [] + NewRows([], tape, TapeSessions(tape)) == NewRows([], tape, TapeSessions(tape));
  }

  /** A second run, from whatever catalog, creates nothing. */
  lemma {:induction false} BootstrapTwice(rows: seq<Session>, tape: seq<TapeModel.Row>)
    requires UniqueKeys(rows)
    ensures Bootstrapped(Bootstrapped(rows, tape), tape) == Bootstrapped(rows, tape)
  {
    var ids := TapeSessions(tape);
    var once := Bootstrapped(rows, tape);
    TapeSessionsAre(tape);
    BootstrapAdds(rows, tape);
    InsertAllIs(once, tape, ids);
    forall id | id in ids ensures !Free(once, id, LegacyRow(tape, id).address) {
      var row := LegacyRow(tape, id);
      assert once == rows + once[|rows|..];
      if Free(rows, id, row.address) { assert row in once[|rows|..]; }
    }
    NoneFree(once, tape, ids);
    assert once + [] == once;
  }

  lemma {:induction false} NoneFree(rows: seq<Session>, tape: seq<TapeModel.Row>, ids: seq<string>)
    requires forall id :: id in ids ==> !Free(rows, id, LegacyRow(tape, id).address)
    ensures NewRows(rows, tape, ids) == []
  {
    if ids != [] {
      assert ids[0] in ids;
      NoneFree(rows, tape, ids[1..]);
    }
  }

  // Finding or creating a session

  /** Rows other writers insert before the first and before the second attempt to create. */
  datatype Others = Others(first: seq<Session>, second: seq<Session>)

  /** The table after ensuring a session `id`, and the session found under it or created for it. */
  function Ensured(rows: seq<Session>, others: Others, id: string, now: int): (seq<Session>, Result<Session, Error>) {
    if FindId(rows, id).Some? then (rows, Ok(FindId(rows, id).value))
    else
      var seen := rows + others.first;
      var first := Create(seen, EnsureOptions(id, LegacySession(id).1), now, id);
      if FindId(seen, id).Some? then (seen, Ok(FindId(seen, id).value))
      else if first.Ok? then (seen + [first.value], first)
      else
        var later := seen + others.second;
        var second := Create(later, EnsureOptions(id, FallbackAddress(id)), now, id);
        if FindId(later, id).Some? then (later, Ok(FindId(later, id).value))
        else (if second.Ok? then later + [second.value] else later, second)
  }

  /** Ensuring fails exactly when nobody, not even another writer, has the id, and it is empty or
   *  both of its addresses belong to other sessions. */
  lemma {:induction false} EnsureFailsIff(rows: seq<Session>, others: Others, id: string, now: int)
    ensures var all := rows + others.first + others.second;
      Ensured(rows, others, id, now).1.Err? <==>
        (FindId(all, id).None?
          && (id == ""
              || (FindAddress(rows + others.first, LegacySession(id).1).Some?
                  && FindAddress(all, FallbackAddress(id)).Some?)))
  {
  }

  /** Whatever other writers do meanwhile, the table holds the one session returned, and ensuring
   *  the id again finds it and changes nothing. */
  lemma {:induction false} EnsureTwice(rows: seq<Session>, others: Others, id: string, now: int, again: Others,
          later: int)
    requires UniqueKeys(rows + others.first + others.second) && Ensured(rows, others, id, now).1.Ok?
    ensures var (table, session) := Ensured(rows, others, id, now);
      session.value.id == id && UniqueKeys(table) && rows <= table
        && Ensured(table, again, id, later) == (table, session)
  {
    EnsuredFound(rows, others, id, now);
    EnsuredUnique(rows, others, id, now);
  }

  lemma {:induction false} EnsuredUnique(rows: seq<Session>, others: Others, id: string, now: int)
    requires UniqueKeys(rows + others.first + others.second)
    ensures UniqueKeys(Ensured(rows, others, id, now).0)
  {
    var seen := rows + others.first;
    PrefixUnique(seen, others.second);
    PrefixUnique(rows, others.first);
    CreatedFound(seen, EnsureOptions(id, LegacySession(id).1), now, id);
    CreatedFound(seen + others.second, EnsureOptions(id, FallbackAddress(id)), now, id);
  }

  lemma {:induction false} EnsuredFound(rows: seq<Session>, others: Others, id: string, now: int)
    requires Ensured(rows, others, id, now).1.Ok?
    ensures FindId(Ensured(rows, others, id, now).0, id) == Some(Ensured(rows, others, id, now).1.value)
  {
    var seen := rows + others.first;
    CreatedFound(seen, EnsureOptions(id, LegacySession(id).1), now, id);
    CreatedFound(seen + others.second, EnsureOptions(id, FallbackAddress(id)), now, id);
  }

  /** A created row is found under its id, and leaves the keys unique. */
  lemma {:induction false} CreatedFound(rows: seq<Session>, options: CreateOptions, now: int, randomId: string)
    requires options.id == Some(randomId)
    ensures var made := Create(rows, options, now, randomId);
      made.Ok? ==>
        FindId(rows + [made.value], randomId) == Some(made.value)
        && (UniqueKeys(rows) ==> UniqueKeys(rows + [made.value]))
  {
    var made := Create(rows, options, now, randomId);
    if made.Ok? {
      if UniqueKeys(rows) { AddedUnique(rows, made.value); }
    }
  }

  lemma {:induction false} PrefixUnique(rows: seq<Session>, more: seq<Session>)
    requires UniqueKeys(rows + more)
    ensures UniqueKeys(rows)
  {
    assert forall i :: 0 <= i < |rows| ==> rows[i] == (rows + more)[i];
  }

  lemma {:induction false} AddedUnique(rows: seq<Session>, row: Session)
    requires UniqueKeys(rows) && Free(rows, row.id, row.address)
    ensures UniqueKeys(rows + [row])
  {
  }

  /** Every row has one of the addresses derived from its own id. */
  ghost predicate OwnAddresses(rows: seq<Session>) {
    forall s :: s in rows ==> s.address == LegacySession(s.id).1 || s.address == FallbackAddress(s.id)
  }

  /** In a catalog whose rows were all made by bootstrapping and ensuring, ensuring a non-empty id
   *  always succeeds, at its legacy address when the id is new. */
  lemma {:induction false} EnsureSucceeds(rows: seq<Session>, others: Others, id: string, now: int)
    requires OwnAddresses(rows + others.first) && id != ""
    ensures Ensured(rows, others, id, now).1.Ok?
    ensures OwnAddresses(Ensured(rows, others, id, now).0)
    ensures FindId(rows + others.first, id).None? ==>
      Ensured(rows, others, id, now).1.value.address == LegacySession(id).1
  {
    var seen := rows + others.first;
    if FindId(seen, id).None? {
      LegacyRoundTrip(id);
      forall s | s in seen ensures s.address != LegacySession(id).1 {
        assert |FallbackAddress(s.id).scope| > |"legacy"|;
        if s.address == LegacySession(id).1 == LegacySession(s.id).1 { LegacyInjective(s.id, id); }
      }
    }
  }

  /** What ensuring a new id makes of it. */
  lemma {:induction false} EnsuredIs(rows: seq<Session>, others: Others, id: string, now: int)
    requires FindId(rows + others.first + others.second, id).None? && Ensured(rows, others, id, now).1.Ok?
    ensures var taken := exists s :: s in rows + others.first && s.address == LegacySession(id).1;
      Ensured(rows, others, id, now).1.value ==
        Session(id, if id == "_system" then SystemKind else Conversation, Open,
          if taken then Address("legacy", "runtime-compat:" + id, id, "") else LegacySession(id).1,
          None, None, [], map["legacyId" := id, "source" := "runtime-compat"], now, now, None)
  {
  }

  /** What bootstrapping makes of a session of the tape: it was created with its first row, updated with
   *  its last, and had its last turn with its latest turn row. */
  lemma {:induction false} BootstrappedIs(tape: seq<TapeModel.Row>, id: string)
    requires OnTape(tape, id)
    ensures Aggregate(tape, id).Some? && var group := Aggregate(tape, id).value;
      LegacyRow(tape, id) ==
        Session(id, if id == "_system" then SystemKind else Conversation, Open, LegacySession(id).1, None, None, [],
          map["legacyId" := id], group.minTs, group.maxTs, group.lastTurnTs)
  {
    AggregateIs(tape, id);
  }

  /** What creating a session makes of what it is given, and of what it is not given. */
  lemma {:induction false} CreatedIs(rows: seq<Session>, options: CreateOptions, now: int, randomId: string)
    ensures var made := Create(rows, options, now, randomId);
      var id := if options.id == None then randomId else options.id.value;
      if options.id == Some("") then made == Err(EmptyId)
      else if exists s :: s in rows && s.id == id then made == Err(IdTaken)
      else if exists s :: s in rows && s.address == options.address then made == Err(AddressTaken)
      else
        && made.Ok? && made.value.id == id && made.value.address == options.address
        && made.value.kind == (if options.kind == None then Conversation else options.kind.value)
        && made.value.status == (if options.status == None then Open else options.status.value)
        && made.value.createdAt == (if options.createdAt == None then now else options.createdAt.value)
        && made.value.updatedAt ==
             (if options.updatedAt == None then made.value.createdAt else options.updatedAt.value)
        && made.value.parent == options.parent && made.value.title == options.title
        && made.value.tags == options.tags && made.value.metadata == options.metadata
        && made.value.lastTurnAt == options.lastTurnAt
  {
  }

  function Resolved(rows: seq<Session>, others: seq<Session>, options: CreateOptions, now: int,
          randomId: string): (seq<Session>, Result<Session, Error>) {
    if FindAddress(rows, options.address).Some? then (rows, Ok(FindAddress(rows, options.address).value))
    else
      var seen := rows + others;
      var made := Create(seen, options, now, randomId);
      if made.Ok? then (seen + [made.value], made)
      else (seen, if FindAddress(seen, options.address).Some? then Ok(FindAddress(seen, options.address).value)
        else made)
  }

  /** A resolved session is the one at the address, and resolving again finds it and changes
   *  nothing; resolving fails only for an empty id or one that belongs to another address. */
  lemma {:induction false} ResolveTwice(rows: seq<Session>, others: seq<Session>, options: CreateOptions, now: int,
          randomId: string, again: CreateOptions)
    requires UniqueKeys(rows + others) && again.address == options.address
    ensures var (table, session) := Resolved(rows, others, options, now, randomId);
      && UniqueKeys(table) && rows <= table
      && (session.Ok? ==>
        session.value.address == options.address && Resolved(table, [], again, now, randomId) == (table, session))
      && (session.Err? ==> session.error == EmptyId || session.error == IdTaken)
  {
    var (table, session) := Resolved(rows, others, options, now, randomId);
    PrefixUnique(rows, others);
    if session.Ok? && FindAddress(rows + others, options.address).None? {
      AddedUnique(rows + others, session.value);
    }
  }

  lemma {:induction false} BootstrapOwnAddresses(rows: seq<Session>, tape: seq<TapeModel.Row>)
    requires UniqueKeys(rows) && OwnAddresses(rows)
    ensures OwnAddresses(Bootstrapped(rows, tape))
  {
    BootstrapAdds(rows, tape);
    var all := Bootstrapped(rows, tape);
    assert all == rows + all[|rows|..];
  }

  // Turns

  function WithTurn(s: Session, occurredAt: int, recordedAt: int): Session {
    var latest := if s.lastTurnAt.None? || s.lastTurnAt.value < occurredAt then occurredAt else s.lastTurnAt.value;
    s.(lastTurnAt := Some(latest),
       updatedAt := if s.updatedAt < recordedAt then recordedAt else s.updatedAt)
  }

  datatype TurnRecord = TurnRecord(occurredAt: int, recordedAt: int)

  function WithTurns(s: Session, turns: seq<TurnRecord>): Session {
    if turns == [] then s
    else WithTurn(WithTurns(s, turns[..|turns| - 1]), turns[|turns| - 1].occurredAt, turns[|turns| - 1].recordedAt)
  }

  /** The latest of a time that may be missing and those of the turns. */
  ghost predicate LatestTurn(r: Option<int>, start: Option<int>, turns: seq<TurnRecord>) {
    if r.None? then start.None? && turns == []
    else
      && (r == start || exists t :: t in turns && t.occurredAt == r.value)
      && (forall t :: t in turns ==> t.occurredAt <= r.value) && (start.Some? ==> start.value <= r.value)
  }

  ghost predicate LatestUpdate(r: int, start: int, turns: seq<TurnRecord>) {
    && (r == start || exists t :: t in turns && t.recordedAt == r)
    && (forall t :: t in turns ==> t.recordedAt <= r) && start <= r
  }

  /** In whatever order turns are recorded, the session ends up with the latest of the times, and
   *  nothing else of it changes. */
  lemma {:induction false} TurnsGiveLatest(s: Session, turns: seq<TurnRecord>)
    ensures var r := WithTurns(s, turns);
      && r == s.(lastTurnAt := r.lastTurnAt, updatedAt := r.updatedAt)
      && LatestTurn(r.lastTurnAt, s.lastTurnAt, turns) && LatestUpdate(r.updatedAt, s.updatedAt, turns)
  {
    if turns != [] {
      var n := |turns| - 1;
      TurnsGiveLatest(s, turns[..n]);
      assert forall t :: t in turns <==> t in turns[..n] || t == turns[n];
    }
  }
}
