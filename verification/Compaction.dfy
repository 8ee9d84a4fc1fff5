/** Compaction of a session's turns into an anchor, and the decision to compact. The clock, the
 *  summarizer and the wording of the summary message are parameters. */
module Compaction {
  import opened ContextBudget
  import opened StableSort
  import opened TapeModel
  import opened Wrappers
  import Checkpoints
  import Tape

  datatype CompactConfig = CompactConfig(maxMessages: int, maxContextFraction: real, keepRecent: int,
          warnFraction: real, reserveOutputTokens: int)

  /** `kept` and `summarized` count turns; `anchored` says whether a summary was written. */
  datatype CompactionResult = CompactionResult(kept: nat, summarized: nat, summary: string, anchored: bool)

  /** Whether compaction ran, and if so the messages to go on with. */
  datatype Decision = Decision(fired: bool, tier: Tier, summarized: nat, kept: nat, trimmed: Option<seq<Message>>)

  /** `slice(-keep)`: for a positive number the last elements, for zero all of them. */
  function SliceLast<T>(s: seq<T>, keep: int): seq<T> {
    if keep > 0 then s[Max(0, |s| - keep)..] else s[Min(-keep, |s|)..]
  }

  predicate IsTurn(r: Row) { r.kind == Turn }

  /** The session's turns, oldest first. */
  function Turns(rows: seq<Row>, session: string): seq<Row> { Filter(Replay(rows, session), IsTurn) }

  /** The turns are exactly the session's turn rows, oldest first. */
  lemma {:induction false} TurnsAre(rows: seq<Row>, session: string)
    requires Keyed(rows) && session != ""
    ensures InReadOrder(Turns(rows, session))
    ensures forall r :: r in Turns(rows, session) <==> r in rows && r.session == session && r.kind == Turn
  {
    ReadsInOrder(rows, session, IsTurn);
  }

  /** The turns to summarize of more than `keep`: `slice(0, n - keep)`. */
  function Older(turns: seq<Row>, keep: int): seq<Row>
    requires |turns| > keep
  {
    turns[..Min(|turns| - keep, |turns|)]
  }

  /** The summarized and the kept turns make up all turns, in order, exactly when the number to
   *  keep is positive, or so far below zero that none is kept. */
  lemma {:induction false} SplitIsExactIff(turns: seq<Row>, keep: int)
    requires |turns| > keep
    ensures Older(turns, keep) + SliceLast(turns, keep) == turns <==> keep >= 1 || -keep >= |turns|
  {
    var older, recent := Older(turns, keep), SliceLast(turns, keep);
    if keep >= 1 {
      assert turns == turns[..|turns| - keep] + turns[|turns| - keep..];
    } else {
      assert |older + recent| == |turns| + |recent|;
      if recent == [] { assert older + recent == turns; }
    }
  }

  /** What remains of the messages: with a positive number to keep the last so many of them, with
   *  zero all, and with a negative one all but the first so many. */
  lemma {:induction false} KeptMessages(messages: seq<Message>, keep: int)
    ensures keep >= 1 ==> |SliceLast(messages, keep)| == Min(keep, |messages|)
    ensures keep <= 0 ==> |SliceLast(messages, keep)| == Max(0, |messages| + keep)
    ensures messages == messages[..|messages| - |SliceLast(messages, keep)|] + SliceLast(messages, keep)
  {
  }

  /** The summary and the kept messages are fewer than before exactly when more than one message is
   *  left out, which a number to keep of zero or -1 never does. */
  lemma {:induction false} TrimmedShorterIff(messages: seq<Message>, keep: int)
    ensures 1 + |SliceLast(messages, keep)| < |messages| <==>
      if keep >= 1 then |messages| > keep + 1 else keep <= -2 && |messages| >= 2
  {
    KeptMessages(messages, keep);
  }

  /** The rows after compacting: at most one anchor more. */
  ghost predicate OnlyAnchorAdded(before: seq<Row>, after: seq<Row>, session: string, anchored: bool) {
    if anchored then |after| == |before| + 1 && after[..|before|] == before && after[|before|].kind == Anchor
      && after[|before|].session == session
    else after == before
  }

  /** Compaction deletes no row and no session's turns change, nor its checkpoints. */
  lemma {:induction false} CompactionKeepsTurns(before: seq<Row>, after: seq<Row>, session: string, anchored: bool,
          other: string)
    requires OnlyAnchorAdded(before, after, session, anchored)
    ensures before <= after && Turns(after, other) == Turns(before, other)
      && ListCheckpoints(after, other) == ListCheckpoints(before, other)
  {
    if anchored {
      var anchor := after[|before|];
      assert after == before + [anchor];
      AppendUnseen(before, anchor, other, IsTurn);
      AppendUnseen(before, anchor, other, IsCheckpoint);
    }
  }

  /** What others have written by the time the summarizer is done. */
  function Later(rows: seq<Row>, nextId: nat, counter: nat, meanwhile: seq<Checkpoints.Event>): Checkpoints.Log {
    Checkpoints.Run(Checkpoints.Log(rows, nextId, counter), meanwhile)
  }

  /** Everything but checkpoints. */
  function Lasting(rows: seq<Row>): seq<Row> { Filter(rows, (r: Row) => !IsCheckpoint(r)) }

  lemma {:induction false} LastingGrows(rows: seq<Row>, more: seq<Row>)
    ensures Lasting(rows) <= Lasting(rows + more)
  {
    FilterAppend(rows, more, (r: Row) => !IsCheckpoint(r));
  }

  /** Whatever saves, prunes and appends happen, no other row is lost, changed or moved: what was there
   *  stays, with the new rows behind it. */
  lemma {:induction false} OnlyCheckpointsGo(log: Checkpoints.Log, events: seq<Checkpoints.Event>)
    ensures Lasting(log.rows) <= Lasting(Checkpoints.Run(log, events).rows)
  {
    if events != [] {
      var n := |events| - 1;
      OnlyCheckpointsGo(log, events[..n]);
      var now := Checkpoints.Run(log, events[..n]);
      match events[n]
      case Save(_, _, _) => LastingGrows(now.rows, [Checkpoints.Next(now, events[n]).rows[|now.rows|]]);
      case Append(_, _, _, _) => LastingGrows(now.rows, [Checkpoints.Next(now, events[n]).rows[|now.rows|]]);
      case Prune(session, keep) => PruneKeepsLasting(now.rows, session, keep);
    }
  }

  lemma {:induction false} PruneKeepsLasting(rows: seq<Row>, session: string, keep: int)
    ensures Lasting(AfterPrune(rows, session, keep)) == Lasting(rows)
  {
    var lasting := (r: Row) => !IsCheckpoint(r);
    var other := (r: Row) => !CheckpointOf(r, session);
    Checkpoints.PruneTouchesNoOther(rows, session, keep);
    FilterWithin(rows, other, lasting);
    FilterWithin(AfterPrune(rows, session, keep), other, lasting);
  }

  /** Compaction with others writing meanwhile loses no turn: the rows it began with stay, in order. */
  lemma {:induction false} CompactionLosesNothing(rows: seq<Row>, nextId: nat, counter: nat,
          meanwhile: seq<Checkpoints.Event>, after: seq<Row>, session: string, anchored: bool)
    requires OnlyAnchorAdded(Later(rows, nextId, counter, meanwhile).rows, after, session, anchored)
    ensures Lasting(rows) <= Lasting(after)
  {
    OnlyCheckpointsGo(Checkpoints.Log(rows, nextId, counter), meanwhile);
    AnchorLosesNothing(Later(rows, nextId, counter, meanwhile).rows, after, session, anchored);
  }

  lemma {:induction false} AnchorLosesNothing(rows: seq<Row>, after: seq<Row>, session: string, anchored: bool)
    requires OnlyAnchorAdded(rows, after, session, anchored)
    ensures Lasting(rows) <= Lasting(after)
  {
    if anchored {
      assert after == rows + [after[|rows|]];
      LastingGrows(rows, [after[|rows|]]);
    }
  }

  /** Others write to the tape: `meanwhile`, with the process's checkpoint counter at `counter`. */
  method Await(tape: Tape.Tape, counter: nat, meanwhile: seq<Checkpoints.Event>)
    modifies tape
    ensures var later := Later(old(tape.rows), old(tape.nextId), counter, meanwhile);
      tape.rows == later.rows && tape.nextId == later.nextId
  {
    var later := Later(tape.rows, tape.nextId, counter, meanwhile);
    tape.rows, tape.nextId := later.rows, later.nextId;
  }

  /** What compaction reports, given the turns it finds. */
  function Report(turns: seq<Row>, keep: int,
          summarize: seq<Row> -> Result<string, string>): Result<CompactionResult, string> {
    if |turns| <= keep then Ok(CompactionResult(|turns|, 0, "(nothing to compact)", false))
    else
      match summarize(Older(turns, keep))
      case Ok(summary) => Ok(CompactionResult(|SliceLast(turns, keep)|, |Older(turns, keep)|, summary, true))
      case Err(error) => Err(error)
  }

  /** What the report says, for every number to keep: nothing is summarized while there are no more turns
   *  than that, else what the summarizer makes of all but the last so many, and fails only as it does. A
   *  number to keep of zero or less summarizes every turn, and counts as kept what a slice from there
   *  on holds. */
  lemma {:induction false} ReportIs(turns: seq<Row>, keep: int, summarize: seq<Row> -> Result<string, string>)
    ensures |turns| <= keep ==>
      Report(turns, keep, summarize) == Ok(CompactionResult(|turns|, 0, "(nothing to compact)", false))
    ensures 0 < keep < |turns| ==>
      match summarize(turns[..|turns| - keep])
      case Ok(summary) => Report(turns, keep, summarize) == Ok(CompactionResult(keep, |turns| - keep, summary, true))
      case Err(error) => Report(turns, keep, summarize) == Err(error)
    ensures keep <= 0 && keep < |turns| ==>
      match summarize(turns)
      case Ok(summary) =>
        Report(turns, keep, summarize) == Ok(CompactionResult(Max(0, |turns| + keep), |turns|, summary, true))
      case Err(error) => Report(turns, keep, summarize) == Err(error)
  {
    assert turns[..|turns|] == turns;
  }

  /** `compactSession`. The turns are read before the summarizer is awaited and the anchor is written
   *  after it; `meanwhile` happens between. Fails only if the summarizer does, and then writes
   *  nothing. */
  method CompactSession(tape: Tape.Tape, session: string, keepRecent: int,
          summarize: seq<Row> -> Result<string, string>, now: int, counter: nat, meanwhile: seq<Checkpoints.Event>)
    returns (result: Result<CompactionResult, string>)
    modifies tape
    ensures result == Report(Turns(old(tape.rows), session), keepRecent, summarize)
    ensures var later := Later(old(tape.rows), old(tape.nextId), counter, meanwhile);
      if |Turns(old(tape.rows), session)| <= keepRecent then tape.rows == old(tape.rows)
      else if result.Err? then tape.rows == later.rows
      else tape.rows == later.rows + [Row(later.nextId, now, session, Anchor, result.value.summary)]
    ensures Lasting(old(tape.rows)) <= Lasting(tape.rows)
  {
    ghost var rows, nextId := tape.rows, tape.nextId;
    var allTurns: seq<Row> := [];
    var entries := Replay(tape.rows, session);
    for i := 0 to |entries|
      invariant allTurns == Filter(entries[..i], IsTurn)
    {
      if entries[i].kind == Turn { allTurns := allTurns + [entries[i]]; }
      assert entries[..i + 1][..i] == entries[..i];
    }
    assert entries[..|entries|] == entries;
    if |allTurns| <= keepRecent {
      return Ok(CompactionResult(|allTurns|, 0, "(nothing to compact)", false));
    }
    var toSummarize := Older(allTurns, keepRecent);
    var recentKept := SliceLast(allTurns, keepRecent);
    var summary := summarize(toSummarize);
    Await(tape, counter, meanwhile);
    CompactionLosesNothing(rows, nextId, counter, meanwhile, tape.rows, session, false);
    if summary.Err? { return Err(summary.error); }
    tape.Append(now, session, Anchor, summary.value);
    CompactionLosesNothing(rows, nextId, counter, meanwhile, tape.rows, session, true);
    result := Ok(CompactionResult(|recentKept|, |toSummarize|, summary.value, true));
  }

  function EffectiveMaxOutput(cfg: CompactConfig, maxOutputTokens: int): int {
    if cfg.reserveOutputTokens != 0 then cfg.reserveOutputTokens else maxOutputTokens
  }

  function TierFor(inputs: Inputs, cfg: CompactConfig): Tier {
    ClassifyTier(SnapshotOf(inputs.(maxOutputTokens := EffectiveMaxOutput(cfg, inputs.maxOutputTokens))),
      Config(cfg.warnFraction, cfg.maxContextFraction))
  }

  /** When compaction is due, in what is sent: more messages than allowed, or at least the configured
   *  fraction of what the reserved output leaves of a known window. A reserve of zero in the
   *  configuration stands for the model's own. */
  lemma {:induction false} CompactionDueIff(inputs: Inputs, cfg: CompactConfig, budget: int)
    requires inputs.contextWindow.Some? && inputs.contextWindow.value > 0 ==>
      IsInputBudget(inputs.contextWindow.value,
        if cfg.reserveOutputTokens == 0 then inputs.maxOutputTokens else cfg.reserveOutputTokens, budget)
    ensures TierFor(inputs, cfg) == Compact <==>
      (inputs.contextWindow.Some? && inputs.contextWindow.value > 0
        && Fills(TokensCounted(inputs), cfg.maxContextFraction, budget))
  {
    var reserved := inputs.(maxOutputTokens := EffectiveMaxOutput(cfg, inputs.maxOutputTokens));
    assert TokensSent(reserved) == TokensSent(inputs);
    TierIff(reserved, Config(cfg.warnFraction, cfg.maxContextFraction), budget);
  }

  /** `maybeCompact`: compacts when the tier asks for it or there are too many messages. The messages
   *  to go on with are one summary and the last ones. The tape gains an anchor exactly when turns were
   *  summarized; when there was nothing to compact, the first message says so. */
  method MaybeCompact(tape: Tape.Tape, session: string, inputs: Inputs, cfg: CompactConfig,
                      summarize: seq<Row> -> Result<string, string>, message: (string, nat) -> Message, now: int,
                      counter: nat, meanwhile: seq<Checkpoints.Event>)
    returns (decision: Decision)
    modifies tape
    ensures var turns := Turns(old(tape.rows), session);
      var later := Later(old(tape.rows), old(tape.nextId), counter, meanwhile);
      var due := TierFor(inputs, cfg) == Compact || |inputs.messages| > cfg.maxMessages;
      if !due then decision == Decision(false, TierFor(inputs, cfg), 0, 0, None) && tape.rows == old(tape.rows)
      else
        match Report(turns, cfg.keepRecent, summarize)
        case Err(_) => decision == Decision(false, Compact, 0, 0, None) && tape.rows == later.rows
        case Ok(done) =>
          && decision == Decision(true, Compact, done.summarized, done.kept,
            Some([message(done.summary, done.summarized)] + SliceLast(inputs.messages, cfg.keepRecent)))
          && tape.rows == if done.anchored then later.rows + [Row(later.nextId, now, session, Anchor, done.summary)]
            else old(tape.rows)
  {
    var snapshot := BuildSnapshot(inputs.(maxOutputTokens := EffectiveMaxOutput(cfg, inputs.maxOutputTokens)));
    var tier := ClassifyTier(snapshot, Config(cfg.warnFraction, cfg.maxContextFraction));
    var overMaxMessages := |inputs.messages| > cfg.maxMessages;
    if tier != Compact && !overMaxMessages {
      return Decision(false, tier, 0, 0, None);
    }
    var result := CompactSession(tape, session, cfg.keepRecent, summarize, now, counter, meanwhile);
    if result.Err? { return Decision(false, Compact, 0, 0, None); }
    var summary := message(result.value.summary, result.value.summarized);
    var trimmed := SliceLast(inputs.messages, cfg.keepRecent);
    decision := Decision(true, Compact, result.value.summarized, result.value.kept, Some([summary] + trimmed));
  }
}
