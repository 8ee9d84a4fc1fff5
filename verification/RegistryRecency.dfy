/** When each session was used last, read off the steps alone, and which sessions eviction takes. */
module RegistryRecency {
  import opened Wrappers
  import opened RegistryModel
  import opened RegistryInvariant
  import opened RegistryTheorems

  /** The clock reading a step leaves on a session it uses. */
  function UsedBy(s: State, step: Step, sid: SessionId): Option<int> {
    match step
    case GetOrCreateStep(named, _, now) => if named == sid then Some(now) else None
    case StartStep(named, _, now) => if named == sid then Some(now) else None
    case SetSelectedStep(named, _, _, later) => if named == sid then Some(later) else None
    case SelectIfUnsetStep(named, _, now, later) =>
      if s.selected == None || s.selected == Some("") then if named == sid then Some(later) else None
      else if s.selected == Some(sid) then Some(now) else None
    case EnterStep(j, now) => if MayEnter(s, j) && s.jobs[j].sessionId == sid then Some(now) else None
    case FinishStep(j, now) => if MayFinish(s, j) && s.jobs[j].sessionId == sid then Some(now) else None
    case _ => None
  }

  /** The place in the run of the last step that used the session. */
  function LastStep(maxRuntimes: int, steps: seq<(Step, set<RuntimeId>)>, sid: SessionId): (k: Option<nat>)
    ensures k.Some? ==> k.value < |steps|
  {
    if steps == [] then None
    else
      var n := |steps| - 1;
      if Reading(maxRuntimes, steps, n, sid).Some? then Some(n) else LastStep(maxRuntimes, steps[..n], sid)
  }

  function Reading(maxRuntimes: int, steps: seq<(Step, set<RuntimeId>)>, k: nat, sid: SessionId): Option<int>
    requires k < |steps|
  {
    UsedBy(Run(maxRuntimes, steps[..k]), steps[k].0, sid)
  }

  /** The clock reading of that step. */
  function LastUse(maxRuntimes: int, steps: seq<(Step, set<RuntimeId>)>, sid: SessionId): Option<int> {
    match LastStep(maxRuntimes, steps, sid)
    case None => None
    case Some(k) => Reading(maxRuntimes, steps, k, sid)
  }

  lemma {:induction false} LastUseNext(maxRuntimes: int, steps: seq<(Step, set<RuntimeId>)>, sid: SessionId)
    requires steps != []
    ensures var n := |steps| - 1; var used := UsedBy(Run(maxRuntimes, steps[..n]), steps[n].0, sid);
      LastUse(maxRuntimes, steps, sid) == if used.Some? then used else LastUse(maxRuntimes, steps[..n], sid)
  {
    var n := |steps| - 1;
    var k := LastStep(maxRuntimes, steps[..n], sid);
    if k.Some? { assert steps[..n][..k.value] == steps[..k.value]; }
  }

  /** The entry was there, with the same time. */
  ghost predicate HeldTime(before: seq<Entry>, e: Entry) {
    exists b :: b in before && b.sessionId == e.sessionId && b.lastUsedAt == e.lastUsedAt
  }

  ghost predicate TimeIs(before: seq<Entry>, e: Entry, used: Option<int>) {
    match used
    case Some(t) => e.lastUsedAt == t
    case None => HeldTime(before, e)
  }

  /** This session was used then; the others are as they were, or gone. */
  ghost predicate UsedOnly(before: seq<Entry>, after: seq<Entry>, sid: SessionId, now: int) {
    forall e :: e in after ==> if e.sessionId == sid then e.lastUsedAt == now else e in before
  }

  lemma {:induction false} UsedOnlyTimes(before: seq<Entry>, after: seq<Entry>, sid: SessionId, now: int, e: Entry)
    requires UsedOnly(before, after, sid, now) && e in after
    ensures TimeIs(before, e, if sid == e.sessionId then Some(now) else None)
  {
  }

  ghost predicate OneEach(entries: seq<Entry>) {
    forall i, j :: 0 <= i < j < |entries| ==> entries[i].sessionId != entries[j].sessionId
  }

  lemma {:induction false} EvictOnlyRemoves(s: State, protect: Option<SessionId>, dirty: set<RuntimeId>)
    ensures forall e :: e in Evict(s, protect, dirty).entries ==> e in s.entries
    decreases |s.entries|
  {
    if |s.entries| > s.maxRuntimes {
      match Candidate(s.entries, |s.entries|, protect, s.selected)
      case None =>
      case Some(i) => EvictOnlyRemoves(EvictOne(s, i, dirty), protect, dirty);
    }
  }

  lemma {:induction false} TouchTimes(s: State, sid: SessionId, i: nat, now: int)
    requires OneEach(s.entries) && i < |s.entries| && s.entries[i].sessionId == sid
    ensures UsedOnly(s.entries, Touch(s, i, now).entries, sid, now)
  {
  }

  /** What a successful `getOrCreate` leaves: this session used now, the others as they were. */
  lemma {:induction false} GetOrCreateTimes(s: State, sid: SessionId, made: SessionId, now: int, dirty: set<RuntimeId>)
    requires Inv(s)
    ensures UsedOnly(s.entries, GetOrCreate(s, sid, made, now, dirty).0.entries, sid, now)
  {
    if !s.disposed {
      match Find(s.entries, sid)
      case Some(i) => TouchTimes(s, sid, i, now);
      case None => EvictOnlyRemoves(Admit(s, sid, now), Some(sid), dirty);
    }
  }

  lemma {:induction false} SelectTimes(s: State, sid: SessionId, now: int, dirty: set<RuntimeId>)
    requires Inv(s) && HasSession(s.entries, sid)
    ensures UsedOnly(s.entries, Select(s, sid, now, dirty).entries, sid, now)
  {
    var s1 := s.(selected := Some(sid));
    var i := Find(s1.entries, sid).value;
    TouchTimes(s1, sid, i, now);
    EvictOnlyRemoves(Touch(s1, i, now), Some(sid), dirty);
  }

  lemma {:induction false} SetSelectedTimes(s: State, sid: SessionId, made: SessionId, now: int, later: int,
          dirty: set<RuntimeId>)
    requires Inv(s)
    ensures UsedOnly(s.entries, SetSelected(s, sid, made, now, later, dirty).0.entries, sid, later)
  {
    GetOrCreateKeeps(s, sid, made, now, dirty);
    GetOrCreateTimes(s, sid, made, now, dirty);
    var (s1, r) := GetOrCreate(s, sid, made, now, dirty);
    if r.Ok? {
      SavePreviousKeeps(s1, sid, dirty);
      SelectTimes(SavePrevious(s1, sid, dirty), sid, later, dirty);
    } else {
      FailedIsAbsent(s, sid, made, now, dirty);
    }
  }

  lemma {:induction false} FailedIsAbsent(s: State, sid: SessionId, made: SessionId, now: int, dirty: set<RuntimeId>)
    requires Inv(s) && GetOrCreate(s, sid, made, now, dirty).1.Err?
    ensures var s' := GetOrCreate(s, sid, made, now, dirty).0;
      s'.entries == s.entries && forall e :: e in s.entries ==> e.sessionId != sid
  {
  }

  lemma {:induction false} StartTimes(s: State, sid: SessionId, made: SessionId, now: int, dirty: set<RuntimeId>)
    requires Inv(s)
    ensures UsedOnly(s.entries, Start(s, sid, made, now, dirty).0.entries, sid, now)
  {
    GetOrCreateTimes(s, sid, made, now, dirty);
    var (s1, r) := GetOrCreate(s, sid, made, now, dirty);
    if r.Ok? && Find(s1.entries, sid).Some? {
      var i := Find(s1.entries, sid).value;
      assert s1.entries[i] in s1.entries;
    }
  }

  lemma {:induction false} EnterTimes(s: State, j: JobId, now: int)
    requires Inv(s) && MayEnter(s, j)
    ensures UsedOnly(s.entries, Enter(s, j, now).entries, s.jobs[j].sessionId, now)
  {
    JobEntry(s, j);
  }

  lemma {:induction false} ReleaseTimes(s: State, j: JobId, now: int)
    requires Inv(s) && MayFinish(s, j)
    ensures UsedOnly(s.entries, Release(s, j, now).entries, s.jobs[j].sessionId, now)
  {
    JobEntry(s, j);
  }

  /** An open job's runtime is found at its session's entry, or nothing is resident. */
  lemma {:induction false} JobEntry(s: State, j: JobId)
    requires Inv(s) && j < |s.jobs| && s.jobs[j].phase != Done
    ensures match FindRuntime(s.entries, s.jobs[j].runtime)
      case Some(i) => forall k :: 0 <= k < |s.entries| ==> (s.entries[k].sessionId == s.jobs[j].sessionId <==> k == i)
      case None => s.entries == []
  {
  }

  lemma {:induction false} NextTimes(s: State, step: Step, dirty: set<RuntimeId>, e: Entry)
    requires Inv(s) && e in Next(s, step, dirty).entries
    ensures TimeIs(s.entries, e, UsedBy(s, step, e.sessionId))
  {
    var after := Next(s, step, dirty).entries;
    match step
    case GetOrCreateStep(sid, made, now) =>
      GetOrCreateTimes(s, sid, made, now, dirty);
      UsedOnlyTimes(s.entries, after, sid, now, e);
    case SetSelectedStep(sid, made, now, later) =>
      SetSelectedTimes(s, sid, made, now, later, dirty);
      UsedOnlyTimes(s.entries, after, sid, later, e);
    case SelectIfUnsetStep(sid, made, now, later) => SelectIfUnsetTimes(s, sid, made, now, later, dirty, e);
    case StartStep(sid, made, now) =>
      StartTimes(s, sid, made, now, dirty);
      UsedOnlyTimes(s.entries, after, sid, now, e);
    case DisposeAllStep => DisposeAllTimes(s);
    case _ => RestTimes(s, step, dirty, e);
  }

  lemma {:induction false} RestTimes(s: State, step: Step, dirty: set<RuntimeId>, e: Entry)
    requires Inv(s) && e in Next(s, step, dirty).entries
    requires step.EnterStep? || step.FinishStep? || step.SubscribeStep? || step.UnsubscribeStep?
    ensures TimeIs(s.entries, e, UsedBy(s, step, e.sessionId))
  {
    if step.EnterStep? && MayEnter(s, step.job) {
      EnterTimes(s, step.job, step.now);
      UsedOnlyTimes(s.entries, Enter(s, step.job, step.now).entries, s.jobs[step.job].sessionId, step.now, e);
    } else if step.FinishStep? && MayFinish(s, step.job) {
      FinishTimes(s, step.job, step.now, dirty);
      UsedOnlyTimes(s.entries, Finish(s, step.job, step.now, dirty).entries, s.jobs[step.job].sessionId, step.now, e);
    } else {
      assert e in s.entries;
    }
  }

  lemma {:induction false} SelectIfUnsetTimes(s: State, sid: SessionId, made: SessionId, now: int, later: int,
          dirty: set<RuntimeId>, e: Entry)
    requires Inv(s) && e in SelectIfUnset(s, sid, made, now, later, dirty).0.entries
    ensures TimeIs(s.entries, e, UsedBy(s, SelectIfUnsetStep(sid, made, now, later), e.sessionId))
  {
    if Truthy(s.selected) {
      GetOrCreateTimes(s, s.selected.value, made, now, dirty);
      UsedOnlyTimes(s.entries, GetOrCreate(s, s.selected.value, made, now, dirty).0.entries, s.selected.value, now, e);
    } else {
      SetSelectedTimes(s, sid, made, now, later, dirty);
      UsedOnlyTimes(s.entries, SetSelected(s, sid, made, now, later, dirty).0.entries, sid, later, e);
    }
  }

  lemma {:induction false} FinishTimes(s: State, j: JobId, now: int, dirty: set<RuntimeId>)
    requires Inv(s) && MayFinish(s, j)
    ensures UsedOnly(s.entries, Finish(s, j, now, dirty).entries, s.jobs[j].sessionId, now)
  {
    ReleaseTimes(s, j, now);
    EvictOnlyRemoves(Release(s, j, now), None, dirty);
  }

  lemma {:induction false} DisposeAllTimes(s: State)
    requires Inv(s)
    ensures DisposeAll(s).entries == []
  {
    DisposeAllKeeps(s);
  }

  /** Over any steps, a resident session's time is the clock reading of the last step that used it: so
   *  using it makes it recent, and no step changes another session's time. */
  lemma {:induction false} LastUsedIsLastUse(maxRuntimes: int, steps: seq<(Step, set<RuntimeId>)>, e: Entry)
    requires e in Run(maxRuntimes, steps).entries
    ensures LastUse(maxRuntimes, steps, e.sessionId) == Some(e.lastUsedAt)
  {
    if steps != [] {
      var n := |steps| - 1;
      var s := Run(maxRuntimes, steps[..n]);
      RunKeeps(maxRuntimes, steps[..n]);
      NextTimes(s, steps[n].0, steps[n].1, e);
      LastUseNext(maxRuntimes, steps, e.sessionId);
      if UsedBy(s, steps[n].0, e.sessionId).None? {
        var b :| b in s.entries && b.sessionId == e.sessionId && b.lastUsedAt == e.lastUsedAt;
        LastUsedIsLastUse(maxRuntimes, steps[..n], b);
      }
    }
  }

  // ---- eviction

  /** Whoever is gone was used no later than anyone left that might have gone. */
  ghost predicate OldestGoes(before: seq<Entry>, after: seq<Entry>, protect: Option<SessionId>,
          selected: Option<SessionId>) {
    forall v, e :: v in before && !HasSession(after, v.sessionId) && e in after && Evictable(e, protect, selected) ==>
      v.lastUsedAt <= e.lastUsedAt
  }

  lemma {:induction false} EvictOldest(s: State, protect: Option<SessionId>, dirty: set<RuntimeId>)
    requires OneEach(s.entries)
    ensures OldestGoes(s.entries, Evict(s, protect, dirty).entries, protect, s.selected)
  {
    EvictsOldestFirst(s, protect, dirty);
    var after := Evict(s, protect, dirty).entries;
    forall v, e | v in s.entries && !HasSession(after, v.sessionId) && e in after && Evictable(e, protect, s.selected)
      ensures v.lastUsedAt <= e.lastUsedAt
    {
      StillThere(after, v);
      assert Older(s.entries, v, e);
    }
  }

  lemma {:induction false} StillThere(entries: seq<Entry>, v: Entry)
    ensures v in entries ==> HasSession(entries, v.sessionId)
  {
  }

  lemma {:induction false} GetOrCreateOldest(s: State, sid: SessionId, made: SessionId, now: int,
          dirty: set<RuntimeId>)
    requires Inv(s)
    ensures OldestGoes(s.entries, GetOrCreate(s, sid, made, now, dirty).0.entries, Some(sid), s.selected)
  {
    if !s.disposed && Find(s.entries, sid).None? && made == sid {
      EvictOldest(Admit(s, sid, now), Some(sid), dirty);
    } else {
      SameSessions(s.entries, GetOrCreate(s, sid, made, now, dirty).0.entries);
    }
  }

  lemma {:induction false} SameSessions(before: seq<Entry>, after: seq<Entry>)
    requires |after| == |before| && forall i :: 0 <= i < |before| ==> after[i].sessionId == before[i].sessionId
    ensures forall x :: HasSession(before, x) <==> HasSession(after, x)
    ensures forall v :: v in before ==> HasSession(after, v.sessionId)
  {
    forall x ensures HasSession(before, x) <==> HasSession(after, x) {
      if HasSession(before, x) {
        var i :| 0 <= i < |before| && before[i].sessionId == x;
        assert after[i].sessionId == x;
      }
    }
    forall v | v in before ensures HasSession(after, v.sessionId) { StillThere(before, v); }
  }

  lemma {:induction false} StartOldest(s: State, sid: SessionId, made: SessionId, now: int, dirty: set<RuntimeId>)
    requires Inv(s)
    ensures OldestGoes(s.entries, Start(s, sid, made, now, dirty).0.entries, Some(sid), s.selected)
  {
    GetOrCreateOldest(s, sid, made, now, dirty);
    var (s1, r) := GetOrCreate(s, sid, made, now, dirty);
    if r.Ok? && Find(s1.entries, sid).Some? {
      var i := Find(s1.entries, sid).value;
      EnqueueChanges(s1, i);
      OldestUpdated(s.entries, s1.entries, Enqueue(s1, i).entries, sid, s.selected);
    }
  }

  lemma {:induction false} EnqueueChanges(s: State, i: nat)
    requires i < |s.entries|
    ensures var after := Enqueue(s, i).entries;
      && OthersIn(after, s.entries, s.entries[i].sessionId)
      && forall x :: HasSession(s.entries, x) ==> HasSession(after, x)
  {
    SameSessions(s.entries, Enqueue(s, i).entries);
  }

  /** All entries but this session's are in the other list too. */
  ghost predicate OthersIn(entries: seq<Entry>, others: seq<Entry>, sid: SessionId) {
    forall e :: e in entries && e.sessionId != sid ==> e in others
  }

  lemma {:induction false} OldestUpdated(before: seq<Entry>, between: seq<Entry>, after: seq<Entry>, sid: SessionId,
          selected: Option<SessionId>)
    requires OldestGoes(before, between, Some(sid), selected) && OthersIn(after, between, sid)
    requires forall x :: HasSession(between, x) ==> HasSession(after, x)
    ensures OldestGoes(before, after, Some(sid), selected)
  {
  }

  lemma {:induction false} SelectOldest(s: State, sid: SessionId, now: int, dirty: set<RuntimeId>)
    requires Inv(s) && HasSession(s.entries, sid)
    ensures OldestGoes(s.entries, Select(s, sid, now, dirty).entries, Some(sid), Some(sid))
  {
    var s1 := s.(selected := Some(sid));
    var i := Find(s1.entries, sid).value;
    SelectKeeps(s, sid, now, dirty);
    TouchOthers(s1, i, now);
    EvictOldest(Touch(s1, i, now), Some(sid), dirty);
    OldestFrom(s.entries, Touch(s1, i, now).entries, Select(s, sid, now, dirty).entries, sid, Some(sid));
  }

  lemma {:induction false} TouchOthers(s: State, i: nat, now: int)
    requires i < |s.entries| && OneEach(s.entries)
    ensures OthersIn(s.entries, Touch(s, i, now).entries, s.entries[i].sessionId) && OneEach(Touch(s, i, now).entries)
  {
    forall e | e in s.entries && e.sessionId != s.entries[i].sessionId ensures e in Touch(s, i, now).entries {
      var k :| 0 <= k < |s.entries| && s.entries[k] == e;
      assert Touch(s, i, now).entries[k] == e;
    }
  }

  lemma {:induction false} OldestFrom(before: seq<Entry>, between: seq<Entry>, after: seq<Entry>, sid: SessionId,
          selected: Option<SessionId>)
    requires OldestGoes(between, after, Some(sid), selected) && OthersIn(before, between, sid)
    requires HasSession(after, sid)
    ensures OldestGoes(before, after, Some(sid), selected)
  {
  }

  lemma {:induction false} SetSelectedOldest(s: State, sid: SessionId, made: SessionId, now: int, later: int,
          dirty: set<RuntimeId>)
    requires Inv(s)
    ensures OldestGoes(s.entries, SetSelected(s, sid, made, now, later, dirty).0.entries, Some(sid), s.selected)
  {
    GetOrCreateKeeps(s, sid, made, now, dirty);
    GetOrCreateOldest(s, sid, made, now, dirty);
    var (s1, r) := GetOrCreate(s, sid, made, now, dirty);
    if r.Ok? {
      var s2 := SavePrevious(s1, sid, dirty);
      SavePreviousKeeps(s1, sid, dirty);
      SelectOldest(s2, sid, later, dirty);
      SelectTimes(s2, sid, later, dirty);
      SelectKeeps(s2, sid, later, dirty);
      GetOrCreateOthers(s, sid, made, now, dirty);
      TwoPhases(s.entries, s1.entries, Select(s2, sid, later, dirty).entries, sid, later, s.selected);
    }
  }

  lemma {:induction false} TwoPhases(before: seq<Entry>, between: seq<Entry>, after: seq<Entry>, sid: SessionId,
          later: int, selected: Option<SessionId>)
    requires OldestGoes(before, between, Some(sid), selected) && OldestGoes(between, after, Some(sid), Some(sid))
    requires UsedOnly(between, after, sid, later) && HasSession(after, sid)
    requires forall v :: v in before && v.sessionId != sid && HasSession(between, v.sessionId) ==> v in between
    ensures OldestGoes(before, after, Some(sid), selected)
  {
  }

  lemma {:induction false} GetOrCreateOthers(s: State, sid: SessionId, made: SessionId, now: int,
          dirty: set<RuntimeId>)
    requires Inv(s)
    ensures var after := GetOrCreate(s, sid, made, now, dirty).0.entries;
      forall v :: v in s.entries && v.sessionId != sid && HasSession(after, v.sessionId) ==> v in after
  {
    GetOrCreateTimes(s, sid, made, now, dirty);
    OthersSame(s.entries, GetOrCreate(s, sid, made, now, dirty).0.entries, sid, now);
  }

  lemma {:induction false} OthersSame(before: seq<Entry>, after: seq<Entry>, sid: SessionId, now: int)
    requires UsedOnly(before, after, sid, now) && OneEach(before)
    ensures forall v :: v in before && v.sessionId != sid && HasSession(after, v.sessionId) ==> v in after
  {
    forall v | v in before && v.sessionId != sid && HasSession(after, v.sessionId) ensures v in after {
      var i :| 0 <= i < |after| && after[i].sessionId == v.sessionId;
      assert after[i] in after;
    }
  }

  /** What is left of a session after a step that used it. */
  function TimeAfter(s: State, step: Step, v: Entry): int {
    var used := UsedBy(s, step, v.sessionId);
    if used.Some? then used.value else v.lastUsedAt
  }

  /** The entry might have been evicted: it is idle, not selected before or after, and not the session
   *  the step is about. */
  predicate Spared(s: State, step: Step, s': State, e: Entry) {
    && e.pending == 0 && Some(e.sessionId) != s.selected && Some(e.sessionId) != s'.selected
    && (step.FinishStep? || UsedBy(s, step, e.sessionId) == None)
  }

  lemma {:induction false} NamedStays(s: State, step: Step, dirty: set<RuntimeId>, sid: SessionId)
    requires Inv(s) && HasSession(s.entries, sid) && !step.FinishStep? && UsedBy(s, step, sid).Some?
    ensures HasSession(Next(s, step, dirty).entries, sid)
  {
    match step
    case GetOrCreateStep(_, made, now) => CreatedStays(s, sid, made, now, dirty);
    case SetSelectedStep(_, made, now, later) => SelectedStays(s, sid, made, now, later, dirty);
    case SelectIfUnsetStep(named, made, now, later) =>
      CreatedStays(s, sid, made, now, dirty);
      SelectedStays(s, sid, made, now, later, dirty);
      SelectIfUnsetIs(s, named, made, now, later, dirty, sid);
    case StartStep(_, made, now) => StartStays(s, sid, made, now, dirty);
    case EnterStep(j, now) => EnterStays(s, j, now, sid);
  }

  lemma {:induction false} SelectIfUnsetIs(s: State, named: SessionId, made: SessionId, now: int, later: int,
          dirty: set<RuntimeId>, sid: SessionId)
    requires UsedBy(s, SelectIfUnsetStep(named, made, now, later), sid).Some?
    ensures var s' := SelectIfUnset(s, named, made, now, later, dirty);
      if Truthy(s.selected) then s' == GetOrCreate(s, sid, made, now, dirty)
        else s' == SetSelected(s, sid, made, now, later, dirty)
  {
  }

  lemma {:induction false} CreatedStays(s: State, sid: SessionId, made: SessionId, now: int, dirty: set<RuntimeId>)
    requires Inv(s) && HasSession(s.entries, sid)
    ensures HasSession(GetOrCreate(s, sid, made, now, dirty).0.entries, sid)
  {
    GetOrCreateKeeps(s, sid, made, now, dirty);
  }

  lemma {:induction false} SelectedStays(s: State, sid: SessionId, made: SessionId, now: int, later: int,
          dirty: set<RuntimeId>)
    requires Inv(s) && HasSession(s.entries, sid)
    ensures HasSession(SetSelected(s, sid, made, now, later, dirty).0.entries, sid)
  {
    CreatedStays(s, sid, made, now, dirty);
    SetSelectedKeeps(s, sid, made, now, later, dirty);
  }

  lemma {:induction false} StartStays(s: State, sid: SessionId, made: SessionId, now: int, dirty: set<RuntimeId>)
    requires Inv(s) && HasSession(s.entries, sid)
    ensures HasSession(Start(s, sid, made, now, dirty).0.entries, sid)
  {
    CreatedStays(s, sid, made, now, dirty);
    var (s1, r) := GetOrCreate(s, sid, made, now, dirty);
    if r.Ok? && Find(s1.entries, sid).Some? { EnqueueChanges(s1, Find(s1.entries, sid).value); }
  }

  lemma {:induction false} EnterStays(s: State, j: JobId, now: int, sid: SessionId)
    requires MayEnter(s, j) && HasSession(s.entries, sid)
    ensures HasSession(Enter(s, j, now).entries, sid)
  {
    SameSessions(s.entries, Enter(s, j, now).entries);
  }

  /** The entry of this session, after the step, before anything is evicted. */
  lemma {:induction false} ReleasedEntry(s: State, j: JobId, now: int, v: Entry)
    requires Inv(s) && MayFinish(s, j) && v in s.entries
    ensures OneEach(Release(s, j, now).entries) && Release(s, j, now).selected == s.selected
    ensures HeldTime(Release(s, j, now).entries, v.(lastUsedAt := TimeAfter(s, FinishStep(j, now), v)))
  {
    JobEntry(s, j);
    var i :| 0 <= i < |s.entries| && s.entries[i] == v;
    assert Release(s, j, now).entries[i] in Release(s, j, now).entries;
  }

  lemma {:induction false} FinishOldest(s: State, j: JobId, now: int, dirty: set<RuntimeId>, v: Entry, e: Entry)
    requires Inv(s) && MayFinish(s, j)
    requires v in s.entries && !HasSession(Finish(s, j, now, dirty).entries, v.sessionId)
    requires e in Finish(s, j, now, dirty).entries && Evictable(e, None, s.selected)
    ensures TimeAfter(s, FinishStep(j, now), v) <= e.lastUsedAt
  {
    ReleasedEntry(s, j, now, v);
    EvictOldest(Release(s, j, now), None, dirty);
  }

  lemma {:induction false} NextOldest(s: State, step: Step, dirty: set<RuntimeId>, v: Entry, e: Entry)
    requires Inv(s) && step != DisposeAllStep
    requires v in s.entries && !HasSession(Next(s, step, dirty).entries, v.sessionId)
    requires e in Next(s, step, dirty).entries && Spared(s, step, Next(s, step, dirty), e)
    ensures TimeAfter(s, step, v) <= e.lastUsedAt
  {
    if step.FinishStep? {
      if MayFinish(s, step.job) {
        FinishOldest(s, step.job, step.now, dirty, v, e);
      } else {
        StillThere(s.entries, v);
      }
    } else {
      StillThere(s.entries, v);
      if UsedBy(s, step, v.sessionId).Some? { NamedStays(s, step, dirty, v.sessionId); }
      OthersOldest(s, step, dirty, v, e);
    }
  }

  lemma {:induction false} OthersOldest(s: State, step: Step, dirty: set<RuntimeId>, v: Entry, e: Entry)
    requires Inv(s) && step != DisposeAllStep && !step.FinishStep?
    requires v in s.entries && !HasSession(Next(s, step, dirty).entries, v.sessionId)
    requires e in Next(s, step, dirty).entries && Spared(s, step, Next(s, step, dirty), e)
    ensures v.lastUsedAt <= e.lastUsedAt
  {
    NextOldestGoes(s, step, dirty);
    MightGo(s, step, Next(s, step, dirty), e);
  }

  /** The session a step other than a job's is about, which it never evicts. */
  function Named(s: State, step: Step): Option<SessionId> {
    match step
    case GetOrCreateStep(sid, _, _) => Some(sid)
    case SetSelectedStep(sid, _, _, _) => Some(sid)
    case SelectIfUnsetStep(sid, _, _, _) => if Truthy(s.selected) then s.selected else Some(sid)
    case StartStep(sid, _, _) => Some(sid)
    case _ => None
  }

  lemma {:induction false} MightGo(s: State, step: Step, s': State, e: Entry)
    requires Spared(s, step, s', e)
    ensures Evictable(e, Named(s, step), s.selected)
  {
  }

  lemma {:induction false} NextOldestGoes(s: State, step: Step, dirty: set<RuntimeId>)
    requires Inv(s) && step != DisposeAllStep && !step.FinishStep?
    ensures OldestGoes(s.entries, Next(s, step, dirty).entries, Named(s, step), s.selected)
  {
    match step
    case GetOrCreateStep(sid, made, now) => GetOrCreateOldest(s, sid, made, now, dirty);
    case SetSelectedStep(sid, made, now, later) => SetSelectedOldest(s, sid, made, now, later, dirty);
    case SelectIfUnsetStep(sid, made, now, later) =>
      if Truthy(s.selected) {
        GetOrCreateOldest(s, s.selected.value, made, now, dirty);
      } else {
        SetSelectedOldest(s, sid, made, now, later, dirty);
      }
    case StartStep(sid, made, now) => StartOldest(s, sid, made, now, dirty);
    case _ => RestOldest(s, step, dirty);
  }

  lemma {:induction false} RestOldest(s: State, step: Step, dirty: set<RuntimeId>)
    requires step.EnterStep? || step.SubscribeStep? || step.UnsubscribeStep?
    ensures OldestGoes(s.entries, Next(s, step, dirty).entries, None, s.selected)
  {
    SameSessions(s.entries, Next(s, step, dirty).entries);
  }

  /** In every run, a session that a step evicts is not selected and all its jobs are done, and the last
   *  step that used it read the clock no later than the last that used any session left which might
   *  have been evicted instead. */
  lemma {:induction false} VictimsUsedLeastRecently(maxRuntimes: int, steps: seq<(Step, set<RuntimeId>)>, step: Step,
          dirty: set<RuntimeId>, v: Entry, e: Entry)
    requires step != DisposeAllStep
    requires var s, s' := Run(maxRuntimes, steps), Run(maxRuntimes, steps + [(step, dirty)]);
      && v in s.entries && !HasSession(s'.entries, v.sessionId)
      && e in s'.entries && Spared(s, step, s', e)
    ensures var s', after := Run(maxRuntimes, steps + [(step, dirty)]), steps + [(step, dirty)];
      && Some(v.sessionId) != s'.selected
      && (forall j :: 0 <= j < |s'.jobs| && s'.jobs[j].sessionId == v.sessionId ==> s'.jobs[j].phase == Done)
      && LastUse(maxRuntimes, after, v.sessionId).Some? && LastUse(maxRuntimes, after, e.sessionId).Some?
      && LastUse(maxRuntimes, after, v.sessionId).value <= LastUse(maxRuntimes, after, e.sessionId).value
  {
    var after := steps + [(step, dirty)];
    assert after[..|steps|] == steps;
    RunKeeps(maxRuntimes, steps);
    RunKeeps(maxRuntimes, after);
    NextOldest(Run(maxRuntimes, steps), step, dirty, v, e);
    LastUsedIsLastUse(maxRuntimes, steps, v);
    LastUseNext(maxRuntimes, after, v.sessionId);
    LastUsedIsLastUse(maxRuntimes, after, e);
    OpenJobsHere(Run(maxRuntimes, after), v.sessionId);
  }

  lemma {:induction false} OpenJobsHere(s: State, sid: SessionId)
    requires Inv(s) && s.entries != [] && !HasSession(s.entries, sid)
    ensures forall j :: 0 <= j < |s.jobs| && s.jobs[j].sessionId == sid ==> s.jobs[j].phase == Done
  {
  }

  // ---- a clock that never goes back

  /** The clock readings a step is given. */
  function Readings(step: Step): seq<int> {
    match step
    case GetOrCreateStep(_, _, now) => [now]
    case SetSelectedStep(_, _, now, later) => [now, later]
    case SelectIfUnsetStep(_, _, now, later) => [now, later]
    case StartStep(_, _, now) => [now]
    case EnterStep(_, now) => [now]
    case FinishStep(_, now) => [now]
    case _ => []
  }

  lemma {:induction false} ReadingGiven(s: State, step: Step, sid: SessionId)
    ensures UsedBy(s, step, sid).Some? ==> UsedBy(s, step, sid).value in Readings(step)
  {
  }

  ghost predicate ClockRuns(steps: seq<(Step, set<RuntimeId>)>) {
    forall a, b, x, y :: 0 <= a < b < |steps| && x in Readings(steps[a].0) && y in Readings(steps[b].0) ==> x <= y
  }

  /** With a clock that never goes back, each victim's last use came before that of any session that
   *  might have gone instead, or both read the same time. */
  lemma {:induction false} VictimsUsedFirst(maxRuntimes: int, steps: seq<(Step, set<RuntimeId>)>, step: Step,
          dirty: set<RuntimeId>, v: Entry, e: Entry)
    requires step != DisposeAllStep && ClockRuns(steps + [(step, dirty)])
    requires var s, s' := Run(maxRuntimes, steps), Run(maxRuntimes, steps + [(step, dirty)]);
      && v in s.entries && !HasSession(s'.entries, v.sessionId)
      && e in s'.entries && Spared(s, step, s', e)
    ensures var after := steps + [(step, dirty)];
      var first, second := LastStep(maxRuntimes, after, v.sessionId), LastStep(maxRuntimes, after, e.sessionId);
      && first.Some? && second.Some?
      && (first.value < second.value
        || LastUse(maxRuntimes, after, v.sessionId) == LastUse(maxRuntimes, after, e.sessionId))
  {
    var after := steps + [(step, dirty)];
    VictimsUsedLeastRecently(maxRuntimes, steps, step, dirty, v, e);
    StillThere(Run(maxRuntimes, after).entries, e);
    UsedInOrder(maxRuntimes, after, v.sessionId, e.sessionId);
  }

  lemma {:induction false} UsedInOrder(maxRuntimes: int, steps: seq<(Step, set<RuntimeId>)>, x: SessionId, y: SessionId)
    requires ClockRuns(steps) && x != y
    requires LastUse(maxRuntimes, steps, x).Some? && LastUse(maxRuntimes, steps, y).Some?
    requires LastUse(maxRuntimes, steps, x).value <= LastUse(maxRuntimes, steps, y).value
    ensures LastStep(maxRuntimes, steps, x).value < LastStep(maxRuntimes, steps, y).value
      || LastUse(maxRuntimes, steps, x) == LastUse(maxRuntimes, steps, y)
  {
    var a, b := LastStep(maxRuntimes, steps, x).value, LastStep(maxRuntimes, steps, y).value;
    ReadingGiven(Run(maxRuntimes, steps[..a]), steps[a].0, x);
    ReadingGiven(Run(maxRuntimes, steps[..b]), steps[b].0, y);
    if a == b { UsesOne(Run(maxRuntimes, steps[..a]), steps[a].0, x, y); }
    InOrder(steps, a, b, LastUse(maxRuntimes, steps, x).value, LastUse(maxRuntimes, steps, y).value);
  }

  lemma {:induction false} InOrder(steps: seq<(Step, set<RuntimeId>)>, a: nat, b: nat, x: int, y: int)
    requires ClockRuns(steps) && a < |steps| && b < |steps| && a != b
    requires x in Readings(steps[a].0) && y in Readings(steps[b].0) && x <= y
    ensures a < b || x == y
  {
  }

  /** A step uses one session. */
  lemma {:induction false} UsesOne(s: State, step: Step, x: SessionId, y: SessionId)
    requires UsedBy(s, step, x).Some? && UsedBy(s, step, y).Some?
    ensures x == y
  {
  }
}
