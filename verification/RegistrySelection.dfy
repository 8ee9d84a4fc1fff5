/** Which session is selected, and which runtimes are checkpointed, over every run. */
module RegistrySelection {
  import opened Wrappers
  import opened RegistryModel
  import opened RegistryInvariant
  import opened RegistryTheorems
  import opened RegistryRecency

  ghost predicate Disposed(steps: seq<(Step, set<RuntimeId>)>) {
    exists i :: 0 <= i < |steps| && steps[i].0 == DisposeAllStep
  }

  /** The session selected last: by `setSelected`, or by `selectIfUnset` when none was, if its runtime is
   *  resident or the factory makes it. An empty id counts as none. */
  ghost function Chosen(maxRuntimes: int, steps: seq<(Step, set<RuntimeId>)>): Option<SessionId> {
    if steps == [] then None
    else
      var n := |steps| - 1;
      var before, entries := Chosen(maxRuntimes, steps[..n]), Run(maxRuntimes, steps[..n]).entries;
      match steps[n].0
      case SetSelectedStep(sid, made, _, _) =>
        if !Disposed(steps[..n]) && (HasSession(entries, sid) || made == sid) then Some(sid) else before
      case SelectIfUnsetStep(sid, made, _, _) =>
        if (before == None || before == Some("")) && !Disposed(steps[..n]) && (HasSession(entries, sid) || made == sid)
        then Some(sid) else before
      case DisposeAllStep => None
      case _ => before
  }

  lemma {:induction false} DisposedNext(steps: seq<(Step, set<RuntimeId>)>)
    requires steps != []
    ensures Disposed(steps) <==> Disposed(steps[..|steps| - 1]) || steps[|steps| - 1].0 == DisposeAllStep
  {
    var n := |steps| - 1;
    if Disposed(steps[..n]) {
      var i :| 0 <= i < n && steps[..n][i].0 == DisposeAllStep;
      assert steps[i].0 == DisposeAllStep;
    }
    if Disposed(steps) {
      var i :| 0 <= i < |steps| && steps[i].0 == DisposeAllStep;
      if i < n { assert steps[..n][i].0 == DisposeAllStep; }
    }
  }

  lemma {:induction false} GetOrCreateSelected(s: State, sid: SessionId, made: SessionId, now: int,
          dirty: set<RuntimeId>)
    ensures var (s', r) := GetOrCreate(s, sid, made, now, dirty);
      && s'.selected == s.selected && s'.disposed == s.disposed
      && (r.Ok? <==> !s.disposed && (HasSession(s.entries, sid) || made == sid))
  {
    EvictFrame(Admit(s, sid, now), Some(sid), dirty);
  }

  lemma {:induction false} SetSelectedSelects(s: State, sid: SessionId, made: SessionId, now: int, later: int,
          dirty: set<RuntimeId>)
    ensures var s' := SetSelected(s, sid, made, now, later, dirty).0;
      && s'.disposed == s.disposed
      && s'.selected == if !s.disposed && (HasSession(s.entries, sid) || made == sid) then Some(sid) else s.selected
  {
    GetOrCreateSelected(s, sid, made, now, dirty);
    var s1 := SavePrevious(GetOrCreate(s, sid, made, now, dirty).0, sid, dirty).(selected := Some(sid));
    var s2 := match Find(s1.entries, sid) case Some(i) => Touch(s1, i, later) case None => s1;
    EvictFrame(s2, Some(sid), dirty);
  }

  lemma {:induction false} RestSelects(s: State, step: Step, dirty: set<RuntimeId>)
    requires !step.SetSelectedStep? && !step.SelectIfUnsetStep?
    ensures var s' := Next(s, step, dirty);
      && s'.disposed == (s.disposed || step == DisposeAllStep)
      && (step != DisposeAllStep ==> s'.selected == s.selected)
      && (step == DisposeAllStep && !s.disposed ==> s'.selected == None)
  {
    match step
    case GetOrCreateStep(sid, made, now) => GetOrCreateSelected(s, sid, made, now, dirty);
    case StartStep(sid, made, now) => GetOrCreateSelected(s, sid, made, now, dirty);
    case FinishStep(j, now) => if MayFinish(s, j) { EvictFrame(Release(s, j, now), None, dirty); }
    case DisposeAllStep => DisposeEntriesStay(s.(disposed := true));
    case _ =>
  }

  /** Over any steps, the selected session is the one chosen last, and the registry is disposed exactly
   *  when `disposeAll` was called. */
  lemma {:induction false} SelectedIsChosen(maxRuntimes: int, steps: seq<(Step, set<RuntimeId>)>)
    ensures Run(maxRuntimes, steps).selected == Chosen(maxRuntimes, steps)
    ensures Run(maxRuntimes, steps).disposed <==> Disposed(steps)
  {
    if steps != [] {
      var n := |steps| - 1;
      var (step, dirty) := steps[n];
      var s := Run(maxRuntimes, steps[..n]);
      SelectedIsChosen(maxRuntimes, steps[..n]);
      DisposedNext(steps);
      if step.SetSelectedStep? {
        SetSelectedSelects(s, step.sid, step.made, step.now, step.later, dirty);
      } else if step.SelectIfUnsetStep? {
        SetSelectedSelects(s, step.sid, step.made, step.now, step.later, dirty);
        if Truthy(s.selected) { GetOrCreateSelected(s, s.selected.value, step.made, step.now, dirty); }
      } else {
        RestSelects(s, step, dirty);
        RunKeeps(maxRuntimes, steps[..n]);
      }
    }
  }

  // ---- checkpoints

  /** Another session takes the selection from the session of this runtime. */
  ghost predicate LosesSelection(s: State, s': State, r: RuntimeId) {
    && s.selected.Some? && s.selected.value != "" && s'.selected.Some? && s'.selected != s.selected
    && RunsOn(s.entries, s.selected.value, r)
  }

  ghost predicate RunsOn(entries: seq<Entry>, sid: SessionId, r: RuntimeId) {
    exists e :: e in entries && e.sessionId == sid && e.runtime == r
  }

  /** What is checkpointed between two states. */
  predicate Saves(s: State, s': State, r: RuntimeId)
    requires s.saved <= s'.saved
  {
    r in s'.saved[|s.saved|..]
  }

  /** Checkpointed are the resident runtimes with messages that are evicted. */
  ghost predicate SavesEvicted(s: State, s': State, dirty: set<RuntimeId>) {
    && s.saved <= s'.saved
    && forall r :: Saves(s, s', r) <==> r in dirty && HasRuntime(s.entries, r) && !HasRuntime(s'.entries, r)
  }

  lemma {:induction false} NothingSaved(s: State, s': State, dirty: set<RuntimeId>)
    requires s'.saved == s.saved && forall r :: HasRuntime(s.entries, r) ==> HasRuntime(s'.entries, r)
    ensures SavesEvicted(s, s', dirty)
  {
  }

  lemma {:induction false} EvictSaves(s: State, protect: Option<SessionId>, dirty: set<RuntimeId>)
    requires Identities(s)
    ensures SavesEvicted(s, Evict(s, protect, dirty), dirty)
    ensures forall r :: HasRuntime(Evict(s, protect, dirty).entries, r) ==> HasRuntime(s.entries, r)
  {
    EvictSavesAndDisposes(s, protect, dirty);
    EvictShrinks(s, protect, dirty);
  }

  lemma {:induction false} TouchRuntimes(s: State, i: nat, now: int)
    requires i < |s.entries|
    ensures forall r :: HasRuntime(Touch(s, i, now).entries, r) <==> HasRuntime(s.entries, r)
    ensures Identities(s) ==> Identities(Touch(s, i, now))
  {
    SameRuntimes(s.entries, Touch(s, i, now).entries);
  }

  lemma {:induction false} GetOrCreateSaves(s: State, sid: SessionId, made: SessionId, now: int,
          dirty: set<RuntimeId>)
    requires Identities(s)
    ensures SavesEvicted(s, GetOrCreate(s, sid, made, now, dirty).0, dirty)
    ensures var (s', got) := GetOrCreate(s, sid, made, now, dirty);
      forall r: RuntimeId :: HasRuntime(s'.entries, r) ==> HasRuntime(s.entries, r) || got == Ok(r)
  {
    if !s.disposed {
      match Find(s.entries, sid)
      case Some(i) =>
        TouchRuntimes(s, i, now);
        NothingSaved(s, Touch(s, i, now), dirty);
      case None =>
        if made == sid { AdmitSaves(s, sid, now, dirty); }
    }
  }

  lemma {:induction false} AdmitSaves(s: State, sid: SessionId, now: int, dirty: set<RuntimeId>)
    requires Identities(s) && !HasSession(s.entries, sid)
    ensures var s' := Evict(Admit(s, sid, now), Some(sid), dirty);
      && SavesEvicted(s, s', dirty)
      && forall r :: HasRuntime(s'.entries, r) ==> HasRuntime(s.entries, r) || r == s.runtimeCount
  {
    var e := Entry(sid, s.runtimeCount, now, 0, None);
    var s1 := Admit(s, sid, now);
    AdmitKeepsIdentities(s, sid, now);
    EvictSaves(s1, Some(sid), dirty);
    assert s1.entries[|s.entries|] == e;
    EvictSpares(s1, e, Some(sid), dirty);
    AdmittedStays(s, s1, Evict(s1, Some(sid), dirty), dirty);
  }

  lemma {:induction false} AdmittedStays(s: State, s1: State, s': State, dirty: set<RuntimeId>)
    requires SavesEvicted(s1, s', dirty) && s1.saved == s.saved && HasRuntime(s'.entries, s.runtimeCount)
    requires forall r :: HasRuntime(s1.entries, r) <==> HasRuntime(s.entries, r) || r == s.runtimeCount
    ensures SavesEvicted(s, s', dirty)
  {
    forall r ensures Saves(s, s', r) <==> r in dirty && HasRuntime(s.entries, r) && !HasRuntime(s'.entries, r) {
      assert Saves(s, s', r) == Saves(s1, s', r);
    }
  }

  /** What `setSelected` checkpoints between making and selecting the runtime. */
  lemma {:induction false} PreviousSaved(s: State, sid: SessionId, dirty: set<RuntimeId>)
    requires Inv(s)
    ensures var s' := SavePrevious(s, sid, dirty);
      && s.saved <= s'.saved
      && forall r :: Saves(s, s', r) <==>
           r in dirty && s.selected.Some? && s.selected.value != "" && s.selected != Some(sid)
             && RunsOn(s.entries, s.selected.value, r)
  {
    if Truthy(s.selected) && s.selected != Some(sid) { OneRuns(s.entries, s.selected.value); }
  }

  lemma {:induction false} OneRuns(entries: seq<Entry>, sid: SessionId)
    requires OneEach(entries)
    ensures match Find(entries, sid)
      case Some(i) => forall r :: RunsOn(entries, sid, r) <==> r == entries[i].runtime
      case None => forall r :: !RunsOn(entries, sid, r)
  {
    var found := Find(entries, sid);
    if found.Some? { assert entries[found.value] in entries; }
  }

  lemma {:induction false} SelectSaves(s: State, sid: SessionId, now: int, dirty: set<RuntimeId>)
    requires Inv(s) && HasSession(s.entries, sid)
    ensures var s' := Select(s, sid, now, dirty);
      && SavesEvicted(s, s', dirty)
      && (forall r :: HasRuntime(s'.entries, r) ==> HasRuntime(s.entries, r))
      && (forall r :: RunsOn(s.entries, sid, r) ==> HasRuntime(s'.entries, r))
  {
    var s1 := s.(selected := Some(sid));
    var i := Find(s1.entries, sid).value;
    var s2 := Touch(s1, i, now);
    TouchRuntimes(s1, i, now);
    EvictSaves(s2, Some(sid), dirty);
    OneRuns(s.entries, sid);
    EvictSpares(s2, s2.entries[i], Some(sid), dirty);
    SavesAfter(s, s2, Select(s, sid, now, dirty), dirty);
  }

  lemma {:induction false} SavesAfter(s: State, s1: State, s': State, dirty: set<RuntimeId>)
    requires SavesEvicted(s1, s', dirty) && s1.saved == s.saved
    requires forall r :: HasRuntime(s1.entries, r) <==> HasRuntime(s.entries, r)
    ensures SavesEvicted(s, s', dirty)
  {
    forall r ensures Saves(s, s', r) == Saves(s1, s', r) {}
  }

  /** Checkpointed are the resident runtimes with messages that are evicted or lose the selection. */
  ghost predicate SavesRight(s: State, s': State, dirty: set<RuntimeId>) {
    && s.saved <= s'.saved
    && forall r :: Saves(s, s', r) <==>
         r in dirty && HasRuntime(s.entries, r) && (!HasRuntime(s'.entries, r) || LosesSelection(s, s', r))
  }

  lemma {:induction false} SavesInTurn(s: State, s1: State, s2: State, s': State, r: RuntimeId)
    requires s.saved <= s1.saved <= s2.saved <= s'.saved
    ensures Saves(s, s', r) <==> Saves(s, s1, r) || Saves(s1, s2, r) || Saves(s2, s', r)
  {
    var a, b, c := s1.saved[|s.saved|..], s2.saved[|s1.saved|..], s'.saved[|s2.saved|..];
    assert s'.saved[|s.saved|..] == a + b + c;
  }

  lemma {:induction false} SetSelectedSaves(s: State, sid: SessionId, made: SessionId, now: int, later: int,
          dirty: set<RuntimeId>)
    requires Inv(s)
    ensures SavesRight(s, SetSelected(s, sid, made, now, later, dirty).0, dirty)
  {
    GetOrCreateKeeps(s, sid, made, now, dirty);
    GetOrCreateSaves(s, sid, made, now, dirty);
    var (s1, r) := GetOrCreate(s, sid, made, now, dirty);
    if r.Ok? {
      var s2 := SavePrevious(s1, sid, dirty);
      PreviousSaved(s1, sid, dirty);
      SavePreviousKeeps(s1, sid, dirty);
      SelectSaves(s2, sid, later, dirty);
      EvictKeepsSelected(s2, sid, later, dirty);
      PreviousRuns(s, sid, made, now, dirty);
      RunsOnMade(s1.entries, sid, r.value);
      PhasesSave(s, s1, s2, Select(s2, sid, later, dirty), sid, r.value, dirty);
    }
  }

  lemma {:induction false} RunsOnMade(entries: seq<Entry>, sid: SessionId, r: RuntimeId)
    requires exists i :: 0 <= i < |entries| && entries[i].sessionId == sid && entries[i].runtime == r
    ensures RunsOn(entries, sid, r)
  {
    var i :| 0 <= i < |entries| && entries[i].sessionId == sid && entries[i].runtime == r;
    assert entries[i] in entries;
  }

  lemma {:induction false} PreviousRuns(s: State, sid: SessionId, made: SessionId, now: int, dirty: set<RuntimeId>)
    requires Inv(s)
    ensures var s1 := GetOrCreate(s, sid, made, now, dirty).0;
      forall x, r :: s.selected == Some(x) && x != sid ==> (RunsOn(s1.entries, x, r) <==> RunsOn(s.entries, x, r))
  {
    GetOrCreateTimes(s, sid, made, now, dirty);
    var s1 := GetOrCreate(s, sid, made, now, dirty).0;
    forall x, r | s.selected == Some(x) && x != sid && RunsOn(s.entries, x, r) ensures RunsOn(s1.entries, x, r) {
      var e :| e in s.entries && e.sessionId == x && e.runtime == r;
      SelectedSpared(s, sid, made, now, dirty, e);
    }
  }

  lemma {:induction false} SelectedSpared(s: State, sid: SessionId, made: SessionId, now: int, dirty: set<RuntimeId>,
          e: Entry)
    requires e in s.entries && s.selected == Some(e.sessionId) && e.sessionId != sid
    ensures e in GetOrCreate(s, sid, made, now, dirty).0.entries
  {
    var s1 := Admit(s, sid, now);
    assert e in s1.entries;
    EvictSpares(s1, e, Some(sid), dirty);
    var found := Find(s.entries, sid);
    if found.Some? {
      var k :| 0 <= k < |s.entries| && s.entries[k] == e;
      assert Touch(s, found.value, now).entries[k] == e;
    }
  }

  lemma {:induction false} PhasesSave(s: State, s1: State, s2: State, s': State, sid: SessionId, made: RuntimeId,
          dirty: set<RuntimeId>)
    requires SavesEvicted(s, s1, dirty) && s1.selected == s.selected
    requires forall r :: HasRuntime(s1.entries, r) ==> HasRuntime(s.entries, r) || r == made
    requires s2.entries == s1.entries && s1.saved <= s2.saved
    requires forall r :: Saves(s1, s2, r) <==>
      r in dirty && s1.selected.Some? && s1.selected.value != "" && s1.selected != Some(sid)
        && RunsOn(s1.entries, s1.selected.value, r)
    requires SavesEvicted(s2, s', dirty) && forall r :: HasRuntime(s'.entries, r) ==> HasRuntime(s2.entries, r)
    requires HasRuntime(s'.entries, made) && s'.selected == Some(sid)
    requires forall x, r :: s.selected == Some(x) && x != sid ==>
      (RunsOn(s1.entries, x, r) <==> RunsOn(s.entries, x, r))
    ensures SavesRight(s, s', dirty)
  {
    forall r ensures Saves(s, s', r) <==>
      r in dirty && HasRuntime(s.entries, r) && (!HasRuntime(s'.entries, r) || LosesSelection(s, s', r))
    {
      SavesInTurn(s, s1, s2, s', r);
      if s.selected.Some? && RunsOn(s.entries, s.selected.value, r) {
        var e :| e in s.entries && e.sessionId == s.selected.value && e.runtime == r;
        var i :| 0 <= i < |s.entries| && s.entries[i] == e;
        assert HasRuntime(s.entries, r);
      }
    }
  }

  lemma {:induction false} SameSelection(s: State, s': State, dirty: set<RuntimeId>)
    requires SavesEvicted(s, s', dirty) && s'.selected == s.selected
    ensures SavesRight(s, s', dirty)
  {
  }

  /** Every step checkpoints exactly the runtimes with messages that it evicts, or that lose the
   *  selection to another session by it; disposing everything checkpoints nothing. */
  lemma {:induction false} CheckpointsAre(s: State, step: Step, dirty: set<RuntimeId>)
    requires Inv(s)
    ensures var s' := Next(s, step, dirty);
      if step == DisposeAllStep then s'.saved == s.saved else SavesRight(s, s', dirty)
  {
    match step
    case SetSelectedStep(sid, made, now, later) => SetSelectedSaves(s, sid, made, now, later, dirty);
    case SelectIfUnsetStep(sid, made, now, later) => SelectIfUnsetSaves(s, sid, made, now, later, dirty);
    case GetOrCreateStep(sid, made, now) => GetOrCreateSavesRight(s, sid, made, now, dirty);
    case StartStep(sid, made, now) => StartSaves(s, sid, made, now, dirty);
    case FinishStep(j, now) => FinishSaves(s, j, now, dirty);
    case DisposeAllStep => DisposalSaves(s.(disposed := true));
    case _ => RestSaves(s, step, dirty);
  }

  lemma {:induction false} GetOrCreateSavesRight(s: State, sid: SessionId, made: SessionId, now: int,
          dirty: set<RuntimeId>)
    requires Inv(s)
    ensures SavesRight(s, GetOrCreate(s, sid, made, now, dirty).0, dirty)
  {
    GetOrCreateSaves(s, sid, made, now, dirty);
    GetOrCreateSelected(s, sid, made, now, dirty);
    SameSelection(s, GetOrCreate(s, sid, made, now, dirty).0, dirty);
  }

  lemma {:induction false} SelectIfUnsetSaves(s: State, sid: SessionId, made: SessionId, now: int, later: int,
          dirty: set<RuntimeId>)
    requires Inv(s)
    ensures SavesRight(s, SelectIfUnset(s, sid, made, now, later, dirty).0, dirty)
  {
    if Truthy(s.selected) {
      GetOrCreateSavesRight(s, s.selected.value, made, now, dirty);
    } else {
      SetSelectedSaves(s, sid, made, now, later, dirty);
    }
  }

  lemma {:induction false} StartSaves(s: State, sid: SessionId, made: SessionId, now: int, dirty: set<RuntimeId>)
    requires Inv(s)
    ensures SavesRight(s, Start(s, sid, made, now, dirty).0, dirty)
  {
    GetOrCreateSavesRight(s, sid, made, now, dirty);
    var (s1, r) := GetOrCreate(s, sid, made, now, dirty);
    if r.Ok? && Find(s1.entries, sid).Some? {
      var s' := Enqueue(s1, Find(s1.entries, sid).value);
      SameRuntimes(s1.entries, s'.entries);
      forall r ensures Saves(s, s', r) == Saves(s, s1, r) {}
    }
  }

  lemma {:induction false} RestSaves(s: State, step: Step, dirty: set<RuntimeId>)
    requires step.EnterStep? || step.SubscribeStep? || step.UnsubscribeStep?
    ensures SavesRight(s, Next(s, step, dirty), dirty)
  {
    SameRuntimes(s.entries, Next(s, step, dirty).entries);
  }

  lemma {:induction false} ReleaseRuntimes(s: State, j: JobId, now: int)
    requires MayFinish(s, j)
    ensures var s' := Release(s, j, now);
      && s'.saved == s.saved && s'.selected == s.selected
      && (forall r :: HasRuntime(s'.entries, r) <==> HasRuntime(s.entries, r))
      && (Identities(s) ==> Identities(s'))
  {
    SameRuntimes(s.entries, Release(s, j, now).entries);
  }

  lemma {:induction false} FinishSaves(s: State, j: JobId, now: int, dirty: set<RuntimeId>)
    requires Identities(s)
    ensures SavesRight(s, Next(s, FinishStep(j, now), dirty), dirty)
  {
    if MayFinish(s, j) {
      var s1 := Release(s, j, now);
      var s' := Evict(s1, None, dirty);
      ReleaseRuntimes(s, j, now);
      EvictSaves(s1, None, dirty);
      EvictFrame(s1, None, dirty);
      SavesAfter(s, s1, s', dirty);
      SameSelection(s, s', dirty);
      assert Next(s, FinishStep(j, now), dirty) == s';
    } else {
      SameSelection(s, s, dirty);
    }
  }

  lemma {:induction false} DisposalSaves(s: State)
    ensures DisposeEntries(s).saved == s.saved
    decreases |s.entries|
  {
    if s.entries != [] { DisposalSaves(DisposeAt(s, 0)); }
  }
}
