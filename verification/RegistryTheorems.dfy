/** What the session runtime registry promises over every interleaving of its operations. */
module RegistryTheorems {
  import opened Wrappers
  import opened RegistryModel
  import opened RegistryInvariant

  // ---- the job queue

  /** Jobs of one session start in submission order, one at a time, even when the session's runtime
   *  was evicted and made anew in between, and even after `disposeAll`. */
  lemma {:induction false} JobsRunInOrder(maxRuntimes: int, steps: seq<(Step, set<RuntimeId>)>, i: nat, j: nat)
    requires i < j < |Run(maxRuntimes, steps).jobs|
    ensures var jobs := Run(maxRuntimes, steps).jobs;
      jobs[i].sessionId == jobs[j].sessionId && jobs[j].phase != Waiting ==> jobs[i].phase == Done
  {
    RunKeeps(maxRuntimes, steps);
  }

  ghost predicate Advances(before: Phase, after: Phase) {
    before == after || (before == Waiting && after == Running) || (before == Running && after == Done)
  }

  lemma {:induction false} GetOrCreateFrame(s: State, sid: SessionId, made: SessionId, now: int, dirty: set<RuntimeId>)
    ensures var s' := GetOrCreate(s, sid, made, now, dirty).0; s'.jobs == s.jobs && s'.maxRuntimes == s.maxRuntimes
  {
    EvictFrame(Admit(s, sid, now), Some(sid), dirty);
  }

  lemma {:induction false} SetSelectedFrame(s: State, sid: SessionId, made: SessionId, now: int, later: int,
          dirty: set<RuntimeId>)
    ensures var s' := SetSelected(s, sid, made, now, later, dirty).0;
      s'.jobs == s.jobs && s'.maxRuntimes == s.maxRuntimes
  {
    GetOrCreateFrame(s, sid, made, now, dirty);
    var s1 := SavePrevious(GetOrCreate(s, sid, made, now, dirty).0, sid, dirty).(selected := Some(sid));
    var s2 := match Find(s1.entries, sid) case Some(i) => Touch(s1, i, later) case None => s1;
    EvictFrame(s2, Some(sid), dirty);
  }

  lemma {:induction false} DisposeEntriesFrame(s: State)
    ensures DisposeEntries(s).jobs == s.jobs && DisposeEntries(s).maxRuntimes == s.maxRuntimes
    decreases |s.entries|
  {
    if s.entries != [] { DisposeEntriesFrame(DisposeAt(s, 0)); }
  }

  /** Jobs are only added at the end, waiting, and the others only advance. */
  ghost predicate JobsAdvance(jobs: seq<Job>, jobs': seq<Job>) {
    && |jobs| <= |jobs'| <= |jobs| + 1
    && (forall j :: 0 <= j < |jobs| ==>
      jobs'[j] == jobs[j].(phase := jobs'[j].phase) && Advances(jobs[j].phase, jobs'[j].phase))
    && (|jobs'| > |jobs| ==> jobs'[|jobs|].phase == Waiting)
  }

  lemma {:induction false} SameJobs(jobs: seq<Job>)
    ensures JobsAdvance(jobs, jobs)
  {
  }

  lemma {:induction false} EnterAdvances(s: State, j: JobId, now: int)
    requires MayEnter(s, j)
    ensures JobsAdvance(s.jobs, Enter(s, j, now).jobs)
  {
  }

  lemma {:induction false} StartAdvances(s: State, sid: SessionId, made: SessionId, now: int, dirty: set<RuntimeId>)
    ensures JobsAdvance(s.jobs, Start(s, sid, made, now, dirty).0.jobs)
  {
    GetOrCreateFrame(s, sid, made, now, dirty);
  }

  lemma {:induction false} FinishAdvances(s: State, j: JobId, now: int, dirty: set<RuntimeId>)
    requires MayFinish(s, j)
    ensures JobsAdvance(s.jobs, Finish(s, j, now, dirty).jobs)
  {
    EvictFrame(Release(s, j, now), None, dirty);
  }

  lemma {:induction false} SelectIfUnsetFrame(s: State, sid: SessionId, made: SessionId, now: int, later: int,
          dirty: set<RuntimeId>)
    ensures var s' := SelectIfUnset(s, sid, made, now, later, dirty).0;
      s'.jobs == s.jobs && s'.maxRuntimes == s.maxRuntimes
  {
    SetSelectedFrame(s, sid, made, now, later, dirty);
    if Truthy(s.selected) { GetOrCreateFrame(s, s.selected.value, made, now, dirty); }
  }

  /** No step forgets, reorders or restarts a job. */
  lemma {:induction false} JobsOnlyAdvance(s: State, step: Step, dirty: set<RuntimeId>)
    ensures JobsAdvance(s.jobs, Next(s, step, dirty).jobs)
  {
    SameJobs(s.jobs);
    match step
    case GetOrCreateStep(sid, made, now) => GetOrCreateFrame(s, sid, made, now, dirty);
    case SetSelectedStep(sid, made, now, later) => SetSelectedFrame(s, sid, made, now, later, dirty);
    case SelectIfUnsetStep(sid, made, now, later) => SelectIfUnsetFrame(s, sid, made, now, later, dirty);
    case StartStep(sid, made, now) => StartAdvances(s, sid, made, now, dirty);
    case EnterStep(j, now) => if MayEnter(s, j) { EnterAdvances(s, j, now); }
    case FinishStep(j, now) => if MayFinish(s, j) { FinishAdvances(s, j, now, dirty); }
    case DisposeAllStep => DisposeEntriesFrame(s.(disposed := true));
    case _ =>
  }

  /** Job `j` is the last one queued on the entry that is resident for session `sid`. */
  ghost predicate QueuedLast(s: State, j: JobId, sid: SessionId)
    requires j < |s.jobs|
  {
    exists i :: 0 <= i < |s.entries| && s.entries[i].sessionId == sid && s.entries[i].tail == Some(j)
      && s.jobs[j].sessionId == sid && s.jobs[j].runtime == s.entries[i].runtime
  }

  /** A started job is queued on the runtime that is resident for its session. */
  lemma {:induction false} StartQueuesOnResident(s: State, sid: SessionId, made: SessionId, now: int,
          dirty: set<RuntimeId>)
    requires Inv(s)
    ensures var (s', r) := Start(s, sid, made, now, dirty);
      && (r.Ok? <==> !s.disposed && (HasSession(s.entries, sid) || made == sid))
      && (r.Ok? ==> r.value == |s.jobs| && |s'.jobs| == |s.jobs| + 1 && QueuedLast(s', r.value, sid))
      && (r.Err? ==> s'.jobs == s.jobs && s'.entries == s.entries)
  {
    GetOrCreateKeeps(s, sid, made, now, dirty);
    var (s1, r) := GetOrCreate(s, sid, made, now, dirty);
    if r.Ok? {
      var i := Find(s1.entries, sid).value;
      assert Enqueue(s1, i).entries[i].tail == Some(|s1.jobs|);
    }
  }

  /** A job that waits is never stuck: an open job of its session, perhaps itself, may move now. */
  lemma {:induction false} NoJobStuck(s: State, j: nat)
    requires Inv(s) && j < |s.jobs| && s.jobs[j].phase != Done
    ensures exists i :: 0 <= i <= j && s.jobs[i].sessionId == s.jobs[j].sessionId && (MayEnter(s, i) || MayFinish(s, i))
  {
    if !MayEnter(s, j) && !MayFinish(s, j) {
      assert IsLast(s.jobs, s.jobs[j].runtime, j, s.jobs[j].previous);
      var p := s.jobs[j].previous.value;
      NoJobStuck(s, p);
      var i :| 0 <= i <= p && s.jobs[i].sessionId == s.jobs[p].sessionId && (MayEnter(s, i) || MayFinish(s, i));
      assert i <= j;
    }
  }

  /** `pending` is the number of the entry's waiting and running jobs, so an entry with any is busy. */
  lemma {:induction false} PendingCountsOpenJobs(maxRuntimes: int, steps: seq<(Step, set<RuntimeId>)>, i: nat, j: nat)
    requires i < |Run(maxRuntimes, steps).entries|
    ensures var s := Run(maxRuntimes, steps);
      && s.entries[i].pending == OpenJobs(s.jobs, s.entries[i].runtime) >= 0
      && (j < |s.jobs| && s.jobs[j].phase != Done && s.jobs[j].sessionId == s.entries[i].sessionId ==>
            s.jobs[j].runtime == s.entries[i].runtime && s.entries[i].pending > 0)
  {
    RunKeeps(maxRuntimes, steps);
    var s := Run(maxRuntimes, steps);
    if j < |s.jobs| && s.jobs[j].phase != Done && s.jobs[j].sessionId == s.entries[i].sessionId {
      OpenJobIsHere(s, i, j);
      NoOpenJobs(s.jobs, s.entries[i].runtime, j);
    }
  }

  /** A queued or running job's runtime has been disposed exactly when `disposeAll` was called: until
   *  then it is resident, afterwards the job still runs, on a disposed runtime. */
  lemma {:induction false} OpenJobsRuntimeLives(maxRuntimes: int, steps: seq<(Step, set<RuntimeId>)>, j: nat)
    requires j < |Run(maxRuntimes, steps).jobs| && Run(maxRuntimes, steps).jobs[j].phase != Done
    ensures var s := Run(maxRuntimes, steps);
      && (s.disposals[s.jobs[j].runtime] == if s.disposed then 1 else 0)
      && (HasRuntime(s.entries, s.jobs[j].runtime) <==> !s.disposed)
  {
    RunKeeps(maxRuntimes, steps);
    var s := Run(maxRuntimes, steps);
    assert s.disposed ==> !HasRuntime(s.entries, s.jobs[j].runtime);
  }

  /** Two more steps of a run. */
  lemma {:induction false} RunTwice(maxRuntimes: int, steps: seq<(Step, set<RuntimeId>)>, a: (Step, set<RuntimeId>),
          b: (Step, set<RuntimeId>))
    ensures Run(maxRuntimes, steps + [a, b]) == Next(Next(Run(maxRuntimes, steps), a.0, a.1), b.0, b.1)
  {
    var all := steps + [a, b];
    assert all[..|all| - 1] == steps + [a];
    assert (steps + [a])[..|steps|] == steps;
  }

  /** In every run, a job that may start still starts when everything is disposed before it does, and
   *  then runs on a runtime that has been disposed. */
  lemma {:induction false} JobStartsOnDisposedRuntime(maxRuntimes: int, steps: seq<(Step, set<RuntimeId>)>, j: JobId,
          now: int)
    requires MayEnter(Run(maxRuntimes, steps), j)
    ensures var s := Run(maxRuntimes, steps + [(DisposeAllStep, {}), (EnterStep(j, now), {})]);
      j < |s.jobs| && s.jobs[j].phase == Running && s.disposed && s.disposals[s.jobs[j].runtime] == 1
  {
    RunTwice(maxRuntimes, steps, (DisposeAllStep, {}), (EnterStep(j, now), {}));
    EnterAfterDisposal(Run(maxRuntimes, steps), j, now);
    OpenJobsRuntimeLives(maxRuntimes, steps + [(DisposeAllStep, {}), (EnterStep(j, now), {})], j);
  }

  lemma {:induction false} EnterAfterDisposal(s: State, j: JobId, now: int)
    requires MayEnter(s, j)
    ensures var after := Next(Next(s, DisposeAllStep, {}), EnterStep(j, now), {});
      j < |after.jobs| && after.jobs[j].phase == Running && after.disposed
  {
    DisposeEntriesFrame(s.(disposed := true));
    DisposeEntriesStay(s.(disposed := true));
    var disposed := DisposeAll(s);
    assert disposed.jobs == s.jobs && disposed.disposed && MayEnter(disposed, j);
    EnterRuns(disposed, j, now);
  }

  lemma {:induction false} EnterRuns(s: State, j: JobId, now: int)
    requires MayEnter(s, j)
    ensures var after := Enter(s, j, now);
      after.disposed == s.disposed && |after.jobs| == |s.jobs| && after.jobs[j].phase == Running
  {
  }

  lemma {:induction false} DisposeEntriesStay(s: State)
    ensures DisposeEntries(s).disposed == s.disposed
    decreases |s.entries|
  {
    if s.entries != [] { DisposeEntriesStay(DisposeAt(s, 0)); }
  }

  /** There are such runs: a first job of a new registry may start. */
  lemma {:induction false} FirstJobMayStart(sid: SessionId, now: int)
    ensures MayEnter(Run(1, [(StartStep(sid, sid, now), {})]), 0)
  {
    var s := Init(1);
    var steps: seq<(Step, set<RuntimeId>)> := [(StartStep(sid, sid, now), {})];
    assert steps[..0] == [];
    var admitted := Admit(s, sid, now);
    assert |admitted.entries| == 1 && admitted.entries[0].sessionId == sid
      && Evict(admitted, Some(sid), {}) == admitted;
    assert Find(admitted.entries, sid) == Some(0);
  }

  // ---- residency

  /** The places of the entries with queued or running jobs, one for each such session. */
  ghost function Busy(s: State): set<nat> {
    set i | i in Range(|s.entries|) && s.entries[i].pending != 0
  }

  function Range(n: nat): (r: set<nat>)
    ensures |r| == n && forall i :: i in r <==> 0 <= i < n
  {
    if n == 0 then {} else Range(n - 1) + {n - 1}
  }

  lemma {:induction false} FewIdle(s: State)
    requires Identities(s) && WithinCapacity(s) && |s.entries| > s.maxRuntimes
    ensures |s.entries| <= |Busy(s)| + 2
  {
    var all := Range(|s.entries|);
    var chosen := set i | i in all && s.selected == Some(s.entries[i].sessionId);
    var idle := set i | i in all && Idle(s, i);
    AtMostOne(chosen);
    AtMostOne(idle);
    assert forall i :: i in all ==> i in Busy(s) || i in chosen || i in idle;
    CoverSize(all, Busy(s), chosen, idle);
  }

  lemma {:induction false} CoverSize(all: set<nat>, a: set<nat>, b: set<nat>, c: set<nat>)
    requires forall i :: i in all ==> i in a || i in b || i in c
    ensures |all| <= |a| + |b| + |c|
  {
    assert a + b == a + (b - a);
    assert (a + b) + c == (a + b) + (c - (a + b));
    var covered := (a + b) + c;
    assert covered == all + (covered - all);
  }

  lemma {:induction false} AtMostOne(xs: set<nat>)
    requires forall i, j :: i in xs && j in xs ==> i == j
    ensures |xs| <= 1
  {
    if xs != {} {
      var i :| i in xs;
      assert xs == {i};
    }
  }

  lemma {:induction false} CapStays(s: State, step: Step, dirty: set<RuntimeId>)
    ensures Next(s, step, dirty).maxRuntimes == s.maxRuntimes
  {
    match step
    case GetOrCreateStep(sid, made, now) => GetOrCreateFrame(s, sid, made, now, dirty);
    case SetSelectedStep(sid, made, now, later) => SetSelectedFrame(s, sid, made, now, later, dirty);
    case SelectIfUnsetStep(sid, made, now, later) => SelectIfUnsetFrame(s, sid, made, now, later, dirty);
    case StartStep(sid, made, now) => GetOrCreateFrame(s, sid, made, now, dirty);
    case FinishStep(j, now) => if MayFinish(s, j) { EvictFrame(Release(s, j, now), None, dirty); }
    case DisposeAllStep => DisposeEntriesFrame(s.(disposed := true));
    case _ =>
  }

  lemma {:induction false} CapOfRun(maxRuntimes: int, steps: seq<(Step, set<RuntimeId>)>)
    ensures Run(maxRuntimes, steps).maxRuntimes == if maxRuntimes <= 1 then 1 else maxRuntimes
  {
    if steps != [] {
      var n := |steps| - 1;
      CapOfRun(maxRuntimes, steps[..n]);
      CapStays(Run(maxRuntimes, steps[..n]), steps[n].0, steps[n].1);
    }
  }

  /** Resident runtimes never exceed the cap, which is at least one, or the busy sessions plus two, and
   *  the selected session is always resident. */
  lemma {:induction false} ResidencyBound(maxRuntimes: int, steps: seq<(Step, set<RuntimeId>)>)
    ensures var s := Run(maxRuntimes, steps);
      && (|s.entries| <= 1 || |s.entries| <= maxRuntimes || |s.entries| <= |Busy(s)| + 2)
      && (s.selected.Some? ==> HasSession(s.entries, s.selected.value))
  {
    RunKeeps(maxRuntimes, steps);
    CapOfRun(maxRuntimes, steps);
    var s := Run(maxRuntimes, steps);
    if |s.entries| > s.maxRuntimes { FewIdle(s); }
  }

  /** The entries of `entries` that are still among `kept`, in order. */
  ghost function Surviving(entries: seq<Entry>, kept: seq<Entry>): seq<Entry> {
    if entries == [] then []
    else
      var n := |entries| - 1;
      Surviving(entries[..n], kept) + if entries[n] in kept then [entries[n]] else []
  }

  ghost predicate AllDistinct(entries: seq<Entry>) {
    forall i, j :: 0 <= i < j < |entries| ==> entries[i] != entries[j]
  }

  ghost predicate Precedes(entries: seq<Entry>, a: Entry, b: Entry) {
    exists i, k :: 0 <= i < k < |entries| && entries[i] == a && entries[k] == b
  }

  /** When both may be evicted, `a` goes before `b`. */
  ghost predicate Older(entries: seq<Entry>, a: Entry, b: Entry) {
    a.lastUsedAt < b.lastUsedAt || (a.lastUsedAt == b.lastUsedAt && Precedes(entries, a, b))
  }

  lemma {:induction false} SurvivingWithout(entries: seq<Entry>, i: nat, kept: seq<Entry>)
    requires i < |entries| && entries[i] !in kept
    ensures Surviving(entries[..i] + entries[i + 1..], kept) == Surviving(entries, kept)
  {
    var n := |entries| - 1;
    var rest := entries[..i] + entries[i + 1..];
    if i < n {
      SurvivingWithout(entries[..n], i, kept);
      assert rest[..n - 1] == entries[..n][..i] + entries[..n][i + 1..];
      assert rest[n - 1] == entries[n];
    } else {
      assert rest == entries[..n];
    }
  }

  lemma {:induction false} SurvivingAll(entries: seq<Entry>, kept: seq<Entry>)
    requires forall e :: e in entries ==> e in kept
    ensures Surviving(entries, kept) == entries
  {
    if entries != [] {
      var n := |entries| - 1;
      SurvivingAll(entries[..n], kept);
      assert entries == entries[..n] + [entries[n]];
    }
  }

  lemma {:induction false} WithoutOne(entries: seq<Entry>, i: nat)
    requires i < |entries| && AllDistinct(entries)
    ensures var rest := entries[..i] + entries[i + 1..];
      && AllDistinct(rest) && (forall e :: e in rest <==> e in entries && e != entries[i])
      && (forall a, b :: Precedes(rest, a, b) ==> Precedes(entries, a, b))
  {
  }

  lemma {:induction false} CandidateIsOldest(s: State, i: nat, protect: Option<SessionId>, e: Entry)
    requires Candidate(s.entries, |s.entries|, protect, s.selected) == Some(i)
    requires e in s.entries && e != s.entries[i] && Evictable(e, protect, s.selected)
    ensures Older(s.entries, s.entries[i], e)
  {
  }

  /** Eviction takes exactly as many entries as it needs or may, oldest first (ties by insertion),
   *  never a protected, selected or busy one; the others keep their order and contents. */
  ghost predicate EvictedOldestFirst(s: State, protect: Option<SessionId>, kept: seq<Entry>) {
    && kept == Surviving(s.entries, kept)
    && (forall v :: v in s.entries && v !in kept ==> Evictable(v, protect, s.selected))
    && (forall v, e :: v in s.entries && v !in kept && e in kept && Evictable(e, protect, s.selected) ==>
      Older(s.entries, v, e))
    && (|kept| >= s.maxRuntimes || |kept| == |s.entries|)
    && (|kept| > s.maxRuntimes ==> forall e :: e in kept ==> !Evictable(e, protect, s.selected))
  }

  lemma {:induction false} EvictsOldestFirst(s: State, protect: Option<SessionId>, dirty: set<RuntimeId>)
    requires AllDistinct(s.entries)
    ensures EvictedOldestFirst(s, protect, Evict(s, protect, dirty).entries)
    decreases |s.entries|
  {
    if |s.entries| <= s.maxRuntimes {
      NothingEvicted(s, protect);
    } else {
      match Candidate(s.entries, |s.entries|, protect, s.selected)
      case None => NothingEvicted(s, protect);
      case Some(i) =>
        OneLess(s, i, dirty);
        EvictsOldestFirst(EvictOne(s, i, dirty), protect, dirty);
        VictimFirst(s, i, protect, dirty);
    }
  }

  lemma {:induction false} OneLess(s: State, i: nat, dirty: set<RuntimeId>)
    requires i < |s.entries| && AllDistinct(s.entries)
    ensures var s1 := EvictOne(s, i, dirty); AllDistinct(s1.entries) && |s1.entries| < |s.entries|
  {
    WithoutOne(s.entries, i);
  }

  lemma {:induction false} VictimFirst(s: State, i: nat, protect: Option<SessionId>, dirty: set<RuntimeId>)
    requires AllDistinct(s.entries) && |s.entries| > s.maxRuntimes
    requires Candidate(s.entries, |s.entries|, protect, s.selected) == Some(i)
    requires EvictedOldestFirst(EvictOne(s, i, dirty), protect, Evict(EvictOne(s, i, dirty), protect, dirty).entries)
    ensures EvictedOldestFirst(s, protect, Evict(s, protect, dirty).entries)
  {
    OneMoreVictim(s, i, protect, EvictOne(s, i, dirty), Evict(EvictOne(s, i, dirty), protect, dirty).entries);
  }

  lemma {:induction false} NothingEvicted(s: State, protect: Option<SessionId>)
    requires |s.entries| <= s.maxRuntimes || Candidate(s.entries, |s.entries|, protect, s.selected) == None
    ensures EvictedOldestFirst(s, protect, s.entries)
  {
    SurvivingAll(s.entries, s.entries);
  }

  lemma {:induction false} OneMoreVictim(s: State, i: nat, protect: Option<SessionId>, s1: State, kept: seq<Entry>)
    requires AllDistinct(s.entries) && |s.entries| > s.maxRuntimes
    requires Candidate(s.entries, |s.entries|, protect, s.selected) == Some(i)
    requires s1.entries == s.entries[..i] + s.entries[i + 1..] && s1.selected == s.selected
      && s1.maxRuntimes == s.maxRuntimes
    requires EvictedOldestFirst(s1, protect, kept)
    ensures EvictedOldestFirst(s, protect, kept)
  {
    WithoutOne(s.entries, i);
    SurvivesIn(s1.entries, kept);
    SurvivingWithout(s.entries, i, kept);
    forall v, e | v in s.entries && v !in kept && e in kept && Evictable(e, protect, s.selected)
      ensures Older(s.entries, v, e)
    {
      if v == s.entries[i] {
        CandidateIsOldest(s, i, protect, e);
      } else {
        assert Older(s1.entries, v, e);
      }
    }
  }

  lemma {:induction false} SurvivesIn(entries: seq<Entry>, kept: seq<Entry>)
    ensures forall e :: e in Surviving(entries, kept) ==> e in entries
  {
    if entries != [] {
      var n := |entries| - 1;
      SurvivesIn(entries[..n], kept);
      assert forall e :: e in entries[..n] ==> e in entries;
    }
  }

  /** Every victim that has messages is checkpointed, and eviction checkpoints nothing else; each
   *  victim is disposed once. */
  ghost predicate SavedAndDisposed(s: State, dirty: set<RuntimeId>, s': State) {
    && s.saved <= s'.saved
    && (forall r :: r in s'.saved[|s.saved|..] <==>
      r in dirty && HasRuntime(s.entries, r) && !HasRuntime(s'.entries, r))
    && (forall r: RuntimeId ::
      s'.disposals[r] == s.disposals[r] + if HasRuntime(s.entries, r) && !HasRuntime(s'.entries, r) then 1 else 0)
  }

  lemma {:induction false} EvictSavesAndDisposes(s: State, protect: Option<SessionId>, dirty: set<RuntimeId>)
    requires Identities(s)
    ensures SavedAndDisposed(s, dirty, Evict(s, protect, dirty))
    decreases |s.entries|
  {
    if |s.entries| > s.maxRuntimes {
      match Candidate(s.entries, |s.entries|, protect, s.selected)
      case None =>
      case Some(i) =>
        var s1 := EvictOne(s, i, dirty);
        DisposeKeepsIdentities(SaveIfDirty(s, s.entries[i].runtime, dirty), i);
        RemovedAt(s.entries, i);
        EvictSavesAndDisposes(s1, protect, dirty);
        EvictShrinks(s1, protect, dirty);
        OneMoreSaved(s, i, dirty, Evict(s1, protect, dirty));
    }
  }

  lemma {:induction false} OneMoreSaved(s: State, i: nat, dirty: set<RuntimeId>, s': State)
    requires Identities(s) && i < |s.entries|
    requires SavedAndDisposed(EvictOne(s, i, dirty), dirty, s')
    requires forall r :: HasRuntime(s'.entries, r) ==> HasRuntime(EvictOne(s, i, dirty).entries, r)
    ensures SavedAndDisposed(s, dirty, s')
  {
    var s1 := EvictOne(s, i, dirty);
    RemovedAt(s.entries, i);
    assert HasRuntime(s.entries, s.entries[i].runtime);
    var more := s1.saved[|s.saved|..];
    assert more == if s.entries[i].runtime in dirty then [s.entries[i].runtime] else [];
    assert s'.saved[|s.saved|..] == more + s'.saved[|s1.saved|..];
  }

  lemma {:induction false} EvictShrinks(s: State, protect: Option<SessionId>, dirty: set<RuntimeId>)
    requires Identities(s)
    ensures forall r :: HasRuntime(Evict(s, protect, dirty).entries, r) ==> HasRuntime(s.entries, r)
    decreases |s.entries|
  {
    if |s.entries| > s.maxRuntimes {
      match Candidate(s.entries, |s.entries|, protect, s.selected)
      case None =>
      case Some(i) =>
        DisposeKeepsIdentities(SaveIfDirty(s, s.entries[i].runtime, dirty), i);
        RemovedAt(s.entries, i);
        EvictShrinks(EvictOne(s, i, dirty), protect, dirty);
    }
  }

  // ---- subscribers

  /** In every reachable state a handler is attached to a runtime once when the runtime is resident
   *  and the subscriber is live, and not at all otherwise. */
  lemma {:induction false} SubscribersMirrored(maxRuntimes: int, steps: seq<(Step, set<RuntimeId>)>, a: Attachment)
    ensures var s := Run(maxRuntimes, steps);
      s.attached[a] ==
        if HasRuntime(s.entries, a.runtime) && HasSubscriber(s.subscribers, a.kind, a.subscriber) then 1 else 0
  {
    RunKeeps(maxRuntimes, steps);
  }

  /** Until everything is disposed, subscribing makes one more subscriber live, of that kind, and no other;
   *  afterwards it is refused. */
  lemma {:induction false} SubscribeMakesLive(s: State, added: Kind, kind: Kind, id: SubscriberId)
    requires Inv(s)
    ensures var (s', r) := Subscribe(s, added);
      if s.disposed then r == Err(RegistryDisposed) && s' == s
      else
        && r.Ok? && (forall k :: !HasSubscriber(s.subscribers, k, r.value))
        && (HasSubscriber(s'.subscribers, kind, id) <==>
              HasSubscriber(s.subscribers, kind, id) || (kind == added && id == r.value))
  {
    if !s.disposed {
      var unsubs := UnsubsFor(s.entries, added, s.subscriberCount);
      SubscriberAdded(s.subscribers, Subscriber(s.subscriberCount, added, unsubs), kind, id);
    }
  }

  /** A subscriber stays live until it is unsubscribed or everything is disposed. */
  lemma {:induction false} SubscriberStaysLive(s: State, step: Step, dirty: set<RuntimeId>, kind: Kind,
          id: SubscriberId)
    requires Inv(s) && HasSubscriber(s.subscribers, kind, id)
    ensures HasSubscriber(Next(s, step, dirty).subscribers, kind, id) <==>
      step != DisposeAllStep && step != UnsubscribeStep(id)
  {
    if step.SubscribeStep? || step.UnsubscribeStep? || step.DisposeAllStep? {
      SubscribersChanged(s, step, dirty, kind, id);
    } else {
      NextSubscribers(s, step, dirty);
      SameSubscribers(s.subscribers, Next(s, step, dirty).subscribers);
    }
  }

  ghost predicate SameRecords(a: seq<Subscriber>, b: seq<Subscriber>) {
    |a| == |b| && forall k :: 0 <= k < |a| ==> b[k].id == a[k].id && b[k].kind == a[k].kind
  }

  lemma {:induction false} EvictRecords(s: State, protect: Option<SessionId>, dirty: set<RuntimeId>)
    ensures SameRecords(s.subscribers, Evict(s, protect, dirty).subscribers)
    decreases |s.entries|
  {
    if |s.entries| > s.maxRuntimes {
      match Candidate(s.entries, |s.entries|, protect, s.selected)
      case None =>
      case Some(i) => EvictRecords(EvictOne(s, i, dirty), protect, dirty);
    }
  }

  lemma {:induction false} GetOrCreateRecords(s: State, sid: SessionId, made: SessionId, now: int,
          dirty: set<RuntimeId>)
    ensures SameRecords(s.subscribers, GetOrCreate(s, sid, made, now, dirty).0.subscribers)
  {
    EvictRecords(Admit(s, sid, now), Some(sid), dirty);
  }

  lemma {:induction false} SetSelectedRecords(s: State, sid: SessionId, made: SessionId, now: int, later: int,
          dirty: set<RuntimeId>)
    ensures SameRecords(s.subscribers, SetSelected(s, sid, made, now, later, dirty).0.subscribers)
  {
    GetOrCreateRecords(s, sid, made, now, dirty);
    var s1 := SavePrevious(GetOrCreate(s, sid, made, now, dirty).0, sid, dirty).(selected := Some(sid));
    var s2 := match Find(s1.entries, sid) case Some(i) => Touch(s1, i, later) case None => s1;
    EvictRecords(s2, Some(sid), dirty);
  }

  lemma {:induction false} NextSubscribers(s: State, step: Step, dirty: set<RuntimeId>)
    ensures !step.SubscribeStep? && !step.UnsubscribeStep? && !step.DisposeAllStep? ==>
      SameRecords(s.subscribers, Next(s, step, dirty).subscribers)
  {
    match step
    case GetOrCreateStep(sid, made, now) => GetOrCreateRecords(s, sid, made, now, dirty);
    case SetSelectedStep(sid, made, now, later) => SetSelectedRecords(s, sid, made, now, later, dirty);
    case SelectIfUnsetStep(sid, made, now, later) =>
      SetSelectedRecords(s, sid, made, now, later, dirty);
      if Truthy(s.selected) { GetOrCreateRecords(s, s.selected.value, made, now, dirty); }
    case StartStep(sid, made, now) => GetOrCreateRecords(s, sid, made, now, dirty);
    case FinishStep(j, now) => if MayFinish(s, j) { EvictRecords(Release(s, j, now), None, dirty); }
    case _ =>
  }

  lemma {:induction false} SubscribeOnlyAdds(s: State, added: Kind, kind: Kind, id: SubscriberId)
    requires HasSubscriber(s.subscribers, kind, id)
    ensures HasSubscriber(Subscribe(s, added).0.subscribers, kind, id)
  {
    var subs' := Subscribe(s, added).0.subscribers;
    var k :| 0 <= k < |s.subscribers| && s.subscribers[k].kind == kind && s.subscribers[k].id == id;
    assert subs'[k] == s.subscribers[k];
  }

  lemma {:induction false} UnsubscribeRemovesOne(s: State, gone: SubscriberId, kind: Kind, id: SubscriberId)
    requires RecordsMirror(s)
    ensures HasSubscriber(Unsubscribe(s, gone).subscribers, kind, id) <==>
      HasSubscriber(s.subscribers, kind, id) && id != gone
  {
    NoSuchSubscriber(s.subscribers, gone);
    match FindSubscriber(s.subscribers, gone)
    case None =>
    case Some(k) => RemovedSubscriber(s.subscribers, k);
  }

  lemma {:induction false} NoneAfterDisposal(s: State)
    requires ClosedEmpty(s)
    ensures DisposeAll(s).subscribers == []
  {
  }

  lemma {:induction false} SubscribersChanged(s: State, step: Step, dirty: set<RuntimeId>, kind: Kind,
          id: SubscriberId)
    requires RecordsMirror(s) && ClosedEmpty(s) && HasSubscriber(s.subscribers, kind, id)
    requires step.SubscribeStep? || step.UnsubscribeStep? || step.DisposeAllStep?
    ensures HasSubscriber(Next(s, step, dirty).subscribers, kind, id) <==>
      step != DisposeAllStep && step != UnsubscribeStep(id)
  {
    match step
    case SubscribeStep(added) => SubscribeOnlyAdds(s, added, kind, id);
    case UnsubscribeStep(gone) => UnsubscribeRemovesOne(s, gone, kind, id);
    case DisposeAllStep => NoneAfterDisposal(s);
  }
}
