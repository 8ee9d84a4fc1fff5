/** What every step of the session runtime registry keeps. */
module RegistryInvariant {
  import opened Wrappers
  import opened RegistryModel

  // ---- vocabulary

  ghost predicate HasRuntime(entries: seq<Entry>, r: RuntimeId) {
    exists i :: 0 <= i < |entries| && entries[i].runtime == r
  }

  ghost predicate HasSession(entries: seq<Entry>, sid: SessionId) {
    exists i :: 0 <= i < |entries| && entries[i].sessionId == sid
  }

  ghost predicate HasSubscriber(subs: seq<Subscriber>, kind: Kind, id: SubscriberId) {
    exists k :: 0 <= k < |subs| && subs[k].kind == kind && subs[k].id == id
  }

  function Open(job: Job, r: RuntimeId): nat {
    if job.runtime == r && job.phase != Done then 1 else 0
  }

  /** Jobs of runtime `r` that wait or run. */
  function OpenJobs(jobs: seq<Job>, r: RuntimeId): nat {
    if jobs == [] then 0 else OpenJobs(jobs[..|jobs| - 1], r) + Open(jobs[|jobs| - 1], r)
  }

  /** `o` is the last of the first `n` jobs that belongs to runtime `r`. */
  ghost predicate IsLast(jobs: seq<Job>, r: RuntimeId, n: nat, o: Option<JobId>)
    requires n <= |jobs|
  {
    match o
    case None => forall i :: 0 <= i < n ==> jobs[i].runtime != r
    case Some(p) => p < n && jobs[p].runtime == r && forall i :: p < i < n ==> jobs[i].runtime != r
  }

  predicate Idle(s: State, i: nat)
    requires i < |s.entries|
  {
    s.entries[i].pending == 0 && s.selected != Some(s.entries[i].sessionId)
  }

  // ---- the invariant

  /** Sessions and runtimes are resident once; a runtime has been disposed, once, exactly when it
   *  was made and is no longer resident. */
  ghost predicate Identities(s: State) {
    && (forall i, j :: 0 <= i < j < |s.entries| ==>
          s.entries[i].sessionId != s.entries[j].sessionId && s.entries[i].runtime != s.entries[j].runtime)
    && (forall i :: 0 <= i < |s.entries| ==> s.entries[i].runtime < s.runtimeCount)
    && (forall r: RuntimeId :: s.disposals[r] == if r < s.runtimeCount && !HasRuntime(s.entries, r) then 1 else 0)
  }

  /** Every live subscriber is attached once to every resident runtime, and nothing else is attached. */
  ghost predicate Attached(s: State) {
    AttachedTo(s.entries, s.subscribers, s.attached)
  }

  ghost predicate AttachedTo(entries: seq<Entry>, subs: seq<Subscriber>, attached: multiset<Attachment>) {
    forall a: Attachment :: attached[a] ==
      if HasRuntime(entries, a.runtime) && HasSubscriber(subs, a.kind, a.subscriber) then 1 else 0
  }

  /** Each subscriber record holds the closure of each resident runtime, and no other. */
  ghost predicate RecordsMirror(s: State) {
    && (forall k, l :: 0 <= k < l < |s.subscribers| ==> s.subscribers[k].id != s.subscribers[l].id)
    && (forall k :: 0 <= k < |s.subscribers| ==> s.subscribers[k].id < s.subscriberCount)
    && (forall k :: 0 <= k < |s.subscribers| ==> Mirrors(s.subscribers[k], s.entries))
  }

  predicate Holds(sub: Subscriber, e: Entry) {
    e.sessionId in sub.unsubs && sub.unsubs[e.sessionId] == Attachment(e.runtime, sub.kind, sub.id)
  }

  ghost predicate Mirrors(sub: Subscriber, entries: seq<Entry>) {
    && (forall i :: 0 <= i < |entries| ==> Holds(sub, entries[i]))
    && (forall sid :: sid in sub.unsubs ==> HasSession(entries, sid))
  }

  /** Jobs of one runtime form a chain of promises; jobs of one session start in submission order,
   *  each after all earlier ones are done. */
  ghost predicate Chained(jobs: seq<Job>) {
    && (forall j :: 0 <= j < |jobs| ==> IsLast(jobs, jobs[j].runtime, j, jobs[j].previous))
    && (forall i, j :: 0 <= i < j < |jobs| && jobs[i].runtime == jobs[j].runtime ==>
          jobs[i].sessionId == jobs[j].sessionId && (jobs[j].phase != Waiting ==> jobs[i].phase == Done))
    && (forall i, j ::
      0 <= i < j < |jobs| && jobs[i].sessionId == jobs[j].sessionId && jobs[i].runtime != jobs[j].runtime ==>
          jobs[i].phase == Done)
  }

  /** An entry's `pending` counts its open jobs and its `tail` is its last job's promise. */
  ghost predicate Accounted(s: State) {
    && (forall i :: 0 <= i < |s.entries| ==>
          && s.entries[i].pending == OpenJobs(s.jobs, s.entries[i].runtime)
          && IsLast(s.jobs, s.entries[i].runtime, |s.jobs|, s.entries[i].tail))
    && (forall i, j :: 0 <= i < |s.entries| && 0 <= j < |s.jobs| && s.jobs[j].runtime == s.entries[i].runtime ==>
          s.jobs[j].sessionId == s.entries[i].sessionId)
    && (forall j :: 0 <= j < |s.jobs| ==> s.jobs[j].runtime < s.runtimeCount)
  }

  /** Until `disposeAll`, an open job's runtime is resident. */
  ghost predicate OpenResident(s: State) {
    !s.disposed ==> forall j :: 0 <= j < |s.jobs| && s.jobs[j].phase != Done ==>
      HasRuntime(s.entries, s.jobs[j].runtime)
  }

  ghost predicate Core(s: State) {
    Identities(s) && Attached(s) && RecordsMirror(s) && Chained(s.jobs) && Accounted(s) && OpenResident(s)
  }

  ghost predicate SelectedResident(s: State) {
    s.selected.Some? ==> HasSession(s.entries, s.selected.value)
  }

  /** Over capacity, at most one entry is neither selected nor busy. */
  ghost predicate WithinCapacity(s: State) {
    |s.entries| > s.maxRuntimes ==>
      forall i, j :: 0 <= i < |s.entries| && 0 <= j < |s.entries| && Idle(s, i) && Idle(s, j) ==> i == j
  }

  ghost predicate ClosedEmpty(s: State) {
    s.disposed ==> s.entries == [] && s.subscribers == [] && s.selected == None
  }

  ghost predicate Inv(s: State) {
    s.maxRuntimes >= 1 && Core(s) && SelectedResident(s) && WithinCapacity(s) && ClosedEmpty(s)
  }

  // ---- counting open jobs

  lemma {:induction false} OpenJobsUpdate(jobs: seq<Job>, k: nat, job: Job, r: RuntimeId)
    requires k < |jobs|
    ensures OpenJobs(jobs[k := job], r) == OpenJobs(jobs, r) - Open(jobs[k], r) + Open(job, r)
  {
    var n := |jobs| - 1;
    if k < n {
      OpenJobsUpdate(jobs[..n], k, job, r);
      assert jobs[k := job][..n] == jobs[..n][k := job];
    } else {
      assert jobs[k := job][..n] == jobs[..n];
    }
  }

  lemma {:induction false} NoOpenJobs(jobs: seq<Job>, r: RuntimeId, j: nat)
    requires j < |jobs| && jobs[j].runtime == r
    ensures jobs[j].phase != Done ==> OpenJobs(jobs, r) > 0
  {
    if j < |jobs| - 1 { NoOpenJobs(jobs[..|jobs| - 1], r, j); }
  }

  lemma {:induction false} FreshHasNoJobs(jobs: seq<Job>, r: RuntimeId)
    requires forall j :: 0 <= j < |jobs| ==> jobs[j].runtime != r
    ensures OpenJobs(jobs, r) == 0
  {
    if jobs != [] { FreshHasNoJobs(jobs[..|jobs| - 1], r); }
  }

  // ---- changes that leave sessions, runtimes, pending counts and tails alone

  ghost predicate SameButTimes(a: seq<Entry>, b: seq<Entry>) {
    |a| == |b| && forall i :: 0 <= i < |a| ==>
      b[i].sessionId == a[i].sessionId && b[i].runtime == a[i].runtime && b[i].pending == a[i].pending
        && b[i].tail == a[i].tail
  }

  lemma {:induction false} SameRuntimes(a: seq<Entry>, b: seq<Entry>)
    requires |a| == |b|
    requires forall i :: 0 <= i < |a| ==> b[i].sessionId == a[i].sessionId && b[i].runtime == a[i].runtime
    ensures forall r :: HasRuntime(a, r) <==> HasRuntime(b, r)
    ensures forall sid :: HasSession(a, sid) <==> HasSession(b, sid)
  {
  }

  lemma {:induction false} RetimeMirrors(sub: Subscriber, a: seq<Entry>, b: seq<Entry>)
    requires Mirrors(sub, a) && |a| == |b|
    requires forall i :: 0 <= i < |a| ==> b[i].sessionId == a[i].sessionId && b[i].runtime == a[i].runtime
    ensures Mirrors(sub, b)
  {
  }

  lemma {:induction false} RetimeKeepsRecords(s: State, s': State)
    requires Identities(s) && Attached(s) && RecordsMirror(s) && SameButTimes(s.entries, s'.entries)
    requires s'.subscribers == s.subscribers && s'.subscriberCount == s.subscriberCount && s'.attached == s.attached
    requires s'.runtimeCount == s.runtimeCount && s'.disposals == s.disposals
    ensures Identities(s') && Attached(s') && RecordsMirror(s')
  {
    SameRuntimes(s.entries, s'.entries);
    forall k | 0 <= k < |s'.subscribers| ensures Mirrors(s'.subscribers[k], s'.entries) {
      RetimeMirrors(s.subscribers[k], s.entries, s'.entries);
    }
  }

  lemma {:induction false} RetimeKeepsJobs(s: State, s': State)
    requires Accounted(s) && OpenResident(s) && SameButTimes(s.entries, s'.entries)
    requires s'.jobs == s.jobs && s'.runtimeCount == s.runtimeCount && s'.disposed == s.disposed
    ensures Accounted(s') && OpenResident(s')
  {
  }

  lemma {:induction false} RetimeKeeps(s: State, s': State)
    requires Core(s) && SameButTimes(s.entries, s'.entries)
    requires s' == s.(entries := s'.entries, saved := s'.saved, selected := s'.selected)
    ensures Core(s')
  {
    RetimeKeepsRecords(s, s');
    RetimeKeepsJobs(s, s');
  }

  /** Capacity survives when no entry becomes idle. */
  lemma {:induction false} StillWithinCapacity(s: State, s': State)
    requires WithinCapacity(s) && s'.maxRuntimes == s.maxRuntimes && |s'.entries| == |s.entries|
    requires forall i :: 0 <= i < |s.entries| && Idle(s', i) ==> Idle(s, i)
    ensures WithinCapacity(s')
  {
  }

  // ---- admitting a runtime

  lemma {:induction false} AdmitKeepsIdentities(s: State, sid: SessionId, now: int)
    requires Identities(s) && !HasSession(s.entries, sid)
    ensures Identities(Admit(s, sid, now))
    ensures forall r :: HasRuntime(Admit(s, sid, now).entries, r) <==> HasRuntime(s.entries, r) || r == s.runtimeCount
    ensures forall x :: HasSession(Admit(s, sid, now).entries, x) <==> HasSession(s.entries, x) || x == sid
  {
    var s' := Admit(s, sid, now);
    var n := |s.entries|;
    assert s'.entries[n].runtime == s.runtimeCount && s'.entries[n].sessionId == sid;
    forall r ensures HasRuntime(s'.entries, r) <==> HasRuntime(s.entries, r) || r == s.runtimeCount {
      if HasRuntime(s.entries, r) {
        var i :| 0 <= i < n && s.entries[i].runtime == r;
        assert s'.entries[i].runtime == r;
      }
    }
    forall x ensures HasSession(s'.entries, x) <==> HasSession(s.entries, x) || x == sid {
      if HasSession(s.entries, x) {
        var i :| 0 <= i < n && s.entries[i].sessionId == x;
        assert s'.entries[i].sessionId == x;
      }
    }
    assert !HasRuntime(s.entries, s.runtimeCount);
  }

  lemma {:induction false} AttachmentsCount(subs: seq<Subscriber>, r: RuntimeId, a: Attachment)
    requires forall k, l :: 0 <= k < l < |subs| ==> subs[k].id != subs[l].id
    ensures multiset(AttachmentsOf(subs, r))[a] ==
      if a.runtime == r && HasSubscriber(subs, a.kind, a.subscriber) then 1 else 0
  {
    var all := AttachmentsOf(subs, r);
    DistinctCounts(all, a);
    if a in all {
      var k :| 0 <= k < |all| && all[k] == a;
      assert subs[k].kind == a.kind && subs[k].id == a.subscriber;
    }
    if a.runtime == r && HasSubscriber(subs, a.kind, a.subscriber) {
      var k :| 0 <= k < |subs| && subs[k].kind == a.kind && subs[k].id == a.subscriber;
      assert all[k] == a;
    }
  }

  lemma {:induction false} SameSubscribers(a: seq<Subscriber>, b: seq<Subscriber>)
    requires |a| == |b| && forall k :: 0 <= k < |a| ==> b[k].id == a[k].id && b[k].kind == a[k].kind
    ensures forall kind, id :: HasSubscriber(a, kind, id) <==> HasSubscriber(b, kind, id)
  {
  }

  lemma {:induction false} AdmitKeepsAttached(s: State, sid: SessionId, now: int)
    requires Identities(s) && Attached(s) && RecordsMirror(s) && !HasSession(s.entries, sid)
    ensures Attached(Admit(s, sid, now))
  {
    var s' := Admit(s, sid, now);
    AdmitKeepsIdentities(s, sid, now);
    SameSubscribers(s.subscribers, s'.subscribers);
    assert !HasRuntime(s.entries, s.runtimeCount);
    forall a: Attachment ensures s'.attached[a] ==
      if HasRuntime(s'.entries, a.runtime) && HasSubscriber(s'.subscribers, a.kind, a.subscriber) then 1 else 0
    {
      AttachmentsCount(s.subscribers, s.runtimeCount, a);
    }
  }

  lemma {:induction false} AdmitMirrors(sub: Subscriber, entries: seq<Entry>, e: Entry)
    requires Mirrors(sub, entries) && !HasSession(entries, e.sessionId)
    ensures Mirrors(sub.(unsubs := sub.unsubs[e.sessionId := Attachment(e.runtime, sub.kind, sub.id)]), entries + [e])
  {
    var sub' := sub.(unsubs := sub.unsubs[e.sessionId := Attachment(e.runtime, sub.kind, sub.id)]);
    var all := entries + [e];
    forall i | 0 <= i < |all| ensures Holds(sub', all[i]) {
      if i < |entries| {
        assert all[i] == entries[i] && Holds(sub, entries[i]) && HasSession(entries, entries[i].sessionId);
      }
    }
    forall x | x in sub'.unsubs ensures HasSession(all, x) {
      if x == e.sessionId { assert all[|entries|].sessionId == x; }
      else {
        var i :| 0 <= i < |entries| && entries[i].sessionId == x;
        assert all[i].sessionId == x;
      }
    }
  }

  lemma {:induction false} AdmitKeepsMirror(s: State, sid: SessionId, now: int)
    requires RecordsMirror(s) && !HasSession(s.entries, sid)
    ensures RecordsMirror(Admit(s, sid, now))
  {
    var s' := Admit(s, sid, now);
    forall k | 0 <= k < |s'.subscribers| ensures Mirrors(s'.subscribers[k], s'.entries) {
      AdmitMirrors(s.subscribers[k], s.entries, Entry(sid, s.runtimeCount, now, 0, None));
    }
  }

  lemma {:induction false} AdmitKeepsAccounted(s: State, sid: SessionId, now: int)
    requires Accounted(s)
    ensures Accounted(Admit(s, sid, now))
  {
    var s' := Admit(s, sid, now);
    FreshHasNoJobs(s.jobs, s.runtimeCount);
    forall i | 0 <= i < |s'.entries|
      ensures s'.entries[i].pending == OpenJobs(s'.jobs, s'.entries[i].runtime)
      ensures IsLast(s'.jobs, s'.entries[i].runtime, |s'.jobs|, s'.entries[i].tail)
    {
      if i < |s.entries| { assert s'.entries[i] == s.entries[i]; }
    }
  }

  lemma {:induction false} AdmitKeeps(s: State, sid: SessionId, now: int)
    requires Core(s) && !HasSession(s.entries, sid)
    ensures Core(Admit(s, sid, now))
  {
    AdmitKeepsIdentities(s, sid, now);
    AdmitKeepsAttached(s, sid, now);
    AdmitKeepsMirror(s, sid, now);
    AdmitKeepsAccounted(s, sid, now);
  }

  // ---- disposing an entry

  /** The closures stored for a session, in subscriber order. */
  function Closures(subs: seq<Subscriber>, sid: SessionId): seq<Attachment> {
    if subs == [] then []
    else
      var last := subs[|subs| - 1];
      Closures(subs[..|subs| - 1], sid) + if sid in last.unsubs then [last.unsubs[sid]] else []
  }

  lemma {:induction false} CallingSubtracts(subs: seq<Subscriber>, sid: SessionId, attached: multiset<Attachment>)
    ensures CallClosures(subs, sid, attached) == attached - multiset(Closures(subs, sid))
  {
    if subs != [] { CallingSubtracts(subs[..|subs| - 1], sid, attached); }
  }

  lemma {:induction false} ClosuresAre(subs: seq<Subscriber>, e: Entry)
    requires forall k :: 0 <= k < |subs| ==> Holds(subs[k], e)
    ensures Closures(subs, e.sessionId) == AttachmentsOf(subs, e.runtime)
  {
    if subs != [] {
      var n := |subs| - 1;
      ClosuresAre(subs[..n], e);
      assert AttachmentsOf(subs, e.runtime) ==
        AttachmentsOf(subs[..n], e.runtime) + [Attachment(e.runtime, subs[n].kind, subs[n].id)];
    }
  }

  lemma {:induction false} RemovedAt(entries: seq<Entry>, i: nat)
    requires i < |entries|
    requires forall k, j :: 0 <= k < j < |entries| ==>
      entries[k].sessionId != entries[j].sessionId && entries[k].runtime != entries[j].runtime
    ensures var rest := entries[..i] + entries[i + 1..];
      && (forall r :: HasRuntime(rest, r) <==> HasRuntime(entries, r) && r != entries[i].runtime)
      && (forall x :: HasSession(rest, x) <==> HasSession(entries, x) && x != entries[i].sessionId)
  {
    var rest := entries[..i] + entries[i + 1..];
    assert forall k :: 0 <= k < |rest| ==> rest[k] == entries[if k < i then k else k + 1];
    forall r ensures HasRuntime(rest, r) <==> HasRuntime(entries, r) && r != entries[i].runtime {
      if HasRuntime(entries, r) && r != entries[i].runtime {
        var k :| 0 <= k < |entries| && entries[k].runtime == r;
        assert rest[if k < i then k else k - 1].runtime == r;
      }
    }
    forall x ensures HasSession(rest, x) <==> HasSession(entries, x) && x != entries[i].sessionId {
      if HasSession(entries, x) && x != entries[i].sessionId {
        var k :| 0 <= k < |entries| && entries[k].sessionId == x;
        assert rest[if k < i then k else k - 1].sessionId == x;
      }
    }
  }

  lemma {:induction false} DisposeKeepsIdentities(s: State, i: nat)
    requires Identities(s) && i < |s.entries|
    ensures Identities(DisposeAt(s, i))
  {
    var s' := DisposeAt(s, i);
    RemovedAt(s.entries, i);
    assert HasRuntime(s.entries, s.entries[i].runtime);
    assert forall k :: 0 <= k < |s'.entries| ==> s'.entries[k] == s.entries[if k < i then k else k + 1];
  }

  lemma {:induction false} DisposeMirrors(sub: Subscriber, entries: seq<Entry>, i: nat)
    requires Mirrors(sub, entries) && i < |entries|
    requires forall k, j :: 0 <= k < j < |entries| ==>
      entries[k].sessionId != entries[j].sessionId && entries[k].runtime != entries[j].runtime
    ensures Mirrors(sub.(unsubs := sub.unsubs - {entries[i].sessionId}), entries[..i] + entries[i + 1..])
  {
    var rest := entries[..i] + entries[i + 1..];
    var sub' := sub.(unsubs := sub.unsubs - {entries[i].sessionId});
    RemovedAt(entries, i);
    forall k | 0 <= k < |rest| ensures Holds(sub', rest[k]) {
      assert rest[k] == entries[if k < i then k else k + 1];
      assert Holds(sub, entries[if k < i then k else k + 1]);
    }
  }

  lemma {:induction false} DisposeKeepsMirror(s: State, i: nat)
    requires Identities(s) && RecordsMirror(s) && i < |s.entries|
    ensures RecordsMirror(DisposeAt(s, i))
  {
    var s' := DisposeAt(s, i);
    forall k | 0 <= k < |s'.subscribers| ensures Mirrors(s'.subscribers[k], s'.entries) {
      DisposeMirrors(s.subscribers[k], s.entries, i);
    }
  }

  lemma {:induction false} DetachOne(entries: seq<Entry>, subs: seq<Subscriber>, attached: multiset<Attachment>, i: nat)
    requires i < |entries| && AttachedTo(entries, subs, attached)
    requires forall k, j :: 0 <= k < j < |entries| ==>
      entries[k].sessionId != entries[j].sessionId && entries[k].runtime != entries[j].runtime
    requires forall k, l :: 0 <= k < l < |subs| ==> subs[k].id != subs[l].id
    ensures AttachedTo(entries[..i] + entries[i + 1..], subs,
      attached - multiset(AttachmentsOf(subs, entries[i].runtime)))
  {
    var rest := entries[..i] + entries[i + 1..];
    RemovedAt(entries, i);
    assert HasRuntime(entries, entries[i].runtime);
    forall a: Attachment ensures (attached - multiset(AttachmentsOf(subs, entries[i].runtime)))[a] ==
      if HasRuntime(rest, a.runtime) && HasSubscriber(subs, a.kind, a.subscriber) then 1 else 0
    {
      AttachmentsCount(subs, entries[i].runtime, a);
    }
  }

  lemma {:induction false} AttachedSameRecords(entries: seq<Entry>, subs: seq<Subscriber>, subs': seq<Subscriber>,
          attached: multiset<Attachment>)
    requires AttachedTo(entries, subs, attached)
    requires |subs| == |subs'| && forall k :: 0 <= k < |subs| ==>
      subs'[k].id == subs[k].id && subs'[k].kind == subs[k].kind
    ensures AttachedTo(entries, subs', attached)
  {
  }

  lemma {:induction false} DisposeDetaches(s: State, i: nat)
    requires RecordsMirror(s) && i < |s.entries|
    ensures DisposeAt(s, i).attached == s.attached - multiset(AttachmentsOf(s.subscribers, s.entries[i].runtime))
  {
    var e := s.entries[i];
    forall k | 0 <= k < |s.subscribers| ensures Holds(s.subscribers[k], e) {
      assert Mirrors(s.subscribers[k], s.entries);
    }
    ClosuresAre(s.subscribers, e);
    CallingSubtracts(s.subscribers, e.sessionId, s.attached);
  }

  lemma {:induction false} DisposeAttaches(s: State, i: nat)
    requires Identities(s) && Attached(s) && RecordsMirror(s) && i < |s.entries|
    ensures AttachedTo(DisposeAt(s, i).entries, s.subscribers, DisposeAt(s, i).attached)
  {
    DisposeDetaches(s, i);
    DetachOne(s.entries, s.subscribers, s.attached, i);
  }

  lemma {:induction false} DisposeKeepsAttached(s: State, i: nat)
    requires Identities(s) && Attached(s) && RecordsMirror(s) && i < |s.entries|
    ensures Attached(DisposeAt(s, i))
  {
    var s' := DisposeAt(s, i);
    DisposeAttaches(s, i);
    AttachedSameRecords(s'.entries, s.subscribers, s'.subscribers, s'.attached);
  }

  lemma {:induction false} DisposeKeepsJobs(s: State, i: nat)
    requires Identities(s) && Accounted(s) && OpenResident(s) && i < |s.entries|
      && (s.disposed || s.entries[i].pending == 0)
    ensures Accounted(DisposeAt(s, i)) && OpenResident(DisposeAt(s, i))
  {
    var s' := DisposeAt(s, i);
    RemovedAt(s.entries, i);
    assert forall k :: 0 <= k < |s'.entries| ==> s'.entries[k] == s.entries[if k < i then k else k + 1];
    forall j | 0 <= j < |s.jobs| && s.jobs[j].phase != Done && s.jobs[j].runtime == s.entries[i].runtime
      ensures s.disposed
    {
      NoOpenJobs(s.jobs, s.entries[i].runtime, j);
    }
  }

  lemma {:induction false} DisposeKeeps(s: State, i: nat)
    requires Core(s) && i < |s.entries| && (s.disposed || s.entries[i].pending == 0)
    ensures Core(DisposeAt(s, i))
  {
    DisposeKeepsIdentities(s, i);
    DisposeKeepsMirror(s, i);
    DisposeKeepsAttached(s, i);
    DisposeKeepsJobs(s, i);
  }

  // ---- eviction

  lemma {:induction false} EvictOneKeeps(s: State, i: nat, dirty: set<RuntimeId>)
    requires Core(s) && SelectedResident(s) && i < |s.entries| && Idle(s, i)
    ensures var s' := EvictOne(s, i, dirty);
      && Core(s') && SelectedResident(s')
      && (forall x :: HasSession(s'.entries, x) <==> HasSession(s.entries, x) && x != s.entries[i].sessionId)
  {
    var s1 := SaveIfDirty(s, s.entries[i].runtime, dirty);
    RetimeKeeps(s, s1);
    DisposeKeeps(s1, i);
    RemovedAt(s.entries, i);
  }

  lemma {:induction false} EvictFrame(s: State, protect: Option<SessionId>, dirty: set<RuntimeId>)
    ensures var s' := Evict(s, protect, dirty);
      && s'.maxRuntimes == s.maxRuntimes && s'.jobs == s.jobs && s'.disposed == s.disposed && s'.selected == s.selected
      && |s'.subscribers| == |s.subscribers| && |s'.entries| <= |s.entries|
      && (|s'.entries| > s.maxRuntimes ==> Candidate(s'.entries, |s'.entries|, protect, s'.selected) == None)
    decreases |s.entries|
  {
    if |s.entries| > s.maxRuntimes {
      match Candidate(s.entries, |s.entries|, protect, s.selected)
      case None =>
      case Some(i) => EvictFrame(EvictOne(s, i, dirty), protect, dirty);
    }
  }

  ghost predicate Sound(s: State) {
    Core(s) && SelectedResident(s)
  }

  /** Eviction keeps the invariant, and the protected session stays resident. */
  lemma {:induction false} EvictSound(s: State, protect: Option<SessionId>, dirty: set<RuntimeId>)
    requires Sound(s)
    ensures Sound(Evict(s, protect, dirty))
    ensures protect.Some? && HasSession(s.entries, protect.value) ==>
      HasSession(Evict(s, protect, dirty).entries, protect.value)
    decreases |s.entries|
  {
    if |s.entries| > s.maxRuntimes {
      match Candidate(s.entries, |s.entries|, protect, s.selected)
      case None =>
      case Some(i) =>
        EvictOneKeeps(s, i, dirty);
        EvictSound(EvictOne(s, i, dirty), protect, dirty);
    }
  }

  lemma {:induction false} EvictKeeps(s: State, protect: Option<SessionId>, dirty: set<RuntimeId>)
    requires Core(s) && SelectedResident(s)
    ensures var s' := Evict(s, protect, dirty);
      && Core(s') && SelectedResident(s')
      && s'.maxRuntimes == s.maxRuntimes && s'.jobs == s.jobs && s'.disposed == s.disposed && s'.selected == s.selected
      && (s.entries == [] ==> s'.entries == []) && (s.subscribers == [] ==> s'.subscribers == [])
      && (protect.Some? && HasSession(s.entries, protect.value) ==> HasSession(s'.entries, protect.value))
      && (|s'.entries| > s.maxRuntimes ==> Candidate(s'.entries, |s'.entries|, protect, s'.selected) == None)
  {
    EvictFrame(s, protect, dirty);
    EvictSound(s, protect, dirty);
  }

  /** With the selected session protected, or none, nothing idle is left over capacity; with another
   *  session protected, at most that one. */
  lemma {:induction false} EvictFits(s: State, protect: Option<SessionId>, dirty: set<RuntimeId>)
    requires Core(s) && SelectedResident(s)
    ensures WithinCapacity(Evict(s, protect, dirty))
    ensures protect == None || protect == s.selected ==>
      var s' := Evict(s, protect, dirty);
      |s'.entries| > s.maxRuntimes ==> forall i :: 0 <= i < |s'.entries| ==> !Idle(s', i)
  {
    EvictKeeps(s, protect, dirty);
    var s' := Evict(s, protect, dirty);
    if |s'.entries| > s.maxRuntimes {
      assert forall i :: 0 <= i < |s'.entries| && Idle(s', i) ==> Some(s'.entries[i].sessionId) == protect;
    }
  }

  // ---- the operations

  lemma {:induction false} TouchKeeps(s: State, i: nat, now: int)
    requires Inv(s) && i < |s.entries|
    ensures Inv(Touch(s, i, now))
  {
    var s' := Touch(s, i, now);
    RetimeKeeps(s, s');
    SameRuntimes(s.entries, s'.entries);
    StillWithinCapacity(s, s');
  }

  lemma {:induction false} GetOrCreateKeeps(s: State, sid: SessionId, made: SessionId, now: int, dirty: set<RuntimeId>)
    requires Inv(s)
    ensures var (s', r) := GetOrCreate(s, sid, made, now, dirty);
      && Inv(s') && s'.jobs == s.jobs && s'.selected == s.selected && s'.disposed == s.disposed
      && (r.Err? ==> s'.entries == s.entries)
      && (r.Ok? ==> exists i ::
        0 <= i < |s'.entries| && s'.entries[i].sessionId == sid && s'.entries[i].runtime == r.value)
  {
    if !s.disposed {
      match Find(s.entries, sid)
      case Some(i) =>
        TouchKeeps(s, i, now);
        assert Touch(s, i, now).entries[i].sessionId == sid;
      case None =>
        if made != sid {
          assert !HasRuntime(s.entries, s.runtimeCount);
          var s' := GetOrCreate(s, sid, made, now, dirty).0;
          assert Identities(s') && RecordsMirror(s');
          StillWithinCapacity(s, s');
        } else {
          var s1 := Admit(s, sid, now);
          assert s1.entries[|s.entries|] == Entry(sid, s.runtimeCount, now, 0, None);
          AdmitKeepsIdentities(s, sid, now);
          AdmitKeeps(s, sid, now);
          EvictKeeps(s1, Some(sid), dirty);
          EvictFits(s1, Some(sid), dirty);
          EvictSpares(s1, Entry(sid, s.runtimeCount, now, 0, None), Some(sid), dirty);
        }
    }
  }

  lemma {:induction false} EvictOneSpares(s: State, e: Entry, i: nat, dirty: set<RuntimeId>)
    requires e in s.entries && i < |s.entries| && s.entries[i] != e
    ensures e in EvictOne(s, i, dirty).entries
  {
  }

  /** Eviction never touches an entry that is protected, selected or busy. */
  lemma {:induction false} EvictSpares(s: State, e: Entry, protect: Option<SessionId>, dirty: set<RuntimeId>)
    requires e in s.entries && !Evictable(e, protect, s.selected)
    ensures e in Evict(s, protect, dirty).entries
    decreases |s.entries|
  {
    if |s.entries| > s.maxRuntimes {
      match Candidate(s.entries, |s.entries|, protect, s.selected)
      case None =>
      case Some(i) =>
        EvictOneSpares(s, e, i, dirty);
        EvictSpares(EvictOne(s, i, dirty), e, protect, dirty);
    }
  }

  lemma {:induction false} SelectKeeps(s: State, sid: SessionId, now: int, dirty: set<RuntimeId>)
    requires Inv(s) && HasSession(s.entries, sid)
    ensures Inv(Select(s, sid, now, dirty)) && HasSession(Select(s, sid, now, dirty).entries, sid)
    ensures Select(s, sid, now, dirty).jobs == s.jobs && Select(s, sid, now, dirty).disposed == s.disposed
  {
    var s1 := s.(selected := Some(sid));
    RetimeKeeps(s, s1);
    var i := Find(s1.entries, sid).value;
    var s2 := Touch(s1, i, now);
    RetimeKeeps(s1, s2);
    SameRuntimes(s1.entries, s2.entries);
    EvictKeeps(s2, Some(sid), dirty);
    EvictFits(s2, Some(sid), dirty);
  }

  lemma {:induction false} SavePreviousKeeps(s: State, sid: SessionId, dirty: set<RuntimeId>)
    requires Inv(s)
    ensures Inv(SavePrevious(s, sid, dirty))
    ensures SavePrevious(s, sid, dirty) == s.(saved := SavePrevious(s, sid, dirty).saved)
  {
    var s' := SavePrevious(s, sid, dirty);
    RetimeKeeps(s, s');
    StillWithinCapacity(s, s');
  }

  lemma {:induction false} SetSelectedKeeps(s: State, sid: SessionId, made: SessionId, now: int, later: int,
          dirty: set<RuntimeId>)
    requires Inv(s)
    ensures var (s', r) := SetSelected(s, sid, made, now, later, dirty);
      && Inv(s') && s'.jobs == s.jobs && s'.disposed == s.disposed && (r.Ok? ==> s'.selected == Some(sid))
  {
    GetOrCreateKeeps(s, sid, made, now, dirty);
    var (s1, r) := GetOrCreate(s, sid, made, now, dirty);
    if r.Ok? {
      var s2 := SavePrevious(s1, sid, dirty);
      SavePreviousKeeps(s1, sid, dirty);
      assert HasSession(s2.entries, sid);
      SelectKeeps(s2, sid, later, dirty);
      EvictKeepsSelected(s2, sid, later, dirty);
    }
  }

  lemma {:induction false} EvictKeepsSelected(s: State, sid: SessionId, now: int, dirty: set<RuntimeId>)
    requires Inv(s) && HasSession(s.entries, sid)
    ensures Select(s, sid, now, dirty).selected == Some(sid)
  {
    var s1 := s.(selected := Some(sid));
    RetimeKeeps(s, s1);
    var s2 := Touch(s1, Find(s1.entries, sid).value, now);
    RetimeKeeps(s1, s2);
    SameRuntimes(s1.entries, s2.entries);
    EvictKeeps(s2, Some(sid), dirty);
  }

  /** An open job of a resident session belongs to that session's entry. */
  lemma {:induction false} OpenJobIsHere(s: State, i: nat, j: nat)
    requires Identities(s) && Accounted(s) && OpenResident(s) && !s.disposed
    requires i < |s.entries| && j < |s.jobs| && s.jobs[j].phase != Done && s.jobs[j].sessionId == s.entries[i].sessionId
    ensures s.jobs[j].runtime == s.entries[i].runtime
  {
  }

  lemma {:induction false} ChainedAppend(jobs: seq<Job>, job: Job)
    requires Chained(jobs) && IsLast(jobs, job.runtime, |jobs|, job.previous) && job.phase == Waiting
    requires forall i :: 0 <= i < |jobs| && jobs[i].runtime == job.runtime ==> jobs[i].sessionId == job.sessionId
    requires forall i :: 0 <= i < |jobs| && jobs[i].sessionId == job.sessionId && jobs[i].phase != Done ==>
      jobs[i].runtime == job.runtime
    ensures Chained(jobs + [job])
  {
    var all := jobs + [job];
    forall j | 0 <= j < |all| ensures IsLast(all, all[j].runtime, j, all[j].previous) {
      if j < |jobs| { assert IsLast(jobs, jobs[j].runtime, j, jobs[j].previous); }
    }
  }

  lemma {:induction false} EnqueueKeepsAccounted(s: State, i: nat)
    requires Identities(s) && Accounted(s) && i < |s.entries|
    ensures Accounted(Enqueue(s, i))
  {
    var s' := Enqueue(s, i);
    var n := |s.jobs|;
    assert s'.jobs[..n] == s.jobs;
    forall k | 0 <= k < |s'.entries|
      ensures s'.entries[k].pending == OpenJobs(s'.jobs, s'.entries[k].runtime)
      ensures IsLast(s'.jobs, s'.entries[k].runtime, |s'.jobs|, s'.entries[k].tail)
    {
      assert IsLast(s.jobs, s.entries[k].runtime, n, s.entries[k].tail);
      assert k != i ==> s.entries[k].runtime != s.entries[i].runtime;
    }
  }

  /** Same sessions and runtimes in the same places: identities and attachments carry over. */
  lemma {:induction false} SamePlacesKeep(s: State, s': State)
    requires Identities(s) && Attached(s) && RecordsMirror(s) && |s'.entries| == |s.entries|
    requires forall i :: 0 <= i < |s.entries| ==>
      s'.entries[i].sessionId == s.entries[i].sessionId && s'.entries[i].runtime == s.entries[i].runtime
    requires s' == s.(entries := s'.entries, jobs := s'.jobs)
    ensures Identities(s') && Attached(s') && RecordsMirror(s')
    ensures SelectedResident(s) ==> SelectedResident(s')
    ensures forall r :: HasRuntime(s.entries, r) <==> HasRuntime(s'.entries, r)
  {
    SameRuntimes(s.entries, s'.entries);
    forall k | 0 <= k < |s'.subscribers| ensures Mirrors(s'.subscribers[k], s'.entries) {
      RetimeMirrors(s.subscribers[k], s.entries, s'.entries);
    }
  }

  lemma {:induction false} EnqueueKeeps(s: State, i: nat)
    requires Inv(s) && i < |s.entries|
    ensures Inv(Enqueue(s, i))
  {
    var s' := Enqueue(s, i);
    var e := s.entries[i];
    forall j | 0 <= j < |s.jobs| && s.jobs[j].sessionId == e.sessionId && s.jobs[j].phase != Done
      ensures s.jobs[j].runtime == e.runtime
    {
      OpenJobIsHere(s, i, j);
    }
    ChainedAppend(s.jobs, Job(e.sessionId, e.runtime, e.tail, Waiting));
    EnqueueKeepsAccounted(s, i);
    SamePlacesKeep(s, s');
    assert HasRuntime(s.entries, e.runtime);
    StillWithinCapacity(s, s');
  }

  lemma {:induction false} StartKeeps(s: State, sid: SessionId, made: SessionId, now: int, dirty: set<RuntimeId>)
    requires Inv(s)
    ensures Inv(Start(s, sid, made, now, dirty).0)
  {
    GetOrCreateKeeps(s, sid, made, now, dirty);
    var (s1, r) := GetOrCreate(s, sid, made, now, dirty);
    if r.Ok? {
      match Find(s1.entries, sid)
      case Some(i) => EnqueueKeeps(s1, i);
      case None =>
    }
  }

  lemma {:induction false} PhaseKeepsLast(jobs: seq<Job>, j: nat, job: Job)
    requires j < |jobs| && job.runtime == jobs[j].runtime && job.previous == jobs[j].previous
    ensures forall r, n: nat, o :: n <= |jobs| && IsLast(jobs, r, n, o) ==> IsLast(jobs[j := job], r, n, o)
  {
  }

  lemma {:induction false} EnterKeepsChained(jobs: seq<Job>, j: nat)
    requires Chained(jobs) && j < |jobs| && jobs[j].phase == Waiting
    requires jobs[j].previous.Some? ==> jobs[j].previous.value < |jobs| && jobs[jobs[j].previous.value].phase == Done
    ensures Chained(jobs[j := jobs[j].(phase := Running)])
  {
    PhaseKeepsLast(jobs, j, jobs[j].(phase := Running));
    assert IsLast(jobs, jobs[j].runtime, j, jobs[j].previous);
    forall i | 0 <= i < j && jobs[i].runtime == jobs[j].runtime ensures jobs[i].phase == Done {
      assert i <= jobs[j].previous.value;
    }
  }

  lemma {:induction false} FinishKeepsChained(jobs: seq<Job>, j: nat)
    requires Chained(jobs) && j < |jobs| && jobs[j].phase == Running
    ensures Chained(jobs[j := jobs[j].(phase := Done)])
  {
    PhaseKeepsLast(jobs, j, jobs[j].(phase := Done));
  }

  lemma {:induction false} PhaseKeepsAccounted(s: State, j: nat, job: Job)
    requires Accounted(s) && j < |s.jobs| && s.jobs[j].phase != Done
    requires job == s.jobs[j].(phase := job.phase) && job.phase != Done
    ensures Accounted(s.(jobs := s.jobs[j := job]))
  {
    PhaseKeepsLast(s.jobs, j, job);
    forall i | 0 <= i < |s.entries| ensures s.entries[i].pending == OpenJobs(s.jobs[j := job], s.entries[i].runtime) {
      OpenJobsUpdate(s.jobs, j, job, s.entries[i].runtime);
    }
  }

  lemma {:induction false} EnterKeeps(s: State, j: nat, now: int)
    requires Inv(s) && MayEnter(s, j)
    ensures Inv(Enter(s, j, now))
  {
    var job := s.jobs[j].(phase := Running);
    var s1 := s.(jobs := s.jobs[j := job]);
    EnterKeepsChained(s.jobs, j);
    PhaseKeepsAccounted(s, j, job);
    SamePlacesKeep(s, s1);
    StillWithinCapacity(s, s1);
    match FindRuntime(s1.entries, s.jobs[j].runtime)
    case Some(i) => TouchKeeps(s1, i, now);
    case None =>
  }

  lemma {:induction false} ReleaseKeepsCount(s: State, j: nat, now: int, i: nat)
    requires Identities(s) && Accounted(s) && MayFinish(s, j) && i < |s.entries|
    ensures Release(s, j, now).entries[i].pending == OpenJobs(Release(s, j, now).jobs, s.entries[i].runtime)
  {
    OpenJobsUpdate(s.jobs, j, s.jobs[j].(phase := Done), s.entries[i].runtime);
  }

  lemma {:induction false} ReleaseKeepsEntry(s: State, j: nat, now: int, i: nat)
    requires Identities(s) && Accounted(s) && MayFinish(s, j) && i < |s.entries|
    ensures var s' := Release(s, j, now);
      && |s'.entries| == |s.entries| && s'.entries[i].runtime == s.entries[i].runtime
      && s'.entries[i].sessionId == s.entries[i].sessionId
      && s'.entries[i].pending == OpenJobs(s'.jobs, s'.entries[i].runtime)
      && IsLast(s'.jobs, s'.entries[i].runtime, |s'.jobs|, s'.entries[i].tail)
  {
    PhaseKeepsLast(s.jobs, j, s.jobs[j].(phase := Done));
    ReleaseKeepsCount(s, j, now, i);
    assert IsLast(s.jobs, s.entries[i].runtime, |s.jobs|, s.entries[i].tail);
  }

  lemma {:induction false} ReleaseKeepsAccounted(s: State, j: nat, now: int)
    requires Identities(s) && Accounted(s) && MayFinish(s, j)
    ensures Accounted(Release(s, j, now))
  {
    var s' := Release(s, j, now);
    forall i | 0 <= i < |s.entries|
      ensures |s'.entries| == |s.entries| && s'.entries[i].runtime == s.entries[i].runtime
        && s'.entries[i].sessionId == s.entries[i].sessionId
      ensures s'.entries[i].pending == OpenJobs(s'.jobs, s'.entries[i].runtime)
      ensures IsLast(s'.jobs, s'.entries[i].runtime, |s'.jobs|, s'.entries[i].tail)
    {
      ReleaseKeepsEntry(s, j, now, i);
    }
    assert |s'.jobs| == |s.jobs| && forall k :: 0 <= k < |s.jobs| ==>
      s'.jobs[k].runtime == s.jobs[k].runtime && s'.jobs[k].sessionId == s.jobs[k].sessionId;
  }

  lemma {:induction false} ReleaseKeeps(s: State, j: nat, now: int)
    requires Inv(s) && MayFinish(s, j)
    ensures Core(Release(s, j, now)) && SelectedResident(Release(s, j, now)) && ClosedEmpty(Release(s, j, now))
  {
    var s' := Release(s, j, now);
    FinishKeepsChained(s.jobs, j);
    ReleaseKeepsAccounted(s, j, now);
    SamePlacesKeep(s, s');
  }

  lemma {:induction false} FinishKeeps(s: State, j: nat, now: int, dirty: set<RuntimeId>)
    requires Inv(s) && MayFinish(s, j)
    ensures Inv(Finish(s, j, now, dirty))
  {
    ReleaseKeeps(s, j, now);
    EvictKeeps(Release(s, j, now), None, dirty);
    EvictFits(Release(s, j, now), None, dirty);
  }

  // ---- subscriptions

  lemma {:induction false} UnsubsAre(entries: seq<Entry>, kind: Kind, id: SubscriberId)
    requires forall i, j :: 0 <= i < j < |entries| ==> entries[i].sessionId != entries[j].sessionId
    ensures Mirrors(Subscriber(id, kind, UnsubsFor(entries, kind, id)), entries)
  {
    if entries != [] {
      var n := |entries| - 1;
      UnsubsAre(entries[..n], kind, id);
      var all := UnsubsFor(entries, kind, id);
      forall sid | sid in all ensures HasSession(entries, sid) {
        if sid == entries[n].sessionId { assert HasSession(entries, sid); }
        else {
          assert HasSession(entries[..n], sid);
          var i :| 0 <= i < n && entries[..n][i].sessionId == sid;
          assert entries[i].sessionId == sid;
        }
      }
      forall i | 0 <= i < n
        ensures entries[i].sessionId in all && all[entries[i].sessionId] == Attachment(entries[i].runtime, kind, id)
      {
        assert entries[..n][i] == entries[i];
      }
    }
  }

  lemma {:induction false} SubscriptionsCount(entries: seq<Entry>, kind: Kind, id: SubscriberId, a: Attachment)
    requires forall i, j :: 0 <= i < j < |entries| ==> entries[i].runtime != entries[j].runtime
    ensures multiset(SubscriptionsOf(entries, kind, id))[a] ==
      if a.kind == kind && a.subscriber == id && HasRuntime(entries, a.runtime) then 1 else 0
  {
    var all := SubscriptionsOf(entries, kind, id);
    DistinctCounts(all, a);
    if a in all {
      var k :| 0 <= k < |all| && all[k] == a;
      assert entries[k].runtime == a.runtime;
    }
    if a.kind == kind && a.subscriber == id && HasRuntime(entries, a.runtime) {
      var k :| 0 <= k < |entries| && entries[k].runtime == a.runtime;
      assert all[k] == a;
    }
  }

  lemma {:induction false} SubscriberAdded(subs: seq<Subscriber>, sub: Subscriber, kind: Kind, id: SubscriberId)
    ensures HasSubscriber(subs + [sub], kind, id) <==>
      HasSubscriber(subs, kind, id) || (sub.kind == kind && sub.id == id)
  {
    var all := subs + [sub];
    assert all[|subs|] == sub;
    if HasSubscriber(subs, kind, id) {
      var k :| 0 <= k < |subs| && subs[k].kind == kind && subs[k].id == id;
      assert all[k] == subs[k];
    }
  }

  lemma {:induction false} AttachOne(entries: seq<Entry>, subs: seq<Subscriber>, attached: multiset<Attachment>,
          sub: Subscriber)
    requires AttachedTo(entries, subs, attached) && !HasSubscriber(subs, sub.kind, sub.id)
    requires forall i, j :: 0 <= i < j < |entries| ==> entries[i].runtime != entries[j].runtime
    ensures AttachedTo(entries, subs + [sub], attached + multiset(SubscriptionsOf(entries, sub.kind, sub.id)))
  {
    forall a: Attachment ensures (attached + multiset(SubscriptionsOf(entries, sub.kind, sub.id)))[a] ==
      if HasRuntime(entries, a.runtime) && HasSubscriber(subs + [sub], a.kind, a.subscriber) then 1 else 0
    {
      SubscriptionsCount(entries, sub.kind, sub.id, a);
      SubscriberAdded(subs, sub, a.kind, a.subscriber);
    }
  }

  lemma {:induction false} SubscribeKeepsAttached(s: State, kind: Kind)
    requires Identities(s) && Attached(s) && RecordsMirror(s) && !s.disposed
    ensures Attached(Subscribe(s, kind).0)
  {
    assert !HasSubscriber(s.subscribers, kind, s.subscriberCount);
    AttachOne(s.entries, s.subscribers, s.attached,
      Subscriber(s.subscriberCount, kind, UnsubsFor(s.entries, kind, s.subscriberCount)));
  }

  lemma {:induction false} SubscribeKeepsMirror(s: State, kind: Kind)
    requires Identities(s) && RecordsMirror(s) && !s.disposed
    ensures RecordsMirror(Subscribe(s, kind).0)
  {
    var s' := Subscribe(s, kind).0;
    UnsubsAre(s.entries, kind, s.subscriberCount);
    forall k | 0 <= k < |s'.subscribers| ensures Mirrors(s'.subscribers[k], s'.entries) {
      if k < |s.subscribers| { assert Mirrors(s.subscribers[k], s.entries); }
    }
  }

  lemma {:induction false} SubscribeKeeps(s: State, kind: Kind)
    requires Inv(s)
    ensures Inv(Subscribe(s, kind).0)
  {
    if !s.disposed {
      var s' := Subscribe(s, kind).0;
      SubscribeKeepsAttached(s, kind);
      SubscribeKeepsMirror(s, kind);
      StillWithinCapacity(s, s');
    }
  }

  lemma {:induction false} ValuesCount(sub: Subscriber, entries: seq<Entry>, a: Attachment)
    requires Mirrors(sub, entries)
    ensures multiset(sub.unsubs.Values)[a] ==
      if a.kind == sub.kind && a.subscriber == sub.id && HasRuntime(entries, a.runtime) then 1 else 0
  {
    if a in sub.unsubs.Values {
      var sid :| sid in sub.unsubs && sub.unsubs[sid] == a;
      var i :| 0 <= i < |entries| && entries[i].sessionId == sid;
      assert entries[i].runtime == a.runtime;
    }
    if a.kind == sub.kind && a.subscriber == sub.id && HasRuntime(entries, a.runtime) {
      var i :| 0 <= i < |entries| && entries[i].runtime == a.runtime;
      assert sub.unsubs[entries[i].sessionId] == a;
    }
  }

  lemma {:induction false} RemovedSubscriber(subs: seq<Subscriber>, k: nat)
    requires k < |subs|
    requires forall l, m :: 0 <= l < m < |subs| ==> subs[l].id != subs[m].id
    ensures var rest := subs[..k] + subs[k + 1..];
      forall kind, id :: HasSubscriber(rest, kind, id) <==> HasSubscriber(subs, kind, id) && id != subs[k].id
  {
    var rest := subs[..k] + subs[k + 1..];
    assert forall l :: 0 <= l < |rest| ==> rest[l] == subs[if l < k then l else l + 1];
    forall kind, id ensures HasSubscriber(rest, kind, id) <==> HasSubscriber(subs, kind, id) && id != subs[k].id {
      if HasSubscriber(subs, kind, id) && id != subs[k].id {
        var l :| 0 <= l < |subs| && subs[l].kind == kind && subs[l].id == id;
        assert rest[if l < k then l else l - 1] == subs[l];
      }
    }
  }

  lemma {:induction false} RemoveKeepsAttached(s: State, k: nat)
    requires Identities(s) && Attached(s) && RecordsMirror(s) && k < |s.subscribers|
    ensures Attached(RemoveSubscriber(s, k))
  {
    var sub := s.subscribers[k];
    var s' := RemoveSubscriber(s, k);
    RemovedSubscriber(s.subscribers, k);
    assert HasSubscriber(s.subscribers, sub.kind, sub.id);
    assert Mirrors(sub, s.entries);
    forall a: Attachment ensures s'.attached[a] ==
      if HasRuntime(s'.entries, a.runtime) && HasSubscriber(s'.subscribers, a.kind, a.subscriber) then 1 else 0
    {
      ValuesCount(sub, s.entries, a);
      if a.subscriber == sub.id && HasSubscriber(s.subscribers, a.kind, a.subscriber) {
        var l :| 0 <= l < |s.subscribers| && s.subscribers[l].kind == a.kind && s.subscribers[l].id == a.subscriber;
        assert l == k;
      }
    }
  }

  lemma {:induction false} RemoveKeepsMirror(s: State, k: nat)
    requires RecordsMirror(s) && k < |s.subscribers|
    ensures RecordsMirror(RemoveSubscriber(s, k))
  {
  }

  lemma {:induction false} UnsubscribeKeeps(s: State, id: SubscriberId)
    requires Inv(s)
    ensures Inv(Unsubscribe(s, id))
  {
    match FindSubscriber(s.subscribers, id)
    case None =>
    case Some(k) =>
      RemoveKeepsMirror(s, k);
      RemoveKeepsAttached(s, k);
      StillWithinCapacity(s, RemoveSubscriber(s, k));
  }

  lemma {:induction false} NoSuchSubscriber(subs: seq<Subscriber>, id: SubscriberId)
    ensures FindSubscriber(subs, id) == None <==> forall kind :: !HasSubscriber(subs, kind, id)
  {
    match FindSubscriber(subs, id)
    case None =>
    case Some(k) => assert HasSubscriber(subs, subs[k].kind, id);
  }

  /** Unsubscribing detaches the subscriber's handlers everywhere, no other handler anywhere, and
   *  removes the record for good: a second call changes nothing. */
  lemma {:induction false} UnsubscribeOnce(s: State, id: SubscriberId)
    requires Inv(s)
    ensures Unsubscribe(Unsubscribe(s, id), id) == Unsubscribe(s, id)
    ensures forall a: Attachment :: Unsubscribe(s, id).attached[a] == if a.subscriber == id then 0 else s.attached[a]
  {
    NoSuchSubscriber(s.subscribers, id);
    match FindSubscriber(s.subscribers, id)
    case None =>
    case Some(k) =>
      RemoveKeepsAttached(s, k);
      RemovedSubscriber(s.subscribers, k);
      NoSuchSubscriber(RemoveSubscriber(s, k).subscribers, id);
  }

  // ---- disposal of the registry

  lemma {:induction false} DisposeEntriesKeeps(s: State)
    requires Core(s) && s.disposed
    ensures var s' := DisposeEntries(s);
      Core(s') && s'.entries == [] && s'.disposed && s'.jobs == s.jobs && s'.maxRuntimes == s.maxRuntimes
    decreases |s.entries|
  {
    if s.entries != [] {
      DisposeKeeps(s, 0);
      DisposeEntriesKeeps(DisposeAt(s, 0));
    }
  }

  lemma {:induction false} DisposeAllKeeps(s: State)
    requires Inv(s)
    ensures Inv(DisposeAll(s)) && DisposeAll(s).disposed && DisposeAll(s).jobs == s.jobs
    ensures DisposeAll(s).attached == multiset{}
  {
    if !s.disposed {
      var s1 := s.(disposed := true);
      assert Identities(s1) && Attached(s1) && RecordsMirror(s1) && Accounted(s1);
      DisposeEntriesKeeps(s1);
    }
    var s' := DisposeAll(s);
    forall a: Attachment ensures s'.attached[a] == 0 {
      assert !HasRuntime(s'.entries, a.runtime);
    }
  }

  // ---- every step

  lemma {:induction false} NextKeeps(s: State, step: Step, dirty: set<RuntimeId>)
    requires Inv(s)
    ensures Inv(Next(s, step, dirty))
  {
    match step
    case GetOrCreateStep(sid, made, now) => GetOrCreateKeeps(s, sid, made, now, dirty);
    case SetSelectedStep(sid, made, now, later) => SetSelectedKeeps(s, sid, made, now, later, dirty);
    case SelectIfUnsetStep(sid, made, now, later) =>
      SetSelectedKeeps(s, sid, made, now, later, dirty);
      if Truthy(s.selected) { GetOrCreateKeeps(s, s.selected.value, made, now, dirty); }
    case StartStep(sid, made, now) => StartKeeps(s, sid, made, now, dirty);
    case EnterStep(j, now) => if MayEnter(s, j) { EnterKeeps(s, j, now); }
    case FinishStep(j, now) => if MayFinish(s, j) { FinishKeeps(s, j, now, dirty); }
    case SubscribeStep(kind) => SubscribeKeeps(s, kind);
    case UnsubscribeStep(id) => UnsubscribeKeeps(s, id);
    case DisposeAllStep => DisposeAllKeeps(s);
  }

  lemma {:induction false} RunKeeps(maxRuntimes: int, steps: seq<(Step, set<RuntimeId>)>)
    ensures Inv(Run(maxRuntimes, steps))
  {
    if steps != [] {
      var n := |steps| - 1;
      RunKeeps(maxRuntimes, steps[..n]);
      NextKeeps(Run(maxRuntimes, steps[..n]), steps[n].0, steps[n].1);
    }
  }
}
