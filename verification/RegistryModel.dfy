/** The session runtime registry as a step system.
 *
 *  A state holds the registry's own fields, the world its callbacks act on (runtimes, their
 *  attached handlers, disposals, checkpoints) and the suspended `runExclusive` calls. Each step is
 *  one uninterrupted stretch of the source; clock readings, the factory's answer and the set of
 *  runtimes that report messages are inputs. */
module RegistryModel {
  import opened Wrappers

  type SessionId = string
  type RuntimeId = nat     // the n-th runtime the factory made
  type JobId = nat         // the n-th accepted runExclusive call; also the promise it releases
  type SubscriberId = nat  // the n-th subscriber record

  datatype Kind = Agent | Plan | Compact

  /** A handler attached to a runtime; calling the unsubscribe closure detaches exactly this. */
  datatype Attachment = Attachment(runtime: RuntimeId, kind: Kind, subscriber: SubscriberId)

  datatype Subscriber = Subscriber(id: SubscriberId, kind: Kind, unsubs: map<SessionId, Attachment>)

  /** `tail` is the promise of the last queued job; None is `Promise.resolve()`. */
  datatype Entry = Entry(sessionId: SessionId, runtime: RuntimeId, lastUsedAt: int, pending: int, tail: Option<JobId>)

  datatype Phase = Waiting | Running | Done

  datatype Job = Job(sessionId: SessionId, runtime: RuntimeId, previous: Option<JobId>, phase: Phase)

  datatype RegistryError = RegistryDisposed | FactoryMismatch(made: SessionId)

  datatype State = State(
    maxRuntimes: int,
    entries: seq<Entry>,            // in insertion order, as a JavaScript Map iterates
    selected: Option<SessionId>,
    subscribers: seq<Subscriber>,   // the three subscriber sets, told apart by kind
    disposed: bool,
    runtimeCount: nat,
    subscriberCount: nat,
    attached: multiset<Attachment>,
    disposals: multiset<RuntimeId>,
    saved: seq<RuntimeId>,          // checkpoints, in the order they were saved
    jobs: seq<Job>)                 // in submission order

  function Init(maxRuntimes: int): State {
    State(if maxRuntimes < 1 then 1 else maxRuntimes, [], None, [], false, 0, 0, multiset{}, multiset{}, [], [])
  }

  function Find(entries: seq<Entry>, sid: SessionId): (r: Option<nat>)
    ensures r.Some? ==> r.value < |entries| && entries[r.value].sessionId == sid
    ensures r.None? ==> forall i :: 0 <= i < |entries| ==> entries[i].sessionId != sid
  {
    if entries == [] then None
    else if entries[|entries| - 1].sessionId == sid then Some(|entries| - 1)
    else Find(entries[..|entries| - 1], sid)
  }

  function FindRuntime(entries: seq<Entry>, r: RuntimeId): (k: Option<nat>)
    ensures k.Some? ==> k.value < |entries| && entries[k.value].runtime == r
    ensures k.None? ==> forall i :: 0 <= i < |entries| ==> entries[i].runtime != r
  {
    if entries == [] then None
    else if entries[|entries| - 1].runtime == r then Some(|entries| - 1)
    else FindRuntime(entries[..|entries| - 1], r)
  }

  function FindSubscriber(subs: seq<Subscriber>, id: SubscriberId): (k: Option<nat>)
    ensures k.Some? ==> k.value < |subs| && subs[k.value].id == id
    ensures k.None? ==> forall i :: 0 <= i < |subs| ==> subs[i].id != id
  {
    if subs == [] then None
    else if subs[|subs| - 1].id == id then Some(|subs| - 1)
    else FindSubscriber(subs[..|subs| - 1], id)
  }

  // ---- subscriber fan-out

  function Attach(sub: Subscriber, sid: SessionId, r: RuntimeId): Subscriber {
    sub.(unsubs := sub.unsubs[sid := Attachment(r, sub.kind, sub.id)])
  }

  function Detach(sub: Subscriber, sid: SessionId): Subscriber {
    sub.(unsubs := sub.unsubs - {sid})
  }

  function AttachEach(subs: seq<Subscriber>, sid: SessionId, r: RuntimeId): seq<Subscriber> {
    seq(|subs|, i requires 0 <= i < |subs| => Attach(subs[i], sid, r))
  }

  function DetachEach(subs: seq<Subscriber>, sid: SessionId): seq<Subscriber> {
    seq(|subs|, i requires 0 <= i < |subs| => Detach(subs[i], sid))
  }

  /** The attachments a new runtime `r` gets, one for each subscriber. */
  function AttachmentsOf(subs: seq<Subscriber>, r: RuntimeId): seq<Attachment> {
    seq(|subs|, i requires 0 <= i < |subs| => Attachment(r, subs[i].kind, subs[i].id))
  }

  /** What is attached after the closures stored for a session were called, one subscriber at a time. */
  function CallClosures(subs: seq<Subscriber>, sid: SessionId, attached: multiset<Attachment>): multiset<Attachment> {
    if subs == [] then attached
    else
      var last := subs[|subs| - 1];
      var before := CallClosures(subs[..|subs| - 1], sid, attached);
      if sid in last.unsubs then before - multiset{last.unsubs[sid]} else before
  }

  function UnsubsFor(entries: seq<Entry>, kind: Kind, id: SubscriberId): map<SessionId, Attachment> {
    if entries == [] then map[]
    else
      var last := entries[|entries| - 1];
      UnsubsFor(entries[..|entries| - 1], kind, id)[last.sessionId := Attachment(last.runtime, kind, id)]
  }

  function SubscriptionsOf(entries: seq<Entry>, kind: Kind, id: SubscriberId): seq<Attachment> {
    seq(|entries|, i requires 0 <= i < |entries| => Attachment(entries[i].runtime, kind, id))
  }

  // ---- eviction

  predicate Evictable(e: Entry, protect: Option<SessionId>, selected: Option<SessionId>) {
    Some(e.sessionId) != protect && Some(e.sessionId) != selected && e.pending == 0
  }

  /** First, in insertion order, of the least recently used evictable entries among the first `n`. */
  function Candidate(entries: seq<Entry>, n: nat, protect: Option<SessionId>,
          selected: Option<SessionId>): (c: Option<nat>)
    requires n <= |entries|
    ensures c.Some? ==> c.value < n && Evictable(entries[c.value], protect, selected)
    ensures c.Some? ==> forall i :: 0 <= i < n && Evictable(entries[i], protect, selected) ==>
      entries[c.value].lastUsedAt < entries[i].lastUsedAt
        || (entries[c.value].lastUsedAt == entries[i].lastUsedAt && c.value <= i)
    ensures c.None? ==> forall i :: 0 <= i < n ==> !Evictable(entries[i], protect, selected)
  {
    if n == 0 then None
    else
      var best := Candidate(entries, n - 1, protect, selected);
      if !Evictable(entries[n - 1], protect, selected) then best
      else if best.Some? && entries[best.value].lastUsedAt <= entries[n - 1].lastUsedAt then best
      else Some(n - 1)
  }

  function SaveIfDirty(s: State, r: RuntimeId, dirty: set<RuntimeId>): State {
    if r in dirty then s.(saved := s.saved + [r]) else s
  }

  function DisposeAt(s: State, i: nat): State
    requires i < |s.entries|
  {
    var e := s.entries[i];
    s.(entries := s.entries[..i] + s.entries[i + 1..],
       subscribers := DetachEach(s.subscribers, e.sessionId),
       attached := CallClosures(s.subscribers, e.sessionId, s.attached),
       disposals := s.disposals + multiset{e.runtime})
  }

  /** One victim: checkpointed if it has messages, then disposed. */
  function EvictOne(s: State, i: nat, dirty: set<RuntimeId>): State
    requires i < |s.entries|
  {
    DisposeAt(SaveIfDirty(s, s.entries[i].runtime, dirty), i)
  }

  function Evict(s: State, protect: Option<SessionId>, dirty: set<RuntimeId>): State
    decreases |s.entries|
  {
    if |s.entries| <= s.maxRuntimes then s
    else
      match Candidate(s.entries, |s.entries|, protect, s.selected)
      case None => s
      case Some(i) => Evict(EvictOne(s, i, dirty), protect, dirty)
  }

  // ---- the public operations

  function Touch(s: State, i: nat, now: int): State
    requires i < |s.entries|
  {
    s.(entries := s.entries[i := s.entries[i].(lastUsedAt := now)])
  }

  /** A new runtime enters the map and receives every subscriber. */
  function Admit(s: State, sid: SessionId, now: int): State {
    var r := s.runtimeCount;
    s.(entries := s.entries + [Entry(sid, r, now, 0, None)],
       subscribers := AttachEach(s.subscribers, sid, r),
       attached := s.attached + multiset(AttachmentsOf(s.subscribers, r)),
       runtimeCount := r + 1)
  }

  function GetOrCreate(s: State, sid: SessionId, made: SessionId, now: int, dirty: set<RuntimeId>)
    : (State, Result<RuntimeId, RegistryError>)
  {
    if s.disposed then (s, Err(RegistryDisposed))
    else
      match Find(s.entries, sid)
      case Some(i) => (Touch(s, i, now), Ok(s.entries[i].runtime))
      case None =>
        if made != sid then
          (s.(runtimeCount := s.runtimeCount + 1, disposals := s.disposals + multiset{s.runtimeCount}),
           Err(FactoryMismatch(made)))
        else
          (Evict(Admit(s, sid, now), Some(sid), dirty), Ok(s.runtimeCount))
  }

  /** JavaScript truthiness of an optional session id. */
  predicate Truthy(sid: Option<SessionId>) {
    sid.Some? && sid.value != ""
  }

  /** The previous selection is checkpointed when another session takes over. */
  function SavePrevious(s: State, sid: SessionId, dirty: set<RuntimeId>): State {
    if Truthy(s.selected) && s.selected != Some(sid) then
      match Find(s.entries, s.selected.value)
      case Some(k) => SaveIfDirty(s, s.entries[k].runtime, dirty)
      case None => s
    else s
  }

  function Select(s: State, sid: SessionId, now: int, dirty: set<RuntimeId>): State {
    var s1 := s.(selected := Some(sid));
    var s2 := match Find(s1.entries, sid) case Some(i) => Touch(s1, i, now) case None => s1;
    Evict(s2, Some(sid), dirty)
  }

  function SetSelected(s: State, sid: SessionId, made: SessionId, now: int, later: int, dirty: set<RuntimeId>)
    : (State, Result<RuntimeId, RegistryError>)
  {
    var (s1, r) := GetOrCreate(s, sid, made, now, dirty);
    if r.Err? then (s1, r) else (Select(SavePrevious(s1, sid, dirty), sid, later, dirty), r)
  }

  function SelectIfUnset(s: State, sid: SessionId, made: SessionId, now: int, later: int, dirty: set<RuntimeId>)
    : (State, Result<RuntimeId, RegistryError>)
  {
    if !Truthy(s.selected) then SetSelected(s, sid, made, now, later, dirty)
    else GetOrCreate(s, s.selected.value, made, now, dirty)
  }

  /** `runExclusive` from `pending++` to `await previous`. */
  function Enqueue(s: State, i: nat): State
    requires i < |s.entries|
  {
    var e := s.entries[i];
    s.(entries := s.entries[i := e.(pending := e.pending + 1, tail := Some(|s.jobs|))],
       jobs := s.jobs + [Job(e.sessionId, e.runtime, e.tail, Waiting)])
  }

  function Start(s: State, sid: SessionId, made: SessionId, now: int, dirty: set<RuntimeId>)
    : (State, Result<JobId, RegistryError>)
  {
    var (s1, r) := GetOrCreate(s, sid, made, now, dirty);
    if r.Err? then (s1, Err(r.error))
    else
      match Find(s1.entries, sid)
      case Some(i) => (Enqueue(s1, i), Ok(|s1.jobs|))
      case None => (s1, Ok(|s1.jobs|))
  }

  predicate MayEnter(s: State, j: JobId) {
    j < |s.jobs| && s.jobs[j].phase == Waiting &&
    (s.jobs[j].previous.Some? ==> s.jobs[j].previous.value < |s.jobs| && s.jobs[s.jobs[j].previous.value].phase == Done)
  }

  /** After `await previous`: the job's callback starts. */
  function Enter(s: State, j: JobId, now: int): State
    requires MayEnter(s, j)
  {
    var s1 := s.(jobs := s.jobs[j := s.jobs[j].(phase := Running)]);
    match FindRuntime(s1.entries, s.jobs[j].runtime)
    case Some(i) => Touch(s1, i, now)
    case None => s1
  }

  predicate MayFinish(s: State, j: JobId) {
    j < |s.jobs| && s.jobs[j].phase == Running
  }

  /** The `finally` block up to `release()`. */
  function Release(s: State, j: JobId, now: int): State
    requires MayFinish(s, j)
  {
    var s1 := s.(jobs := s.jobs[j := s.jobs[j].(phase := Done)]);
    match FindRuntime(s1.entries, s.jobs[j].runtime)
    case Some(i) =>
      s1.(entries := s1.entries[i := s1.entries[i].(pending := s1.entries[i].pending - 1, lastUsedAt := now)])
    case None => s1
  }

  function Finish(s: State, j: JobId, now: int, dirty: set<RuntimeId>): State
    requires MayFinish(s, j)
  {
    Evict(Release(s, j, now), None, dirty)
  }

  function Subscribe(s: State, kind: Kind): (State, Result<SubscriberId, RegistryError>) {
    if s.disposed then (s, Err(RegistryDisposed))
    else
      var id := s.subscriberCount;
      (s.(subscribers := s.subscribers + [Subscriber(id, kind, UnsubsFor(s.entries, kind, id))],
          attached := s.attached + multiset(SubscriptionsOf(s.entries, kind, id)),
          subscriberCount := id + 1), Ok(id))
  }

  /** A record leaves its set and all its closures are called. */
  function RemoveSubscriber(s: State, k: nat): State
    requires k < |s.subscribers|
  {
    s.(subscribers := s.subscribers[..k] + s.subscribers[k + 1..],
       attached := s.attached - multiset(s.subscribers[k].unsubs.Values))
  }

  /** Calling the closure `subscribe` returned. */
  function Unsubscribe(s: State, id: SubscriberId): State {
    match FindSubscriber(s.subscribers, id)
    case None => s
    case Some(k) => RemoveSubscriber(s, k)
  }

  function DisposeEntries(s: State): State
    decreases |s.entries|
  {
    if s.entries == [] then s else DisposeEntries(DisposeAt(s, 0))
  }

  function DisposeAll(s: State): State {
    if s.disposed then s
    else DisposeEntries(s.(disposed := true)).(subscribers := [], selected := None)
  }

  // ---- interleavings

  datatype Step =
    | GetOrCreateStep(sid: SessionId, made: SessionId, now: int)
    | SetSelectedStep(sid: SessionId, made: SessionId, now: int, later: int)
    | SelectIfUnsetStep(sid: SessionId, made: SessionId, now: int, later: int)
    | StartStep(sid: SessionId, made: SessionId, now: int)
    | EnterStep(job: JobId, now: int)
    | FinishStep(job: JobId, now: int)
    | SubscribeStep(kind: Kind)
    | UnsubscribeStep(subscriber: SubscriberId)
    | DisposeAllStep

  /** One step; `dirty` is the set of runtimes that have messages. A job step whose time has not
   *  come changes nothing, so a list of steps is any interleaving whatever. */
  function Next(s: State, step: Step, dirty: set<RuntimeId>): State {
    match step
    case GetOrCreateStep(sid, made, now) => GetOrCreate(s, sid, made, now, dirty).0
    case SetSelectedStep(sid, made, now, later) => SetSelected(s, sid, made, now, later, dirty).0
    case SelectIfUnsetStep(sid, made, now, later) => SelectIfUnset(s, sid, made, now, later, dirty).0
    case StartStep(sid, made, now) => Start(s, sid, made, now, dirty).0
    case EnterStep(j, now) => if MayEnter(s, j) then Enter(s, j, now) else s
    case FinishStep(j, now) => if MayFinish(s, j) then Finish(s, j, now, dirty) else s
    case SubscribeStep(kind) => Subscribe(s, kind).0
    case UnsubscribeStep(id) => Unsubscribe(s, id)
    case DisposeAllStep => DisposeAll(s)
  }

  function Run(maxRuntimes: int, steps: seq<(Step, set<RuntimeId>)>): State {
    if steps == [] then Init(maxRuntimes)
    else
      var n := |steps| - 1;
      Next(Run(maxRuntimes, steps[..n]), steps[n].0, steps[n].1)
  }
}
