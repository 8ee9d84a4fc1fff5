/** The registry as the object it is: fields updated in place, loops over its collections. Every
 *  method is proved to do exactly what the step of the same name in RegistryModel says. */
module SessionRuntimeRegistry {
  import opened Wrappers
  import opened M = RegistryModel

  lemma {:induction false} OneMoreSubscription(entries: seq<Entry>, i: nat, kind: Kind, id: SubscriberId)
    requires i < |entries|
    ensures var a := Attachment(entries[i].runtime, kind, id);
      && UnsubsFor(entries[..i + 1], kind, id) == UnsubsFor(entries[..i], kind, id)[entries[i].sessionId := a]
      && multiset(SubscriptionsOf(entries[..i + 1], kind, id)) ==
        multiset(SubscriptionsOf(entries[..i], kind, id)) + multiset{a}
  {
    assert entries[..i + 1][..i] == entries[..i];
    assert SubscriptionsOf(entries[..i + 1], kind, id)
        == SubscriptionsOf(entries[..i], kind, id) + [Attachment(entries[i].runtime, kind, id)];
  }

  class Registry {
    const maxRuntimes: int
    var entries: seq<Entry>
    var selectedSessionId: Option<SessionId>
    var subscribers: seq<Subscriber>
    var disposed: bool
    // the runtimes the callbacks act on
    var runtimeCount: nat
    var subscriberCount: nat
    var attached: multiset<Attachment>
    var disposals: multiset<RuntimeId>
    var saved: seq<RuntimeId>
    // the suspended runExclusive calls
    var jobs: seq<Job>

    ghost function Model(): State
      reads this
    {
      State(maxRuntimes, entries, selectedSessionId, subscribers, disposed, runtimeCount, subscriberCount,
            attached, disposals, saved, jobs)
    }

    constructor (maxRuntimes: Option<int>)
      ensures Model() == Init(if maxRuntimes.Some? then maxRuntimes.value else 8)
    {
      var wanted := if maxRuntimes.Some? then maxRuntimes.value else 8;
      this.maxRuntimes := if wanted < 1 then 1 else wanted;
      entries, selectedSessionId, subscribers, disposed := [], None, [], false;
      runtimeCount, subscriberCount, attached, disposals, saved, jobs := 0, 0, multiset{}, multiset{}, [], [];
    }

    method GetOrCreate(sid: SessionId, made: SessionId, now: int, dirty: set<RuntimeId>)
      returns (r: Result<RuntimeId, RegistryError>)
      modifies this
      ensures (Model(), r) == M.GetOrCreate(old(Model()), sid, made, now, dirty)
    {
      if disposed { return Err(RegistryDisposed); }
      var existing := Find(entries, sid);
      if existing.Some? {
        entries := entries[existing.value := entries[existing.value].(lastUsedAt := now)];
        return Ok(entries[existing.value].runtime);
      }
      var runtime := runtimeCount;
      runtimeCount := runtimeCount + 1;
      if made != sid {
        disposals := disposals + multiset{runtime};
        return Err(FactoryMismatch(made));
      }
      entries := entries + [Entry(sid, runtime, now, 0, None)];
      AttachSubscribers(sid, runtime);
      assert Model() == Admit(old(Model()), sid, now);
      EvictIfNeeded(Some(sid), dirty);
      return Ok(runtime);
    }

    method SetSelected(sid: SessionId, made: SessionId, now: int, later: int, dirty: set<RuntimeId>)
      returns (r: Result<RuntimeId, RegistryError>)
      modifies this
      ensures (Model(), r) == M.SetSelected(old(Model()), sid, made, now, later, dirty)
    {
      r := GetOrCreate(sid, made, now, dirty);
      if r.Err? { return; }
      ghost var created := Model();
      if Truthy(selectedSessionId) && selectedSessionId != Some(sid) {
        var previous := Find(entries, selectedSessionId.value);
        if previous.Some? && entries[previous.value].runtime in dirty {
          saved := saved + [entries[previous.value].runtime];
        }
      }
      assert Model() == SavePrevious(created, sid, dirty);
      selectedSessionId := Some(sid);
      var entry := Find(entries, sid);
      if entry.Some? {
        entries := entries[entry.value := entries[entry.value].(lastUsedAt := later)];
      }
      assert M.Evict(Model(), Some(sid), dirty) == Select(SavePrevious(created, sid, dirty), sid, later, dirty);
      EvictIfNeeded(Some(sid), dirty);
    }

    method SelectIfUnset(sid: SessionId, made: SessionId, now: int, later: int, dirty: set<RuntimeId>)
      returns (r: Result<RuntimeId, RegistryError>)
      modifies this
      ensures (Model(), r) == M.SelectIfUnset(old(Model()), sid, made, now, later, dirty)
    {
      if !Truthy(selectedSessionId) {
        r := SetSelected(sid, made, now, later, dirty);
      } else {
        r := GetOrCreate(selectedSessionId.value, made, now, dirty);
      }
    }

    /** `runExclusive` up to `await previous`. */
    method StartExclusive(sid: SessionId, made: SessionId, now: int, dirty: set<RuntimeId>)
      returns (r: Result<JobId, RegistryError>)
      modifies this
      ensures (Model(), r) == M.Start(old(Model()), sid, made, now, dirty)
    {
      var got := GetOrCreate(sid, made, now, dirty);
      if got.Err? { return Err(got.error); }
      var i := Find(entries, sid);
      r := Ok(|jobs|);
      if i.Some? {
        var entry := entries[i.value];
        var previous := entry.tail;
        entries := entries[i.value := entry.(pending := entry.pending + 1, tail := Some(|jobs|))];
        jobs := jobs + [Job(sid, entry.runtime, previous, Waiting)];
      }
    }

    /** `runExclusive` after `await previous`: the callback starts. */
    method EnterExclusive(j: JobId, now: int)
      requires MayEnter(Model(), j)
      modifies this
      ensures Model() == M.Enter(old(Model()), j, now)
    {
      jobs := jobs[j := jobs[j].(phase := Running)];
      var i := FindRuntime(entries, jobs[j].runtime);
      if i.Some? {
        entries := entries[i.value := entries[i.value].(lastUsedAt := now)];
      }
    }

    /** The `finally` block of `runExclusive`. */
    method FinishExclusive(j: JobId, now: int, dirty: set<RuntimeId>)
      requires MayFinish(Model(), j)
      modifies this
      ensures Model() == M.Finish(old(Model()), j, now, dirty)
    {
      var i := FindRuntime(entries, jobs[j].runtime);
      if i.Some? {
        entries := entries[i.value := entries[i.value].(pending := entries[i.value].pending - 1)];
        entries := entries[i.value := entries[i.value].(lastUsedAt := now)];
      }
      jobs := jobs[j := jobs[j].(phase := Done)];
      assert Model() == Release(old(Model()), j, now);
      EvictIfNeeded(None, dirty);
    }

    method Subscribe(kind: Kind) returns (r: Result<SubscriberId, RegistryError>)
      modifies this
      ensures (Model(), r) == M.Subscribe(old(Model()), kind)
    {
      if disposed { return Err(RegistryDisposed); }
      var id := subscriberCount;
      var unsubs := SubscribeToResidents(kind, id);
      subscribers := subscribers + [Subscriber(id, kind, unsubs)];
      subscriberCount := id + 1;
      r := Ok(id);
    }

    method SubscribeToResidents(kind: Kind, id: SubscriberId) returns (unsubs: map<SessionId, Attachment>)
      modifies this`attached
      ensures unsubs == UnsubsFor(entries, kind, id)
      ensures attached == old(attached) + multiset(SubscriptionsOf(entries, kind, id))
    {
      unsubs := map[];
      var i := 0;
      while i < |entries|
        invariant i <= |entries|
        invariant unsubs == UnsubsFor(entries[..i], kind, id)
        invariant attached == old(attached) + multiset(SubscriptionsOf(entries[..i], kind, id))
      {
        var a := Attachment(entries[i].runtime, kind, id);
        OneMoreSubscription(entries, i, kind, id);
        unsubs := unsubs[entries[i].sessionId := a];
        attached := attached + multiset{a};
        i := i + 1;
      }
      assert entries[..i] == entries;
    }

    /** Calling the closure `Subscribe` returned. */
    method Unsubscribe(id: SubscriberId)
      modifies this
      ensures Model() == M.Unsubscribe(old(Model()), id)
    {
      var k := FindSubscriber(subscribers, id);
      if k.None? { return; }
      attached := attached - multiset(subscribers[k.value].unsubs.Values);
      subscribers := subscribers[..k.value] + subscribers[k.value + 1..];
    }

    method DisposeAll()
      modifies this
      ensures Model() == M.DisposeAll(old(Model()))
    {
      if disposed { return; }
      disposed := true;
      while |entries| > 0
        invariant DisposeEntries(Model()) == DisposeEntries(old(Model()).(disposed := true))
        decreases |entries|
      {
        DisposeEntry(0);
      }
      subscribers := [];
      selectedSessionId := None;
    }

    method AttachSubscribers(sid: SessionId, runtime: RuntimeId)
      modifies this`subscribers, this`attached
      ensures subscribers == AttachEach(old(subscribers), sid, runtime)
      ensures attached == old(attached) + multiset(AttachmentsOf(old(subscribers), runtime))
    {
      var updated := [];
      for k := 0 to |subscribers|
        invariant |updated| == k && subscribers == old(subscribers)
        invariant forall l :: 0 <= l < k ==> updated[l] == Attach(subscribers[l], sid, runtime)
        invariant attached == old(attached) + multiset(AttachmentsOf(subscribers[..k], runtime))
      {
        var record := subscribers[k];
        var a := Attachment(runtime, record.kind, record.id);
        assert AttachmentsOf(subscribers[..k + 1], runtime) == AttachmentsOf(subscribers[..k], runtime) + [a];
        attached := attached + multiset{a};
        updated := updated + [Attach(record, sid, runtime)];
      }
      assert subscribers[..|subscribers|] == subscribers;
      subscribers := updated;
    }

    method EvictIfNeeded(protect: Option<SessionId>, dirty: set<RuntimeId>)
      modifies this
      ensures Model() == M.Evict(old(Model()), protect, dirty)
    {
      while |entries| > maxRuntimes
        invariant M.Evict(Model(), protect, dirty) == M.Evict(old(Model()), protect, dirty)
        decreases |entries|
      {
        var candidate := Candidate(entries, |entries|, protect, selectedSessionId);
        if candidate.None? { return; }
        label Picked:
        if entries[candidate.value].runtime in dirty {
          saved := saved + [entries[candidate.value].runtime];
        }
        DisposeEntry(candidate.value);
        assert Model() == EvictOne(old@Picked(Model()), candidate.value, dirty);
      }
    }

    method DisposeEntry(i: nat)
      requires i < |entries|
      modifies this
      ensures Model() == DisposeAt(old(Model()), i)
    {
      var entry := entries[i];
      DetachSubscribers(entry.sessionId);
      disposals := disposals + multiset{entry.runtime};
      entries := entries[..i] + entries[i + 1..];
    }

    method DetachSubscribers(sid: SessionId)
      modifies this`subscribers, this`attached
      ensures subscribers == DetachEach(old(subscribers), sid)
      ensures attached == CallClosures(old(subscribers), sid, old(attached))
    {
      var detached := [];
      for k := 0 to |subscribers|
        invariant |detached| == k && subscribers == old(subscribers)
        invariant forall l :: 0 <= l < k ==> detached[l] == Detach(subscribers[l], sid)
        invariant attached == CallClosures(subscribers[..k], sid, old(attached))
      {
        var record := subscribers[k];
        assert subscribers[..k + 1][..k] == subscribers[..k];
        if sid in record.unsubs {
          attached := attached - multiset{record.unsubs[sid]};
        }
        detached := detached + [Detach(record, sid)];
      }
      assert subscribers[..|subscribers|] == subscribers;
      subscribers := detached;
    }
  }
}
