/** The hook registry as an object. Registration during an execution is not part of this model. */
module HookRegistry {
  import opened StableSort
  import opened Wrappers
  import opened HookModel

  class HookRegistry<V> {
    var hooks: map<string, seq<Hook<V>>>
    var modes: map<string, Mode>
    const isolateErrors: bool

    ghost function Value(): Registry<V> reads this { Registry(hooks, modes) }

    constructor (isolateErrors: bool)
      ensures this.isolateErrors == isolateErrors && Value() == RegisteredAll([])
    {
      this.isolateErrors := isolateErrors;
      hooks, modes := map[], map[];
    }

    method Register(name: string, impl: V -> Reply<V>, mode0: Option<Mode>, priority0: Option<real>)
      modifies this
      ensures var priority := if priority0.Some? then priority0.value else 0.0;
        var mode := if mode0.Some? then mode0.value else Chain;
        Value() == Registered(old(Value()), Registration(name, Hook(impl, priority), mode))
    {
      var mode := if mode0.Some? then mode0.value else Chain;
      var priority := if priority0.Some? then priority0.value else 0.0;
      var arr := if name in hooks then hooks[name] else [];
      arr := arr + [Hook(impl, priority)];
      arr := Sort(arr, HigherFirst);
      hooks := hooks[name := arr];
      if name !in modes { modes := modes[name := mode]; }
    }

    function EffectiveMode(name: string, mode: Option<Mode>): Mode reads this {
      if mode.Some? then mode.value else if name in modes then modes[name] else Chain
    }

    /** `order` is how hooks invoked together happen to settle. */
    method Execute(name: string, ctx: V, mode: Option<Mode>, order: seq<nat>) returns (out: Outcome<V>)
      requires SettlingOrder(order, |ListOf(Value(), name)|)
      ensures match EffectiveMode(name, mode)
        case FirstResult => FirstResultOf(ListOf(Value(), name), ctx, isolateErrors, out)
        case Chain => ChainOf(ListOf(Value(), name), ctx, isolateErrors, out)
        case Broadcast => BroadcastOf(ListOf(Value(), name), ctx, isolateErrors, order, out)
    {
      var chain := if name in hooks then hooks[name] else [];
      match EffectiveMode(name, mode)
      case FirstResult => out := RunFirstResult(chain, ctx);
      case Chain => out := RunChain(chain, ctx);
      case Broadcast => out := RunBroadcast(chain, ctx, order);
    }

    method RunFirstResult(chain: seq<Hook<V>>, ctx: V) returns (out: Outcome<V>)
      ensures FirstResultOf(chain, ctx, isolateErrors, out)
    {
      var reported: seq<string> := [];
      for i := 0 to |chain|
        invariant forall j :: 0 <= j < i ==> !Ends(chain[j].impl(ctx), isolateErrors)
        invariant reported == Errors(chain[..i], ctx)
      {
        var reply := chain[i].impl(ctx);
        assert chain[..i + 1][..i] == chain[..i];
        match reply {
          case Returned(value) =>
            if value.Some? { return Outcome(Ok(One(value)), i + 1, reported); }
          case Threw(error) =>
            if !isolateErrors { return Outcome(Err(error), i + 1, reported); }
            reported := reported + [error];
        }
      }
      assert chain[..|chain|] == chain;
      out := Outcome(Ok(One(None)), |chain|, reported);
    }

    method RunChain(chain: seq<Hook<V>>, ctx: V) returns (out: Outcome<V>)
      ensures ChainOf(chain, ctx, isolateErrors, out)
    {
      var current := ctx;
      var reported: seq<string> := [];
      for i := 0 to |chain|
        invariant current == Fold(chain[..i], ctx)
        invariant reported == FoldErrors(chain[..i], ctx)
        invariant !isolateErrors ==> reported == []
      {
        var reply := chain[i].impl(current);
        assert chain[..i + 1][..i] == chain[..i];
        match reply {
          case Returned(value) =>
            if value.Some? { current := value.value; }
          case Threw(error) =>
            if !isolateErrors { return Outcome(Err(error), i + 1, reported); }
            reported := reported + [error];
        }
      }
      assert chain[..|chain|] == chain;
      out := Outcome(Ok(One(Some(current))), |chain|, reported);
    }

    /** All hooks are invoked at once; a rejection without isolation is that of the first to settle. */
    method RunBroadcast(chain: seq<Hook<V>>, ctx: V, order: seq<nat>) returns (out: Outcome<V>)
      requires SettlingOrder(order, |chain|)
      ensures BroadcastOf(chain, ctx, isolateErrors, order, out)
    {
      var reported: seq<string> := [];
      for k := 0 to |order|
        invariant reported == ErrorsIn(chain, ctx, order[..k])
      {
        var reply := chain[order[k]].impl(ctx);
        assert order[..k + 1][..k] == order[..k];
        if reply.Threw? { reported := reported + [reply.error]; }
      }
      assert order[..|order|] == order;
      if !isolateErrors && reported != [] { return Outcome(Err(reported[0]), |chain|, []); }
      var values: seq<V> := [];
      for i := 0 to |chain|
        invariant values == Values(chain[..i], ctx)
      {
        var reply := chain[i].impl(ctx);
        assert chain[..i + 1][..i] == chain[..i];
        if reply.Returned? && reply.value.Some? { values := values + [reply.value.value]; }
      }
      assert chain[..|chain|] == chain;
      out := Outcome(Ok(Many(values)), |chain|, reported);
    }
  }

  /** The mode asked for, else that of the name's first registration, else a chain. */
  lemma {:induction false} ModeIs<V(!new)>(registry: HookRegistry<V>, registrations: seq<Registration<V>>, name: string,
          mode: Option<Mode>)
    requires registry.Value() == RegisteredAll(registrations)
    ensures var first := FirstMode(registrations, name);
      registry.EffectiveMode(name, mode) ==
        if mode != None then mode.value else if first != None then first.value else Chain
  {
    FirstRegistrationSetsMode(registrations, name);
    assert registry.modes == RegisteredAll(registrations).modes;
  }
}
