/** Hook registration and the execution modes. An implementation answers a context with
 *  a value, with nothing, or by throwing. */
module HookModel {
  import opened StableSort
  import opened Wrappers

  datatype Mode = FirstResult | Chain | Broadcast

  datatype Reply<+V> = Returned(value: Option<V>) | Threw(error: string)

  datatype Hook<!V> = Hook(impl: V -> Reply<V>, priority: real)

  datatype Registration<!V> = Registration(name: string, hook: Hook<V>, mode: Mode)

  datatype Registry<!V> = Registry(hooks: map<string, seq<Hook<V>>>, modes: map<string, Mode>)

  predicate HigherFirst<V>(a: Hook<V>, b: Hook<V>) { a.priority > b.priority }

  function ListOf<V>(registry: Registry<V>, name: string): seq<Hook<V>> {
    if name in registry.hooks then registry.hooks[name] else []
  }

  function Registered<V>(registry: Registry<V>, r: Registration<V>): Registry<V> {
    Registry(registry.hooks[r.name := Sort(ListOf(registry, r.name) + [r.hook], HigherFirst)],
             if r.name in registry.modes then registry.modes else registry.modes[r.name := r.mode])
  }

  function RegisteredAll<V>(registrations: seq<Registration<V>>): Registry<V> {
    if registrations == [] then Registry(map[], map[])
    else Registered(RegisteredAll(registrations[..|registrations| - 1]), registrations[|registrations| - 1])
  }

  /** The hooks registered under a name, in the order of registration. */
  function HooksNamed<V>(registrations: seq<Registration<V>>, name: string): seq<Hook<V>> {
    if registrations == [] then []
    else
      var r := registrations[|registrations| - 1];
      var before := HooksNamed(registrations[..|registrations| - 1], name);
      if r.name == name then before + [r.hook] else before
  }

  function FirstMode<V>(registrations: seq<Registration<V>>, name: string): Option<Mode> {
    if registrations == [] then None
    else if registrations[0].name == name then Some(registrations[0].mode)
    else FirstMode(registrations[1..], name)
  }

  /** Sorting after every registration comes to sorting all registrations once. */
  lemma {:induction false} ListIsSorted<V(!new)>(registrations: seq<Registration<V>>, name: string)
    ensures ListOf(RegisteredAll(registrations), name) == Sort(HooksNamed(registrations, name), HigherFirst)
  {
    if registrations != [] {
      var n := |registrations| - 1;
      var r := registrations[n];
      var named := HooksNamed(registrations[..n], name);
      ListIsSorted(registrations[..n], name);
      if r.name == name {
        SortSorts(named, HigherFirst);
        var list := Sort(named, HigherFirst);
        SortSorted(list, HigherFirst);
        assert (list + [r.hook])[..|list|] == list;
        assert (named + [r.hook])[..|named|] == named;
      }
    }
  }

  /** A name's list holds its registrations by descending priority, and those of one priority in
   *  the order of registration. */
  lemma {:induction false} ListOrder<V(!new)>(registrations: seq<Registration<V>>, name: string, priority: real)
    ensures var list := ListOf(RegisteredAll(registrations), name);
      && |list| == |HooksNamed(registrations, name)|
      && (forall i, j :: 0 <= i < j < |list| ==> list[i].priority >= list[j].priority)
      && Filter(list, (h: Hook<V>) => h.priority == priority) ==
        Filter(HooksNamed(registrations, name), (h: Hook<V>) => h.priority == priority)
  {
    var named := HooksNamed(registrations, name);
    var list := ListOf(RegisteredAll(registrations), name);
    ListIsSorted(registrations, name);
    SortSorts(named, HigherFirst);
    SortStable(named, HigherFirst, (h: Hook<V>) => h.priority == priority);
    assert forall i, j :: 0 <= i < j < |list| ==> !HigherFirst(list[j], list[i]);
  }

  lemma {:induction false} FirstModeAppend<V(!new)>(registrations: seq<Registration<V>>, r: Registration<V>,
          name: string)
    ensures FirstMode(registrations + [r], name) ==
      if FirstMode(registrations, name).Some? then FirstMode(registrations, name)
        else if r.name == name then Some(r.mode) else None
  {
    if registrations != [] {
      assert (registrations + [r])[1..] == registrations[1..] + [r];
      FirstModeAppend(registrations[1..], r, name);
    } else {
      assert ([] + [r])[1..] == [];
    }
  }

  /** The first registration of a name sets its mode for good. */
  lemma {:induction false} FirstRegistrationSetsMode<V(!new)>(registrations: seq<Registration<V>>, name: string)
    ensures var modes := RegisteredAll(registrations).modes;
      (if name in modes then Some(modes[name]) else None) == FirstMode(registrations, name)
  {
    if registrations != [] {
      var n := |registrations| - 1;
      FirstRegistrationSetsMode(registrations[..n], name);
      FirstModeAppend(registrations[..n], registrations[n], name);
      assert registrations == registrations[..n] + [registrations[n]];
    }
  }

  // Execution

  /** One value or none, or in the broadcast mode every value given. */
  datatype Answer<+V> = One(value: Option<V>) | Many(values: seq<V>)

  /** What an execution gives: its answer, or the error of a hook that threw; how many hooks ran; and
   *  the errors reported. */
  datatype Outcome<+V> = Outcome(result: Result<Answer<V>, string>, ran: nat, reported: seq<string>)

  /** Whether the first-result mode ends at this reply. */
  predicate Ends<V>(reply: Reply<V>, isolate: bool) {
    match reply
    case Returned(value) => value.Some?
    case Threw(_) => !isolate
  }

  /** The errors thrown by the first hooks, all given the same context. */
  function Errors<V>(hooks: seq<Hook<V>>, ctx: V): seq<string> {
    if hooks == [] then []
    else
      var reply := hooks[|hooks| - 1].impl(ctx);
      var before := Errors(hooks[..|hooks| - 1], ctx);
      if reply.Threw? then before + [reply.error] else before
  }

  /** The first hook, in list order, that gives a value or may throw decides; none after it runs. */
  ghost predicate FirstResultOf<V>(hooks: seq<Hook<V>>, ctx: V, isolate: bool, out: Outcome<V>) {
    && out.ran <= |hooks|
    && (forall i :: 0 <= i < out.ran - 1 ==> !Ends(hooks[i].impl(ctx), isolate))
    && if out.ran > 0 && Ends(hooks[out.ran - 1].impl(ctx), isolate) then
         var reply := hooks[out.ran - 1].impl(ctx);
         && out.result == (if reply.Returned? then Ok(One(reply.value)) else Err(reply.error))
         && out.reported == Errors(hooks[..out.ran - 1], ctx)
       else
         out.ran == |hooks| && out.result == Ok(One(None)) && out.reported == Errors(hooks, ctx)
  }

  /** The properties pin the outcome down. */
  lemma {:induction false} FirstResultUnique<V(!new)>(hooks: seq<Hook<V>>, ctx: V, isolate: bool, a: Outcome<V>,
          b: Outcome<V>)
    requires FirstResultOf(hooks, ctx, isolate, a) && FirstResultOf(hooks, ctx, isolate, b)
    ensures a == b
  {
  }

  /** One link of the chain: a hook that gives nothing, or throws in isolation, passes its context
   *  on. */
  function Link<V>(current: V, hook: Hook<V>): V {
    var reply := hook.impl(current);
    if reply.Returned? && reply.value.Some? then reply.value.value else current
  }

  /** The left fold over the list. */
  function Fold<V>(hooks: seq<Hook<V>>, ctx: V): V {
    if hooks == [] then ctx else Link(Fold(hooks[..|hooks| - 1], ctx), hooks[|hooks| - 1])
  }

  /** The errors thrown along the fold. */
  function FoldErrors<V>(hooks: seq<Hook<V>>, ctx: V): seq<string> {
    if hooks == [] then []
    else
      var reply := hooks[|hooks| - 1].impl(Fold(hooks[..|hooks| - 1], ctx));
      var before := FoldErrors(hooks[..|hooks| - 1], ctx);
      if reply.Threw? then before + [reply.error] else before
  }

  /** The chain gives the fold over the whole list; without isolation it stops at the first hook
   *  that throws, and gives its error. */
  ghost predicate ChainOf<V>(hooks: seq<Hook<V>>, ctx: V, isolate: bool, out: Outcome<V>) {
    if isolate then
      out == Outcome(Ok(One(Some(Fold(hooks, ctx)))), |hooks|, FoldErrors(hooks, ctx))
    else
      && out.ran <= |hooks| && out.reported == []
      && match out.result
         case Ok(answer) => out.ran == |hooks| && answer == One(Some(Fold(hooks, ctx))) && FoldErrors(hooks, ctx) == []
         case Err(error) =>
           out.ran > 0 && FoldErrors(hooks[..out.ran - 1], ctx) == []
           && hooks[out.ran - 1].impl(Fold(hooks[..out.ran - 1], ctx)) == Threw(error)
  }

  /** The values given by hooks that all got the same context, in list order. */
  function Values<V>(hooks: seq<Hook<V>>, ctx: V): seq<V> {
    if hooks == [] then []
    else
      var reply := hooks[|hooks| - 1].impl(ctx);
      var before := Values(hooks[..|hooks| - 1], ctx);
      if reply.Returned? && reply.value.Some? then before + [reply.value.value] else before
  }

  /** Hooks invoked together settle one by one: `order` lists each of `n` hooks once. */
  ghost predicate SettlingOrder(order: seq<nat>, n: nat) {
    && (forall i :: 0 <= i < |order| ==> order[i] < n)
    && multiset(order) == multiset(seq(n, (i: nat) => i))
  }

  /** The errors thrown, in the order in which the hooks settle. */
  function ErrorsIn<V>(hooks: seq<Hook<V>>, ctx: V, order: seq<nat>): seq<string> {
    if order == [] then []
    else
      var i := order[|order| - 1];
      var before := ErrorsIn(hooks, ctx, order[..|order| - 1]);
      if i < |hooks| && hooks[i].impl(ctx).Threw? then before + [hooks[i].impl(ctx).error] else before
  }

  /** A broadcast runs every hook and gives their values in list order, whatever order they settle in;
   *  without isolation it gives the first error instead, if there is any. */
  ghost predicate BroadcastOf<V>(hooks: seq<Hook<V>>, ctx: V, isolate: bool, order: seq<nat>, out: Outcome<V>) {
    && out.ran == |hooks|
    && var errors := ErrorsIn(hooks, ctx, order);
       if isolate || errors == [] then out.result == Ok(Many(Values(hooks, ctx))) && out.reported == errors
       else out.result == Err(errors[0]) && out.reported == []
  }

  predicate Throws<V>(hooks: seq<Hook<V>>, ctx: V, i: nat, error: string) {
    i < |hooks| && hooks[i].impl(ctx) == Threw(error)
  }

  lemma {:induction false} ErrorsCounted<V(!new)>(hooks: seq<Hook<V>>, ctx: V, order: seq<nat>, error: string)
    ensures multiset(ErrorsIn(hooks, ctx, order))[error] == |Filter(order, (i: nat) => Throws(hooks, ctx, i, error))|
  {
    if order != [] { ErrorsCounted(hooks, ctx, order[..|order| - 1], error); }
  }

  /** The order in which hooks settle decides only the order of the reported errors and, without
   *  isolation, which of the errors is given: the values, and whether there is an error, stay. */
  lemma {:induction false} BroadcastInAnyOrder<V(!new)>(hooks: seq<Hook<V>>, ctx: V, isolate: bool, a: seq<nat>,
          outA: Outcome<V>, b: seq<nat>, outB: Outcome<V>)
    requires SettlingOrder(a, |hooks|) && SettlingOrder(b, |hooks|)
    requires BroadcastOf(hooks, ctx, isolate, a, outA) && BroadcastOf(hooks, ctx, isolate, b, outB)
    ensures outA.ran == outB.ran && multiset(outA.reported) == multiset(outB.reported)
    ensures outA.result == outB.result || (!isolate && outA.result.Err? && outB.result.Err?)
  {
    var x, y := ErrorsIn(hooks, ctx, a), ErrorsIn(hooks, ctx, b);
    forall error ensures multiset(x)[error] == multiset(y)[error] {
      ErrorsCounted(hooks, ctx, a, error);
      ErrorsCounted(hooks, ctx, b, error);
      FilterCount(a, b, (i: nat) => Throws(hooks, ctx, i, error));
    }
    assert multiset(x) == multiset(y);
    assert |multiset(x)| == |x| && |multiset(y)| == |y|;
  }

  /** Without isolation the error given is one some hook threw, and there is none when none threw. */
  lemma {:induction false} BroadcastFailsIff<V(!new)>(hooks: seq<Hook<V>>, ctx: V, order: seq<nat>, out: Outcome<V>)
    requires SettlingOrder(order, |hooks|) && BroadcastOf(hooks, ctx, false, order, out)
    ensures out.result.Err? <==> exists i: nat, error :: Throws(hooks, ctx, i, error)
    ensures out.result.Err? ==> exists i: nat :: Throws(hooks, ctx, i, out.result.error)
  {
    var errors := ErrorsIn(hooks, ctx, order);
    if out.result.Err? {
      ErrorsCounted(hooks, ctx, order, errors[0]);
      SomeKept(order, (i: nat) => Throws(hooks, ctx, i, errors[0]));
    }
    forall i: nat, error | Throws(hooks, ctx, i, error) ensures errors != [] {
      ErrorsCounted(hooks, ctx, order, error);
      assert seq(|hooks|, (i: nat) => i)[i] == i;
      assert multiset(order)[i] > 0;
      FilterIn(order, (i: nat) => Throws(hooks, ctx, i, error));
      assert i in Filter(order, (i: nat) => Throws(hooks, ctx, i, error));
    }
  }

  lemma {:induction false} SomeKept(order: seq<nat>, p: nat -> bool)
    requires |Filter(order, p)| > 0
    ensures exists i: nat :: p(i)
  {
    FilterIn(order, p);
    assert Filter(order, p)[0] in Filter(order, p);
  }

  /** Chaining two lists is chaining the second after the first. */
  lemma {:induction false} FoldAppend<V(!new)>(a: seq<Hook<V>>, b: seq<Hook<V>>, ctx: V)
    ensures Fold(a + b, ctx) == Fold(b, Fold(a, ctx))
  {
    if b == [] {
      assert a + b == a;
    } else {
      var n := |b| - 1;
      assert (a + b)[..|a| + n] == a + b[..n];
      FoldAppend(a, b[..n], ctx);
    }
  }

  /** A hook that always throws can be left out of the list. */
  lemma {:induction false} FailingHookIsIdentity<V(!new)>(a: seq<Hook<V>>, bad: Hook<V>, b: seq<Hook<V>>, ctx: V)
    requires forall v :: bad.impl(v).Threw?
    ensures Fold(a + [bad] + b, ctx) == Fold(a + b, ctx)
  {
    FoldAppend(a + [bad], b, ctx);
    FoldAppend(a, b, ctx);
    assert (a + [bad])[..|a|] == a;
  }

  // What the executions give, hook by hook

  /** What each hook answers to the context it gets. */
  function Replies<V>(hooks: seq<Hook<V>>, contexts: seq<V>): (replies: seq<Reply<V>>)
    requires |contexts| >= |hooks|
    ensures |replies| == |hooks|
  {
    seq(|hooks|, i requires 0 <= i < |hooks| => hooks[i].impl(contexts[i]))
  }

  predicate Gives<V>(reply: Reply<V>) { reply.Returned? && reply.value != None }

  /** The errors of exactly the hooks that threw, in list order. */
  ghost predicate ErrorsOf<V>(replies: seq<Reply<V>>, errors: seq<string>) {
    var threw := Filter(replies, (reply: Reply<V>) => reply.Threw?);
    |errors| == |threw| && forall k :: 0 <= k < |threw| ==> threw[k] == Threw(errors[k])
  }

  /** The values of exactly the hooks that gave one, in list order. */
  ghost predicate ValuesOf<V>(replies: seq<Reply<V>>, values: seq<V>) {
    var gave := Filter(replies, (reply: Reply<V>) => Gives(reply));
    |values| == |gave| && forall k :: 0 <= k < |gave| ==> gave[k] == Returned(Some(values[k]))
  }

  /** Every hook gets the value of the nearest hook before it that gave one, at first the context. */
  ghost predicate Chained<V>(hooks: seq<Hook<V>>, ctx: V, contexts: seq<V>) {
    && |contexts| == |hooks| + 1 && contexts[0] == ctx
    && forall i :: 0 <= i < |hooks| ==>
         var reply := hooks[i].impl(contexts[i]);
         if Gives(reply) then reply == Returned(Some(contexts[i + 1])) else contexts[i + 1] == contexts[i]
  }

  ghost predicate NoneThrows<V>(replies: seq<Reply<V>>) { forall i :: 0 <= i < |replies| ==> !replies[i].Threw? }

  lemma {:induction false} OneMoreReply<V(!new)>(replies: seq<Reply<V>>, errors: seq<string>, values: seq<V>,
          reply: Reply<V>)
    ensures ErrorsOf(replies, errors) ==>
      ErrorsOf(replies + [reply], if reply.Threw? then errors + [reply.error] else errors)
    ensures ValuesOf(replies, values) ==>
      ValuesOf(replies + [reply], if Gives(reply) then values + [reply.value.value] else values)
  {
    assert (replies + [reply])[..|replies|] == replies;
  }

  /** The same context for each. */
  function Same<V>(n: nat, ctx: V): seq<V> { seq(n, _ => ctx) }

  lemma {:induction false} RepliesNext<V(!new)>(hooks: seq<Hook<V>>, contexts: seq<V>)
    requires hooks != [] && |contexts| >= |hooks|
    ensures var n := |hooks| - 1;
      Replies(hooks, contexts) == Replies(hooks[..n], contexts[..n]) + [hooks[n].impl(contexts[n])]
  {
  }

  lemma {:induction false} ErrorsAndValues<V(!new)>(hooks: seq<Hook<V>>, ctx: V)
    ensures ErrorsOf(Replies(hooks, Same(|hooks|, ctx)), Errors(hooks, ctx))
    ensures ValuesOf(Replies(hooks, Same(|hooks|, ctx)), Values(hooks, ctx))
  {
    if hooks != [] {
      var n := |hooks| - 1;
      var replies := Replies(hooks[..n], Same(n, ctx));
      assert Same(n + 1, ctx)[..n] == Same(n, ctx);
      RepliesNext(hooks, Same(n + 1, ctx));
      ErrorsAndValues(hooks[..n], ctx);
      OneMoreReply(replies, Errors(hooks[..n], ctx), Values(hooks[..n], ctx), hooks[n].impl(ctx));
    }
  }

  lemma {:induction false} ChainedPrefix<V(!new)>(hooks: seq<Hook<V>>, ctx: V, contexts: seq<V>)
    requires hooks != [] && Chained(hooks, ctx, contexts)
    ensures Chained(hooks[..|hooks| - 1], ctx, contexts[..|hooks|])
  {
  }

  lemma {:induction false} FoldIsChained<V(!new)>(hooks: seq<Hook<V>>, ctx: V, contexts: seq<V>)
    requires Chained(hooks, ctx, contexts)
    ensures Fold(hooks, ctx) == contexts[|hooks|]
    ensures ErrorsOf(Replies(hooks, contexts), FoldErrors(hooks, ctx))
  {
    if hooks != [] {
      var n := |hooks| - 1;
      ChainedPrefix(hooks, ctx, contexts);
      FoldIsChained(hooks[..n], ctx, contexts[..n + 1]);
      RepliesNext(hooks, contexts);
      assert Replies(hooks[..n], contexts[..n]) == Replies(hooks[..n], contexts[..n + 1]);
      OneMoreReply(Replies(hooks[..n], contexts[..n + 1]), FoldErrors(hooks[..n], ctx), [], hooks[n].impl(contexts[n]));
    }
  }

  lemma {:induction false} NoErrors<V(!new)>(replies: seq<Reply<V>>, errors: seq<string>)
    requires ErrorsOf(replies, errors)
    ensures errors == [] <==> NoneThrows(replies)
    ensures errors != [] ==> exists k :: 0 <= k < |replies| && FirstThrows(replies, k) && replies[k] == Threw(errors[0])
  {
    if replies != [] {
      var n := |replies| - 1;
      var before := Filter(replies[..n], (reply: Reply<V>) => reply.Threw?);
      NoErrors(replies[..n], errors[..|before|]);
      if before != [] {
        var k :| 0 <= k < n && FirstThrows(replies[..n], k) && replies[k] == Threw(errors[0]);
        assert FirstThrows(replies, k);
      } else if replies[n].Threw? {
        assert FirstThrows(replies, n);
      }
    }
  }

  /** The first hook that throws. */
  predicate FirstThrows<V>(replies: seq<Reply<V>>, k: nat) {
    k < |replies| && replies[k].Threw? && forall i :: 0 <= i < k ==> !replies[i].Threw?
  }

  /** The chain gives what the last hook that gave anything made of what it got. In isolation the
   *  errors are reported and passed over; without it the first hook that throws ends the chain. */
  lemma {:induction false} ChainGives<V(!new)>(hooks: seq<Hook<V>>, ctx: V, isolate: bool, out: Outcome<V>,
          contexts: seq<V>)
    requires ChainOf(hooks, ctx, isolate, out) && Chained(hooks, ctx, contexts)
    ensures var replies := Replies(hooks, contexts);
      if isolate || NoneThrows(replies) then
        out.result == Ok(One(Some(contexts[|hooks|]))) && out.ran == |hooks| && ErrorsOf(replies, out.reported)
      else
        && 0 < out.ran <= |hooks| && NoneThrows(replies[..out.ran - 1])
        && out.result.Err? && replies[out.ran - 1] == Threw(out.result.error) && out.reported == []
  {
    FoldIsChained(hooks, ctx, contexts);
    NoErrors(Replies(hooks, contexts), FoldErrors(hooks, ctx));
    if !isolate && out.result.Err? {
      StoppedChain(hooks, ctx, contexts, out.ran);
      assert Replies(hooks, contexts)[out.ran - 1].Threw?;
    }
  }

  lemma {:induction false} StoppedChain<V(!new)>(hooks: seq<Hook<V>>, ctx: V, contexts: seq<V>, ran: nat)
    requires Chained(hooks, ctx, contexts) && 0 < ran <= |hooks|
    ensures Fold(hooks[..ran - 1], ctx) == contexts[ran - 1]
    ensures FoldErrors(hooks[..ran - 1], ctx) == [] <==> NoneThrows(Replies(hooks, contexts)[..ran - 1])
  {
    var before := hooks[..ran - 1];
    assert Chained(before, ctx, contexts[..ran]);
    FoldIsChained(before, ctx, contexts[..ran]);
    NoErrors(Replies(before, contexts[..ran]), FoldErrors(before, ctx));
    assert Replies(before, contexts[..ran]) == Replies(hooks, contexts)[..ran - 1];
  }

  /** The first-result mode gives the value of the first hook that gives one, and runs no further;
   *  nothing when none does. In isolation it reports the errors before; without it a hook that throws
   *  before that ends it with its error. */
  lemma {:induction false} FirstResultGives<V(!new)>(hooks: seq<Hook<V>>, ctx: V, isolate: bool, out: Outcome<V>)
    requires FirstResultOf(hooks, ctx, isolate, out)
    ensures var replies := Replies(hooks, Same(|hooks|, ctx));
      var before := replies[..if out.result == Ok(One(None)) then |hooks| else if out.ran > 0 then out.ran - 1 else 0];
      && (forall i :: 0 <= i < |before| ==> !Gives(before[i]) && (isolate || !before[i].Threw?))
      && match out.result
         case Ok(One(None)) => out.ran == |hooks| && ErrorsOf(before, out.reported)
         case Ok(One(value)) =>
           0 < out.ran <= |hooks| && replies[out.ran - 1] == Returned(value) && ErrorsOf(before, out.reported)
         case Err(error) => !isolate && 0 < out.ran <= |hooks| && replies[out.ran - 1] == Threw(error)
         case Ok(Many(_)) => false
  {
    var n := if out.result == Ok(One(None)) then |hooks| else out.ran - 1;
    assert hooks[..|hooks|] == hooks;
    ErrorsAndValues(hooks[..n], ctx);
    assert Replies(hooks, Same(|hooks|, ctx))[..n] == Replies(hooks[..n], Same(n, ctx));
  }

  /** A broadcast gives the values of exactly the hooks that gave one, in list order, unless some hook
   *  threw and errors are not isolated: then it gives the error of the one that settles first. */
  lemma {:induction false} BroadcastGives<V(!new)>(hooks: seq<Hook<V>>, ctx: V, isolate: bool, order: seq<nat>,
          out: Outcome<V>)
    requires SettlingOrder(order, |hooks|) && BroadcastOf(hooks, ctx, isolate, order, out)
    ensures var replies := Replies(hooks, Same(|hooks|, ctx));
      var settled := Replies(Settled(hooks, order), Same(|order|, ctx));
      && out.ran == |hooks|
      && if isolate || NoneThrows(settled) then
           out.result.Ok? && out.result.value.Many? && ValuesOf(replies, out.result.value.values)
             && ErrorsOf(settled, out.reported)
         else
           out.reported == []
             && exists k :: 0 <= k < |order| && FirstThrows(settled, k) && out.result == Err(settled[k].error)
  {
    var settled := Replies(Settled(hooks, order), Same(|order|, ctx));
    ErrorsAndValues(hooks, ctx);
    SettledErrors(hooks, ctx, order);
    ErrorsAndValues(Settled(hooks, order), ctx);
    var errors := ErrorsIn(hooks, ctx, order);
    NoErrors(settled, errors);
  }

  /** The hooks in the order in which they settle. */
  function Settled<V>(hooks: seq<Hook<V>>, order: seq<nat>): (settled: seq<Hook<V>>)
    requires forall i :: 0 <= i < |order| ==> order[i] < |hooks|
    ensures |settled| == |order|
  {
    seq(|order|, i requires 0 <= i < |order| => hooks[order[i]])
  }

  lemma {:induction false} SettledErrors<V(!new)>(hooks: seq<Hook<V>>, ctx: V, order: seq<nat>)
    requires forall i :: 0 <= i < |order| ==> order[i] < |hooks|
    ensures ErrorsIn(hooks, ctx, order) == Errors(Settled(hooks, order), ctx)
  {
    if order != [] {
      var n := |order| - 1;
      SettledErrors(hooks, ctx, order[..n]);
      assert Settled(hooks, order)[..n] == Settled(hooks, order[..n]);
    }
  }
}
