/** The chat reducer: items, scroll state and permission queue. Random item ids and the clock come
 *  with each action; calling a request's `resolve` is an effect returned beside the new state. */
module ChatState {
  import opened Wrappers

  datatype ItemKind = UserItem | Assistant | ToolCall | ToolResult | SystemItem

  datatype Level = Info | Warn | Failed

  datatype ChatItem = ChatItem(id: nat, kind: ItemKind, ts: int, text: Option<string>, reasoning: Option<string>,
          isStreaming: bool, toolName: Option<string>, toolCallId: Option<string>, args: Option<string>,
          result: Option<string>, isError: Option<bool>, durationMs: Option<int>, level: Option<Level>,
          model: Option<string>, usage: Option<string>, collapsed: Option<bool>)

  datatype Scroll = Scroll(offset: int, hasNew: bool)

  datatype Request = Request(id: string, toolName: string, args: string, toolCallId: string)

  datatype Remember = Once | ForSession | Always

  datatype State = State(items: seq<ChatItem>, busy: bool, showHint: bool, lastOp: string, scroll: Scroll,
                         permissionQueue: seq<Request>, allowedTools: set<string>, sessionAllowedTools: set<string>)

  const INITIAL := State([], false, true, "idle", Scroll(0, false), [], {}, {})

  datatype Action =
    | AppendDelta(delta: string)
    | AppendThinking(delta: string)
    | UpsertToolCall(toolCallId: string, toolName: string, args: string)
    | CompleteToolCall(toolCallId: string, result: string, isError: bool)
    | FinalizeStreaming
    | SetAssistantMetadata(model: Option<string>, usage: Option<string>)
    | AddUser(text: string)
    | AddSystem(text: string, level: Level)
    | SetBusy(busy: bool)
    | SetLastOp(op: string)
    | HideHint
    | ClearItems
    | ScrollUp(lines: Option<int>)
    | ScrollDown(lines: Option<int>)
    | ScrollBottom
    | PushPermission(request: Request)
    | ResolvePermission(allow: bool, remember: Option<Remember>)
    | ClearSessionAllowedTools
    | ToggleCollapsed(item: Option<nat>)
    | ToggleCollapsedVisible(visible: seq<nat>)
    | SetCollapsed(item0: nat, collapsed: bool)

  /** A dispatched action, with the id and the time it would give a new item. */
  datatype Event = Event(action: Action, freshId: nat, now: int)

  datatype Resolution = Resolution(request: Request, allow: bool, remember: Remember)

  datatype Outcome = Outcome(state: State, resolved: Option<Resolution>)

  function BlankItem(id: nat, kind: ItemKind, ts: int): ChatItem {
    ChatItem(id, kind, ts, None, None, false, None, None, None, None, None, None, None, None, None, None)
  }

  function OrEmpty(s: Option<string>): string { if s.Some? then s.value else "" }

  function MapItems(items: seq<ChatItem>, f: ChatItem -> ChatItem): (r: seq<ChatItem>)
    ensures |r| == |items| && forall i :: 0 <= i < |items| ==> r[i] == f(items[i])
  {
    seq(|items|, i requires 0 <= i < |items| => f(items[i]))
  }

  function WithItems(state: State, items: seq<ChatItem>): State { state.(items := items) }

  function WithScrollOnNewContent(state: State): State {
    if state.scroll.offset == 0 then state else state.(scroll := state.scroll.(hasNew := true))
  }

  predicate EndsStreaming(items: seq<ChatItem>) {
    items != [] && items[|items| - 1].kind == Assistant && items[|items| - 1].isStreaming
  }

  predicate IsCall(it: ChatItem, toolCallId: string) { it.kind == ToolCall && it.toolCallId == Some(toolCallId) }

  /** The index of the first tool call item with the id, or the number of items. */
  function FindCall(items: seq<ChatItem>, toolCallId: string): (i: nat)
    ensures i <= |items| && (i < |items| ==> IsCall(items[i], toolCallId))
    ensures forall j :: 0 <= j < i ==> !IsCall(items[j], toolCallId)
  {
    if items == [] || IsCall(items[0], toolCallId) then 0 else 1 + FindCall(items[1..], toolCallId)
  }

  function LastAssistant(items: seq<ChatItem>): (i: int)
    ensures -1 <= i < |items|
  {
    if items == [] then -1
    else if items[|items| - 1].kind == Assistant then |items| - 1
    else LastAssistant(items[..|items| - 1])
  }

  function SetArgs(it: ChatItem, id: nat, args: string): ChatItem {
    if it.id == id then it.(args := Some(args)) else it
  }

  function Finalized(it: ChatItem): ChatItem {
    if it.kind == Assistant && it.isStreaming then it.(isStreaming := false) else it
  }

  function Toggled(it: ChatItem, id: nat): ChatItem {
    if it.id == id then it.(collapsed := Some(if it.collapsed.None? then true else !it.collapsed.value)) else it
  }

  function SetCollapse(it: ChatItem, id: nat, collapsed: bool): ChatItem {
    if it.id == id then it.(collapsed := Some(collapsed)) else it
  }

  function CollapsedAs(it: ChatItem, ids: set<nat>, collapsed: bool): ChatItem {
    if it.id in ids && it.kind != UserItem && it.kind != SystemItem then it.(collapsed := Some(collapsed)) else it
  }

  // The item lists after each kind of change

  function AppendText(items: seq<ChatItem>, e: Event, delta: string): seq<ChatItem> {
    if EndsStreaming(items) then
      var last := items[|items| - 1];
      items[|items| - 1 := last.(text := Some(OrEmpty(last.text) + delta))]
    else items + [BlankItem(e.freshId, Assistant, e.now).(text := Some(delta), isStreaming := true)]
  }

  function AppendReasoning(items: seq<ChatItem>, e: Event, delta: string): seq<ChatItem> {
    if EndsStreaming(items) then
      var last := items[|items| - 1];
      items[|items| - 1 := last.(reasoning := Some(OrEmpty(last.reasoning) + delta))]
    else items + [BlankItem(e.freshId, Assistant, e.now).(reasoning := Some(delta), isStreaming := true)]
  }

  function UpsertCall(items: seq<ChatItem>, e: Event, toolCallId: string, toolName: string,
          args: string): seq<ChatItem> {
    var i := FindCall(items, toolCallId);
    if i < |items| then
      var existing := items[i];
      MapItems(items, it => SetArgs(it, existing.id, args))
    else
      items + [BlankItem(e.freshId, ToolCall, e.now).(toolName := Some(toolName), toolCallId := Some(toolCallId),
        args := Some(args), collapsed := Some(false))]
  }

  function CompleteCall(items: seq<ChatItem>, e: Event, i: nat, result: string, isError: bool): seq<ChatItem>
    requires i < |items|
  {
    var call := items[i];
    items[i := call.(result := Some(result), isError := Some(isError), durationMs := Some(e.now - call.ts),
      collapsed := Some(true))]
  }

  function ToggleVisible(items: seq<ChatItem>, ids: set<nat>): seq<ChatItem> {
    var anyCollapsed := exists it :: it in items && it.id in ids && it.collapsed == Some(true);
    MapItems(items, it => CollapsedAs(it, ids, !anyCollapsed))
  }

  predicate ChangesItems(action: Action) {
    action.AppendDelta? || action.AppendThinking? || action.UpsertToolCall? || action.CompleteToolCall?
      || action.FinalizeStreaming?
    || action.SetAssistantMetadata? || action.AddUser? || action.AddSystem? || action.ToggleCollapsed?
    || action.ToggleCollapsedVisible? || action.SetCollapsed?
  }

  function Reduce(state: State, e: Event): Outcome {
    if ChangesItems(e.action) then Outcome(ReduceItems(state, e), None) else ReduceRest(state, e)
  }

  function ReduceItems(state: State, e: Event): State
    requires ChangesItems(e.action)
  {
    match e.action
    case AppendDelta(delta) => if delta == "" then state else Show(state, AppendText(state.items, e, delta))
    case AppendThinking(delta) => if delta == "" then state else Show(state, AppendReasoning(state.items, e, delta))
    case UpsertToolCall(toolCallId, toolName, args) =>
      Show(state, UpsertCall(state.items, e, toolCallId, toolName, args))
    case CompleteToolCall(toolCallId, result, isError) =>
      var i := FindCall(state.items, toolCallId);
      if i == |state.items| then state else Show(state, CompleteCall(state.items, e, i, result, isError))
    case FinalizeStreaming => WithItems(state, MapItems(state.items, Finalized))
    case SetAssistantMetadata(model, usage) =>
      var i := LastAssistant(state.items);
      if i < 0 then state else WithItems(state, state.items[i := state.items[i].(model := model, usage := usage)])
    case AddUser(text) => Show(state, state.items + [BlankItem(e.freshId, UserItem, e.now).(text := Some(text))])
    case AddSystem(text, level) =>
      Show(state, state.items + [BlankItem(e.freshId, SystemItem, e.now).(text := Some(text), level := Some(level))])
    case ToggleCollapsed(item) => if item.None? then state
      else WithItems(state, MapItems(state.items, it => Toggled(it, item.value)))
    case ToggleCollapsedVisible(visible) =>
      var ids := set x | x in visible;
      if ids == {} then state else WithItems(state, ToggleVisible(state.items, ids))
    case SetCollapsed(item, collapsed) =>
      WithItems(state, MapItems(state.items, it => SetCollapse(it, item, collapsed)))
  }

  function ReduceRest(state: State, e: Event): Outcome
    requires !ChangesItems(e.action)
  {
    match e.action
    case SetBusy(busy) => Outcome(state.(busy := busy), None)
    case SetLastOp(op) => Outcome(state.(lastOp := op), None)
    case HideHint => Outcome(state.(showHint := false), None)
    case ClearItems => Outcome(state.(items := [], scroll := Scroll(0, false)), None)
    case ScrollUp(lines) =>
      Outcome(state.(scroll := state.scroll.(offset := state.scroll.offset + if lines.Some? then lines.value else 1)),
        None)
    case ScrollDown(lines) =>
      var offset := state.scroll.offset - (if lines.Some? then lines.value else 1);
      Outcome(state.(scroll := state.scroll.(offset := if offset > 0 then offset else 0)), None)
    case ScrollBottom => Outcome(state.(scroll := Scroll(0, false)), None)
    case PushPermission(request) => Outcome(state.(permissionQueue := state.permissionQueue + [request]), None)
    case ResolvePermission(allow, remember) => Resolve(state, allow, if remember.Some? then remember.value else Once)
    case ClearSessionAllowedTools => Outcome(state.(sessionAllowedTools := {}), None)
  }

  /** Resolves the first request of the queue, if there is one. */
  function Resolve(state: State, allow: bool, remember: Remember): Outcome {
    if state.permissionQueue == [] then Outcome(state, None)
    else
      var first := state.permissionQueue[0];
      var next := state.(permissionQueue := state.permissionQueue[1..]);
      Outcome(
        if !allow || remember == Once then next
        else if remember == Always then next.(allowedTools := state.allowedTools + {first.toolName})
        else next.(sessionAllowedTools := state.sessionAllowedTools + {first.toolName}),
        Some(Resolution(first, allow, remember)))
  }

  /** New content. */
  function Show(state: State, items: seq<ChatItem>): (shown: State)
    ensures shown.items == items
  {
    WithScrollOnNewContent(WithItems(state, items))
  }

  /** The state after a run, and the resolutions made on the way. */
  function Run(state: State, events: seq<Event>): (State, seq<Resolution>) {
    if events == [] then (state, [])
    else
      var (before, log) := Run(state, events[..|events| - 1]);
      var out := Reduce(before, events[|events| - 1]);
      (out.state, if out.resolved.Some? then log + [out.resolved.value] else log)
  }

  // The transcript

  function TextOf(it: ChatItem): string { if it.kind == Assistant then OrEmpty(it.text) else "" }

  function ReasoningOf(it: ChatItem): string { if it.kind == Assistant then OrEmpty(it.reasoning) else "" }

  function Transcript(items: seq<ChatItem>): string {
    if items == [] then "" else Transcript(items[..|items| - 1]) + TextOf(items[|items| - 1])
  }

  function Thoughts(items: seq<ChatItem>): string {
    if items == [] then "" else Thoughts(items[..|items| - 1]) + ReasoningOf(items[|items| - 1])
  }

  /** The text streamed since the last clear, behind what was there at the start. */
  function Said(start: string, events: seq<Event>): string {
    if events == [] then start
    else
      var before := Said(start, events[..|events| - 1]);
      match events[|events| - 1].action
      case AppendDelta(delta) => before + delta
      case ClearItems => ""
      case _ => before
  }

  function Thought(start: string, events: seq<Event>): string {
    if events == [] then start
    else
      var before := Thought(start, events[..|events| - 1]);
      match events[|events| - 1].action
      case AppendThinking(delta) => before + delta
      case ClearItems => ""
      case _ => before
  }

  /** The items are still there, in order, with everything but their view state. */
  ghost predicate SameShown(a: seq<ChatItem>, b: seq<ChatItem>) {
    |a| == |b| && forall i :: 0 <= i < |a| ==> SameContent(a[i], b[i])
  }

  predicate SameContent(a: ChatItem, b: ChatItem) {
    && a.id == b.id && a.kind == b.kind && a.text == b.text && a.reasoning == b.reasoning
    && a.ts == b.ts && a.toolCallId == b.toolCallId && a.args == b.args
    && a.result == b.result && a.isError == b.isError && a.durationMs == b.durationMs
  }

  predicate ChangesView(action: Action) {
    action.FinalizeStreaming? || action.SetAssistantMetadata? || action.ToggleCollapsed?
      || action.ToggleCollapsedVisible? || action.SetCollapsed?
  }

  lemma {:induction false} OthersKeepShown(state: State, e: Event)
    requires ChangesView(e.action)
    ensures SameShown(state.items, ReduceItems(state, e).items)
  {
  }

  /** The items are still there, in order, with their texts. */
  ghost predicate SameTexts(a: seq<ChatItem>, b: seq<ChatItem>) {
    |a| == |b| && forall i :: 0 <= i < |a| ==> TextOf(a[i]) == TextOf(b[i]) && ReasoningOf(a[i]) == ReasoningOf(b[i])
  }

  lemma {:induction false} SameTranscript(a: seq<ChatItem>, b: seq<ChatItem>)
    requires SameTexts(a, b)
    ensures Transcript(a) == Transcript(b) && Thoughts(a) == Thoughts(b)
  {
    if a != [] { SameTranscript(a[..|a| - 1], b[..|b| - 1]); }
  }

  lemma {:induction false} Join(a: string, b: string, c: string)
    ensures a + (b + c) == a + b + c && a + "" == a
  {
  }

  lemma {:induction false} AppendTextTexts(items: seq<ChatItem>, e: Event, delta: string)
    ensures Transcript(AppendText(items, e, delta)) == Transcript(items) + delta
    ensures Thoughts(AppendText(items, e, delta)) == Thoughts(items)
  {
  }

  lemma {:induction false} AppendReasoningTexts(items: seq<ChatItem>, e: Event, delta: string)
    ensures Transcript(AppendReasoning(items, e, delta)) == Transcript(items)
    ensures Thoughts(AppendReasoning(items, e, delta)) == Thoughts(items) + delta
  {
  }

  lemma {:induction false} SilentItem(items: seq<ChatItem>, it: ChatItem)
    requires it.kind != Assistant
    ensures Transcript(items + [it]) == Transcript(items) && Thoughts(items + [it]) == Thoughts(items)
  {
  }

  lemma {:induction false} UpsertTexts(items: seq<ChatItem>, e: Event, id: string, name: string, args: string)
    ensures Transcript(UpsertCall(items, e, id, name, args)) == Transcript(items)
    ensures Thoughts(UpsertCall(items, e, id, name, args)) == Thoughts(items)
  {
    var after := UpsertCall(items, e, id, name, args);
    if FindCall(items, id) < |items| { SameTranscript(items, after); } else { SilentItem(items, after[|items|]); }
  }

  /** Only streaming changes the transcript of the items. */
  lemma {:induction false} ReduceItemsTexts(state: State, e: Event)
    requires ChangesItems(e.action)
    ensures Transcript(ReduceItems(state, e).items) ==
      if e.action.AppendDelta? then Transcript(state.items) + e.action.delta else Transcript(state.items)
    ensures Thoughts(ReduceItems(state, e).items) ==
      if e.action.AppendThinking? then Thoughts(state.items) + e.action.delta else Thoughts(state.items)
  {
    var items := state.items;
    var after := ReduceItems(state, e).items;
    match e.action
    case AppendDelta(delta) => AppendTextTexts(items, e, delta); Join(Transcript(items), "", "");
    case AppendThinking(delta) => AppendReasoningTexts(items, e, delta); Join(Thoughts(items), "", "");
    case UpsertToolCall(id, name, args) => UpsertTexts(items, e, id, name, args);
    case AddUser(text) => SilentItem(items, after[|items|]);
    case AddSystem(text, level) => SilentItem(items, after[|items|]);
    case _ =>
      ItemsKeepTexts(state, e);
      SameTranscript(items, after);
  }

  lemma {:induction false} ItemsKeepTexts(state: State, e: Event)
    requires e.action.CompleteToolCall? || e.action.FinalizeStreaming? || e.action.SetAssistantMetadata?
      || e.action.ToggleCollapsed? || e.action.ToggleCollapsedVisible? || e.action.SetCollapsed?
    ensures SameTexts(state.items, ReduceItems(state, e).items)
  {
    if !e.action.CompleteToolCall? {
      OthersKeepShown(state, e);
    }
  }

  lemma {:induction false} RestKeepsItems(state: State, e: Event)
    requires !ChangesItems(e.action)
    ensures ReduceRest(state, e).state.items == if e.action.ClearItems? then [] else state.items
  {
  }

  /** The assistant items' texts, in order, are exactly the deltas streamed since the last clear,
   *  and so are their reasonings. */
  lemma {:induction false} TranscriptIsStream(state: State, events: seq<Event>)
    ensures Transcript(Run(state, events).0.items) == Said(Transcript(state.items), events)
    ensures Thoughts(Run(state, events).0.items) == Thought(Thoughts(state.items), events)
  {
    if events != [] {
      var n := |events| - 1;
      TranscriptIsStream(state, events[..n]);
      var before := Run(state, events[..n]).0;
      if ChangesItems(events[n].action) {
        ReduceItemsTexts(before, events[n]);
      } else {
        RestKeepsItems(before, events[n]);
      }
    }
  }

  // Permissions

  function Pushed(events: seq<Event>): seq<Request> {
    if events == [] then []
    else
      var e := events[|events| - 1].action;
      if e.PushPermission? then Pushed(events[..|events| - 1]) + [e.request] else Pushed(events[..|events| - 1])
  }

  function Requests(log: seq<Resolution>): seq<Request> {
    seq(|log|, i requires 0 <= i < |log| => log[i].request)
  }

  /** What one action does to the queue. */
  lemma {:induction false} ReduceQueue(state: State, e: Event)
    ensures var out := Reduce(state, e);
      && (out.resolved.None? ==>
        out.state.permissionQueue == state.permissionQueue + if e.action.PushPermission? then [e.action.request]
        else [])
      && (out.resolved.Some? ==>
        !e.action.PushPermission? && state.permissionQueue == [out.resolved.value.request] + out.state.permissionQueue)
  {
    if ChangesItems(e.action) { ItemsKeepRest(state, e); }
  }

  lemma {:induction false} ItemsKeepRest(state: State, e: Event)
    requires ChangesItems(e.action)
    ensures var after := ReduceItems(state, e); after == state.(items := after.items, scroll := after.scroll)
  {
  }

  /** Every request pushed is resolved once, in order, or still waits in the queue in order. */
  lemma {:induction false} PermissionsInOrder(state: State, events: seq<Event>)
    ensures var (after, log) := Run(state, events);
      state.permissionQueue + Pushed(events) == Requests(log) + after.permissionQueue
  {
    if events != [] {
      var n := |events| - 1;
      var (before, log) := Run(state, events[..n]);
      var out := Reduce(before, events[n]);
      PermissionsInOrder(state, events[..n]);
      ReduceQueue(before, events[n]);
      if out.resolved.Some? {
        assert Requests(log + [out.resolved.value]) == Requests(log) + [out.resolved.value.request];
        Regroup(Requests(log), [out.resolved.value.request], out.state.permissionQueue);
      } else if events[n].action.PushPermission? {
        Append2(state.permissionQueue, Pushed(events[..n]), Requests(log), before.permissionQueue,
          events[n].action.request);
      }
    }
  }

  lemma {:induction false} Append2(a: seq<Request>, b: seq<Request>, c: seq<Request>, d: seq<Request>, r: Request)
    requires a + b == c + d
    ensures a + (b + [r]) == c + (d + [r])
  {
    assert a + (b + [r]) == a + b + [r];
  }

  ghost predicate Granted(tool: string, start: set<string>, log: seq<Resolution>) {
    tool in start || exists r :: r in log && r.allow && r.remember == Always && r.request.toolName == tool
  }

  lemma {:induction false} ReduceGrants(state: State, e: Event, tool: string)
    ensures var out := Reduce(state, e);
      tool in out.state.allowedTools <==>
        tool in state.allowedTools || (out.resolved.Some? && Granted(tool, {}, [out.resolved.value]))
  {
    var out := Reduce(state, e);
    if ChangesItems(e.action) { ItemsKeepRest(state, e); }
    if out.resolved.Some? {
      var r := out.resolved.value;
      assert r in [r];
    }
  }

  /** A tool is allowed for good exactly when it was at the start or a request for it was resolved
   *  with "always". */
  lemma {:induction false} AllowedToolsAre(state: State, events: seq<Event>, tool: string)
    ensures tool in Run(state, events).0.allowedTools <==> Granted(tool, state.allowedTools, Run(state, events).1)
  {
    if events != [] {
      var n := |events| - 1;
      var (before, log) := Run(state, events[..n]);
      AllowedToolsAre(state, events[..n], tool);
      ReduceGrants(before, events[n], tool);
      var out := Reduce(before, events[n]);
      if out.resolved.Some? { GrantedMore(tool, state.allowedTools, log, out.resolved.value); }
    }
  }

  lemma {:induction false} GrantedMore(tool: string, start: set<string>, log: seq<Resolution>, r: Resolution)
    ensures Granted(tool, start, log + [r]) <==> Granted(tool, start, log) || Granted(tool, {}, [r])
  {
  }

  /** Event `i` of the run resolves a request for the tool, allowing it for the session. */
  predicate GrantsForSession(state: State, events: seq<Event>, i: nat, tool: string)
    requires i < |events|
  {
    var resolved := Reduce(Run(state, events[..i]).0, events[i]).resolved;
    resolved.Some? && resolved.value.allow && resolved.value.remember == ForSession
      && resolved.value.request.toolName == tool
  }

  /** The session's tools were not cleared at `i` or after. */
  predicate NotCleared(events: seq<Event>, i: nat) {
    forall j :: i <= j < |events| ==> !events[j].action.ClearSessionAllowedTools?
  }

  ghost predicate AllowedForSession(state: State, events: seq<Event>, tool: string) {
    || (tool in state.sessionAllowedTools && NotCleared(events, 0))
    || exists i: nat :: GrantStands(state, events, i, tool)
  }

  predicate GrantStands(state: State, events: seq<Event>, i: nat, tool: string) {
    i < |events| && GrantsForSession(state, events, i, tool) && NotCleared(events, i + 1)
  }

  lemma {:induction false} ReduceSessionGrants(state: State, e: Event, tool: string)
    ensures var out := Reduce(state, e); var r := out.resolved;
      tool in out.state.sessionAllowedTools <==>
        (!e.action.ClearSessionAllowedTools? &&
          (tool in state.sessionAllowedTools
            || (r.Some? && r.value.allow && r.value.remember == ForSession && r.value.request.toolName == tool)))
  {
    if ChangesItems(e.action) { ItemsKeepRest(state, e); }
  }

  lemma {:induction false} NotClearedNext(events: seq<Event>, i: nat)
    requires events != [] && i < |events|
    ensures var n := |events| - 1;
      NotCleared(events, i) <==> NotCleared(events[..n], i) && !events[n].action.ClearSessionAllowedTools?
  {
    var n := |events| - 1;
    if NotCleared(events, i) { assert forall j :: i <= j < n ==> events[..n][j] == events[j]; }
    if NotCleared(events[..n], i) { assert forall j :: i <= j < n ==> events[j] == events[..n][j]; }
  }

  lemma {:induction false} GrantStandsNext(state: State, events: seq<Event>, i: nat, tool: string)
    requires events != []
    ensures var n := |events| - 1;
      GrantStands(state, events, i, tool) <==>
        if i == n then GrantsForSession(state, events, n, tool)
        else GrantStands(state, events[..n], i, tool) && !events[n].action.ClearSessionAllowedTools?
  {
    var n := |events| - 1;
    if i < n {
      assert events[..i] == events[..n][..i];
      NotClearedNext(events, i + 1);
    }
  }

  lemma {:induction false} ClearGrantsNothing(state: State, events: seq<Event>, tool: string)
    requires events != [] && events[|events| - 1].action.ClearSessionAllowedTools?
    ensures !GrantsForSession(state, events, |events| - 1, tool)
  {
  }

  lemma {:induction false} OneMoreGrant(state: State, events: seq<Event>, tool: string)
    requires events != []
    ensures var n := |events| - 1;
      AllowedForSession(state, events, tool) <==>
        !events[n].action.ClearSessionAllowedTools?
        && (AllowedForSession(state, events[..n], tool) || GrantsForSession(state, events, n, tool))
  {
    var n := |events| - 1;
    NotClearedNext(events, 0);
    if events[n].action.ClearSessionAllowedTools? { ClearGrantsNothing(state, events, tool); }
    forall i: nat
      ensures GrantStands(state, events, i, tool) <==>
        if i == n then GrantsForSession(state, events, n, tool)
        else GrantStands(state, events[..n], i, tool) && !events[n].action.ClearSessionAllowedTools?
    {
      GrantStandsNext(state, events, i, tool);
    }
    if GrantsForSession(state, events, n, tool) { assert GrantStands(state, events, n, tool); }
    if !events[n].action.ClearSessionAllowedTools? {
      forall i: nat | GrantStands(state, events[..n], i, tool) ensures GrantStands(state, events, i, tool) {
        GrantStandsNext(state, events, i, tool);
      }
    }
  }

  /** A tool is allowed for the session exactly when it was at the start, or a request for it was
   *  resolved with "session", and the session's tools were not cleared since. */
  lemma {:induction false} SessionToolsAre(state: State, events: seq<Event>, tool: string)
    ensures tool in Run(state, events).0.sessionAllowedTools <==> AllowedForSession(state, events, tool)
  {
    if events != [] {
      var n := |events| - 1;
      SessionToolsAre(state, events[..n], tool);
      ReduceSessionGrants(Run(state, events[..n]).0, events[n], tool);
      OneMoreGrant(state, events, tool);
    }
  }

  // Tool calls

  /** The ids of the tool call items, in order. */
  function CallIds(items: seq<ChatItem>): seq<Option<string>> {
    if items == [] then []
    else if items[|items| - 1].kind == ToolCall then CallIds(items[..|items| - 1]) + [items[|items| - 1].toolCallId]
    else CallIds(items[..|items| - 1])
  }

  /** The ids upserted since the last clear, each once, in the order of their first upserts. */
  function Upserted(events: seq<Event>): seq<Option<string>> {
    if events == [] then []
    else
      var before := Upserted(events[..|events| - 1]);
      match events[|events| - 1].action
      case UpsertToolCall(id, _, _) => if Some(id) in before then before else before + [Some(id)]
      case ClearItems => []
      case _ => before
  }

  ghost predicate SameCalls(a: seq<ChatItem>, b: seq<ChatItem>) {
    |a| == |b| && forall i :: 0 <= i < |a| ==> a[i].kind == b[i].kind && a[i].toolCallId == b[i].toolCallId
  }

  lemma {:induction false} SameCallIds(a: seq<ChatItem>, b: seq<ChatItem>)
    requires SameCalls(a, b)
    ensures CallIds(a) == CallIds(b)
  {
    if a != [] { SameCallIds(a[..|a| - 1], b[..|b| - 1]); }
  }

  lemma {:induction false} CallIdsAre(items: seq<ChatItem>)
    ensures forall x :: x in CallIds(items) <==> exists it :: it in items && it.kind == ToolCall && it.toolCallId == x
  {
    if items != [] {
      CallIdsAre(items[..|items| - 1]);
      assert forall it :: it in items <==> it in items[..|items| - 1] || it == items[|items| - 1];
    }
  }

  lemma {:induction false} ReduceItemsCalls(state: State, e: Event)
    requires ChangesItems(e.action)
    ensures var calls := CallIds(state.items);
      CallIds(ReduceItems(state, e).items) ==
        if e.action.UpsertToolCall? && Some(e.action.toolCallId) !in calls then calls + [Some(e.action.toolCallId)]
          else calls
  {
    var items := state.items;
    var after := ReduceItems(state, e).items;
    if e.action.UpsertToolCall? { FindCallIff(items, e.action.toolCallId); }
    if |after| == |items| + 1 {
      assert after[..|items|] == items;
    } else {
      ItemsKeepCalls(state, e);
      SameCallIds(items, after);
    }
  }

  lemma {:induction false} FindCallIff(items: seq<ChatItem>, id: string)
    ensures FindCall(items, id) < |items| <==> Some(id) in CallIds(items)
  {
    CallIdsAre(items);
    var i := FindCall(items, id);
    if i < |items| { assert items[i] in items; }
  }

  lemma {:induction false} ItemsKeepCalls(state: State, e: Event)
    requires ChangesItems(e.action) && |ReduceItems(state, e).items| != |state.items| + 1
    ensures SameCalls(state.items, ReduceItems(state, e).items)
  {
    if ChangesView(e.action) { OthersKeepShown(state, e); }
  }

  lemma {:induction false} UpsertedOnce(events: seq<Event>)
    ensures Distinct(Upserted(events))
  {
    if events != [] { UpsertedOnce(events[..|events| - 1]); }
  }

  /** There is one tool call item for each id upserted since the last clear, in the order of the
   *  first upserts, and never two for one id. */
  lemma {:induction false} OneItemPerCall(events: seq<Event>)
    ensures CallIds(Run(INITIAL, events).0.items) == Upserted(events)
    ensures Distinct(Upserted(events))
  {
    UpsertedOnce(events);
    if events != [] {
      var n := |events| - 1;
      OneItemPerCall(events[..n]);
      var before := Run(INITIAL, events[..n]).0;
      if ChangesItems(events[n].action) {
        ReduceItemsCalls(before, events[n]);
      } else {
        RestKeepsItems(before, events[n]);
      }
    }
  }

  // What the tool call items show

  /** The arguments of the last upsert of a call since the last clear. */
  function LastArgs(events: seq<Event>, id: string): Option<string> {
    if events == [] then None
    else
      match events[|events| - 1].action
      case UpsertToolCall(call, _, args) => if call == id then Some(args) else LastArgs(events[..|events| - 1], id)
      case ClearItems => None
      case _ => LastArgs(events[..|events| - 1], id)
  }

  /** When the call was first upserted since then. */
  function StartedAt(events: seq<Event>, id: string): Option<int> {
    if events == [] then None
    else
      var before := StartedAt(events[..|events| - 1], id);
      match events[|events| - 1].action
      case UpsertToolCall(call, _, _) =>
        if call == id && before == None then Some(events[|events| - 1].now) else before
      case ClearItems => None
      case _ => before
  }

  /** How a call ended, and how long after its first upsert. */
  datatype Ending = Ending(result: string, isError: bool, tookMs: int)

  /** Its last completion since then, completions before the first upsert aside. */
  function LastEnding(events: seq<Event>, id: string): Option<Ending> {
    if events == [] then None
    else
      var e, before := events[|events| - 1], events[..|events| - 1];
      match e.action
      case CompleteToolCall(call, result, isError) =>
        var started := StartedAt(before, id);
        if call == id && started.Some? then Some(Ending(result, isError, e.now - started.value))
        else LastEnding(before, id)
      case ClearItems => None
      case _ => LastEnding(before, id)
  }

  predicate ShowsEnding(it: ChatItem, ending: Option<Ending>) {
    match ending
    case None => it.result == None && it.isError == None && it.durationMs == None
    case Some(end) =>
      it.result == Some(end.result) && it.isError == Some(end.isError) && it.durationMs == Some(end.tookMs)
  }

  ghost predicate DistinctIds(items: seq<ChatItem>) {
    forall i, j :: 0 <= i < j < |items| ==> items[i].id != items[j].id
  }

  ghost predicate FreshIds(events: seq<Event>) {
    forall i, j :: 0 <= i < j < |events| ==> events[i].freshId != events[j].freshId
  }

  ghost predicate FromEvent(id: nat, events: seq<Event>) { exists j :: 0 <= j < |events| && events[j].freshId == id }

  ghost predicate IdsFrom(items: seq<ChatItem>, events: seq<Event>) {
    forall i :: 0 <= i < |items| ==> FromEvent(items[i].id, events)
  }

  ghost predicate SameIds(a: seq<ChatItem>, b: seq<ChatItem>) {
    |a| == |b| && forall i :: 0 <= i < |a| ==> a[i].id == b[i].id
  }

  /** An action adds at most one item, under its fresh id, and keeps the ids of the others. */
  lemma {:induction false} ReduceIds(state: State, e: Event)
    requires ChangesItems(e.action)
    ensures var after := ReduceItems(state, e).items;
      SameIds(state.items, after) || (|after| == |state.items| + 1 && after[..|state.items|] == state.items
        && after[|state.items|].id == e.freshId)
  {
    if ChangesView(e.action) { OthersKeepShown(state, e); }
  }

  lemma {:induction false} ItemIdsDistinct(events: seq<Event>)
    requires FreshIds(events)
    ensures DistinctIds(Run(INITIAL, events).0.items) && IdsFrom(Run(INITIAL, events).0.items, events)
  {
    if events != [] {
      var n := |events| - 1;
      ItemIdsDistinct(events[..n]);
      var before := Run(INITIAL, events[..n]).0;
      if ChangesItems(events[n].action) {
        ReduceIds(before, events[n]);
        NextIds(before.items, ReduceItems(before, events[n]).items, events);
      } else {
        RestKeepsItems(before, events[n]);
        if !events[n].action.ClearItems? { NextIds(before.items, before.items, events); }
      }
    }
  }

  lemma {:induction false} NextIds(items: seq<ChatItem>, after: seq<ChatItem>, events: seq<Event>)
    requires events != [] && FreshIds(events) && DistinctIds(items) && IdsFrom(items, events[..|events| - 1])
    requires SameIds(items, after)
      || (|after| == |items| + 1 && after[..|items|] == items && after[|items|].id == events[|events| - 1].freshId)
    ensures DistinctIds(after) && IdsFrom(after, events)
  {
  }

  /** The tool call item `it` shows what was last said about its call. */
  ghost predicate Current(it: ChatItem, events: seq<Event>) {
    it.kind == ToolCall ==>
      && it.toolCallId.Some? && it.args.Some? && it.args == LastArgs(events, it.toolCallId.value)
      && Some(it.ts) == StartedAt(events, it.toolCallId.value)
      && ShowsEnding(it, LastEnding(events, it.toolCallId.value))
  }

  ghost predicate AllCurrent(items: seq<ChatItem>, events: seq<Event>) {
    forall i :: 0 <= i < |items| ==> Current(items[i], events)
  }

  ghost predicate SameCallsShown(a: seq<ChatItem>, b: seq<ChatItem>) {
    |a| == |b| && forall i :: 0 <= i < |a| ==>
      && a[i].kind == b[i].kind && a[i].toolCallId == b[i].toolCallId && a[i].args == b[i].args && a[i].ts == b[i].ts
      && a[i].result == b[i].result && a[i].isError == b[i].isError && a[i].durationMs == b[i].durationMs
  }

  ghost predicate OneEach(items: seq<ChatItem>) {
    forall i, j :: 0 <= i < j < |items| && items[i].kind == ToolCall && items[j].kind == ToolCall ==>
      items[i].toolCallId != items[j].toolCallId
  }

  lemma {:induction false} OneEachFromIds(items: seq<ChatItem>)
    requires forall i, j :: 0 <= i < j < |CallIds(items)| ==> CallIds(items)[i] != CallIds(items)[j]
    ensures OneEach(items)
  {
    if items != [] {
      var n := |items| - 1;
      assert forall i :: 0 <= i < |CallIds(items[..n])| ==> CallIds(items)[i] == CallIds(items[..n])[i];
      OneEachFromIds(items[..n]);
      if items[n].kind == ToolCall { LastIsNew(items); }
      forall i, j | 0 <= i < j < |items| && items[i].kind == ToolCall && items[j].kind == ToolCall
        ensures items[i].toolCallId != items[j].toolCallId
      {
        if j < n { assert items[..n][i] == items[i] && items[..n][j] == items[j]; }
      }
    }
  }

  lemma {:induction false} LastIsNew(items: seq<ChatItem>)
    requires items != [] && items[|items| - 1].kind == ToolCall
    requires forall i, j :: 0 <= i < j < |CallIds(items)| ==> CallIds(items)[i] != CallIds(items)[j]
    ensures forall i :: 0 <= i < |items| - 1 && items[i].kind == ToolCall ==>
      items[i].toolCallId != items[|items| - 1].toolCallId
  {
    var n := |items| - 1;
    var earlier := CallIds(items[..n]);
    assert CallIds(items) == earlier + [items[n].toolCallId];
    CallIdsAre(items[..n]);
    forall i | 0 <= i < n && items[i].kind == ToolCall ensures items[i].toolCallId != items[n].toolCallId {
      assert items[..n][i] in items[..n] && items[..n][i] == items[i];
      assert items[i].toolCallId in earlier;
      var k :| 0 <= k < |earlier| && earlier[k] == items[i].toolCallId;
      assert CallIds(items)[k] != CallIds(items)[|earlier|];
    }
  }

  lemma {:induction false} UpsertCurrent(items: seq<ChatItem>, events: seq<Event>)
    requires events != [] && events[|events| - 1].action.UpsertToolCall?
    requires DistinctIds(items) && OneEach(items) && AllCurrent(items, events[..|events| - 1])
    requires FindCall(items, events[|events| - 1].action.toolCallId) == |items| ==>
      && StartedAt(events[..|events| - 1], events[|events| - 1].action.toolCallId).None?
      && LastEnding(events[..|events| - 1], events[|events| - 1].action.toolCallId).None?
    ensures var e := events[|events| - 1];
      AllCurrent(UpsertCall(items, e, e.action.toolCallId, e.action.toolName, e.action.args), events)
  {
    var e := events[|events| - 1];
    var id := e.action.toolCallId;
    var found := FindCall(items, id);
    var after := UpsertCall(items, e, id, e.action.toolName, e.action.args);
    forall i | 0 <= i < |after| ensures Current(after[i], events) {
      if i < |items| {
        assert Current(items[i], events[..|events| - 1]);
        assert found < |items| && i != found && items[i].kind == ToolCall ==> items[i].toolCallId != Some(id);
      }
    }
  }

  lemma {:induction false} CompleteCurrent(items: seq<ChatItem>, events: seq<Event>, found: nat)
    requires events != [] && events[|events| - 1].action.CompleteToolCall?
    requires OneEach(items) && AllCurrent(items, events[..|events| - 1])
    requires found < |items| && found == FindCall(items, events[|events| - 1].action.toolCallId)
    ensures var e := events[|events| - 1];
      AllCurrent(CompleteCall(items, e, found, e.action.result, e.action.isError), events)
  {
    var e := events[|events| - 1];
    var after := CompleteCall(items, e, found, e.action.result, e.action.isError);
    forall i | 0 <= i < |after| ensures Current(after[i], events) {
      assert Current(items[i], events[..|events| - 1]);
      assert i != found && items[i].kind == ToolCall ==> items[i].toolCallId != Some(e.action.toolCallId);
    }
  }

  /** Nothing was said since the last clear about a call without an item. */
  lemma {:induction false} SilentCall(events: seq<Event>, id: string)
    requires Some(id) !in Upserted(events)
    ensures LastArgs(events, id).None? && StartedAt(events, id).None? && LastEnding(events, id).None?
  {
    if events != [] {
      var n := |events| - 1;
      if !events[n].action.ClearItems? { SilentCall(events[..n], id); }
    }
  }

  /** With distinct item ids each tool call item shows the arguments of the last upsert and the
   *  result of the last completion of its call since the last clear. */
  lemma {:induction false} CallsShowLatest(events: seq<Event>)
    requires FreshIds(events)
    ensures AllCurrent(Run(INITIAL, events).0.items, events)
  {
    if events != [] {
      var n := |events| - 1;
      CallsShowLatest(events[..n]);
      ItemIdsDistinct(events[..n]);
      OneItemPerCall(events[..n]);
      var before := Run(INITIAL, events[..n]).0;
      OneEachFromIds(before.items);
      NextCurrent(before, events);
    }
  }

  lemma {:induction false} NextCurrent(before: State, events: seq<Event>)
    requires events != [] && DistinctIds(before.items) && OneEach(before.items)
      && AllCurrent(before.items, events[..|events| - 1])
    requires CallIds(before.items) == Upserted(events[..|events| - 1])
    ensures AllCurrent(Reduce(before, events[|events| - 1]).state.items, events)
  {
    var e := events[|events| - 1];
    var items := before.items;
    if e.action.UpsertToolCall? {
      FindCallIff(items, e.action.toolCallId);
      if FindCall(items, e.action.toolCallId) == |items| { SilentCall(events[..|events| - 1], e.action.toolCallId); }
      UpsertCurrent(items, events);
    } else if e.action.CompleteToolCall? {
      var found := FindCall(items, e.action.toolCallId);
      if found < |items| { CompleteCurrent(items, events, found); } else { UntouchedCurrent(items, items, events); }
    } else if ChangesItems(e.action) {
      if e.action.AppendDelta? || e.action.AppendThinking? || e.action.AddUser? || e.action.AddSystem? {
      } else {
        OthersKeepShown(before, e);
      }
      UntouchedCurrent(items, ReduceItems(before, e).items, events);
    } else {
      RestKeepsItems(before, e);
      if !e.action.ClearItems? { UntouchedCurrent(items, items, events); }
    }
  }

  lemma {:induction false} UntouchedCurrent(items: seq<ChatItem>, after: seq<ChatItem>, events: seq<Event>)
    requires events != [] && AllCurrent(items, events[..|events| - 1])
    requires SameCallsShown(items, after)
      || (|after| == |items| + 1 && after[..|items|] == items && after[|items|].kind != ToolCall)
    requires var a := events[|events| - 1].action;
      !a.UpsertToolCall? && !a.ClearItems? && (a.CompleteToolCall? ==> FindCall(items, a.toolCallId) == |items|)
    ensures AllCurrent(after, events)
  {
    forall i | 0 <= i < |after| ensures Current(after[i], events) {
      if i < |items| {
        assert Current(items[i], events[..|events| - 1]);
        assert |after| == |items| + 1 ==> after[..|items|][i] == after[i];
      }
    }
  }
}
