/** What a run of chat actions shows: the replies, the order of the items, and the scroll mark. */
module ChatReplies {
  import opened Wrappers
  import opened ChatState

  /** Text or thought that is not empty. */
  predicate Streams(action: Action) {
    match action
    case AppendDelta(delta) => delta != ""
    case AppendThinking(delta) => delta != ""
    case _ => false
  }

  /** The last action puts an item of its own behind the others: the user's, the system's, or a call not
   *  made since the last clear. */
  predicate AddsItem(events: seq<Event>)
    requires events != []
  {
    match events[|events| - 1].action
    case AddUser(_) => true
    case AddSystem(_, _) => true
    case UpsertToolCall(id, _, _) => Some(id) !in Upserted(events[..|events| - 1])
    case _ => false
  }

  /** A reply is under way from its first delta or thought to the next finalize, clear or other item. */
  predicate UnderWay(events: seq<Event>) {
    events != [] &&
    var last := events[|events| - 1].action;
    (Streams(last) || (UnderWay(events[..|events| - 1]) && !last.FinalizeStreaming? && !last.ClearItems?
      && !AddsItem(events)))
  }

  /** A reply's text and reasoning; `open` until a finalize comes. */
  datatype Reply = Reply(text: string, reasoning: string, open: bool)

  function Grown(reply: Reply, action: Action): Reply {
    match action
    case AppendDelta(delta) => reply.(text := reply.text + delta)
    case AppendThinking(delta) => reply.(reasoning := reply.reasoning + delta)
    case _ => reply
  }

  function Closed(replies: seq<Reply>): (closed: seq<Reply>)
    ensures |closed| == |replies|
  {
    seq(|replies|, i requires 0 <= i < |replies| => replies[i].(open := false))
  }

  /** The replies since the last clear. */
  function Replies(events: seq<Event>): seq<Reply> {
    if events == [] then []
    else
      var earlier, last := events[..|events| - 1], events[|events| - 1].action;
      var before := Replies(earlier);
      if last.ClearItems? then []
      else if last.FinalizeStreaming? then Closed(before)
      else if !Streams(last) then before
      else if UnderWay(earlier) && before != [] then before[..|before| - 1] + [Grown(before[|before| - 1], last)]
      else before + [Grown(Reply("", "", true), last)]
  }

  /** The assistant items. */
  function Shown(items: seq<ChatItem>): seq<Reply> {
    if items == [] then []
    else
      var before, last := Shown(items[..|items| - 1]), items[|items| - 1];
      if last.kind == Assistant then before + [Reply(TextOf(last), ReasoningOf(last), last.isStreaming)] else before
  }

  // ---- one action

  predicate SameReply(a: ChatItem, b: ChatItem) {
    a.kind == b.kind && a.text == b.text && a.reasoning == b.reasoning && a.isStreaming == b.isStreaming
  }

  ghost predicate SameReplies(a: seq<ChatItem>, b: seq<ChatItem>) {
    |a| == |b| && forall i :: 0 <= i < |a| ==> SameReply(a[i], b[i])
  }

  lemma {:induction false} SameShownReplies(a: seq<ChatItem>, b: seq<ChatItem>)
    requires SameReplies(a, b)
    ensures Shown(a) == Shown(b) && EndsStreaming(a) == EndsStreaming(b)
  {
    if a != [] {
      var n := |a| - 1;
      SameShownReplies(a[..n], b[..n]);
    }
  }

  lemma {:induction false} ShownAppend(items: seq<ChatItem>, it: ChatItem)
    ensures Shown(items + [it]) ==
      Shown(items) + if it.kind == Assistant then [Reply(TextOf(it), ReasoningOf(it), it.isStreaming)] else []
    ensures EndsStreaming(items + [it]) <==> it.kind == Assistant && it.isStreaming
  {
    assert (items + [it])[..|items|] == items;
  }

  lemma {:induction false} StreamShown(items: seq<ChatItem>, e: Event)
    requires Streams(e.action)
    ensures var after :=
        if e.action.AppendDelta? then AppendText(items, e, e.action.delta)
          else AppendReasoning(items, e, e.action.delta);
      var before := Shown(items);
      && EndsStreaming(after)
      && (EndsStreaming(items) ==>
        before != [] && Shown(after) == before[..|before| - 1] + [Grown(before[|before| - 1], e.action)])
      && (!EndsStreaming(items) ==> Shown(after) == before + [Grown(Reply("", "", true), e.action)])
  {
    var after :=
      if e.action.AppendDelta? then AppendText(items, e, e.action.delta) else AppendReasoning(items, e, e.action.delta);
    if EndsStreaming(items) {
      var n := |items| - 1;
      assert after == items[..n] + [after[n]] && items == items[..n] + [items[n]];
      ShownAppend(items[..n], items[n]);
      ShownAppend(items[..n], after[n]);
    } else {
      ShownAppend(items, after[|items|]);
      assert "" + e.action.delta == e.action.delta;
    }
  }

  lemma {:induction false} FinalizedShown(items: seq<ChatItem>)
    ensures Shown(MapItems(items, Finalized)) == Closed(Shown(items)) && !EndsStreaming(MapItems(items, Finalized))
  {
    if items != [] {
      var n := |items| - 1;
      FinalizedShown(items[..n]);
      assert MapItems(items, Finalized)[..n] == MapItems(items[..n], Finalized);
    }
  }

  lemma {:induction false} QuietItems(state: State, e: Event)
    requires ChangesItems(e.action) && !Streams(e.action) && !e.action.FinalizeStreaming?
    ensures var before, after := state.items, ReduceItems(state, e).items;
      if NewItem(before, e.action) then |after| == |before| + 1 && after[..|before|] == before
        && after[|before|].kind != Assistant
      else SameReplies(before, after)
  {
    if e.action.UpsertToolCall? {
      UpsertReplies(state.items, e);
    } else if ChangesView(e.action) {
      ViewKeeps(state, e);
    }
  }

  /** How an item is folded, and what its reply cost. */
  predicate SameButView(a: ChatItem, b: ChatItem) {
    b == a.(collapsed := b.collapsed, model := b.model, usage := b.usage)
  }

  lemma {:induction false} ViewKeeps(state: State, e: Event)
    requires ChangesView(e.action) && !e.action.FinalizeStreaming?
    ensures var before, after := state.items, ReduceItems(state, e).items;
      |after| == |before| && forall i :: 0 <= i < |before| ==> SameButView(before[i], after[i])
  {
    if e.action.SetAssistantMetadata? { MetadataOnLast(state, e); } else { FoldingIs(state, e); }
  }

  /** The item is the last reply. */
  predicate IsLastReply(items: seq<ChatItem>, i: int) {
    0 <= i < |items| && items[i].kind == Assistant && forall j :: i < j < |items| ==> items[j].kind != Assistant
  }

  lemma {:induction false} LastReplyIs(items: seq<ChatItem>)
    ensures var i := LastAssistant(items);
      if i >= 0 then IsLastReply(items, i) else forall j :: 0 <= j < |items| ==> items[j].kind != Assistant
  {
    if items != [] { LastReplyIs(items[..|items| - 1]); }
  }

  /** Model and usage go to the last reply, and nothing else changes. */
  lemma {:induction false} MetadataOnLast(state: State, e: Event)
    requires e.action.SetAssistantMetadata?
    ensures var before, after := state.items, ReduceItems(state, e).items;
      && |after| == |before|
      && forall i :: 0 <= i < |before| ==>
           after[i] == if IsLastReply(before, i) then before[i].(model := e.action.model, usage := e.action.usage)
             else before[i]
  {
    LastReplyIs(state.items);
  }

  /** Folding one item, or setting it, changes that item only. Folding what is visible folds all of it,
   *  but for the user's and the system's words, and unfolds all of it if any of it was folded. */
  lemma {:induction false} FoldingIs(state: State, e: Event)
    requires e.action.ToggleCollapsed? || e.action.ToggleCollapsedVisible? || e.action.SetCollapsed?
    ensures var before, after := state.items, ReduceItems(state, e).items;
      && |after| == |before|
      && forall i :: 0 <= i < |before| ==> after[i] == before[i].(collapsed := Folded(before, e.action, before[i]))
  {
    if e.action.ToggleCollapsedVisible? { VisibleFolding(state, e); }
  }

  lemma {:induction false} VisibleFolding(state: State, e: Event)
    requires e.action.ToggleCollapsedVisible?
    ensures var before, after := state.items, ReduceItems(state, e).items;
      && |after| == |before|
      && forall i :: 0 <= i < |before| ==> after[i] == before[i].(collapsed := Folded(before, e.action, before[i]))
  {
    var before, after, visible := state.items, ReduceItems(state, e).items, e.action.visible;
    var ids := set x | x in visible;
    if ids == {} {
      assert after == before;
      forall i | 0 <= i < |before| ensures Folded(before, e.action, before[i]) == before[i].collapsed {
        assert before[i].id !in ids;
      }
    } else {
      AllVisible(before, visible, ids);
      assert after == MapItems(before, it => CollapsedAs(it, ids, NoneFolded(before, visible)));
      forall i | 0 <= i < |before| ensures after[i] == before[i].(collapsed := Folded(before, e.action, before[i])) {
        assert after[i] == CollapsedAs(before[i], ids, NoneFolded(before, visible));
      }
    }
  }

  lemma {:induction false} AllVisible(items: seq<ChatItem>, visible: seq<nat>, ids: set<nat>)
    requires ids == set x | x in visible
    ensures ToggleVisible(items, ids) == MapItems(items, it => CollapsedAs(it, ids, NoneFolded(items, visible)))
  {
    var anyFolded := exists it :: it in items && it.id in ids && it.collapsed == Some(true);
    assert NoneFolded(items, visible) == !anyFolded;
  }

  predicate NoneFolded(items: seq<ChatItem>, visible: seq<nat>) {
    forall it :: it in items && it.id in visible ==> it.collapsed != Some(true)
  }

  predicate Foldable(it: ChatItem) { it.kind != UserItem && it.kind != SystemItem }

  function Folded(items: seq<ChatItem>, action: Action, it: ChatItem): Option<bool> {
    match action
    case ToggleCollapsed(Some(id)) => if it.id == id then Some(it.collapsed != Some(true)) else it.collapsed
    case SetCollapsed(id, collapsed) => if it.id == id then Some(collapsed) else it.collapsed
    case ToggleCollapsedVisible(visible) =>
      if it.id !in visible || !Foldable(it) then it.collapsed
      else Some(NoneFolded(items, visible))
    case _ => it.collapsed
  }

  predicate IsFirstCall(items: seq<ChatItem>, i: nat, id: string)
    requires i < |items|
  {
    && items[i].kind == ToolCall && items[i].toolCallId == Some(id)
    && forall j :: 0 <= j < i ==> items[j].kind != ToolCall || items[j].toolCallId != Some(id)
  }

  /** A new call is shown unfolded, and its completion folds it; the other items stay as they are. */
  lemma {:induction false} CallFolds(state: State, e: Event)
    requires e.action.UpsertToolCall? || e.action.CompleteToolCall?
    ensures var before, after := state.items, ReduceItems(state, e).items;
      && |before| <= |after| && (|after| > |before| ==> after[|before|].collapsed == Some(false))
      && forall i :: 0 <= i < |before| ==>
           after[i].collapsed ==
             if e.action.CompleteToolCall? && IsFirstCall(before, i, e.action.toolCallId) then Some(true)
             else before[i].collapsed
  {
    var found := FindCall(state.items, e.action.toolCallId);
    forall i | 0 <= i < |state.items| ensures IsFirstCall(state.items, i, e.action.toolCallId) <==> i == found {
      if i > found { assert IsCall(state.items[found], e.action.toolCallId); }
    }
  }

  /** The action puts an item of its own behind these. */
  predicate NewItem(items: seq<ChatItem>, action: Action) {
    || action.AddUser? || action.AddSystem?
    || (action.UpsertToolCall? && FindCall(items, action.toolCallId) == |items|)
  }

  lemma {:induction false} UpsertReplies(items: seq<ChatItem>, e: Event)
    requires e.action.UpsertToolCall?
    ensures var after := UpsertCall(items, e, e.action.toolCallId, e.action.toolName, e.action.args);
      if NewItem(items, e.action) then |after| == |items| + 1 && after[..|items|] == items
        && after[|items|].kind == ToolCall
      else SameReplies(items, after)
  {
  }

  lemma {:induction false} ReduceReplies(state: State, e: Event)
    requires ChangesItems(e.action)
    ensures var before, after := state.items, ReduceItems(state, e).items; var shown := Shown(before);
      if e.action.FinalizeStreaming? then Shown(after) == Closed(shown) && !EndsStreaming(after)
      else if Streams(e.action) then
        && EndsStreaming(after)
        && (if EndsStreaming(before)
            then shown != [] && Shown(after) == shown[..|shown| - 1] + [Grown(shown[|shown| - 1], e.action)]
            else Shown(after) == shown + [Grown(Reply("", "", true), e.action)])
      else
        && Shown(after) == shown
        && EndsStreaming(after) == (EndsStreaming(before) && !NewItem(before, e.action))
  {
    var before, after := state.items, ReduceItems(state, e).items;
    if e.action.FinalizeStreaming? {
      FinalizedShown(before);
    } else if Streams(e.action) {
      StreamShown(before, e);
    } else {
      QuietItems(state, e);
      if NewItem(before, e.action) {
        ShownAppend(before, after[|before|]);
        assert after == before + [after[|before|]];
      } else {
        SameShownReplies(before, after);
      }
    }
  }

  /** Over any actions, the assistant items are the replies since the last clear, one item each and in
   *  order, with the text and the reasoning streamed into them; and an item is marked as streaming until
   *  a finalize comes, under way until that or until another item comes. */
  lemma {:induction false} RepliesAreShown(events: seq<Event>)
    ensures Shown(Run(INITIAL, events).0.items) == Replies(events)
    ensures EndsStreaming(Run(INITIAL, events).0.items) <==> UnderWay(events)
  {
    if events != [] {
      var n := |events| - 1;
      var e := events[n];
      var before := Run(INITIAL, events[..n]).0;
      RepliesAreShown(events[..n]);
      if ChangesItems(e.action) {
        ReduceReplies(before, e);
        if !Streams(e.action) && !e.action.FinalizeStreaming? { AddsItemIff(events); }
      } else {
        RestKeepsItems(before, e);
      }
    }
  }

  lemma {:induction false} AddsItemIff(events: seq<Event>)
    requires events != []
    requires var e := events[|events| - 1]; ChangesItems(e.action) && !Streams(e.action) && !e.action.FinalizeStreaming?
    ensures var before := Run(INITIAL, events[..|events| - 1]).0;
      AddsItem(events) <==> NewItem(before.items, events[|events| - 1].action)
  {
    var n := |events| - 1;
    var e := events[n];
    var before := Run(INITIAL, events[..n]).0;
    OneItemPerCall(events[..n]);
    if e.action.UpsertToolCall? { FindCallIff(before.items, e.action.toolCallId); }
  }

  /** For each reply since the last clear, which action streamed into it last. */
  function LastStreamed(events: seq<Event>): seq<nat> {
    if events == [] then []
    else
      var n := |events| - 1;
      var before := LastStreamed(events[..n]);
      if events[n].action.ClearItems? then []
      else if !Streams(events[n].action) then before
      else if UnderWay(events[..n]) && before != [] then before[..|before| - 1] + [n]
      else before + [n]
  }

  predicate FinalizedAfter(events: seq<Event>, k: nat) {
    exists j :: k < j < |events| && events[j].action.FinalizeStreaming?
  }

  lemma {:induction false} FinalizedNext(events: seq<Event>, k: nat)
    requires events != [] && k < |events|
    ensures var n := |events| - 1;
      FinalizedAfter(events, k) <==> FinalizedAfter(events[..n], k) || (k < n && events[n].action.FinalizeStreaming?)
  {
    var n := |events| - 1;
    if FinalizedAfter(events[..n], k) {
      var j :| k < j < n && events[..n][j].action.FinalizeStreaming?;
      assert events[j].action.FinalizeStreaming?;
    }
    if FinalizedAfter(events, k) {
      var j :| k < j < |events| && events[j].action.FinalizeStreaming?;
      if j < n { assert events[..n][j].action.FinalizeStreaming?; }
    }
  }

  /** A reply is shown as streaming exactly when no finalize came after its last delta or thought. */
  lemma {:induction false} StreamingIff(events: seq<Event>)
    ensures var shown, last := Shown(Run(INITIAL, events).0.items), LastStreamed(events);
      && |shown| == |last|
      && forall i :: 0 <= i < |last| ==>
           last[i] < |events| && Streams(events[last[i]].action)
             && (shown[i].open <==> !FinalizedAfter(events, last[i]))
  {
    RepliesAreShown(events);
    OpenIff(events);
  }

  lemma {:induction false} OpenIff(events: seq<Event>)
    ensures var replies, last := Replies(events), LastStreamed(events);
      && |replies| == |last|
      && forall i :: 0 <= i < |last| ==>
           last[i] < |events| && Streams(events[last[i]].action)
             && (replies[i].open <==> !FinalizedAfter(events, last[i]))
  {
    if events != [] {
      var n := |events| - 1;
      OpenIff(events[..n]);
      UnderWayIsOpen(events[..n]);
      var replies, last := Replies(events), LastStreamed(events);
      forall i | 0 <= i < |last|
        ensures last[i] < |events| && Streams(events[last[i]].action)
          && (replies[i].open <==> !FinalizedAfter(events, last[i]))
      {
        FinalizedNext(events, last[i]);
      }
    }
  }

  lemma {:induction false} UnderWayIsOpen(events: seq<Event>)
    ensures UnderWay(events) ==> Replies(events) != [] && Replies(events)[|Replies(events)| - 1].open
  {
    if events != [] {
      var n := |events| - 1;
      var before := Replies(events[..n]);
      UnderWayIsOpen(events[..n]);
      if Streams(events[n].action) {
        if UnderWay(events[..n]) {
          assert Replies(events) == before[..|before| - 1] + [Grown(before[|before| - 1], events[n].action)];
        } else {
          assert Replies(events) == before + [Grown(Reply("", "", true), events[n].action)];
        }
      }
    }
  }

  // ---- the order of all items

  datatype Line = AReply(at: int) | FromUser(at: int, text: string) | FromSystem(at: int, text: string, level: Level)
    | ACall(at: int, id: string, tool: string)

  /** One line for each reply, message and call since the last clear, in the order they began. */
  function Lines(events: seq<Event>): seq<Line> {
    if events == [] then []
    else
      var earlier, e := events[..|events| - 1], events[|events| - 1];
      var before := Lines(earlier);
      match e.action
      case ClearItems => []
      case AddUser(text) => before + [FromUser(e.now, text)]
      case AddSystem(text, level) => before + [FromSystem(e.now, text, level)]
      case UpsertToolCall(id, tool, _) => if AddsItem(events) then before + [ACall(e.now, id, tool)] else before
      case AppendDelta(delta) => if delta != "" && !UnderWay(earlier) then before + [AReply(e.now)] else before
      case AppendThinking(delta) => if delta != "" && !UnderWay(earlier) then before + [AReply(e.now)] else before
      case _ => before
  }

  /** The item says this; only a reply can be streaming, and only words of the system have a level. */
  predicate Says(it: ChatItem, line: Line) {
    && it.ts == line.at
    && (it.kind != Assistant ==> !it.isStreaming && it.reasoning == None)
    && match line
       case AReply(_) => it.kind == Assistant && it.level == None && it.toolCallId == None
       case FromUser(_, text) =>
         it.kind == UserItem && it.text == Some(text) && it.level == None && it.toolCallId == None
       case FromSystem(_, text, level) =>
         it.kind == SystemItem && it.text == Some(text) && it.level == Some(level) && it.toolCallId == None
       case ACall(_, id, tool) =>
         it.kind == ToolCall && it.toolCallId == Some(id) && it.toolName == Some(tool) && it.text == None
           && it.level == None
  }

  ghost predicate AllSay(items: seq<ChatItem>, lines: seq<Line>) {
    |items| == |lines| && forall i :: 0 <= i < |items| ==> Says(items[i], lines[i])
  }

  ghost predicate SameLines(a: seq<ChatItem>, b: seq<ChatItem>) {
    |a| == |b| && forall i :: 0 <= i < |a| ==> SameLine(a[i], b[i])
  }

  predicate SameLine(a: ChatItem, b: ChatItem) {
    && a.kind == b.kind && a.ts == b.ts && a.toolCallId == b.toolCallId && a.toolName == b.toolName
    && a.level == b.level
    && (a.kind != Assistant ==> a.text == b.text && a.reasoning == b.reasoning && a.isStreaming == b.isStreaming)
  }

  lemma {:induction false} StreamLines(items: seq<ChatItem>, e: Event)
    requires Streams(e.action)
    ensures var after :=
        if e.action.AppendDelta? then AppendText(items, e, e.action.delta)
          else AppendReasoning(items, e, e.action.delta);
      if EndsStreaming(items) then SameLines(items, after)
      else |after| == |items| + 1 && after[..|items|] == items && Says(after[|items|], AReply(e.now))
  {
  }

  lemma {:induction false} QuietLines(state: State, e: Event)
    requires ChangesItems(e.action) && !Streams(e.action)
    ensures var before, after := state.items, ReduceItems(state, e).items;
      if NewItem(before, e.action) then
        && |after| == |before| + 1 && after[..|before|] == before
        && match e.action
           case AddUser(text) => Says(after[|before|], FromUser(e.now, text))
           case AddSystem(text, level) => Says(after[|before|], FromSystem(e.now, text, level))
           case UpsertToolCall(id, tool, _) => Says(after[|before|], ACall(e.now, id, tool))
           case _ => false
      else SameLines(before, after)
  {
    if ChangesView(e.action) {
      if e.action.FinalizeStreaming? {
        assert ReduceItems(state, e).items == MapItems(state.items, Finalized);
      } else {
        ViewKeeps(state, e);
      }
    } else if e.action.UpsertToolCall? {
      UpsertLines(state.items, e);
    }
  }

  lemma {:induction false} UpsertLines(items: seq<ChatItem>, e: Event)
    requires e.action.UpsertToolCall?
    ensures var after := UpsertCall(items, e, e.action.toolCallId, e.action.toolName, e.action.args);
      if NewItem(items, e.action) then
        && |after| == |items| + 1 && after[..|items|] == items
        && Says(after[|items|], ACall(e.now, e.action.toolCallId, e.action.toolName))
      else SameLines(items, after)
  {
  }

  /** Over any actions the items are, in order, one for each reply, message and call since the last
   *  clear, and each says what it was given. */
  lemma {:induction false} ItemsInOrder(events: seq<Event>)
    ensures AllSay(Run(INITIAL, events).0.items, Lines(events))
  {
    if events != [] {
      var n := |events| - 1;
      var e := events[n];
      var before := Run(INITIAL, events[..n]).0;
      ItemsInOrder(events[..n]);
      RepliesAreShown(events[..n]);
      if ChangesItems(e.action) {
        if Streams(e.action) {
          StreamLines(before.items, e);
        } else {
          QuietLines(before, e);
          if !e.action.FinalizeStreaming? { AddsItemIff(events); }
        }
        NextLines(before.items, ReduceItems(before, e).items, Lines(events[..n]), Lines(events));
      } else {
        RestKeepsItems(before, e);
      }
    }
  }

  lemma {:induction false} NextLines(before: seq<ChatItem>, after: seq<ChatItem>, lines: seq<Line>, lines': seq<Line>)
    requires AllSay(before, lines)
    requires |after| == |before| ==> SameLines(before, after) && lines' == lines
    requires |after| != |before| ==>
      && |after| == |before| + 1 && after[..|before|] == before
      && |lines'| == |lines| + 1 && lines'[..|lines|] == lines && Says(after[|before|], lines'[|lines|])
    ensures AllSay(after, lines')
  {
    forall i | 0 <= i < |after| ensures Says(after[i], lines'[i]) {
      if i < |before| {
        assert Says(before[i], lines[i]);
        assert lines'[i] == lines[i];
        if |after| == |before| { assert SameLine(before[i], after[i]); } else { assert after[i] == before[i]; }
      }
    }
  }

  // ---- scrolling

  /** Rows scrolled up from the bottom. */
  function Offset(events: seq<Event>): int {
    if events == [] then 0
    else
      var before := Offset(events[..|events| - 1]);
      match events[|events| - 1].action
      case ScrollUp(lines) => before + (if lines.Some? then lines.value else 1)
      case ScrollDown(lines) =>
        var offset := before - (if lines.Some? then lines.value else 1);
        if offset < 0 then 0 else offset
      case ScrollBottom => 0
      case ClearItems => 0
      case _ => before
  }

  /** The `i`-th action brings something new to see. */
  predicate Brings(events: seq<Event>, i: nat)
    requires i < |events|
  {
    match events[i].action
    case CompleteToolCall(id, _, _) => Some(id) in Upserted(events[..i])
    case UpsertToolCall(_, _, _) => true
    case AddUser(_) => true
    case AddSystem(_, _) => true
    case action => Streams(action)
  }

  predicate ToBottom(action: Action) { action.ScrollBottom? || action.ClearItems? }

  /** Something new came while the view was scrolled up, and it was not sent to the bottom since. */
  ghost predicate NewSince(events: seq<Event>) {
    exists i :: 0 <= i < |events| && NewAt(events, i)
  }

  predicate NewAt(events: seq<Event>, i: nat)
    requires i < |events|
  {
    Brings(events, i) && Offset(events[..i]) != 0 && forall j :: i < j < |events| ==> !ToBottom(events[j].action)
  }

  lemma {:induction false} NewSinceNext(events: seq<Event>)
    requires events != []
    ensures var n := |events| - 1;
      NewSince(events) <==>
        ((Brings(events, n) && Offset(events[..n]) != 0) || (NewSince(events[..n]) && !ToBottom(events[n].action)))
  {
    var n := |events| - 1;
    forall i | 0 <= i < n ensures NewAt(events, i) <==> NewAt(events[..n], i) && !ToBottom(events[n].action) {
      assert events[..i] == events[..n][..i];
      if NewAt(events, i) { assert forall j :: i < j < n ==> events[..n][j] == events[j]; }
      if NewAt(events[..n], i) { assert forall j :: i < j < n ==> events[j] == events[..n][j]; }
    }
    if Brings(events, n) && Offset(events[..n]) != 0 { assert NewAt(events, n); }
    if NewSince(events[..n]) && !ToBottom(events[n].action) {
      var i :| 0 <= i < n && NewAt(events[..n], i);
      assert NewAt(events, i);
    }
  }

  lemma {:induction false} ItemsScroll(state: State, e: Event)
    requires ChangesItems(e.action)
    ensures ReduceItems(state, e).scroll ==
      if New(state, e) && state.scroll.offset != 0 then Scroll(state.scroll.offset, true) else state.scroll
  {
  }

  lemma {:induction false} RestScroll(state: State, e: Event)
    requires !ChangesItems(e.action)
    ensures ReduceRest(state, e).state.scroll ==
      match e.action
      case ScrollUp(lines) =>
        Scroll(state.scroll.offset + (if lines.Some? then lines.value else 1), state.scroll.hasNew)
      case ScrollDown(lines) =>
        var offset := state.scroll.offset - (if lines.Some? then lines.value else 1);
        Scroll(if offset < 0 then 0 else offset, state.scroll.hasNew)
      case ScrollBottom => Scroll(0, false)
      case ClearItems => Scroll(0, false)
      case _ => state.scroll
  {
  }

  predicate New(state: State, e: Event) {
    match e.action
    case CompleteToolCall(id, _, _) => FindCall(state.items, id) < |state.items|
    case UpsertToolCall(_, _, _) => true
    case AddUser(_) => true
    case AddSystem(_, _) => true
    case action => Streams(action)
  }

  /** Over any actions, the view is scrolled by what was asked, never below the bottom, and it is marked
   *  as having something new exactly when something came while it was scrolled up, since it was last
   *  sent to the bottom. */
  lemma {:induction false} ScrollIs(events: seq<Event>)
    ensures var scroll := Run(INITIAL, events).0.scroll;
      scroll.offset == Offset(events) && (scroll.hasNew <==> NewSince(events))
  {
    if events != [] {
      var n := |events| - 1;
      var before := Run(INITIAL, events[..n]).0;
      ScrollIs(events[..n]);
      NewSinceNext(events);
      if ChangesItems(events[n].action) { ItemsScroll(before, events[n]); } else { RestScroll(before, events[n]); }
      OneItemPerCall(events[..n]);
      if events[n].action.CompleteToolCall? { FindCallIff(before.items, events[n].action.toolCallId); }
    }
  }

  // ---- permissions

  /** The requests pushed and not answered yet. */
  function Waiting(events: seq<Event>): seq<Request> {
    if events == [] then []
    else
      var before := Waiting(events[..|events| - 1]);
      match events[|events| - 1].action
      case PushPermission(request) => before + [request]
      case ResolvePermission(_, _) => if before == [] then [] else before[1..]
      case _ => before
  }

  /** What was answered: each answer is for the first request that waits, and is for once unless it says
   *  otherwise. */
  function Answers(events: seq<Event>): seq<Resolution> {
    if events == [] then []
    else
      var before, waiting := Answers(events[..|events| - 1]), Waiting(events[..|events| - 1]);
      match events[|events| - 1].action
      case ResolvePermission(allow, remember) =>
        if waiting == [] then before
        else before + [Resolution(waiting[0], allow, if remember == None then Once else remember.value)]
      case _ => before
  }

  lemma {:induction false} AnswerNext(state: State, e: Event)
    ensures var out := Reduce(state, e);
      match e.action
      case PushPermission(request) =>
        out.state.permissionQueue == state.permissionQueue + [request] && out.resolved == None
      case ResolvePermission(allow, remember) =>
        if state.permissionQueue == [] then out.state.permissionQueue == [] && out.resolved == None
        else
          && out.state.permissionQueue == state.permissionQueue[1..]
          && out.resolved == Some(Resolution(state.permissionQueue[0], allow,
            if remember == None then Once else remember.value))
      case _ => out.state.permissionQueue == state.permissionQueue && out.resolved == None
  {
    if ChangesItems(e.action) { ItemsKeepRest(state, e); }
  }

  /** Over any actions, the requests waiting and the answers given are those. */
  lemma {:induction false} AnswersAre(events: seq<Event>)
    ensures var (state, log) := Run(INITIAL, events);
      state.permissionQueue == Waiting(events) && log == Answers(events)
  {
    if events != [] {
      var n := |events| - 1;
      AnswersAre(events[..n]);
      AnswerNext(Run(INITIAL, events[..n]).0, events[n]);
    }
  }

  // ---- the flags

  function LastBusy(events: seq<Event>): bool {
    if events == [] then false
    else
      match events[|events| - 1].action
      case SetBusy(busy) => busy
      case _ => LastBusy(events[..|events| - 1])
  }

  function LastOp(events: seq<Event>): string {
    if events == [] then "idle"
    else
      match events[|events| - 1].action
      case SetLastOp(op) => op
      case _ => LastOp(events[..|events| - 1])
  }

  predicate Hidden(events: seq<Event>) { exists i :: 0 <= i < |events| && events[i].action == HideHint }

  /** The busy flag and the operation are what they were last set to, at first idle; the hint is shown until
   *  it is hidden. */
  lemma {:induction false} FlagsAre(events: seq<Event>)
    ensures var state := Run(INITIAL, events).0;
      && state.busy == LastBusy(events) && state.lastOp == LastOp(events)
      && (state.showHint <==> !Hidden(events))
  {
    if events != [] {
      var n := |events| - 1;
      FlagsAre(events[..n]);
      HiddenNext(events);
      FlagsNext(Run(INITIAL, events[..n]).0, events[n]);
    }
  }

  lemma {:induction false} FlagsNext(state: State, e: Event)
    ensures var after := Reduce(state, e).state;
      && after.busy == (if e.action.SetBusy? then e.action.busy else state.busy)
      && after.lastOp == (if e.action.SetLastOp? then e.action.op else state.lastOp)
      && after.showHint == (state.showHint && !e.action.HideHint?)
  {
    if ChangesItems(e.action) { ItemsKeepRest(state, e); } else { RestFlags(state, e); }
  }

  lemma {:induction false} RestFlags(state: State, e: Event)
    requires !ChangesItems(e.action)
    ensures var after := ReduceRest(state, e).state;
      && after.busy == (if e.action.SetBusy? then e.action.busy else state.busy)
      && after.lastOp == (if e.action.SetLastOp? then e.action.op else state.lastOp)
      && after.showHint == (state.showHint && !e.action.HideHint?)
  {
  }

  lemma {:induction false} HiddenNext(events: seq<Event>)
    requires events != []
    ensures var n := |events| - 1; Hidden(events) <==> Hidden(events[..n]) || events[n].action == HideHint
  {
    var n := |events| - 1;
    if Hidden(events[..n]) {
      var i :| 0 <= i < n && events[..n][i].action == HideHint;
      assert events[i].action == HideHint;
    }
    if Hidden(events) {
      var i :| 0 <= i < |events| && events[i].action == HideHint;
      if i < n { assert events[..n][i].action == HideHint; }
    }
  }
}
