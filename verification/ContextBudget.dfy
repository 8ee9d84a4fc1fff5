/** Token estimates and the context tiers. Ratios are exact reals. */
module ContextBudget {
  import opened Wrappers

  /** The part of a message the estimate looks at. */
  datatype Part = StringPart(text: string) | ObjectPart(textField: Option<string>) | OtherPart

  datatype Content = NoContent | Text(text: string) | Parts(parts: seq<Part>)

  datatype Message = NotAnObject | Message(content: Content)

  datatype Tier = Fine | NearLimit | Compact

  /** Absent texts are empty; tools that cannot be written as JSON are an empty text. */
  datatype Inputs = Inputs(contextWindow: Option<int>, maxOutputTokens: int, systemPrompt: string, toolsJson: string,
                           messages: seq<Message>, reportedInput: Option<nat>)

  datatype Config = Config(warnFraction: real, maxContextFraction: real)

  const DEFAULT_CONFIG := Config(0.5, 0.6)

  datatype Snapshot = Snapshot(contextWindow: Option<int>, maxOutputTokens: int, inputBudget: nat, messageTokens: nat,
          systemPromptTokens: nat, toolTokens: nat, reportedInput: Option<nat>, total: nat, ratio: real, tier: Tier)

  /** `Math.ceil(chars / 4)`. */
  function Tokens(chars: nat): nat { (chars + 3) / 4 }

  function PartChars(p: Part): nat {
    match p
    case StringPart(text) => |text|
    case ObjectPart(text) => if text.Some? then |text.value| else 0
    case OtherPart => 0
  }

  function PartsChars(parts: seq<Part>): nat {
    if parts == [] then 0 else PartsChars(parts[..|parts| - 1]) + PartChars(parts[|parts| - 1])
  }

  /** The characters a message counts for, with fifty of overhead for each object. */
  function MessageChars(m: Message): nat {
    if m.NotAnObject? then 0
    else
      50 + match m.content
        case NoContent => 0
        case Text(text) => |text|
        case Parts(parts) => PartsChars(parts)
  }

  function MessagesChars(messages: seq<Message>): nat {
    if messages == [] then 0 else MessagesChars(messages[..|messages| - 1]) + MessageChars(messages[|messages| - 1])
  }

  method EstimateMessagesTokens(messages: seq<Message>) returns (tokens: nat)
    ensures tokens == Tokens(MessagesChars(messages))
  {
    var chars: nat := 0;
    for i := 0 to |messages|
      invariant chars == MessagesChars(messages[..i])
    {
      var m := messages[i];
      assert messages[..i + 1][..i] == messages[..i];
      if m.NotAnObject? { continue; }
      if m.content.Text? {
        chars := chars + |m.content.text|;
      } else if m.content.Parts? {
        var parts := m.content.parts;
        ghost var before := chars;
        for j := 0 to |parts|
          invariant chars == before + PartsChars(parts[..j])
        {
          assert parts[..j + 1][..j] == parts[..j];
          match parts[j] {
            case StringPart(text) => chars := chars + |text|;
            case ObjectPart(text) => if text.Some? { chars := chars + |text.value|; }
            case OtherPart =>
          }
        }
        assert parts[..|parts|] == parts;
      }
      chars := chars + 50;
    }
    assert messages[..|messages|] == messages;
    return Tokens(chars);
  }

  function WindowOf(contextWindow: Option<int>): int { if contextWindow.Some? then contextWindow.value else 0 }

  function InputBudget(contextWindow: Option<int>, maxOutputTokens: int): nat {
    var window := WindowOf(contextWindow);
    if window <= 0 then 0
    else
      var budget := if maxOutputTokens > window then window / 2 else window - maxOutputTokens;
      if budget > 1 then budget else 1
  }

  function Ratio(total: nat, inputBudget: nat): real {
    if inputBudget > 0 then total as real / inputBudget as real else 0.0
  }

  function TierAt(contextWindow: Option<int>, ratio: real, cfg: Config): Tier {
    if WindowOf(contextWindow) <= 0 then Fine
    else if ratio >= cfg.maxContextFraction then Compact
    else if ratio >= cfg.warnFraction then NearLimit
    else Fine
  }

  function ClassifyTier(snapshot: Snapshot, cfg: Config): Tier { TierAt(snapshot.contextWindow, snapshot.ratio, cfg) }

  function Total(inputs: Inputs): nat {
    if inputs.reportedInput.Some? then inputs.reportedInput.value
    else Tokens(|inputs.systemPrompt|) + Tokens(|inputs.toolsJson|) + Tokens(MessagesChars(inputs.messages))
  }

  function SnapshotOf(inputs: Inputs): Snapshot {
    var inputBudget := InputBudget(inputs.contextWindow, inputs.maxOutputTokens);
    var ratio := Ratio(Total(inputs), inputBudget);
    Snapshot(inputs.contextWindow, inputs.maxOutputTokens, inputBudget, Tokens(MessagesChars(inputs.messages)),
             Tokens(|inputs.systemPrompt|), Tokens(|inputs.toolsJson|), inputs.reportedInput, Total(inputs), ratio,
             TierAt(inputs.contextWindow, ratio, DEFAULT_CONFIG))
  }

  method BuildSnapshot(inputs: Inputs) returns (snapshot: Snapshot)
    ensures snapshot == SnapshotOf(inputs)
  {
    var systemPromptTokens := Tokens(|inputs.systemPrompt|);
    var toolTokens := Tokens(|inputs.toolsJson|);
    var messageTokens := EstimateMessagesTokens(inputs.messages);
    var inputBudget: nat := 0;
    var window := WindowOf(inputs.contextWindow);
    if window > 0 {
      if inputs.maxOutputTokens > window {
        inputBudget := if window / 2 > 1 then window / 2 else 1;
      } else {
        inputBudget := if window - inputs.maxOutputTokens > 1 then window - inputs.maxOutputTokens else 1;
      }
    }
    var total := if inputs.reportedInput.Some? then inputs.reportedInput.value
      else systemPromptTokens + toolTokens + messageTokens;
    var ratio := if inputBudget > 0 then total as real / inputBudget as real else 0.0;
    var tier := TierAt(inputs.contextWindow, ratio, DEFAULT_CONFIG);
    snapshot := Snapshot(inputs.contextWindow, inputs.maxOutputTokens, inputBudget, messageTokens, systemPromptTokens,
      toolTokens, inputs.reportedInput, total, ratio, tier);
  }

  // ---- what is counted, in characters

  /** The texts of a message, in order. */
  function TextsOf(m: Message): seq<string> {
    match m
    case NotAnObject => []
    case Message(NoContent) => []
    case Message(Text(text)) => [text]
    case Message(Parts(parts)) => PartTexts(parts)
  }

  function PartTexts(parts: seq<Part>): seq<string> {
    if parts == [] then []
    else
      match parts[0]
      case StringPart(text) => [text] + PartTexts(parts[1..])
      case ObjectPart(Some(text)) => [text] + PartTexts(parts[1..])
      case _ => PartTexts(parts[1..])
  }

  function AllTexts(messages: seq<Message>): seq<string> {
    if messages == [] then [] else TextsOf(messages[0]) + AllTexts(messages[1..])
  }

  function Joined(texts: seq<string>): string {
    if texts == [] then "" else texts[0] + Joined(texts[1..])
  }

  /** How many messages are objects. */
  function Objects(messages: seq<Message>): nat {
    if messages == [] then 0 else (if messages[0].Message? then 1 else 0) + Objects(messages[1..])
  }

  /** Everything a request sends, with fifty characters for each object message. */
  function CharsSent(inputs: Inputs): nat {
    |inputs.systemPrompt| + |inputs.toolsJson| + |Joined(AllTexts(inputs.messages))| + 50 * Objects(inputs.messages)
  }

  lemma {:induction false} JoinedAppend(a: seq<string>, b: seq<string>)
    ensures |Joined(a + b)| == |Joined(a)| + |Joined(b)|
  {
    if a == [] {
      assert a + b == b;
    } else {
      assert (a + b)[1..] == a[1..] + b;
      JoinedAppend(a[1..], b);
    }
  }

  lemma {:induction false} PartsCharsFirst(parts: seq<Part>)
    requires parts != []
    ensures PartsChars(parts) == PartChars(parts[0]) + PartsChars(parts[1..])
  {
    var n := |parts| - 1;
    if n > 0 {
      PartsCharsFirst(parts[..n]);
      assert parts[..n][1..] == parts[1..][..n - 1];
    }
  }

  lemma {:induction false} PartsCharsJoined(parts: seq<Part>)
    ensures PartsChars(parts) == |Joined(PartTexts(parts))|
  {
    if parts != [] {
      PartsCharsFirst(parts);
      PartsCharsJoined(parts[1..]);
      match parts[0] {
        case StringPart(text) => assert ([text] + PartTexts(parts[1..]))[1..] == PartTexts(parts[1..]);
        case ObjectPart(Some(text)) => assert ([text] + PartTexts(parts[1..]))[1..] == PartTexts(parts[1..]);
        case _ =>
      }
    }
  }

  lemma {:induction false} MessageCharsJoined(m: Message)
    ensures MessageChars(m) == |Joined(TextsOf(m))| + if m.Message? then 50 else 0
  {
    match m
    case NotAnObject =>
    case Message(NoContent) =>
    case Message(Text(text)) => assert [text][1..] == [];
    case Message(Parts(parts)) => PartsCharsJoined(parts);
  }

  lemma {:induction false} MessagesCharsFirst(messages: seq<Message>)
    requires messages != []
    ensures MessagesChars(messages) == MessageChars(messages[0]) + MessagesChars(messages[1..])
  {
    var n := |messages| - 1;
    if n > 0 {
      MessagesCharsFirst(messages[..n]);
      assert messages[..n][1..] == messages[1..][..n - 1];
    }
  }

  lemma {:induction false} MessagesCharsJoined(messages: seq<Message>)
    ensures MessagesChars(messages) == |Joined(AllTexts(messages))| + 50 * Objects(messages)
  {
    if messages != [] {
      MessagesCharsFirst(messages);
      MessageCharsJoined(messages[0]);
      MessagesCharsJoined(messages[1..]);
      JoinedAppend(TextsOf(messages[0]), AllTexts(messages[1..]));
    }
  }

  /** A reported count is taken as it is. Otherwise the total is a quarter of all characters sent, and
   *  of fifty more for each object message, each of the three sums rounded up. */
  lemma {:induction false} TotalCounts(inputs: Inputs)
    ensures inputs.reportedInput.Some? ==> Total(inputs) == inputs.reportedInput.value
    ensures inputs.reportedInput.None? ==> CharsSent(inputs) <= 4 * Total(inputs) <= CharsSent(inputs) + 9
    ensures inputs.reportedInput.None? ==> Total(inputs) == TokensSent(inputs)
  {
    MessagesCharsJoined(inputs.messages);
  }

  function TokensSent(inputs: Inputs): nat {
    (|inputs.systemPrompt| + 3) / 4 + (|inputs.toolsJson| + 3) / 4
    + (|Joined(AllTexts(inputs.messages))| + 50 * Objects(inputs.messages) + 3) / 4
  }

  /** What the input may take of a window: what the reserved output leaves of it, or half of it when the
   *  reserved output does not fit, and at least one token. */
  predicate IsInputBudget(window: int, maxOutputTokens: int, budget: int) {
    var left := if maxOutputTokens > window then window / 2 else window - maxOutputTokens;
    budget >= 1 && budget >= left && (budget == 1 || budget == left)
  }

  /** The parts of a snapshot: each count is a quarter of its characters, rounded up. */
  lemma {:induction false} SnapshotCounts(inputs: Inputs)
    ensures var s := SnapshotOf(inputs);
      && |inputs.systemPrompt| <= 4 * s.systemPromptTokens <= |inputs.systemPrompt| + 3
      && |inputs.toolsJson| <= 4 * s.toolTokens <= |inputs.toolsJson| + 3
      && (var chars := |Joined(AllTexts(inputs.messages))| + 50 * Objects(inputs.messages);
          chars <= 4 * s.messageTokens <= chars + 3)
      && s.total == TokensCounted(inputs) && s.reportedInput == inputs.reportedInput
      && s.ratio == Ratio(s.total, s.inputBudget)
      && (if inputs.contextWindow.Some? && inputs.contextWindow.value > 0
          then IsInputBudget(inputs.contextWindow.value, inputs.maxOutputTokens, s.inputBudget)
          else s.inputBudget == 0)
  {
    TotalCounts(inputs);
    MessagesCharsJoined(inputs.messages);
  }

  /** A ratio is that of the total to the input budget, zero without one. */
  lemma {:induction false} RatioIs(total: nat, budget: nat)
    ensures budget > 0 ==> Ratio(total, budget) * budget as real == total as real
    ensures budget == 0 ==> Ratio(total, budget) == 0.0
  {
  }

  /** The tokens a request counts for: those reported, or those of what is sent. */
  function TokensCounted(inputs: Inputs): nat {
    if inputs.reportedInput.Some? then inputs.reportedInput.value else TokensSent(inputs)
  }

  predicate Fills(tokens: nat, fraction: real, budget: int) { tokens as real >= fraction * budget as real }

  /** The tier, in tokens: compaction from the configured fraction of the input budget on, a warning from
   *  the warning fraction on, and neither without a window. */
  lemma {:induction false} TierIff(inputs: Inputs, cfg: Config, budget: int)
    requires inputs.contextWindow.Some? && inputs.contextWindow.value > 0 ==>
      IsInputBudget(inputs.contextWindow.value, inputs.maxOutputTokens, budget)
    ensures var tier, tokens := ClassifyTier(SnapshotOf(inputs), cfg), TokensCounted(inputs);
      var known := inputs.contextWindow.Some? && inputs.contextWindow.value > 0;
      && (tier == Compact <==> known && Fills(tokens, cfg.maxContextFraction, budget))
      && (tier == NearLimit <==>
        known && Fills(tokens, cfg.warnFraction, budget) && !Fills(tokens, cfg.maxContextFraction, budget))
  {
    TotalCounts(inputs);
    if WindowOf(inputs.contextWindow) > 0 {
      TierOf(inputs.contextWindow, Total(inputs), budget, cfg);
    }
  }

  /** The snapshot's own tier is that of a half and of six tenths. */
  lemma {:induction false} SnapshotTier(inputs: Inputs)
    ensures SnapshotOf(inputs).tier == ClassifyTier(SnapshotOf(inputs), Config(0.5, 0.6))
  {
  }

  lemma {:induction false} TierOf(contextWindow: Option<int>, total: nat, budget: int, cfg: Config)
    requires WindowOf(contextWindow) > 0 && budget > 0
    ensures var tier := TierAt(contextWindow, Ratio(total, budget), cfg);
      && (tier == Compact <==> Fills(total, cfg.maxContextFraction, budget))
      && (tier == NearLimit <==>
        Fills(total, cfg.warnFraction, budget) && !Fills(total, cfg.maxContextFraction, budget))
  {
    RatioFills(total, budget, cfg.maxContextFraction);
    RatioFills(total, budget, cfg.warnFraction);
  }

  lemma {:induction false} RatioFills(total: nat, budget: nat, fraction: real)
    requires budget > 0
    ensures Ratio(total, budget) >= fraction <==> Fills(total, fraction, budget)
  {
    var x, b := Ratio(total, budget), budget as real;
    assert x * b == total as real;
    Scaled(fraction, x, b);
  }

  lemma {:induction false} Scaled(x: real, y: real, c: real)
    requires c > 0.0
    ensures x <= y <==> x * c <= y * c
  {
    if x <= y { assert (y - x) * c >= 0.0; } else { assert (x - y) * c > 0.0; }
  }

  lemma {:induction false} RatioBelow(total: nat, budget: nat, fraction: real)
    requires budget > 0 && fraction <= 1.0 && Ratio(total, budget) < fraction
    ensures total < budget
  {
    if total >= budget {
      DivideBy(total as real, budget as real);
    }
  }

  lemma {:induction false} DivideBy(x: real, y: real)
    requires y > 0.0 && x >= y
    ensures x / y >= 1.0
  {
    assert x / y >= y / y by { DivideMonotone(y, x, y); }
  }

  lemma {:induction false} DivideMonotone(a: real, b: real, y: real)
    requires y > 0.0 && a <= b
    ensures a / y <= b / y
  {
  }

  /** A request left below the compaction tier fits the window together with the reserved output
   *  exactly when the reserved output alone fits: what was reported, or else every character that is
   *  sent, counted at four to a token. */
  lemma {:induction false} BelowCompactFitsIff(inputs: Inputs, cfg: Config)
    requires WindowOf(inputs.contextWindow) > 0 && cfg.maxContextFraction <= 1.0
    requires ClassifyTier(SnapshotOf(inputs), cfg) != Compact
    ensures var chars := if inputs.reportedInput.Some? then 4 * inputs.reportedInput.value else CharsSent(inputs);
      chars + 4 * inputs.maxOutputTokens <= 4 * inputs.contextWindow.value <==>
        inputs.maxOutputTokens <= inputs.contextWindow.value
  {
    TotalCounts(inputs);
    RatioBelow(Total(inputs), InputBudget(inputs.contextWindow, inputs.maxOutputTokens), cfg.maxContextFraction);
  }

  function Rank(t: Tier): nat {
    match t
    case Fine => 0
    case NearLimit => 1
    case Compact => 2
  }

  lemma {:induction false} MoreChars(messages: seq<Message>, more: seq<Message>)
    ensures MessagesChars(messages + more) >= MessagesChars(messages)
    decreases |more|
  {
    if more == [] {
      assert messages + more == messages;
    } else {
      assert (messages + more)[..|messages| + |more| - 1] == messages + more[..|more| - 1];
      MoreChars(messages, more[..|more| - 1]);
    }
  }

  /** Without a reported count appending messages never lowers the tier. */
  lemma {:induction false} AppendingKeepsTier(inputs: Inputs, more: seq<Message>, cfg: Config)
    requires inputs.reportedInput.None?
    ensures Rank(ClassifyTier(SnapshotOf(inputs), cfg)) <=
      Rank(ClassifyTier(SnapshotOf(inputs.(messages := inputs.messages + more)), cfg))
  {
    MoreChars(inputs.messages, more);
    var after := inputs.(messages := inputs.messages + more);
    var budget := InputBudget(inputs.contextWindow, inputs.maxOutputTokens);
    if budget > 0 { DivideMonotone(Total(inputs) as real, Total(after) as real, budget as real); }
  }
}
