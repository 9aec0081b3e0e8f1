/** The two vendor wire shapes of one transcript, and what each reads back as. */
module WireShapes {
  import opened Text
  import opened Json
  import opened JsonRoundTrip
  import opened Transcript

  function RoleName(r: Role): string {
    match r
    case System => "system"
    case User => "user"
    case Assistant => "assistant"
    case Tool => "tool"
  }

  function TextParts(blocks: seq<ContentBlock>): seq<string> {
    if blocks == [] then []
    else (if blocks[0].TextBlock? then [blocks[0].text] else []) + TextParts(blocks[1..])
  }

  /** `MessageContent::text`: the prose, thinking left out. */
  function ContentText(c: MessageContent): (r: string)
    ensures c.Prose? ==> r == c.s
  {
    match c
    case Prose(s) => s
    case Blocks(blocks) => Join(TextParts(blocks), "\n")
  }

  ghost predicate NoText(blocks: seq<ContentBlock>) {
    forall i | 0 <= i < |blocks| :: !blocks[i].TextBlock?
  }

  lemma {:induction false} TextPartsConcat(a: seq<ContentBlock>, b: seq<ContentBlock>)
    ensures TextParts(a + b) == TextParts(a) + TextParts(b)
  {
    if a == [] {
      assert a + b == b;
    } else {
      TextPartsConcat(a[1..], b);
      assert (a + b)[0] == a[0] && (a + b)[1..] == a[1..] + b;
      Assoc(if a[0].TextBlock? then [a[0].text] else [], TextParts(a[1..]), TextParts(b));
    }
  }

  lemma {:induction false} NoTextIs(a: seq<ContentBlock>)
    ensures TextParts(a) == [] <==> NoText(a)
  {
    if a == [] {
    } else {
      NoTextIs(a[1..]);
      assert forall i | 0 < i < |a| :: a[i] == a[1..][i - 1];
    }
  }

  /** Block by block: the texts in order, a line break between two of them, nothing for anything else. */
  lemma ContentTextOfBlocks(a: seq<ContentBlock>, b: seq<ContentBlock>, one: ContentBlock)
    ensures ContentText(Blocks([])) == ""
    ensures ContentText(Blocks([one])) == if one.TextBlock? then one.text else ""
    ensures ContentText(Blocks(a + b)) ==
            if NoText(a) then ContentText(Blocks(b))
            else if NoText(b) then ContentText(Blocks(a))
            else ContentText(Blocks(a)) + "\n" + ContentText(Blocks(b))
  {
    TextPartsConcat(a, b);
    NoTextIs(a);
    NoTextIs(b);
    assert [one][1..] == [];
    assert TextParts(a) + [] == TextParts(a) && [] + TextParts(b) == TextParts(b);
    hide TextParts, Join, NoText;
    if TextParts(a) != [] && TextParts(b) != [] {
      JoinConcat(TextParts(a), TextParts(b), "\n");
    }
  }

  // ---------------------------------------------------------------------------
  // Anthropic
  // ---------------------------------------------------------------------------

  function BlockJson(b: ContentBlock): Json {
    match b
    case TextBlock(text) => Object([Member("type", String("text")), Member("text", String(text))])
    case Thinking(thinking, signature) =>
      Object([Member("type", String("thinking")), Member("thinking", String(thinking))]
             + (if signature.Some? then [Member("signature", String(signature.value))] else []))
  }

  function AnthropicBlocks(c: MessageContent): seq<Json> {
    match c
    case Prose(s) =>
      if Trim(s) == "" then [] else [Object([Member("type", String("text")), Member("text", String(s))])]
    case Blocks(blocks) => seq(|blocks|, i requires 0 <= i < |blocks| => BlockJson(blocks[i]))
  }

  function AnthropicContent(c: MessageContent): Json {
    match c
    case Prose(s) => String(s)
    case Blocks(_) => Array(AnthropicBlocks(c))
  }

  /** A call without arguments is a call with an empty arguments object. */
  function Arguments(args: Json): Json {
    if args.Null? then Object([]) else args
  }

  function ToolUse(c: NamedCall): Json {
    Object([Member("type", String("tool_use")), Member("id", String(c.id)),
            Member("name", String(c.call.name)), Member("input", Arguments(c.call.arguments))])
  }

  function ToolResult(r: NamedResult): Json {
    Object([Member("type", String("tool_result")), Member("tool_use_id", String(r.id)),
            Member("content", String(ContentText(r.m.content)))])
  }

  function ToolUses(calls: seq<NamedCall>): seq<Json> {
    seq(|calls|, i requires 0 <= i < |calls| => ToolUse(calls[i]))
  }

  function ToolResults(rs: seq<NamedResult>): seq<Json> {
    seq(|rs|, i requires 0 <= i < |rs| => ToolResult(rs[i]))
  }

  function Message(role: string, content: Json): Json {
    Object([Member("role", String(role)), Member("content", content)])
  }

  /** The messages one turn becomes; a plain system turn is hoisted instead. */
  function AnthropicTurn(t: Turn): seq<Json> {
    match t
    case Plain(m) => if m.role == System then [] else [Message(RoleName(m.role), AnthropicContent(m.content))]
    case Calls(m, calls) => [Message("assistant", Array(AnthropicBlocks(m.content) + ToolUses(calls)))]
    case Results(rs) => [Message("user", Array(ToolResults(rs)))]
  }

  function SystemTurn(t: Turn): seq<string> {
    if t.Plain? && t.m.role == System then [ContentText(t.m.content)] else []
  }

  function AnthropicSystem(turns: seq<Turn>): Option<string> {
    var parts := FlatMap(SystemTurn, turns);
    if parts == [] then None else Some(Join(parts, "\n\n"))
  }

  // ---------------------------------------------------------------------------
  // OpenAI
  // ---------------------------------------------------------------------------

  /** `function.arguments` is JSON in a string. */
  function ArgumentsString(args: Json): string {
    if args.Null? then "{}" else Print(args)
  }

  function FunctionCall(c: NamedCall): Json {
    Object([Member("id", String(c.id)), Member("type", String("function")),
            Member("function", Object([Member("name", String(c.call.name)),
                                       Member("arguments", String(ArgumentsString(c.call.arguments)))]))])
  }

  function FunctionCalls(calls: seq<NamedCall>): seq<Json> {
    seq(|calls|, i requires 0 <= i < |calls| => FunctionCall(calls[i]))
  }

  function CallMessage(m: ChatMessage, calls: seq<NamedCall>): Json {
    var text := ContentText(m.content);
    Object([Member("role", String("assistant")),
            Member("content", if text == "" then Null else String(text)),
            Member("tool_calls", Array(FunctionCalls(calls)))])
  }

  function ToolMessage(r: NamedResult): Json {
    Object([Member("role", String("tool")), Member("tool_call_id", String(r.id)),
            Member("content", String(ContentText(r.m.content)))])
  }

  function ToolMessages(rs: seq<NamedResult>): seq<Json> {
    seq(|rs|, i requires 0 <= i < |rs| => ToolMessage(rs[i]))
  }

  function OpenaiTurn(t: Turn): seq<Json> {
    match t
    case Plain(m) => [Message(RoleName(m.role), String(ContentText(m.content)))]
    case Calls(m, calls) => [CallMessage(m, calls)]
    case Results(rs) => ToolMessages(rs)
  }

  // ---------------------------------------------------------------------------
  // Reading back: `tool_calls_from_blocks`, `tool_calls_from_message`, and results
  // ---------------------------------------------------------------------------

  function CallFromBlock(b: Json): seq<ToolCall> {
    if GetString(b, "type") != Some("tool_use") || GetString(b, "name").None? then []
    else
      var input := Get(b, "input");
      [ToolCall(GetString(b, "id"), GetString(b, "name").value, if input.Some? then input.value else Null)]
  }

  function ToolCallsFromBlocks(blocks: seq<Json>): seq<ToolCall> {
    FlatMap(CallFromBlock, blocks)
  }

  function CallFromFunction(c: Json): seq<ToolCall> {
    var f := Get(c, "function");
    if f.None? || GetString(f.value, "name").None? then []
    else
      var raw := Get(f.value, "arguments");
      var args :=
        if raw.None? then Null
        else if raw.value.String? then
          var parsed := Parse(raw.value.s);
          if parsed.Some? then parsed.value else String(raw.value.s)
        else raw.value;
      [ToolCall(GetString(c, "id"), GetString(f.value, "name").value, args)]
  }

  function ToolCallsFromMessage(m: Json): seq<ToolCall> {
    var calls := Get(m, "tool_calls");
    if calls.Some? && calls.value.Array? then FlatMap(CallFromFunction, calls.value.items) else []
  }

  /** What a vendor is told happened, in order. */
  datatype Event = MadeCall(call: ToolCall) | GotResult(id: Option<string>, text: Option<string>)

  function MadeCalls(calls: seq<ToolCall>): (r: seq<Event>)
    ensures |r| == |calls| && forall i | 0 <= i < |r| :: r[i] == MadeCall(calls[i])
  {
    seq(|calls|, i requires 0 <= i < |calls| => MadeCall(calls[i]))
  }

  function ResultFromBlock(b: Json): seq<Event> {
    if GetString(b, "type") == Some("tool_result") then
      [GotResult(GetString(b, "tool_use_id"), GetString(b, "content"))]
    else []
  }

  function AnthropicEvents(m: Json): seq<Event> {
    var content := Get(m, "content");
    if content.Some? && content.value.Array? then
      MadeCalls(ToolCallsFromBlocks(content.value.items)) + FlatMap(ResultFromBlock, content.value.items)
    else []
  }

  function OpenaiEvents(m: Json): seq<Event> {
    MadeCalls(ToolCallsFromMessage(m)) +
    (if GetString(m, "role") == Some("tool") then [GotResult(GetString(m, "tool_call_id"), GetString(m, "content"))]
     else [])
  }

  // ---------------------------------------------------------------------------
  // Both shapes say what the plan says
  // ---------------------------------------------------------------------------

  function Sent(c: NamedCall): ToolCall {
    ToolCall(Some(c.id), c.call.name, Arguments(c.call.arguments))
  }

  function SentCalls(calls: seq<NamedCall>): seq<ToolCall> {
    seq(|calls|, i requires 0 <= i < |calls| => Sent(calls[i]))
  }

  function SentResults(rs: seq<NamedResult>): seq<Event> {
    seq(|rs|, i requires 0 <= i < |rs| => GotResult(Some(rs[i].id), Some(ContentText(rs[i].m.content))))
  }

  function TurnEvents(t: Turn): seq<Event> {
    match t
    case Plain(_) => []
    case Calls(_, calls) => MadeCalls(SentCalls(calls))
    case Results(rs) => SentResults(rs)
  }

  lemma ContentBlockReadsAsNothing(b: ContentBlock)
    ensures CallFromBlock(BlockJson(b)) == [] && ResultFromBlock(BlockJson(b)) == []
  {
    var ms := BlockJson(b).members;
    assert ms[0].key == "type";
    assert Get(BlockJson(b), "type") == Some(ms[0].value);
    assert "thinking"[1] != "tool_use"[1];
  }

  lemma ContentReadsAsNothing(c: MessageContent)
    ensures ToolCallsFromBlocks(AnthropicBlocks(c)) == [] && FlatMap(ResultFromBlock, AnthropicBlocks(c)) == []
  {
    hide CallFromBlock, ResultFromBlock;
    var blocks := AnthropicBlocks(c);
    forall i | 0 <= i < |blocks| ensures CallFromBlock(blocks[i]) == [] && ResultFromBlock(blocks[i]) == [] {
      match c
      case Prose(s) => ContentBlockReadsAsNothing(TextBlock(s));
      case Blocks(bs) => ContentBlockReadsAsNothing(bs[i]);
    }
    FlatMapNone(CallFromBlock, blocks);
    FlatMapNone(ResultFromBlock, blocks);
  }

  lemma ToolUseReadsBack(c: NamedCall)
    ensures CallFromBlock(ToolUse(c)) == [Sent(c)] && ResultFromBlock(ToolUse(c)) == []
  {
    hide Lookup, Arguments;
    ToolUseMembers(c);
  }

  lemma ToolUseMembers(c: NamedCall)
    ensures var ms := ToolUse(c).members;
            && Lookup(ms, "type") == Some(String("tool_use")) && "tool_use" != "tool_result"
            && Lookup(ms, "id") == Some(String(c.id)) && Lookup(ms, "name") == Some(String(c.call.name))
            && Lookup(ms, "input") == Some(Arguments(c.call.arguments))
  {
    hide Arguments;
    var ms := ToolUse(c).members;
    assert DistinctKeys(ms);
    hide Lookup;
    LookupAt(ms, 0);
    LookupAt(ms, 1);
    LookupAt(ms, 2);
    LookupAt(ms, 3);
  }

  lemma ToolResultReadsBack(r: NamedResult)
    ensures CallFromBlock(ToolResult(r)) == []
    ensures ResultFromBlock(ToolResult(r)) == [GotResult(Some(r.id), Some(ContentText(r.m.content)))]
  {
    var ms := ToolResult(r).members;
    assert Lookup(ms, "type") == Some(ms[0].value);
    assert DistinctKeys(ms);
    LookupAt(ms, 1);
    LookupAt(ms, 2);
  }

  /**
   * The inbound parser undoes the outbound emitter: any text or thinking beside the calls is
   * skipped, and each call comes back in order with its id and its arguments.
   */
  lemma EmittedBlocksReadBack(c: MessageContent, calls: seq<NamedCall>)
    ensures ToolCallsFromBlocks(AnthropicBlocks(c) + ToolUses(calls)) == SentCalls(calls)
    ensures FlatMap(ResultFromBlock, AnthropicBlocks(c) + ToolUses(calls)) == []
  {
    hide CallFromBlock, ResultFromBlock, AnthropicBlocks, ToolUse, Sent;
    ContentReadsAsNothing(c);
    var uses := ToolUses(calls);
    forall i | 0 <= i < |uses| ensures CallFromBlock(uses[i]) == [SentCalls(calls)[i]] && ResultFromBlock(uses[i]) == [] {
      ToolUseReadsBack(calls[i]);
    }
    FlatMapOne(CallFromBlock, uses, SentCalls(calls));
    FlatMapNone(ResultFromBlock, uses);
    FlatMapConcat(CallFromBlock, AnthropicBlocks(c), uses);
    FlatMapConcat(ResultFromBlock, AnthropicBlocks(c), uses);
  }

  /** `join_blocks` reads the same-named payload of each block of one kind. */
  function PayloadOf(kind: string, b: Json): seq<string> {
    if GetString(b, "type") == Some(kind) && GetString(b, kind).Some? then [GetString(b, kind).value] else []
  }

  function TextOf(b: Json): seq<string> {
    PayloadOf("text", b)
  }

  function ThinkingOf(b: Json): seq<string> {
    PayloadOf("thinking", b)
  }

  function ThinkingParts(blocks: seq<ContentBlock>): seq<string> {
    if blocks == [] then []
    else (if blocks[0].Thinking? then [blocks[0].thinking] else []) + ThinkingParts(blocks[1..])
  }

  lemma BlockPayload(b: ContentBlock)
    ensures TextOf(BlockJson(b)) == (if b.TextBlock? then [b.text] else [])
    ensures ThinkingOf(BlockJson(b)) == (if b.Thinking? then [b.thinking] else [])
  {
    var ms := BlockJson(b).members;
    assert ms[0].key == "type" && Get(BlockJson(b), "type") == Some(ms[0].value);
    assert DistinctKeys(ms);
    LookupAt(ms, 1);
  }

  lemma ToolUseHasNoProse(c: NamedCall)
    ensures TextOf(ToolUse(c)) == [] && ThinkingOf(ToolUse(c)) == []
  {
    var ms := ToolUse(c).members;
    assert Get(ToolUse(c), "type") == Some(ms[0].value);
    assert "thinking"[1] != "tool_use"[1];
  }

  lemma {:induction false} BlocksPayload(blocks: seq<ContentBlock>, js: seq<Json>)
    requires |js| == |blocks| && forall i | 0 <= i < |js| :: js[i] == BlockJson(blocks[i])
    ensures FlatMap(TextOf, js) == TextParts(blocks) && FlatMap(ThinkingOf, js) == ThinkingParts(blocks)
    decreases |blocks|
  {
    hide TextOf, ThinkingOf, BlockJson;
    if blocks == [] {
    } else {
      BlockPayload(blocks[0]);
      BlocksPayload(blocks[1..], js[1..]);
    }
  }

  /** Beside the calls, the text and the thinking survive in order; only blank prose is dropped. */
  lemma EmittedBlocksKeepProse(c: MessageContent, calls: seq<NamedCall>)
    ensures FlatMap(TextOf, AnthropicBlocks(c) + ToolUses(calls)) ==
            (match c case Prose(s) => if Trim(s) == "" then [] else [s] case Blocks(bs) => TextParts(bs))
    ensures FlatMap(ThinkingOf, AnthropicBlocks(c) + ToolUses(calls)) ==
            (match c case Prose(_) => [] case Blocks(bs) => ThinkingParts(bs))
  {
    hide TextOf, ThinkingOf, BlockJson, ToolUse, Trim;
    var uses := ToolUses(calls);
    forall i | 0 <= i < |uses| ensures TextOf(uses[i]) == [] && ThinkingOf(uses[i]) == [] {
      ToolUseHasNoProse(calls[i]);
    }
    FlatMapNone(TextOf, uses);
    FlatMapNone(ThinkingOf, uses);
    FlatMapConcat(TextOf, AnthropicBlocks(c), uses);
    FlatMapConcat(ThinkingOf, AnthropicBlocks(c), uses);
    match c
    case Prose(s) => ProsePayload(s);
    case Blocks(bs) => BlocksPayload(bs, AnthropicBlocks(c));
  }

  lemma ProsePayload(s: string)
    ensures FlatMap(TextOf, AnthropicBlocks(Prose(s))) == if Trim(s) == "" then [] else [s]
    ensures FlatMap(ThinkingOf, AnthropicBlocks(Prose(s))) == []
  {
    hide TextOf, ThinkingOf, Trim;
    if Trim(s) != "" {
      var js := AnthropicBlocks(Prose(s));
      var bs := [TextBlock(s)];
      assert js[0] == BlockJson(bs[0]);
      BlocksPayload(bs, js);
      assert bs[1..] == [];
      assert TextParts(bs) == [s] && ThinkingParts(bs) == [];
    }
  }

  lemma MessageContentIs(role: string, content: Json)
    ensures Get(Message(role, content), "content") == Some(content)
    ensures Get(Message(role, content), "tool_calls").None?
    ensures GetString(Message(role, content), "role") == Some(role)
  {
    var ms := Message(role, content).members;
    LookupAt(ms, 0);
    LookupAt(ms, 1);
  }

  lemma AnthropicTurnReadsBack(t: Turn)
    ensures FlatMap(AnthropicEvents, AnthropicTurn(t)) == TurnEvents(t)
  {
    hide Message, CallFromBlock, ResultFromBlock, AnthropicBlocks, ToolResult, Get, RoleName;
    assert FlatMap(AnthropicEvents, []) == [];
    if |AnthropicTurn(t)| == 1 {
      assert AnthropicTurn(t)[1..] == [];
      assert FlatMap(AnthropicEvents, AnthropicTurn(t)) == AnthropicEvents(AnthropicTurn(t)[0]);
    }
    match t
    case Plain(m) =>
      MessageContentIs(RoleName(m.role), AnthropicContent(m.content));
      ContentReadsAsNothing(m.content);
    case Calls(m, calls) =>
      MessageContentIs("assistant", Array(AnthropicBlocks(m.content) + ToolUses(calls)));
      EmittedBlocksReadBack(m.content, calls);
    case Results(rs) =>
      MessageContentIs("user", Array(ToolResults(rs)));
      var bs := ToolResults(rs);
      forall i | 0 <= i < |bs| ensures CallFromBlock(bs[i]) == [] && ResultFromBlock(bs[i]) == [SentResults(rs)[i]] {
        ToolResultReadsBack(rs[i]);
      }
      FlatMapNone(CallFromBlock, bs);
      FlatMapOne(ResultFromBlock, bs, SentResults(rs));
  }

  lemma ArgumentsReadBack(args: Json)
    requires Valid(args)
    ensures Parse(ArgumentsString(args)) == Some(Arguments(args))
  {
    ParsePrinted(Arguments(args));
    assert Print(Object([])) == "{}";
  }

  lemma FunctionCallReadsBack(c: NamedCall)
    requires Valid(c.call.arguments)
    ensures CallFromFunction(FunctionCall(c)) == [Sent(c)]
  {
    hide Parse, ArgumentsString, Arguments, Valid;
    ArgumentsReadBack(c.call.arguments);
    var ms := FunctionCall(c).members;
    assert DistinctKeys(ms);
    LookupAt(ms, 0);
    LookupAt(ms, 2);
    var f := ms[2].value.members;
    LookupAt(f, 0);
    LookupAt(f, 1);
  }

  lemma CallMessageReadsBack(m: ChatMessage, calls: seq<NamedCall>)
    requires forall i | 0 <= i < |calls| :: Valid(calls[i].call.arguments)
    ensures OpenaiEvents(CallMessage(m, calls)) == MadeCalls(SentCalls(calls))
    ensures Get(CallMessage(m, calls), "content") ==
            Some(if ContentText(m.content) == "" then Null else String(ContentText(m.content)))
  {
    hide CallFromFunction, FunctionCall, Sent, Lookup;
    var ms := CallMessage(m, calls).members;
    assert DistinctKeys(ms);
    LookupAt(ms, 0);
    LookupAt(ms, 1);
    LookupAt(ms, 2);
    assert Get(CallMessage(m, calls), "tool_calls") == Some(Array(FunctionCalls(calls)));
    assert GetString(CallMessage(m, calls), "role") == Some("assistant");
    var fs := FunctionCalls(calls);
    forall i | 0 <= i < |fs| ensures CallFromFunction(fs[i]) == [SentCalls(calls)[i]] {
      FunctionCallReadsBack(calls[i]);
    }
    FlatMapOne(CallFromFunction, fs, SentCalls(calls));
  }

  lemma ToolMessageReadsBack(r: NamedResult)
    ensures OpenaiEvents(ToolMessage(r)) == [GotResult(Some(r.id), Some(ContentText(r.m.content)))]
  {
    var ms := ToolMessage(r).members;
    assert DistinctKeys(ms);
    LookupAt(ms, 0);
    LookupAt(ms, 1);
    LookupAt(ms, 2);
    assert Get(ToolMessage(r), "tool_calls").None?;
  }

  ghost predicate ValidTurn(t: Turn) {
    match t
    case Plain(m) => !IsTool(m)
    case Calls(_, calls) => forall i | 0 <= i < |calls| :: Valid(calls[i].call.arguments)
    case Results(_) => true
  }

  lemma OpenaiTurnReadsBack(t: Turn)
    requires ValidTurn(t)
    ensures FlatMap(OpenaiEvents, OpenaiTurn(t)) == TurnEvents(t)
  {
    hide OpenaiEvents, CallMessage, ToolMessage, Message, Get;
    assert FlatMap(OpenaiEvents, []) == [];
    if |OpenaiTurn(t)| == 1 {
      assert OpenaiTurn(t)[1..] == [];
      assert FlatMap(OpenaiEvents, OpenaiTurn(t)) == OpenaiEvents(OpenaiTurn(t)[0]) + [];
    }
    match t
    case Plain(m) => PlainMessageIsSilent(m);
    case Calls(m, calls) => CallMessageReadsBack(m, calls);
    case Results(rs) =>
      var ms := ToolMessages(rs);
      forall i | 0 <= i < |ms| ensures OpenaiEvents(ms[i]) == [SentResults(rs)[i]] {
        ToolMessageReadsBack(rs[i]);
      }
      FlatMapOne(OpenaiEvents, ms, SentResults(rs));
  }

  lemma PlainMessageIsSilent(m: ChatMessage)
    requires !IsTool(m)
    ensures OpenaiEvents(Message(RoleName(m.role), String(ContentText(m.content)))) == []
  {
    MessageContentIs(RoleName(m.role), String(ContentText(m.content)));
  }

  /** Every call's arguments are a JSON value serde_json could hold. */
  ghost predicate ValidTranscript(msgs: seq<ChatMessage>) {
    forall k, n | 0 <= k < |msgs| && 0 <= n < |msgs[k].toolCalls| :: Valid(msgs[k].toolCalls[n].arguments)
  }

  lemma {:induction false} PlanTurnsValid(msgs: seq<ChatMessage>, i: nat, open: seq<string>)
    requires i <= |msgs| && ValidTranscript(msgs)
    ensures forall n | 0 <= n < |PlanFrom(msgs, i, open)| :: ValidTurn(PlanFrom(msgs, i, open)[n])
    decreases |msgs| - i
  {
    if i == |msgs| {
    } else if IsTool(msgs[i]) {
      PlanTurnsValid(msgs, RunEnd(msgs, i + 1), []);
    } else if msgs[i].toolCalls == [] {
      PlanTurnsValid(msgs, i + 1, open);
    } else {
      PlanTurnsValid(msgs, i + 1, CallIds(msgs, i));
      assert ValidTurn(Calls(msgs[i], CallsOf(msgs, i)));
    }
  }

  /**
   * Both vendors are told the same story: the same calls with the same ids, names and decoded
   * arguments, and the same results with the same ids and texts, in the same order.
   */
  lemma VendorsAgree(msgs: seq<ChatMessage>)
    requires ValidTranscript(msgs)
    ensures FlatMap(AnthropicEvents, FlatMap(AnthropicTurn, PlanOf(msgs))) == FlatMap(TurnEvents, PlanOf(msgs))
    ensures FlatMap(OpenaiEvents, FlatMap(OpenaiTurn, PlanOf(msgs))) == FlatMap(TurnEvents, PlanOf(msgs))
  {
    hide AnthropicEvents, AnthropicTurn, OpenaiEvents, OpenaiTurn, TurnEvents, FlatMap, ValidTranscript, ValidTurn;
    var turns := PlanOf(msgs);
    PlanTurnsValid(msgs, 0, []);
    forall i | 0 <= i < |turns|
      ensures FlatMap(AnthropicEvents, AnthropicTurn(turns[i])) == TurnEvents(turns[i])
      ensures FlatMap(OpenaiEvents, OpenaiTurn(turns[i])) == TurnEvents(turns[i])
    {
      AnthropicTurnReadsBack(turns[i]);
      OpenaiTurnReadsBack(turns[i]);
    }
    FlatMapThen(AnthropicTurn, AnthropicEvents, TurnEvents, turns);
    FlatMapThen(OpenaiTurn, OpenaiEvents, TurnEvents, turns);
  }

  // ---------------------------------------------------------------------------
  // The shapes message by message
  // ---------------------------------------------------------------------------

  function ResolvedEvents(r: Resolved): seq<Event> {
    match r
    case Said(_) => []
    case Called(_, calls) => MadeCalls(SentCalls(calls))
    case Answered(m, id) => [GotResult(Some(id), Some(ContentText(m.content)))]
  }

  lemma ResolvedTurnEvents(t: Turn)
    ensures FlatMap(ResolvedEvents, ResolveTurn(t)) == TurnEvents(t)
  {
    if t.Results? {
      var rs := ResolveTurn(t);
      assert forall i | 0 <= i < |rs| :: ResolvedEvents(rs[i]) == [SentResults(t.results)[i]];
      FlatMapOne(ResolvedEvents, rs, SentResults(t.results));
    } else {
      assert ResolveTurn(t)[1..] == [];
      assert FlatMap(ResolvedEvents, []) == [];
    }
  }

  /** The story both vendors are told is the one the positions of the messages dictate. */
  lemma VendorsTellThePositionalStory(msgs: seq<ChatMessage>)
    requires ValidTranscript(msgs)
    ensures FlatMap(AnthropicEvents, FlatMap(AnthropicTurn, PlanOf(msgs))) ==
            FlatMap(ResolvedEvents, ResolvedFrom(msgs, 0))
    ensures FlatMap(OpenaiEvents, FlatMap(OpenaiTurn, PlanOf(msgs))) ==
            FlatMap(ResolvedEvents, ResolvedFrom(msgs, 0))
  {
    hide AnthropicEvents, AnthropicTurn, OpenaiEvents, OpenaiTurn, TurnEvents, ResolvedEvents, FlatMap, ResolveTurn,
      ResolvedFrom, ValidTranscript;
    VendorsAgree(msgs);
    var turns := PlanOf(msgs);
    forall i | 0 <= i < |turns| ensures FlatMap(ResolvedEvents, ResolveTurn(turns[i])) == TurnEvents(turns[i]) {
      ResolvedTurnEvents(turns[i]);
    }
    FlatMapThen(ResolveTurn, ResolvedEvents, TurnEvents, turns);
    PlanResolvesEveryMessage(msgs);
  }

  function OpenaiOf(r: Resolved): Json {
    match r
    case Said(m) => Message(RoleName(m.role), String(ContentText(m.content)))
    case Called(m, calls) => CallMessage(m, calls)
    case Answered(m, id) => ToolMessage(NamedResult(m, id))
  }

  function OpenaiOfOne(r: Resolved): seq<Json> {
    [OpenaiOf(r)]
  }

  lemma OpenaiTurnByMessage(t: Turn)
    ensures FlatMap(OpenaiOfOne, ResolveTurn(t)) == OpenaiTurn(t)
  {
    var rs := ResolveTurn(t);
    assert forall i | 0 <= i < |rs| :: OpenaiOfOne(rs[i]) == [OpenaiTurn(t)[i]];
    FlatMapOne(OpenaiOfOne, rs, OpenaiTurn(t));
  }

  /** One chat-completions message per input message, each fixed by its own position. */
  lemma OpenaiOnePerMessage(msgs: seq<ChatMessage>)
    ensures
      var out := FlatMap(OpenaiTurn, PlanOf(msgs));
      |out| == |msgs| && forall k | 0 <= k < |msgs| :: out[k] == OpenaiOf(ResolveAt(msgs, k))
  {
    hide OpenaiTurn, ResolveTurn, OpenaiOf, ResolveAt;
    var turns := PlanOf(msgs);
    forall i | 0 <= i < |turns| ensures FlatMap(OpenaiOfOne, ResolveTurn(turns[i])) == OpenaiTurn(turns[i]) {
      OpenaiTurnByMessage(turns[i]);
    }
    FlatMapThen(ResolveTurn, OpenaiOfOne, OpenaiTurn, turns);
    PlanResolvesEveryMessage(msgs);
    var rs := ResolvedFrom(msgs, 0);
    var out := seq(|rs|, k requires 0 <= k < |rs| => OpenaiOf(rs[k]));
    FlatMapOne(OpenaiOfOne, rs, out);
  }

  /** Every message has role `user` or `assistant`, and each turn is one message or one system text. */
  lemma {:induction false} AnthropicShape(turns: seq<Turn>)
    requires forall i | 0 <= i < |turns| :: turns[i].Plain? ==> !IsTool(turns[i].m)
    ensures var out := FlatMap(AnthropicTurn, turns);
            && |out| + |FlatMap(SystemTurn, turns)| == |turns|
            && forall k | 0 <= k < |out| :: GetString(out[k], "role") in {Some("user"), Some("assistant")}
  {
    hide Message, AnthropicBlocks, ToolResults, ToolUses, ContentText, GetString;
    if turns == [] {
    } else {
      AnthropicShape(turns[1..]);
      var t := turns[0];
      match t
      case Plain(m) => MessageContentIs(RoleName(m.role), AnthropicContent(m.content));
      case Calls(m, calls) => MessageContentIs("assistant", Array(AnthropicBlocks(m.content) + ToolUses(calls)));
      case Results(rs) => MessageContentIs("user", Array(ToolResults(rs)));
    }
  }

  lemma AnthropicMessagesShape(msgs: seq<ChatMessage>)
    ensures var out := FlatMap(AnthropicTurn, PlanOf(msgs));
            && |out| + |FlatMap(SystemTurn, PlanOf(msgs))| == |PlanOf(msgs)|
            && forall k | 0 <= k < |out| :: GetString(out[k], "role") in {Some("user"), Some("assistant")}
  {
    PlanWellGrouped(msgs, 0, []);
    AnthropicShape(PlanOf(msgs));
  }

  // ---------------------------------------------------------------------------
  // Transcripts without tools or blocks keep their old bodies
  // ---------------------------------------------------------------------------

  ghost predicate PlainTranscript(msgs: seq<ChatMessage>) {
    forall k | 0 <= k < |msgs| :: !IsTool(msgs[k]) && msgs[k].toolCalls == [] && msgs[k].content.Prose?
  }

  function PlainMessage(m: ChatMessage): seq<Json> {
    [Message(RoleName(m.role), String(ContentText(m.content)))]
  }

  function PlainUnlessSystem(m: ChatMessage): seq<Json> {
    if m.role == System then [] else PlainMessage(m)
  }

  function SystemText(m: ChatMessage): seq<string> {
    if m.role == System then [ContentText(m.content)] else []
  }

  lemma {:induction false} PlainTranscriptUnchanged(msgs: seq<ChatMessage>, i: nat)
    requires i <= |msgs| && PlainTranscript(msgs)
    ensures FlatMap(OpenaiTurn, PlanFrom(msgs, i, [])) == FlatMap(PlainMessage, msgs[i..])
    ensures FlatMap(AnthropicTurn, PlanFrom(msgs, i, [])) == FlatMap(PlainUnlessSystem, msgs[i..])
    ensures FlatMap(SystemTurn, PlanFrom(msgs, i, [])) == FlatMap(SystemText, msgs[i..])
    decreases |msgs| - i
  {
    hide Message, RoleName;
    if i == |msgs| {
    } else {
      PlainTranscriptUnchanged(msgs, i + 1);
      var turns := PlanFrom(msgs, i, []);
      assert turns == [Plain(msgs[i])] + PlanFrom(msgs, i + 1, []);
      assert turns[1..] == PlanFrom(msgs, i + 1, []);
      assert msgs[i..][1..] == msgs[i + 1..];
    }
  }
}
