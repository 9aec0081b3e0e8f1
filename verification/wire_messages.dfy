/** The two emitters, and what they say of every message of the transcript, name by name. */
module WireMessages {
  import opened Text
  import opened Json
  import opened Transcript
  import opened WireShapes

  // ---------------------------------------------------------------------------
  // OpenAI
  // ---------------------------------------------------------------------------

  /** One message for each, with its role, its content and its ids. */
  method OpenaiMessages(msgs: seq<ChatMessage>) returns (out: seq<Json>)
    ensures out == FlatMap(OpenaiTurn, PlanOf(msgs))
    ensures OpenaiSaysAll(msgs, out)
  {
    hide OpenaiSaysAll, CallMessage, ToolMessage, ContentText, WellGrouped, IdsAreRight;
    var turns := Plan(msgs);
    out := [];
    for i := 0 to |turns|
      invariant out == FlatMap(OpenaiTurn, turns[..i])
    {
      FlatMapSnoc(OpenaiTurn, turns, i);
      match turns[i]
      case Plain(m) => out := out + [Message(RoleName(m.role), String(ContentText(m.content)))];
      case Calls(m, calls) => out := out + [CallMessage(m, calls)];
      case Results(rs) => out := out + ToolMessages(rs);
    }
    assert turns[..|turns|] == turns;
    OpenaiSaysEveryMessage(msgs);
  }

  /** An object with no member but these. */
  ghost predicate Only(j: Json, names: seq<string>) {
    j.Object? && forall i | 0 <= i < |j.members| :: j.members[i].key in names
  }

  ghost predicate HasRole(r: Role, j: Json) {
    && (r == System ==> GetString(j, "role") == Some("system"))
    && (r == User ==> GetString(j, "role") == Some("user"))
    && (r == Assistant ==> GetString(j, "role") == Some("assistant"))
    && (r == Tool ==> GetString(j, "role") == Some("tool"))
  }

  /** A call as a `function` with its id, its name and its arguments as JSON in a string. */
  ghost predicate FunctionSays(c: NamedCall, j: Json) {
    && GetString(j, "id") == Some(c.id) && GetString(j, "type") == Some("function")
    && Only(j, ["id", "type", "function"])
    && var f := Get(j, "function");
    && f.Some? && Only(f.value, ["name", "arguments"]) && GetString(f.value, "name") == Some(c.call.name)
    && GetString(f.value, "arguments") == Some(if c.call.arguments == Null then "{}" else Print(c.call.arguments))
  }

  ghost predicate OpenaiSays(r: Resolved, j: Json) {
    match r
    case Said(m) =>
      && HasRole(m.role, j) && Only(j, ["role", "content"])
      && Get(j, "content") == Some(String(ContentText(m.content)))
    case Called(m, calls) =>
      var text := ContentText(m.content);
      var made := Get(j, "tool_calls");
      && GetString(j, "role") == Some("assistant") && Only(j, ["role", "content", "tool_calls"])
      && Get(j, "content") == Some(if text == "" then Null else String(text))
      && made.Some? && made.value.Array? && |made.value.items| == |calls|
      && forall n | 0 <= n < |calls| :: FunctionSays(calls[n], made.value.items[n])
    case Answered(m, id) =>
      && GetString(j, "role") == Some("tool") && Only(j, ["role", "tool_call_id", "content"])
      && GetString(j, "tool_call_id") == Some(id)
      && Get(j, "content") == Some(String(ContentText(m.content)))
  }

  /** Message `k` of the body says what message `k` of the transcript says. */
  ghost predicate OpenaiSaysAll(msgs: seq<ChatMessage>, out: seq<Json>) {
    var rs := FlatMap(ResolveTurn, PlanOf(msgs));
    |out| == |msgs| == |rs| && forall k | 0 <= k < |msgs| :: rs[k].m == msgs[k] && OpenaiSays(rs[k], out[k])
  }

  lemma SaidHasRole(m: ChatMessage, content: Json)
    ensures HasRole(m.role, Message(RoleName(m.role), content))
    ensures Only(Message(RoleName(m.role), content), ["role", "content"])
    ensures Get(Message(RoleName(m.role), content), "content") == Some(content)
  {
    hide Message, Get, Only;
    MessageContentIs(RoleName(m.role), content);
    MessageNames(RoleName(m.role), content);
  }

  lemma MessageNames(role: string, content: Json)
    ensures Only(Message(role, content), ["role", "content"])
  {
    var names := ["role", "content"];
    assert names[0] == "role" && names[1] == "content";
  }

  lemma FunctionIsSaid(c: NamedCall)
    ensures FunctionSays(c, FunctionCall(c))
  {
    hide Print, Lookup;
    FunctionNames(c);
    hide Only;
    var ms := FunctionCall(c).members;
    assert DistinctKeys(ms);
    LookupAt(ms, 0);
    LookupAt(ms, 1);
    LookupAt(ms, 2);
    var f := ms[2].value.members;
    assert DistinctKeys(f);
    LookupAt(f, 0);
    LookupAt(f, 1);
  }

  lemma FunctionNames(c: NamedCall)
    ensures var ms := FunctionCall(c).members;
            Only(FunctionCall(c), ["id", "type", "function"]) && Only(ms[2].value, ["name", "arguments"])
  {
    hide Print;
    var (names, inner) := (["id", "type", "function"], ["name", "arguments"]);
    assert names[0] == "id" && names[1] == "type" && names[2] == "function";
    assert inner[0] == "name" && inner[1] == "arguments";
  }

  lemma CallMessageIsSaid(m: ChatMessage, calls: seq<NamedCall>)
    ensures OpenaiSays(Called(m, calls), CallMessage(m, calls))
  {
    hide FunctionSays, FunctionCall, ContentText, Lookup;
    var names := ["role", "content", "tool_calls"];
    assert names[0] == "role" && names[1] == "content" && names[2] == "tool_calls";
    assert Only(CallMessage(m, calls), names);
    hide Only;
    var ms := CallMessage(m, calls).members;
    assert DistinctKeys(ms);
    LookupAt(ms, 0);
    LookupAt(ms, 1);
    LookupAt(ms, 2);
    forall n | 0 <= n < |calls| ensures FunctionSays(calls[n], FunctionCalls(calls)[n]) {
      FunctionIsSaid(calls[n]);
    }
  }

  lemma ToolMessageIsSaid(m: ChatMessage, id: string)
    ensures OpenaiSays(Answered(m, id), ToolMessage(NamedResult(m, id)))
  {
    hide ContentText, Lookup;
    var names := ["role", "tool_call_id", "content"];
    assert names[0] == "role" && names[1] == "tool_call_id" && names[2] == "content";
    assert Only(ToolMessage(NamedResult(m, id)), names);
    hide Only;
    var ms := ToolMessage(NamedResult(m, id)).members;
    assert DistinctKeys(ms);
    LookupAt(ms, 0);
    LookupAt(ms, 1);
    LookupAt(ms, 2);
  }

  lemma OpenaiOfIsSaid(r: Resolved)
    ensures OpenaiSays(r, OpenaiOf(r))
  {
    hide CallMessage, ToolMessage, Message, ContentText, Get, HasRole, Only;
    match r
    case Said(m) => SaidHasRole(m, String(ContentText(m.content)));
    case Called(m, calls) => CallMessageIsSaid(m, calls);
    case Answered(m, id) => ToolMessageIsSaid(m, id);
  }

  lemma OpenaiSaysEveryMessage(msgs: seq<ChatMessage>)
    ensures OpenaiSaysAll(msgs, FlatMap(OpenaiTurn, PlanOf(msgs)))
  {
    hide OpenaiSays, OpenaiOf, OpenaiTurn, ResolveTurn, FlatMap, PlanOf, ResolveAt;
    OpenaiOnePerMessage(msgs);
    PlanResolvesEveryMessage(msgs);
    var out := FlatMap(OpenaiTurn, PlanOf(msgs));
    forall k | 0 <= k < |msgs| ensures OpenaiSays(ResolveAt(msgs, k), out[k]) {
      OpenaiOfIsSaid(ResolveAt(msgs, k));
    }
  }

  // ---------------------------------------------------------------------------
  // Anthropic
  // ---------------------------------------------------------------------------

  /** Every message is in the body with its role and content, or its text is hoisted. */
  method AnthropicMessages(msgs: seq<ChatMessage>) returns (systemText: Option<string>, out: seq<Json>)
    ensures systemText == AnthropicSystem(PlanOf(msgs))
    ensures out == FlatMap(AnthropicTurn, PlanOf(msgs))
    ensures systemText.None? <==> forall k | 0 <= k < |msgs| :: !Hoisted(msgs[k])
    ensures systemText.Some? ==> systemText.value == Join(HoistedTexts(msgs), "\n\n")
    ensures AnthropicSaysAll(msgs, out)
  {
    hide AnthropicSaysAll, Hoisted, HoistedTexts, AnthropicContent, AnthropicBlocks, ToolUse, ToolResult, ContentText;
    hide WellGrouped, IdsAreRight;
    var turns := Plan(msgs);
    var system: seq<string> := [];
    out := [];
    for i := 0 to |turns|
      invariant system == FlatMap(SystemTurn, turns[..i])
      invariant out == FlatMap(AnthropicTurn, turns[..i])
    {
      FlatMapSnoc(SystemTurn, turns, i);
      FlatMapSnoc(AnthropicTurn, turns, i);
      match turns[i]
      case Plain(m) =>
        if m.role == System {
          system := system + [ContentText(m.content)];
        } else {
          out := out + [Message(RoleName(m.role), AnthropicContent(m.content))];
        }
      case Calls(m, calls) =>
        var blocks := AnthropicBlocks(m.content);
        ghost var first := blocks;
        for n := 0 to |calls|
          invariant blocks == first + ToolUses(calls)[..n]
        {
          blocks := blocks + [ToolUse(calls[n])];
        }
        assert ToolUses(calls)[..|calls|] == ToolUses(calls);
        out := out + [Message("assistant", Array(blocks))];
      case Results(rs) =>
        out := out + [Message("user", Array(ToolResults(rs)))];
    }
    assert turns[..|turns|] == turns;
    systemText := if system == [] then None else Some(Join(system, "\n\n"));
    HoistedAre(msgs);
    AnthropicSaysEveryMessage(msgs);
  }

  /** A plain system message leaves the body for the system text. */
  predicate Hoisted(m: ChatMessage) {
    m.role == System && m.toolCalls == []
  }

  /** The texts of the plain system messages, in order. */
  function HoistedTexts(msgs: seq<ChatMessage>): seq<string> {
    if msgs == [] then []
    else (if Hoisted(msgs[0]) then [ContentText(msgs[0].content)] else []) + HoistedTexts(msgs[1..])
  }

  /** Message `k` starts a message of the body; a tool turn does so only at the start of its run. */
  ghost predicate Opens(msgs: seq<ChatMessage>, k: nat)
    requires k < |msgs|
  {
    if msgs[k].role == Tool then k == 0 || msgs[k - 1].role != Tool else !Hoisted(msgs[k])
  }

  /** How many messages of the body start at messages `i` up to `k`. */
  ghost function Begun(msgs: seq<ChatMessage>, i: nat, k: nat): nat
    requires i <= k <= |msgs|
  {
    if i == k then 0 else Begun(msgs, i, k - 1) + if Opens(msgs, k - 1) then 1 else 0
  }

  ghost predicate BlockSays(b: ContentBlock, j: Json) {
    match b
    case TextBlock(text) =>
      && GetString(j, "type") == Some("text") && GetString(j, "text") == Some(text) && Only(j, ["type", "text"])
    case Thinking(thinking, signature) =>
      && GetString(j, "type") == Some("thinking") && GetString(j, "thinking") == Some(thinking)
      && Only(j, ["type", "thinking", "signature"])
      && Get(j, "signature") == if signature.Some? then Some(String(signature.value)) else None
  }

  /** Prose is one text block, or none when it is blank. */
  ghost predicate BlocksSay(c: MessageContent, js: seq<Json>) {
    match c
    case Prose(s) => if AllWhitespace(s) then js == [] else |js| == 1 && BlockSays(TextBlock(s), js[0])
    case Blocks(bs) => |js| == |bs| && forall i | 0 <= i < |bs| :: BlockSays(bs[i], js[i])
  }

  ghost predicate UseSays(c: NamedCall, j: Json) {
    && GetString(j, "type") == Some("tool_use") && Only(j, ["type", "id", "name", "input"])
    && GetString(j, "id") == Some(c.id)
    && GetString(j, "name") == Some(c.call.name)
    && Get(j, "input") == Some(if c.call.arguments == Null then Object([]) else c.call.arguments)
  }

  ghost predicate ResultSays(m: ChatMessage, id: string, j: Json) {
    && GetString(j, "type") == Some("tool_result") && Only(j, ["type", "tool_use_id", "content"])
    && GetString(j, "tool_use_id") == Some(id)
    && GetString(j, "content") == Some(ContentText(m.content))
  }

  /** The content of a message of the body, when it is a list of blocks. */
  ghost function Items(j: Json): Option<seq<Json>> {
    var content := Get(j, "content");
    if content.Some? && content.value.Array? then Some(content.value.items) else None
  }

  /** `nth` and `total` place a result in its run. */
  ghost predicate AnthropicSays(r: Resolved, nth: int, total: int, j: Json) {
    match r
    case Said(m) =>
      && HasRole(m.role, j) && Only(j, ["role", "content"])
      && if m.content.Prose? then Get(j, "content") == Some(String(m.content.s))
         else Items(j).Some? && BlocksSay(m.content, Items(j).value)
    case Called(m, calls) =>
      && GetString(j, "role") == Some("assistant") && Only(j, ["role", "content"])
      && Items(j).Some? && |Items(j).value| >= |calls|
      && var first := |Items(j).value| - |calls|;
      && BlocksSay(m.content, Items(j).value[..first])
      && forall n | 0 <= n < |calls| :: UseSays(calls[n], Items(j).value[first + n])
    case Answered(m, id) =>
      && GetString(j, "role") == Some("user") && Only(j, ["role", "content"])
      && Items(j).Some? && |Items(j).value| == total
      && 0 <= nth < total && ResultSays(m, id, Items(j).value[nth])
  }

  /** Every message but a hoisted one is said in the last message of the body begun by then. */
  ghost predicate AnthropicSaysAll(msgs: seq<ChatMessage>, out: seq<Json>) {
    var rs := FlatMap(ResolveTurn, PlanOf(msgs));
    && |rs| == |msgs| && |out| == Begun(msgs, 0, |msgs|)
    && forall k: nat | k < |msgs| && !Hoisted(msgs[k]) :: SaidAt(msgs, rs[k], out, k)
  }

  ghost predicate SaidAt(msgs: seq<ChatMessage>, r: Resolved, out: seq<Json>, k: nat)
    requires k < |msgs|
  {
    && r.m == msgs[k] && 1 <= Begun(msgs, 0, k + 1) <= |out|
    && var start := if msgs[k].role == Tool then RunStart(msgs, k) else k;
    AnthropicSays(r, k - start, RunEnd(msgs, k) - start, out[Begun(msgs, 0, k + 1) - 1])
  }

  lemma {:induction false} HoistedFrom(msgs: seq<ChatMessage>, i: nat, open: seq<string>)
    requires i <= |msgs|
    ensures FlatMap(SystemTurn, PlanFrom(msgs, i, open)) == HoistedTexts(msgs[i..])
    decreases |msgs| - i
  {
    hide ContentText, RunOf, CallsOf, CallIds, FlatMap, HoistedTexts;
    if i == |msgs| {
      EmptyFlatMap(SystemTurn);
      NoHoistedTexts(msgs[i..]);
    } else {
      HoistedNext(msgs, i);
      if IsTool(msgs[i]) {
        var j := RunEnd(msgs, i + 1);
        HoistedFrom(msgs, j, []);
        NoneHoisted(msgs, i, j);
        FlatMapCons(SystemTurn, Results(RunOf(msgs, i, j, open)), PlanFrom(msgs, j, []));
      } else if msgs[i].toolCalls == [] {
        HoistedFrom(msgs, i + 1, open);
        FlatMapCons(SystemTurn, Plain(msgs[i]), PlanFrom(msgs, i + 1, open));
      } else {
        HoistedFrom(msgs, i + 1, CallIds(msgs, i));
        FlatMapCons(SystemTurn, Calls(msgs[i], CallsOf(msgs, i)), PlanFrom(msgs, i + 1, CallIds(msgs, i)));
      }
    }
  }

  lemma HoistedNext(msgs: seq<ChatMessage>, i: nat)
    requires i < |msgs|
    ensures HoistedTexts(msgs[i..]) ==
            (if Hoisted(msgs[i]) then [ContentText(msgs[i].content)] else []) + HoistedTexts(msgs[i + 1..])
  {
    hide ContentText;
    assert msgs[i..][0] == msgs[i] && msgs[i..][1..] == msgs[i + 1..];
  }

  lemma {:induction false} NoneHoisted(msgs: seq<ChatMessage>, i: nat, j: nat)
    requires i <= j <= |msgs| && forall k | i <= k < j :: IsTool(msgs[k])
    ensures HoistedTexts(msgs[i..]) == HoistedTexts(msgs[j..])
    decreases j - i
  {
    if i == j {
    } else {
      assert msgs[i..][0] == msgs[i] && msgs[i..][1..] == msgs[i + 1..];
      NoneHoisted(msgs, i + 1, j);
    }
  }

  lemma {:induction false} NoHoistedTexts(msgs: seq<ChatMessage>)
    ensures HoistedTexts(msgs) == [] <==> forall k | 0 <= k < |msgs| :: !Hoisted(msgs[k])
  {
    hide ContentText;
    if msgs == [] {
    } else {
      NoHoistedTexts(msgs[1..]);
      assert forall k | 0 < k < |msgs| :: msgs[k] == msgs[1..][k - 1];
    }
  }

  lemma HoistedAre(msgs: seq<ChatMessage>)
    ensures FlatMap(SystemTurn, PlanOf(msgs)) == HoistedTexts(msgs)
    ensures HoistedTexts(msgs) == [] <==> forall k | 0 <= k < |msgs| :: !Hoisted(msgs[k])
  {
    hide FlatMap, HoistedTexts, PlanFrom;
    HoistedFrom(msgs, 0, []);
    assert msgs[0..] == msgs;
    NoHoistedTexts(msgs);
  }

  // Where each message of the body stands

  lemma {:induction false} BegunFirst(msgs: seq<ChatMessage>, i: nat, k: nat)
    requires i < k <= |msgs|
    ensures Begun(msgs, i, k) == (if Opens(msgs, i) then 1 else 0) + Begun(msgs, i + 1, k)
    decreases k
  {
    hide Opens;
    if k == i + 1 {
    } else {
      BegunFirst(msgs, i, k - 1);
    }
  }

  /** A run of tool turns begins one message. */
  lemma {:induction false} BegunRun(msgs: seq<ChatMessage>, i: nat, k: nat)
    requires i < k <= |msgs| && (i == 0 || !IsTool(msgs[i - 1])) && forall j | i <= j < k :: IsTool(msgs[j])
    ensures Begun(msgs, i, k) == 1
    decreases k
  {
    if k == i + 1 {
      assert Begun(msgs, i, i) == 0;
    } else {
      BegunRun(msgs, i, k - 1);
    }
  }

  lemma {:induction false} BegunSplit(msgs: seq<ChatMessage>, i: nat, j: nat, k: nat)
    requires i <= j <= k <= |msgs|
    ensures Begun(msgs, i, k) == Begun(msgs, i, j) + Begun(msgs, j, k)
    decreases k
  {
    hide Opens;
    if j == k {
    } else {
      BegunSplit(msgs, i, j, k - 1);
    }
  }

  /** What the body holds for message `k`, from its position alone. */
  function AnthropicOf(msgs: seq<ChatMessage>, k: nat): Json
    requires k < |msgs|
  {
    if IsTool(msgs[k]) then
      var s := RunStart(msgs, k);
      Message("user", Array(ToolResults(RunOf(msgs, s, RunEnd(msgs, k), OpenIds(msgs, s)))))
    else if msgs[k].toolCalls == [] then Message(RoleName(msgs[k].role), AnthropicContent(msgs[k].content))
    else Message("assistant", Array(AnthropicBlocks(msgs[k].content) + ToolUses(CallsOf(msgs, k))))
  }

  ghost predicate Placed(msgs: seq<ChatMessage>, i: nat, out: seq<Json>)
    requires i <= |msgs|
  {
    && |out| == Begun(msgs, i, |msgs|)
    && forall k: nat | i <= k < |msgs| && !Hoisted(msgs[k]) ::
         1 <= Begun(msgs, i, k + 1) <= |out| && out[Begun(msgs, i, k + 1) - 1] == AnthropicOf(msgs, k)
  }

  lemma OneMorePlaced(msgs: seq<ChatMessage>, i: nat, here: seq<Json>, rest: seq<Json>)
    requires i < |msgs| && !IsTool(msgs[i]) && Placed(msgs, i + 1, rest)
    requires here == if Hoisted(msgs[i]) then [] else [AnthropicOf(msgs, i)]
    ensures Placed(msgs, i, here + rest)
  {
    hide AnthropicOf, Begun, Hoisted;
    assert Opens(msgs, i) <==> !Hoisted(msgs[i]);
    BegunFirst(msgs, i, |msgs|);
    forall k: nat | i <= k < |msgs| && !Hoisted(msgs[k])
      ensures 1 <= Begun(msgs, i, k + 1) <= |here + rest|
      ensures (here + rest)[Begun(msgs, i, k + 1) - 1] == AnthropicOf(msgs, k)
    {
      BegunFirst(msgs, i, k + 1);
      if k == i {
        NoneBegun(msgs, i + 1);
      }
    }
  }

  lemma NoneBegun(msgs: seq<ChatMessage>, i: nat)
    requires i <= |msgs|
    ensures Begun(msgs, i, i) == 0
  {
  }

  lemma RunPlaced(msgs: seq<ChatMessage>, i: nat, j: nat, rest: seq<Json>)
    requires i < j <= |msgs| && (i == 0 || !IsTool(msgs[i - 1])) && (j < |msgs| ==> !IsTool(msgs[j]))
    requires forall k | i <= k < j :: IsTool(msgs[k])
    requires Placed(msgs, j, rest)
    ensures Placed(msgs, i, [AnthropicOf(msgs, i)] + rest)
  {
    hide Begun, AnthropicOf, Hoisted, RunStart, RunEnd;
    BegunRun(msgs, i, j);
    BegunSplit(msgs, i, j, |msgs|);
    var out := [AnthropicOf(msgs, i)] + rest;
    forall k: nat | i <= k < |msgs| && !Hoisted(msgs[k])
      ensures 1 <= Begun(msgs, i, k + 1) <= |out| && out[Begun(msgs, i, k + 1) - 1] == AnthropicOf(msgs, k)
    {
      if k < j {
        BegunRun(msgs, i, k + 1);
        SameRun(msgs, i, j, k);
      } else {
        BegunSplit(msgs, i, j, k + 1);
      }
    }
  }

  lemma {:induction false} RunEndIs(msgs: seq<ChatMessage>, k: nat, j: nat)
    requires k <= j <= |msgs| && (j < |msgs| ==> !IsTool(msgs[j])) && forall n | k <= n < j :: IsTool(msgs[n])
    ensures RunEnd(msgs, k) == j
    decreases j - k
  {
    if k == j {
    } else {
      RunEndIs(msgs, k + 1, j);
    }
  }

  lemma SameRun(msgs: seq<ChatMessage>, i: nat, j: nat, k: nat)
    requires i <= k < j <= |msgs| && (i == 0 || !IsTool(msgs[i - 1])) && (j < |msgs| ==> !IsTool(msgs[j]))
    requires forall n | i <= n < j :: IsTool(msgs[n])
    ensures AnthropicOf(msgs, k) == AnthropicOf(msgs, i) && RunStart(msgs, k) == i && RunEnd(msgs, k) == j
  {
    hide OpenIds, RunOf, Message, ToolResults;
    RunStartIs(msgs, i, k);
    RunStartIs(msgs, i, i);
    RunEndIs(msgs, k, j);
    RunEndIs(msgs, i, j);
  }

  lemma {:induction false} PlanIsPlaced(msgs: seq<ChatMessage>, i: nat)
    requires i <= |msgs|
    requires i == 0 || i == |msgs| || !IsTool(msgs[i - 1]) || !IsTool(msgs[i])
    ensures Placed(msgs, i, FlatMap(AnthropicTurn, PlanFrom(msgs, i, OpenIds(msgs, i))))
    decreases |msgs| - i
  {
    hide FlatMap, CallsOf, CallIds, RunOf, OpenIds, Placed, Message, AnthropicContent, AnthropicBlocks, ToolUses, ToolResults;
    if i == |msgs| {
      EmptyFlatMap(AnthropicTurn);
      NothingPlaced(msgs);
    } else if IsTool(msgs[i]) {
      var j := RunEnd(msgs, i + 1);
      var run := RunOf(msgs, i, j, OpenIds(msgs, i));
      PlanIsPlaced(msgs, j);
      NoneOpen(msgs, j);
      FlatMapCons(AnthropicTurn, Results(run), PlanFrom(msgs, j, []));
      SameRun(msgs, i, j, i);
      RunPlaced(msgs, i, j, FlatMap(AnthropicTurn, PlanFrom(msgs, j, [])));
    } else {
      PlanIsPlaced(msgs, i + 1);
      OpenIdsNext(msgs, i);
      var t := if msgs[i].toolCalls == [] then Plain(msgs[i]) else Calls(msgs[i], CallsOf(msgs, i));
      var rest := PlanFrom(msgs, i + 1, OpenIds(msgs, i + 1));
      FlatMapCons(AnthropicTurn, t, rest);
      OneMorePlaced(msgs, i, AnthropicTurn(t), FlatMap(AnthropicTurn, rest));
    }
  }

  lemma NothingPlaced(msgs: seq<ChatMessage>)
    ensures Placed(msgs, |msgs|, [])
  {
  }

  lemma NoneOpen(msgs: seq<ChatMessage>, j: nat)
    requires 0 < j <= |msgs| && IsTool(msgs[j - 1])
    ensures OpenIds(msgs, j) == []
  {
  }

  // What each of them says

  lemma BlockIsSaid(b: ContentBlock)
    ensures BlockSays(b, BlockJson(b))
  {
    hide Lookup;
    BlockNames(b);
    hide Only;
    var ms := BlockJson(b).members;
    assert DistinctKeys(ms);
    LookupAt(ms, 0);
    LookupAt(ms, 1);
    if b.Thinking? && b.signature.Some? {
      LookupAt(ms, 2);
    }
  }

  lemma BlockNames(b: ContentBlock)
    ensures Only(BlockJson(b), if b.TextBlock? then ["type", "text"] else ["type", "thinking", "signature"])
  {
    var names := if b.TextBlock? then ["type", "text"] else ["type", "thinking", "signature"];
    assert names[0] == "type" && names[1] == if b.TextBlock? then "text" else "thinking";
    assert b.Thinking? ==> names[2] == "signature";
  }

  lemma BlocksAreSaid(c: MessageContent)
    ensures BlocksSay(c, AnthropicBlocks(c))
  {
    hide BlockJson, BlockSays, Trim;
    match c
    case Prose(s) =>
      TrimmedToNothing(s);
      BlockIsSaid(TextBlock(s));
      assert BlockSays(TextBlock(s), Object([Member("type", String("text")), Member("text", String(s))])) by {
        TextBlockJson(s);
      }
    case Blocks(bs) =>
      forall i | 0 <= i < |bs| ensures BlockSays(bs[i], AnthropicBlocks(c)[i]) { BlockIsSaid(bs[i]); }
  }

  lemma TextBlockJson(s: string)
    ensures BlockJson(TextBlock(s)) == Object([Member("type", String("text")), Member("text", String(s))])
  {
  }

  lemma UseIsSaid(c: NamedCall)
    ensures UseSays(c, ToolUse(c))
  {
    hide Lookup;
    var names := ["type", "id", "name", "input"];
    assert names[0] == "type" && names[1] == "id" && names[2] == "name" && names[3] == "input";
    assert Only(ToolUse(c), names);
    hide Only;
    ToolUseMembers(c);
  }

  lemma ResultIsSaid(r: NamedResult)
    ensures ResultSays(r.m, r.id, ToolResult(r))
  {
    hide Lookup, ContentText;
    var names := ["type", "tool_use_id", "content"];
    assert names[0] == "type" && names[1] == "tool_use_id" && names[2] == "content";
    assert Only(ToolResult(r), names);
    hide Only;
    var ms := ToolResult(r).members;
    assert DistinctKeys(ms);
    LookupAt(ms, 0);
    LookupAt(ms, 1);
    LookupAt(ms, 2);
  }

  lemma {:induction false} UsesAreSaid(calls: seq<NamedCall>, first: seq<Json>, n: nat)
    requires n < |calls|
    ensures UseSays(calls[n], (first + ToolUses(calls))[|first| + n])
  {
    hide UseSays, ToolUse;
    UseIsSaid(calls[n]);
    assert (first + ToolUses(calls))[|first| + n] == ToolUses(calls)[n];
  }

  lemma {:induction false} CallsAreSaid(m: ChatMessage, calls: seq<NamedCall>, nth: int, total: int)
    ensures AnthropicSays(Called(m, calls), nth, total,
                          Message("assistant", Array(AnthropicBlocks(m.content) + ToolUses(calls))))
  {
    hide BlocksSay, UseSays, ToolUse, Message, Get, AnthropicBlocks, Only;
    var first := AnthropicBlocks(m.content);
    var all := first + ToolUses(calls);
    MessageContentIs("assistant", Array(all));
    MessageNames("assistant", Array(all));
    BlocksAreSaid(m.content);
    assert all[..|first|] == first;
    forall n | 0 <= n < |calls| ensures UseSays(calls[n], all[|first| + n]) {
      UsesAreSaid(calls, first, n);
    }
  }

  lemma PlainIsSaid(m: ChatMessage, nth: int, total: int)
    ensures AnthropicSays(Said(m), nth, total, Message(RoleName(m.role), AnthropicContent(m.content)))
  {
    hide BlocksSay, Message, Get, AnthropicBlocks, HasRole, Only;
    SaidHasRole(m, AnthropicContent(m.content));
    BlocksAreSaid(m.content);
  }

  lemma {:induction false} RunIsSaid(msgs: seq<ChatMessage>, k: nat)
    requires k < |msgs| && IsTool(msgs[k])
    ensures AnthropicSays(Answered(msgs[k], ResultId(msgs, k)), k - RunStart(msgs, k),
                          RunEnd(msgs, k) - RunStart(msgs, k), AnthropicOf(msgs, k))
  {
    hide AnthropicSays, Message, Get, RunStart, RunEnd, OpenIds, ResolveResult;
    var (s, e) := (RunStart(msgs, k), RunEnd(msgs, k));
    var run := RunOf(msgs, s, e, OpenIds(msgs, s));
    assert k < e by { RunEndAfter(msgs, k); }
    assert run[k - s] == NamedResult(msgs[k], ResultId(msgs, k));
    ResultsAreSaid(run, k - s);
  }

  lemma ResultsAreSaid(run: seq<NamedResult>, nth: nat)
    requires nth < |run|
    ensures AnthropicSays(Answered(run[nth].m, run[nth].id), nth, |run|, Message("user", Array(ToolResults(run))))
  {
    hide ResultSays, ToolResult, Message, Get, Only;
    MessageContentIs("user", Array(ToolResults(run)));
    MessageNames("user", Array(ToolResults(run)));
    ResultIsSaid(run[nth]);
  }

  lemma RunEndAfter(msgs: seq<ChatMessage>, k: nat)
    requires k < |msgs| && IsTool(msgs[k])
    ensures k < RunEnd(msgs, k)
  {
  }

  lemma AnthropicOfIsSaid(msgs: seq<ChatMessage>, k: nat)
    requires k < |msgs|
    ensures var start := if msgs[k].role == Tool then RunStart(msgs, k) else k;
            AnthropicSays(ResolveAt(msgs, k), k - start, RunEnd(msgs, k) - start, AnthropicOf(msgs, k))
  {
    hide AnthropicSays, Message, RunStart, RunEnd, ResultId;
    if IsTool(msgs[k]) {
      RunIsSaid(msgs, k);
    } else if msgs[k].toolCalls == [] {
      PlainIsSaid(msgs[k], 0, RunEnd(msgs, k) - k);
    } else {
      CallsAreSaid(msgs[k], CallsOf(msgs, k), 0, RunEnd(msgs, k) - k);
    }
  }

  lemma AnthropicSaysEveryMessage(msgs: seq<ChatMessage>)
    ensures AnthropicSaysAll(msgs, FlatMap(AnthropicTurn, PlanOf(msgs)))
  {
    hide AnthropicSays, AnthropicOf, AnthropicTurn, ResolveTurn, FlatMap, ResolveAt, Begun, RunStart, RunEnd, PlanFrom;
    PlanResolvesEveryMessage(msgs);
    NoOpenIds(msgs);
    PlanIsPlaced(msgs, 0);
    var out := FlatMap(AnthropicTurn, PlanOf(msgs));
    var rs := FlatMap(ResolveTurn, PlanOf(msgs));
    forall k: nat | k < |msgs| && !Hoisted(msgs[k]) ensures SaidAt(msgs, rs[k], out, k) {
      AnthropicOfIsSaid(msgs, k);
    }
  }
}
