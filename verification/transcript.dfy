/** A chat transcript, its grouping into turns, and the id every call and result gets. */
module Transcript {
  import opened Text
  import opened Json

  datatype Role = System | User | Assistant | Tool

  datatype ContentBlock =
    | TextBlock(text: string)
    | Thinking(thinking: string, signature: Option<string>)

  datatype MessageContent = Prose(s: string) | Blocks(blocks: seq<ContentBlock>)

  datatype ToolCall = ToolCall(id: Option<string>, name: string, arguments: Json)

  datatype ChatMessage = ChatMessage(
    role: Role, content: MessageContent, toolCalls: seq<ToolCall>, toolCallId: Option<string>)

  datatype NamedCall = NamedCall(call: ToolCall, id: string)
  datatype NamedResult = NamedResult(m: ChatMessage, id: string)

  datatype Turn =
    | Plain(m: ChatMessage)
    | Calls(m: ChatMessage, calls: seq<NamedCall>)
    | Results(results: seq<NamedResult>)

  predicate IsTool(m: ChatMessage) {
    m.role == Tool
  }

  predicate MakesCalls(m: ChatMessage) {
    !IsTool(m) && m.toolCalls != []
  }

  // ---------------------------------------------------------------------------
  // Ids by position, without walking the transcript
  // ---------------------------------------------------------------------------

  function SyntheticId(turn: nat, call: nat): string {
    "domarinn_call_" + Decimal(turn) + "_" + Decimal(call)
  }

  ghost predicate IsSynthetic(id: string) {
    exists t: nat, c: nat :: id == SyntheticId(t, c)
  }

  lemma SyntheticInjective(t: nat, c: nat, t': nat, c': nat)
    requires SyntheticId(t, c) == SyntheticId(t', c')
    ensures t == t' && c == c'
  {
    var p := "domarinn_call_";
    var (a, b) := (Decimal(t) + ['_'] + Decimal(c), Decimal(t') + ['_'] + Decimal(c'));
    assert SyntheticId(t, c) == p + a && SyntheticId(t', c') == p + b;
    assert (p + a)[|p|..] == a && (p + b)[|p|..] == b;
    DecimalShape(t);
    DecimalShape(t');
    SplitAtSeparator(Decimal(t), Decimal(t'), Decimal(c), Decimal(c'), '_');
    DecimalInjective(t, t');
    DecimalInjective(c, c');
  }

  /** The id of call `n` of turn `i`. */
  function CallId(msgs: seq<ChatMessage>, i: nat, n: nat): string
    requires i < |msgs| && n < |msgs[i].toolCalls|
  {
    var id := msgs[i].toolCalls[n].id;
    if id.Some? then id.value else SyntheticId(i, n)
  }

  function CallIds(msgs: seq<ChatMessage>, i: nat): seq<string>
    requires i < |msgs|
  {
    seq(|msgs[i].toolCalls|, n requires 0 <= n < |msgs[i].toolCalls| => CallId(msgs, i, n))
  }

  /** Where the run of tool turns around `k` begins. */
  function RunStart(msgs: seq<ChatMessage>, k: nat): (s: nat)
    requires k < |msgs| && IsTool(msgs[k])
    ensures s <= k && (s == 0 || !IsTool(msgs[s - 1]))
    ensures forall j | s <= j <= k :: IsTool(msgs[j])
  {
    if k > 0 && IsTool(msgs[k - 1]) then RunStart(msgs, k - 1) else k
  }

  /** The latest call turn before `s` that no results run has consumed. */
  function OpenTurn(msgs: seq<ChatMessage>, s: nat): (r: Option<nat>)
    requires s <= |msgs|
    ensures r.Some? ==> r.value < s && MakesCalls(msgs[r.value])
    ensures r.Some? ==> forall j | r.value < j < s :: !IsTool(msgs[j]) && !MakesCalls(msgs[j])
  {
    if s == 0 || IsTool(msgs[s - 1]) then None
    else if MakesCalls(msgs[s - 1]) then Some(s - 1)
    else OpenTurn(msgs, s - 1)
  }

  function OpenIds(msgs: seq<ChatMessage>, s: nat): seq<string>
    requires s <= |msgs|
  {
    var open := OpenTurn(msgs, s);
    if open.Some? then CallIds(msgs, open.value) else []
  }

  /** The id of the result at turn `k`: its own, else the call it answers by position, else new. */
  function ResultId(msgs: seq<ChatMessage>, k: nat): string
    requires k < |msgs| && IsTool(msgs[k])
  {
    var s := RunStart(msgs, k);
    ResolveResult(msgs[k], OpenIds(msgs, s), s, k - s)
  }

  function ResolveResult(m: ChatMessage, open: seq<string>, start: nat, nth: nat): string {
    if m.toolCallId.Some? then m.toolCallId.value
    else if nth < |open| then open[nth]
    else SyntheticId(start, nth)
  }

  // ---------------------------------------------------------------------------
  // `plan`: one pass with the ids of the open round carried along
  // ---------------------------------------------------------------------------

  function RunEnd(msgs: seq<ChatMessage>, i: nat): (j: nat)
    requires i <= |msgs|
    ensures i <= j <= |msgs|
    ensures forall k | i <= k < j :: IsTool(msgs[k])
    ensures j < |msgs| ==> !IsTool(msgs[j])
    decreases |msgs| - i
  {
    if i < |msgs| && IsTool(msgs[i]) then RunEnd(msgs, i + 1) else i
  }

  function RunOf(msgs: seq<ChatMessage>, i: nat, j: nat, open: seq<string>): seq<NamedResult>
    requires i <= j <= |msgs|
  {
    seq(j - i, n requires 0 <= n < j - i => NamedResult(msgs[i + n], ResolveResult(msgs[i + n], open, i, n)))
  }

  function CallsOf(msgs: seq<ChatMessage>, i: nat): seq<NamedCall>
    requires i < |msgs|
  {
    seq(|msgs[i].toolCalls|, n requires 0 <= n < |msgs[i].toolCalls| =>
      NamedCall(msgs[i].toolCalls[n], CallId(msgs, i, n)))
  }

  function PlanFrom(msgs: seq<ChatMessage>, i: nat, open: seq<string>): seq<Turn>
    requires i <= |msgs|
    decreases |msgs| - i
  {
    if i == |msgs| then []
    else if IsTool(msgs[i]) then
      var j := RunEnd(msgs, i + 1);
      [Results(RunOf(msgs, i, j, open))] + PlanFrom(msgs, j, [])
    else if msgs[i].toolCalls == [] then [Plain(msgs[i])] + PlanFrom(msgs, i + 1, open)
    else [Calls(msgs[i], CallsOf(msgs, i))] + PlanFrom(msgs, i + 1, CallIds(msgs, i))
  }

  function PlanOf(msgs: seq<ChatMessage>): seq<Turn> {
    PlanFrom(msgs, 0, [])
  }

  /** Message by message the ids are the ones the transcript names or its positions fix, in maximal groups. */
  method Plan(msgs: seq<ChatMessage>) returns (out: seq<Turn>)
    ensures out == PlanOf(msgs)
    ensures WellGrouped(out) && IdsAreRight(msgs, FlatMap(ResolveTurn, out))
  {
    hide WellGrouped, IdsAreRight, FlatMap;
    out := [];
    var openCalls: seq<string> := [];
    var i := 0;
    while i < |msgs|
      invariant i <= |msgs|
      invariant out + PlanFrom(msgs, i, openCalls) == PlanOf(msgs)
    {
      ghost var (before, rest) := (out, PlanFrom(msgs, i, openCalls));
      var m := msgs[i];
      if IsTool(m) {
        var start := i;
        var run: seq<NamedResult> := [];
        while i < |msgs| && IsTool(msgs[i])
          invariant start <= i <= |msgs|
          invariant run == RunOf(msgs, start, i, openCalls)
          invariant RunEnd(msgs, start) == RunEnd(msgs, i)
        {
          var nth := i - start;
          var id := ResolveResult(msgs[i], openCalls, start, nth);
          run := run + [NamedResult(msgs[i], id)];
          i := i + 1;
        }
        openCalls := [];
        out := out + [Results(run)];
        assert rest == [Results(run)] + PlanFrom(msgs, i, []);
        Assoc(before, [Results(run)], PlanFrom(msgs, i, openCalls));
      } else if m.toolCalls == [] {
        out := out + [Plain(m)];
        i := i + 1;
        Assoc(before, [Plain(m)], PlanFrom(msgs, i, openCalls));
      } else {
        var calls := CallsOf(msgs, i);
        openCalls := seq(|calls|, n requires 0 <= n < |calls| => calls[n].id);
        assert openCalls == CallIds(msgs, i);
        out := out + [Calls(m, calls)];
        i := i + 1;
        Assoc(before, [Calls(m, calls)], PlanFrom(msgs, i, openCalls));
      }
    }
    PlanWellGrouped(msgs, 0, []);
    PlanNamesIds(msgs);
  }

  // ---------------------------------------------------------------------------
  // The plan says, message by message, what the positions say
  // ---------------------------------------------------------------------------

  datatype Resolved =
    | Said(m: ChatMessage)
    | Called(m: ChatMessage, calls: seq<NamedCall>)
    | Answered(m: ChatMessage, id: string)

  function ResolveTurn(t: Turn): seq<Resolved> {
    match t
    case Plain(m) => [Said(m)]
    case Calls(m, calls) => [Called(m, calls)]
    case Results(rs) => seq(|rs|, n requires 0 <= n < |rs| => Answered(rs[n].m, rs[n].id))
  }

  function ResolveAt(msgs: seq<ChatMessage>, k: nat): Resolved
    requires k < |msgs|
  {
    if IsTool(msgs[k]) then Answered(msgs[k], ResultId(msgs, k))
    else if msgs[k].toolCalls == [] then Said(msgs[k])
    else Called(msgs[k], CallsOf(msgs, k))
  }

  function ResolvedFrom(msgs: seq<ChatMessage>, i: nat): seq<Resolved>
    requires i <= |msgs|
  {
    seq(|msgs| - i, n requires 0 <= n < |msgs| - i => ResolveAt(msgs, i + n))
  }

  lemma {:induction false} RunStartIs(msgs: seq<ChatMessage>, s: nat, k: nat)
    requires s <= k < |msgs| && (s == 0 || !IsTool(msgs[s - 1]))
    requires forall j | s <= j <= k :: IsTool(msgs[j])
    ensures RunStart(msgs, k) == s
    decreases k
  {
    if k <= s {
    } else {
      RunStartIs(msgs, s, k - 1);
    }
  }

  lemma {:induction false} PlanIsPositional(msgs: seq<ChatMessage>, i: nat)
    requires i <= |msgs|
    requires i == 0 || i == |msgs| || !IsTool(msgs[i - 1]) || !IsTool(msgs[i])
    ensures FlatMap(ResolveTurn, PlanFrom(msgs, i, OpenIds(msgs, i))) == ResolvedFrom(msgs, i)
    decreases |msgs| - i
  {
    hide FlatMap, CallsOf, CallIds, SyntheticId, RunOf, ResultId, OpenIds, ResolveResult;
    if i == |msgs| {
      assert FlatMap(ResolveTurn, []) == [] by { EmptyFlatMap(ResolveTurn); }
    } else if IsTool(msgs[i]) {
      var j := RunEnd(msgs, i + 1);
      var run := RunOf(msgs, i, j, OpenIds(msgs, i));
      RunIsPositional(msgs, i, j);
      PlanIsPositional(msgs, j);
      FlatMapCons(ResolveTurn, Results(run), PlanFrom(msgs, j, []));
    } else {
      PlanIsPositional(msgs, i + 1);
      OpenIdsNext(msgs, i);
      assert ResolvedFrom(msgs, i) == [ResolveAt(msgs, i)] + ResolvedFrom(msgs, i + 1);
      if msgs[i].toolCalls == [] {
        FlatMapCons(ResolveTurn, Plain(msgs[i]), PlanFrom(msgs, i + 1, OpenIds(msgs, i)));
      } else {
        FlatMapCons(ResolveTurn, Calls(msgs[i], CallsOf(msgs, i)), PlanFrom(msgs, i + 1, CallIds(msgs, i)));
      }
    }
  }

  lemma OpenIdsNext(msgs: seq<ChatMessage>, i: nat)
    requires i < |msgs| && !IsTool(msgs[i])
    ensures OpenIds(msgs, i + 1) == if msgs[i].toolCalls == [] then OpenIds(msgs, i) else CallIds(msgs, i)
  {
    hide CallIds;
  }

  lemma RunIsPositional(msgs: seq<ChatMessage>, i: nat, j: nat)
    requires i < j <= |msgs| && (i == 0 || !IsTool(msgs[i - 1]))
    requires forall k | i <= k < j :: IsTool(msgs[k])
    ensures OpenIds(msgs, j) == []
    ensures ResolvedFrom(msgs, i) ==
            ResolveTurn(Results(RunOf(msgs, i, j, OpenIds(msgs, i)))) + ResolvedFrom(msgs, j)
  {
    hide SyntheticId, CallIds;
    assert IsTool(msgs[j - 1]);
    var run := RunOf(msgs, i, j, OpenIds(msgs, i));
    forall n | 0 <= n < j - i ensures ResolveTurn(Results(run))[n] == ResolveAt(msgs, i + n) {
      RunStartIs(msgs, i, i + n);
    }
  }

  /** The single pass finds, for every message in order, exactly what its position dictates. */
  lemma PlanResolvesEveryMessage(msgs: seq<ChatMessage>)
    ensures FlatMap(ResolveTurn, PlanOf(msgs)) == ResolvedFrom(msgs, 0)
    ensures |FlatMap(ResolveTurn, PlanOf(msgs))| == |msgs|
    ensures forall k | 0 <= k < |msgs| :: FlatMap(ResolveTurn, PlanOf(msgs))[k].m == msgs[k]
  {
    NoOpenIds(msgs);
    PlanIsPositional(msgs, 0);
  }

  lemma NoOpenIds(msgs: seq<ChatMessage>)
    ensures OpenIds(msgs, 0) == []
  {
  }

  // ---------------------------------------------------------------------------
  // Which id that is, spelled out
  // ---------------------------------------------------------------------------

  /** The run of tool turns that holds message `k` begins at `s`. */
  ghost predicate RunBegins(msgs: seq<ChatMessage>, s: int, k: int) {
    && 0 <= s <= k < |msgs| && (s == 0 || msgs[s - 1].role != Tool)
    && forall j | s <= j <= k :: msgs[j].role == Tool
  }

  /** Message `i` makes the last calls before `s`, and no tool turn has come in between. */
  ghost predicate CallsLast(msgs: seq<ChatMessage>, i: int, s: int) {
    && 0 <= i < s <= |msgs| && msgs[i].role != Tool && msgs[i].toolCalls != []
    && forall j | i < j < s :: msgs[j].role != Tool && msgs[j].toolCalls == []
  }

  /** Each call keeps its own id, and one without gets the id invented for its place. */
  ghost predicate CallIdsAreRight(msgs: seq<ChatMessage>, k: int, calls: seq<NamedCall>)
    requires 0 <= k < |msgs|
  {
    && |calls| == |msgs[k].toolCalls|
    && forall n | 0 <= n < |calls| ::
         && calls[n].call == msgs[k].toolCalls[n]
         && calls[n].id == (if calls[n].call.id.Some? then calls[n].call.id.value
                            else "domarinn_call_" + Decimal(k) + "_" + Decimal(n))
  }

  /**
   * A result keeps its own id. One without answers, by its place in its run, a call of the turn
   * that called last; with no such call it gets the id invented for its place.
   */
  ghost predicate ResultIdIsRight(msgs: seq<ChatMessage>, rs: seq<Resolved>, k: int, id: string)
    requires 0 <= k < |msgs| && |rs| == |msgs|
  {
    if msgs[k].toolCallId.Some? then id == msgs[k].toolCallId.value
    else forall s | RunBegins(msgs, s, k) :: AnswersCall(msgs, rs, s, k - s, id) || AnswersNone(msgs, s, k - s, id)
  }

  /** The `nth` result of the run at `s` has the id of the `nth` call of the turn that called last. */
  ghost predicate AnswersCall(msgs: seq<ChatMessage>, rs: seq<Resolved>, s: int, nth: int, id: string)
    requires |rs| == |msgs|
  {
    exists i :: CallsLast(msgs, i, s) && rs[i].Called? && 0 <= nth < |msgs[i].toolCalls| == |rs[i].calls|
                && id == rs[i].calls[nth].id
  }

  /** There is no such call, and the id is invented. */
  ghost predicate AnswersNone(msgs: seq<ChatMessage>, s: int, nth: int, id: string) {
    && 0 <= s && 0 <= nth && id == "domarinn_call_" + Decimal(s) + "_" + Decimal(nth)
    && forall i | CallsLast(msgs, i, s) :: |msgs[i].toolCalls| <= nth
  }

  ghost predicate MessageIsRight(msgs: seq<ChatMessage>, rs: seq<Resolved>, k: int)
    requires 0 <= k < |msgs| && |rs| == |msgs|
  {
    && rs[k].m == msgs[k]
    && (rs[k].Answered? <==> msgs[k].role == Tool)
    && (rs[k].Called? <==> msgs[k].role != Tool && msgs[k].toolCalls != [])
    && (rs[k].Called? ==> CallIdsAreRight(msgs, k, rs[k].calls))
    && (rs[k].Answered? ==> ResultIdIsRight(msgs, rs, k, rs[k].id))
  }

  ghost predicate IdsAreRight(msgs: seq<ChatMessage>, rs: seq<Resolved>) {
    |rs| == |msgs| && forall k | 0 <= k < |msgs| :: MessageIsRight(msgs, rs, k)
  }

  lemma CallsOfAreRight(msgs: seq<ChatMessage>, k: nat)
    requires k < |msgs|
    ensures CallIdsAreRight(msgs, k, CallsOf(msgs, k))
  {
    hide Decimal;
  }

  /** The turn that called last before `s`, if any, is the one found by walking back. */
  lemma {:induction false} OpenTurnIs(msgs: seq<ChatMessage>, s: nat, i: nat)
    requires CallsLast(msgs, i, s)
    ensures OpenTurn(msgs, s) == Some(i)
    decreases s
  {
    if i == s - 1 {
    } else {
      OpenTurnIs(msgs, s - 1, i);
    }
  }

  lemma ResultOfIsRight(msgs: seq<ChatMessage>, k: nat)
    requires k < |msgs| && IsTool(msgs[k])
    ensures ResultIdIsRight(msgs, ResolvedFrom(msgs, 0), k, ResultId(msgs, k))
  {
    hide Decimal, CallId, AnswersCall, AnswersNone, OpenIds;
    var rs := ResolvedFrom(msgs, 0);
    if msgs[k].toolCallId.None? {
      forall s | RunBegins(msgs, s, k)
        ensures AnswersCall(msgs, rs, s, k - s, ResultId(msgs, k)) || AnswersNone(msgs, s, k - s, ResultId(msgs, k))
      {
        UnnamedResultIsRight(msgs, s, k);
      }
    }
  }

  lemma UnnamedResultIsRight(msgs: seq<ChatMessage>, s: nat, k: nat)
    requires RunBegins(msgs, s, k) && msgs[k].toolCallId.None?
    ensures var (rs, id) := (ResolvedFrom(msgs, 0), ResultId(msgs, k));
            AnswersCall(msgs, rs, s, k - s, id) || AnswersNone(msgs, s, k - s, id)
  {
    hide Decimal, CallId, ResultId, OpenTurn, RunStart;
    RunStartIs(msgs, s, k);
    ResultIdCases(msgs, k);
    var open := OpenTurn(msgs, s);
    forall i | CallsLast(msgs, i, s) ensures open == Some(i) {
      OpenTurnIs(msgs, s, i);
    }
    if open.Some? {
      assert CallsLast(msgs, open.value, s);
      assert ResolvedFrom(msgs, 0)[open.value] == Called(msgs[open.value], CallsOf(msgs, open.value));
    }
  }

  lemma PlanNamesIds(msgs: seq<ChatMessage>)
    ensures IdsAreRight(msgs, FlatMap(ResolveTurn, PlanOf(msgs)))
  {
    hide MessageIsRight, FlatMap, PlanOf;
    PlanResolvesEveryMessage(msgs);
    var rs := ResolvedFrom(msgs, 0);
    forall k | 0 <= k < |msgs| ensures MessageIsRight(msgs, rs, k) {
      ResolvedIsRight(msgs, k);
    }
  }

  lemma ResolvedIsRight(msgs: seq<ChatMessage>, k: nat)
    requires k < |msgs|
    ensures MessageIsRight(msgs, ResolvedFrom(msgs, 0), k)
  {
    hide CallIdsAreRight, ResultIdIsRight, ResultId, CallsOf;
    if IsTool(msgs[k]) {
      ResultOfIsRight(msgs, k);
    } else {
      CallsOfAreRight(msgs, k);
    }
  }

  /** Results runs are non-empty, hold tool turns only, and are never split in two. */
  ghost predicate WellGrouped(turns: seq<Turn>) {
    && (forall i | 0 <= i < |turns| ::
         match turns[i]
         case Plain(m) => m.role != Tool && m.toolCalls == []
         case Calls(m, calls) => m.role != Tool && m.toolCalls != [] && |calls| == |m.toolCalls|
         case Results(rs) => rs != [] && forall n | 0 <= n < |rs| :: rs[n].m.role == Tool)
    && (forall i | 0 < i < |turns| :: !(turns[i - 1].Results? && turns[i].Results?))
  }

  lemma GroupsPrepend(t: Turn, turns: seq<Turn>)
    requires WellGrouped(turns) && WellGrouped([t])
    requires turns != [] ==> !(t.Results? && turns[0].Results?)
    ensures WellGrouped([t] + turns)
  {
    var all := [t] + turns;
    assert all[0] == [t][0];
    assert forall i | 0 < i < |all| :: all[i] == turns[i - 1];
  }

  lemma {:induction false} PlanWellGrouped(msgs: seq<ChatMessage>, i: nat, open: seq<string>)
    requires i <= |msgs|
    ensures WellGrouped(PlanFrom(msgs, i, open))
    ensures i < |msgs| && !IsTool(msgs[i]) ==> !PlanFrom(msgs, i, open)[0].Results?
    decreases |msgs| - i
  {
    hide RunOf, ResolveResult, CallId;
    if i == |msgs| {
    } else if IsTool(msgs[i]) {
      var j := RunEnd(msgs, i + 1);
      PlanWellGrouped(msgs, j, []);
      RunGrouped(msgs, i, j, open);
      GroupsPrepend(Results(RunOf(msgs, i, j, open)), PlanFrom(msgs, j, []));
    } else if msgs[i].toolCalls == [] {
      PlanWellGrouped(msgs, i + 1, open);
      GroupsPrepend(Plain(msgs[i]), PlanFrom(msgs, i + 1, open));
    } else {
      PlanWellGrouped(msgs, i + 1, CallIds(msgs, i));
      GroupsPrepend(Calls(msgs[i], CallsOf(msgs, i)), PlanFrom(msgs, i + 1, CallIds(msgs, i)));
    }
  }

  lemma RunGrouped(msgs: seq<ChatMessage>, i: nat, j: nat, open: seq<string>)
    requires i < j <= |msgs| && forall k | i <= k < j :: IsTool(msgs[k])
    ensures WellGrouped([Results(RunOf(msgs, i, j, open))])
  {
    hide ResolveResult;
  }

  // ---------------------------------------------------------------------------
  // Id correlation
  // ---------------------------------------------------------------------------

  /** `n` names a call of the call turn `i`. */
  predicate IsCall(msgs: seq<ChatMessage>, i: nat, n: nat) {
    i < |msgs| && MakesCalls(msgs[i]) && n < |msgs[i].toolCalls|
  }

  /** Explicit call ids are pairwise distinct and none looks invented. */
  ghost predicate ExplicitIdsDistinct(msgs: seq<ChatMessage>) {
    && (forall i: nat, n: nat | IsCall(msgs, i, n) && msgs[i].toolCalls[n].id.Some? ::
          !IsSynthetic(msgs[i].toolCalls[n].id.value))
    && (forall i: nat, n: nat, j: nat, m: nat |
          IsCall(msgs, i, n) && IsCall(msgs, j, m) && msgs[i].toolCalls[n].id.Some? && (i, n) != (j, m) ::
          msgs[i].toolCalls[n].id != msgs[j].toolCalls[m].id)
  }

  ghost predicate ResultsUnnamed(msgs: seq<ChatMessage>) {
    forall k | 0 <= k < |msgs| && IsTool(msgs[k]) :: msgs[k].toolCallId.None?
  }

  lemma CallIdsDistinct(msgs: seq<ChatMessage>, i: nat, n: nat, j: nat, m: nat)
    requires ExplicitIdsDistinct(msgs) && IsCall(msgs, i, n) && IsCall(msgs, j, m)
    requires CallId(msgs, i, n) == CallId(msgs, j, m)
    ensures i == j && n == m
  {
    if msgs[i].toolCalls[n].id.None? && msgs[j].toolCalls[m].id.None? {
      SyntheticInjective(i, n, j, m);
    }
  }

  /** A synthetic id belongs to a call only if it was made for that call's own position. */
  lemma CallIdSynthetic(msgs: seq<ChatMessage>, i: nat, n: nat, t: nat, c: nat)
    requires ExplicitIdsDistinct(msgs) && IsCall(msgs, i, n)
    requires CallId(msgs, i, n) == SyntheticId(t, c)
    ensures t == i && c == n
  {
    if msgs[i].toolCalls[n].id.None? {
      SyntheticInjective(i, n, t, c);
    }
  }

  /** The call a result answers by position, if any. */
  ghost predicate AnswersByPosition(msgs: seq<ChatMessage>, k: nat, i: nat, n: nat)
    requires k < |msgs| && IsTool(msgs[k])
  {
    var s := RunStart(msgs, k);
    OpenTurn(msgs, s) == Some(i) && n == k - s && IsCall(msgs, i, n)
  }

  /** Either the id of the call answered by position, or one invented for the run. */
  lemma ResultIdCases(msgs: seq<ChatMessage>, k: nat)
    requires k < |msgs| && IsTool(msgs[k]) && (ResultsUnnamed(msgs) || msgs[k].toolCallId.None?)
    ensures
      var s := RunStart(msgs, k);
      var open := OpenTurn(msgs, s);
      if open.Some? && k - s < |msgs[open.value].toolCalls| then
        IsCall(msgs, open.value, k - s) && ResultId(msgs, k) == CallId(msgs, open.value, k - s)
      else ResultId(msgs, k) == SyntheticId(s, k - s)
  {
    hide SyntheticId, CallId, RunStart, OpenTurn;
  }

  /** A result carries a call's id exactly when that call is the one its position answers. */
  lemma ResultSharesIdWithItsCallOnly(msgs: seq<ChatMessage>, k: nat, i: nat, n: nat)
    requires ExplicitIdsDistinct(msgs) && ResultsUnnamed(msgs)
    requires k < |msgs| && IsTool(msgs[k]) && IsCall(msgs, i, n)
    ensures ResultId(msgs, k) == CallId(msgs, i, n) <==> AnswersByPosition(msgs, k, i, n)
  {
    hide SyntheticId, CallId, ResultId, OpenTurn, RunStart, ExplicitIdsDistinct, ResultsUnnamed;
    ResultIdCases(msgs, k);
    var s := RunStart(msgs, k);
    var open := OpenTurn(msgs, s);
    if ResultId(msgs, k) == CallId(msgs, i, n) {
      if open.Some? && k - s < |msgs[open.value].toolCalls| {
        CallIdsDistinct(msgs, open.value, k - s, i, n);
      } else {
        CallIdSynthetic(msgs, i, n, s, k - s);
        assert false;
      }
    }
  }

  /** Two results with one id are one result. */
  lemma ResultIdsDistinct(msgs: seq<ChatMessage>, k: nat, l: nat)
    requires ExplicitIdsDistinct(msgs) && ResultsUnnamed(msgs)
    requires k <= l < |msgs| && IsTool(msgs[k]) && IsTool(msgs[l])
    requires ResultId(msgs, k) == ResultId(msgs, l)
    ensures k == l
  {
    hide SyntheticId, CallId, ResultId, OpenTurn, RunStart, ExplicitIdsDistinct, ResultsUnnamed;
    ResultIdCases(msgs, k);
    ResultIdCases(msgs, l);
    var (s, t) := (RunStart(msgs, k), RunStart(msgs, l));
    var (os, ot) := (OpenTurn(msgs, s), OpenTurn(msgs, t));
    var paired := os.Some? && k - s < |msgs[os.value].toolCalls|;
    var paired' := ot.Some? && l - t < |msgs[ot.value].toolCalls|;
    if paired && paired' {
      CallIdsDistinct(msgs, os.value, k - s, ot.value, l - t);
      OpenTurnsApart(msgs, s, t);
    } else if paired {
      CallIdSynthetic(msgs, os.value, k - s, t, l - t);
    } else if paired' {
      CallIdSynthetic(msgs, ot.value, l - t, s, k - s);
    } else {
      SyntheticInjective(s, k - s, t, l - t);
    }
  }

  /** Two runs that start at different places never share an open call turn. */
  lemma OpenTurnsApart(msgs: seq<ChatMessage>, s: nat, t: nat)
    requires s < |msgs| && t < |msgs| && IsTool(msgs[s]) && IsTool(msgs[t])
    requires OpenTurn(msgs, s).Some? && OpenTurn(msgs, s) == OpenTurn(msgs, t)
    ensures s == t
  {
  }
}
