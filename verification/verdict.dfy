/** Local assertion verdicts: the `tool-call` arm, negation, and the vacuous-pass guard. */
module Verdicts {
  import opened Text
  import opened Json
  import opened Transcript
  import opened PurgeFilters

  // ---------------------------------------------------------------------------
  // Outcomes
  // ---------------------------------------------------------------------------

  datatype Reason =
    | NotCalled
    | CalledAsExpected
    | RenderFailed
    | ArgsNotAnObject
    | MissingArgument(key: string)
    | WrongArgument(key: string)
    | SchemaViolated
    | SchemaInvalid
    | NoneMatching(last: Reason)
    | Negated(of: Reason)
    | EmptyOutput(why: string)
    | Other(text: string)

  datatype AssertOutcome = AssertOutcome(score: real, passed: bool, reason: Reason, unevaluable: bool)

  function Pass(reason: Reason): AssertOutcome {
    AssertOutcome(1.0, true, reason, false)
  }

  function Failed(reason: Reason): AssertOutcome {
    AssertOutcome(0.0, false, reason, false)
  }

  function Unevaluable(reason: Reason): AssertOutcome {
    AssertOutcome(0.0, false, reason, true)
  }

  function NegatedOutcome(o: AssertOutcome, negate: bool): AssertOutcome {
    if !negate || o.unevaluable then o
    else AssertOutcome(1.0 - o.score, !o.passed, Negated(o.reason), false)
  }

  function DenyVacuousNegatedPass(o: AssertOutcome, negate: bool, emptyReason: Option<string>): AssertOutcome {
    if emptyReason.None? || !negate || !o.passed || o.unevaluable then o
    else AssertOutcome(0.0, false, EmptyOutput(emptyReason.value), false)
  }

  /** What the evaluators produce: a broken assertion has failed with score zero. */
  predicate Evaluated(o: AssertOutcome) {
    o.unevaluable ==> !o.passed && o.score == 0.0
  }

  // ---------------------------------------------------------------------------
  // The assertion
  // ---------------------------------------------------------------------------

  /** The expected arguments after rendering; rendering does not look at the calls. */
  datatype Rendered = RenderError | RenderedTo(value: Json)

  /** A JSON Schema: whether it compiles depends on the schema alone. */
  datatype Schema = Schema(compiles: bool, accepts: Json -> bool)

  datatype AssertKind =
    | ToolCallAssert(name: string, args: Option<Rendered>, schema: Option<Schema>)
    | MetricAssert(raw: AssertOutcome)
    | OutputAssert(raw: AssertOutcome)
    | GradedAssert

  datatype MatchResult = Match | Mismatch(reason: Reason, unevaluable: bool)

  /** The first expected argument the call does not carry with an equal value. */
  function ArgumentProblem(expected: seq<Member>, arguments: Json): Option<Reason> {
    if expected == [] then None
    else
      var got := Get(arguments, expected[0].key);
      if got.None? then Some(MissingArgument(expected[0].key))
      else if !Equiv(got.value, expected[0].value) then Some(WrongArgument(expected[0].key))
      else ArgumentProblem(expected[1..], arguments)
  }

  /** What `args` and `schema` demand of one call. */
  function ToolCallMatches(call: ToolCall, args: Option<Rendered>, schema: Option<Schema>): MatchResult {
    if args.Some? && args.value.RenderError? then Mismatch(RenderFailed, true)
    else if args.Some? && !args.value.value.Object? then Mismatch(ArgsNotAnObject, true)
    else
      var problem := if args.Some? then ArgumentProblem(args.value.value.members, call.arguments) else None;
      if problem.Some? then Mismatch(problem.value, false)
      else if schema.Some? && !schema.value.compiles then Mismatch(SchemaInvalid, true)
      else if schema.Some? && !schema.value.accepts(call.arguments) then Mismatch(SchemaViolated, false)
      else Match
  }

  // ---------------------------------------------------------------------------
  // What the verdict should be, without an order
  // ---------------------------------------------------------------------------

  /** Every expected argument is present with an equal value. */
  ghost predicate HasArguments(call: ToolCall, expected: seq<Member>) {
    forall i | 0 <= i < |expected| ::
      var got := Get(call.arguments, expected[i].key);
      got.Some? && Equiv(got.value, expected[i].value)
  }

  ghost predicate ArgsBroken(args: Option<Rendered>) {
    args.Some? && (args.value.RenderError? || !args.value.value.Object?)
  }

  ghost predicate ArgsHold(call: ToolCall, args: Option<Rendered>) {
    !ArgsBroken(args) && (args.Some? ==> HasArguments(call, args.value.value.members))
  }

  ghost predicate Satisfies(call: ToolCall, args: Option<Rendered>, schema: Option<Schema>) {
    ArgsHold(call, args) && (schema.Some? ==> schema.value.compiles && schema.value.accepts(call.arguments))
  }

  /** The assertion cannot be judged on this call. */
  ghost predicate Breaks(call: ToolCall, args: Option<Rendered>, schema: Option<Schema>) {
    ArgsBroken(args) || (ArgsHold(call, args) && schema.Some? && !schema.value.compiles)
  }

  ghost predicate SomeSatisfies(calls: seq<ToolCall>, k: AssertKind)
    requires k.ToolCallAssert?
  {
    exists c :: c in calls && c.name == k.name && Satisfies(c, k.args, k.schema)
  }

  ghost predicate SomeBreaks(calls: seq<ToolCall>, k: AssertKind)
    requires k.ToolCallAssert?
  {
    exists c :: c in calls && c.name == k.name && Breaks(c, k.args, k.schema)
  }

  lemma {:induction false} ArgumentProblemDecides(expected: seq<Member>, call: ToolCall)
    ensures ArgumentProblem(expected, call.arguments).None? <==> HasArguments(call, expected)
  {
    if expected == [] {
    } else {
      ArgumentProblemDecides(expected[1..], call);
      assert HasArguments(call, expected) ==> HasArguments(call, expected[1..]) by {
        assert forall i | 0 <= i < |expected[1..]| :: expected[1..][i] == expected[i + 1];
      }
    }
  }

  lemma MatchDecides(call: ToolCall, args: Option<Rendered>, schema: Option<Schema>)
    ensures ToolCallMatches(call, args, schema).Match? <==> Satisfies(call, args, schema)
    ensures var m := ToolCallMatches(call, args, schema);
            (m.Mismatch? && m.unevaluable) <==> Breaks(call, args, schema)
  {
    if args.Some? && args.value.RenderedTo? && args.value.value.Object? {
      ArgumentProblemDecides(args.value.value.members, call);
    }
  }

  /** A constraint broken for one call is met by none, so it does not matter which is tried first. */
  lemma BrokenMeansUnsatisfied(call: ToolCall, other: ToolCall, args: Option<Rendered>, schema: Option<Schema>)
    requires Breaks(call, args, schema)
    ensures !Satisfies(other, args, schema)
  {
  }

  // ---------------------------------------------------------------------------
  // The evaluation
  // ---------------------------------------------------------------------------

  method EvaluateToolCall(k: AssertKind, calls: seq<ToolCall>) returns (o: AssertOutcome)
    requires k.ToolCallAssert?
    ensures o.passed <==> SomeSatisfies(calls, k)
    ensures o.unevaluable <==> SomeBreaks(calls, k)
    ensures Evaluated(o) && o.score == (if o.passed then 1.0 else 0.0)
  {
    hide ToolCallMatches, Satisfies, Breaks;
    var matching := Named(calls, k.name);
    NamedDecides(calls, k.name);
    if matching == [] {
      return Failed(NotCalled);
    }
    var lastReason := Other("");
    for i := 0 to |matching|
      invariant forall n | 0 <= n < i :: !Satisfies(matching[n], k.args, k.schema)
      invariant forall n | 0 <= n < i :: !Breaks(matching[n], k.args, k.schema)
    {
      var m := ToolCallMatches(matching[i], k.args, k.schema);
      MatchDecides(matching[i], k.args, k.schema);
      assert matching[i] in matching;
      if m.Match? {
        forall c | Breaks(c, k.args, k.schema) ensures false {
          BrokenMeansUnsatisfied(c, matching[i], k.args, k.schema);
        }
        return Pass(CalledAsExpected);
      }
      if m.unevaluable {
        forall c ensures !Satisfies(c, k.args, k.schema) {
          BrokenMeansUnsatisfied(matching[i], c, k.args, k.schema);
        }
        return Unevaluable(m.reason);
      }
      lastReason := m.reason;
    }
    return Failed(NoneMatching(lastReason));
  }

  function Named(calls: seq<ToolCall>, name: string): seq<ToolCall> {
    if calls == [] then [] else (if calls[0].name == name then [calls[0]] else []) + Named(calls[1..], name)
  }

  lemma {:induction false} NamedDecides(calls: seq<ToolCall>, name: string)
    ensures forall c :: c in Named(calls, name) <==> c in calls && c.name == name
  {
    if calls == [] {
    } else {
      NamedDecides(calls[1..], name);
    }
  }

  /** `classify_blank`. */
  predicate IsBlank(output: Output) {
    match output
    case TextOutput(s) => Trim(s) == ""
    case JsonOutput(v) =>
      match v
      case Null => true
      case String(s) => Trim(s) == ""
      case Array(items) => items == []
      case Object(ms) => ms == []
      case _ => false
  }

  predicate GuardApplies(k: AssertKind, output: Output, calls: seq<ToolCall>) {
    calls == [] && IsBlank(output) && !k.MetricAssert?
  }

  /** An output without a visible character: whitespace, or an empty JSON value. */
  ghost predicate SaysNothing(output: Output) {
    match output
    case TextOutput(s) => AllWhitespace(s)
    case JsonOutput(v) => v == Null || v == Array([]) || v == Object([]) || (v.String? && AllWhitespace(v.s))
  }

  lemma BlankSaysNothing(output: Output)
    ensures IsBlank(output) <==> SaysNothing(output)
  {
    hide Trim, AllWhitespace;
    match output
    case TextOutput(s) => TrimmedToNothing(s);
    case JsonOutput(v) =>
      if v.String? {
        TrimmedToNothing(v.s);
      }
  }

  /** The pass that an answer of nothing at all, with a reason for it, would hand a negated assertion. */
  ghost predicate Vacuous(
    k: AssertKind, negate: bool, output: Output, calls: seq<ToolCall>, emptyReason: Option<string>)
  {
    negate && emptyReason.Some? && calls == [] && SaysNothing(output) && !k.MetricAssert?
  }

  /** A broken assertion never passes, and a negated one never passes on an empty answer without calls. */
  function NegateAndGuard(
    o: AssertOutcome, k: AssertKind, negate: bool, output: Output, calls: seq<ToolCall>, emptyReason: Option<string>)
    : (r: AssertOutcome)
    ensures r.unevaluable == o.unevaluable
    ensures Evaluated(o) ==> Evaluated(r)
    ensures Evaluated(o) ==>
      (r.passed <==> !o.unevaluable && o.passed != negate && !Vacuous(k, negate, output, calls, emptyReason))
    ensures r.score ==
      if o.unevaluable || !negate then o.score
      else if Vacuous(k, negate, output, calls, emptyReason) && !o.passed then 0.0
      else 1.0 - o.score
  {
    BlankSaysNothing(output);
    var n := NegatedOutcome(o, negate);
    if GuardApplies(k, output, calls) then DenyVacuousNegatedPass(n, negate, emptyReason) else n
  }

  method EvaluateLocal(
    k: AssertKind, negate: bool, output: Output, calls: seq<ToolCall>, emptyReason: Option<string>)
    returns (r: Option<AssertOutcome>)
    requires k.MetricAssert? || k.OutputAssert? ==> k.raw.unevaluable ==> !k.raw.passed && k.raw.score == 0.0
    ensures r.None? <==> k.GradedAssert?
    ensures r.Some? ==> Evaluated(r.value)
    ensures r.Some? && Vacuous(k, negate, output, calls, emptyReason) ==> !r.value.passed
    ensures k.ToolCallAssert? ==>
      && r.value.unevaluable == SomeBreaks(calls, k)
      && r.value.passed == ToolCallVerdict(k, negate, output, calls, emptyReason)
      && r.value.score == (if r.value.passed then 1.0 else 0.0)
    ensures k.MetricAssert? && !k.raw.unevaluable ==> r.value.passed == (k.raw.passed != negate)
    ensures k.OutputAssert? ==>
      (r.value.passed <==> !k.raw.unevaluable && k.raw.passed != negate && !Vacuous(k, negate, output, calls, emptyReason))
    // The model acted: a negated `tool-call` is judged on the calls it made, whatever it said.
    ensures k.ToolCallAssert? && negate && calls != [] && !SomeSatisfies(calls, k) && !SomeBreaks(calls, k) ==>
      r.value.passed
    // It neither acted nor said anything: no negated assertion on the output passes.
    ensures !k.GradedAssert? && !k.MetricAssert? && negate && calls == [] && emptyReason.Some?
            && (output == JsonOutput(Null) || output == JsonOutput(Array([])) || output == JsonOutput(Object([]))
                || (output.TextOutput? && forall i | 0 <= i < |output.text| :: IsWhitespace(output.text[i]))) ==>
      !r.value.passed
    // It said something: a claim that it did not changes nothing.
    ensures k.OutputAssert? && output.TextOutput?
            && (exists i :: 0 <= i < |output.text| && !IsWhitespace(output.text[i])) && !k.raw.unevaluable ==>
      r.value.passed == (k.raw.passed != negate)
    ensures k.ToolCallAssert? && negate && output.TextOutput?
            && (exists i :: 0 <= i < |output.text| && !IsWhitespace(output.text[i]))
            && !SomeSatisfies(calls, k) && !SomeBreaks(calls, k) ==>
      r.value.passed
  {
    if k.GradedAssert? {
      return None;
    }
    var o;
    if k.ToolCallAssert? {
      o := EvaluateToolCall(k, calls);
      assert SomeBreaks(calls, k) ==> !SomeSatisfies(calls, k);
    } else {
      o := k.raw;
    }
    r := Some(NegateAndGuard(o, k, negate, output, calls, emptyReason));
  }

  /**
   * A `tool-call` passes when some reported call satisfies it; negated, when it can be judged,
   * no reported call satisfies it, and the answer was not an empty one without calls.
   */
  ghost predicate ToolCallVerdict(
    k: AssertKind, negate: bool, output: Output, calls: seq<ToolCall>, emptyReason: Option<string>)
    requires k.ToolCallAssert?
  {
    if negate then
      !SomeSatisfies(calls, k) && !SomeBreaks(calls, k) && !Vacuous(k, negate, output, calls, emptyReason)
    else SomeSatisfies(calls, k)
  }

  /** Permuting the reported calls changes neither pass, nor fail, nor unevaluable, either way round. */
  lemma VerdictIgnoresCallOrder(
    k: AssertKind, negate: bool, output: Output, emptyReason: Option<string>, a: seq<ToolCall>, b: seq<ToolCall>)
    requires k.ToolCallAssert? && multiset(a) == multiset(b)
    ensures SomeBreaks(a, k) <==> SomeBreaks(b, k)
    ensures ToolCallVerdict(k, negate, output, a, emptyReason) <==> ToolCallVerdict(k, negate, output, b, emptyReason)
  {
    hide Satisfies, Breaks, IsBlank;
    assert forall c :: c in a <==> c in multiset(a);
    assert forall c :: c in b <==> c in multiset(b);
    assert |a| == |multiset(a)| && |b| == |multiset(b)|;
  }
}
