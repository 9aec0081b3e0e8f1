/**
 * `MigrationProbe`: a budget of lookups shared by every thread of a run. A step is one atomic
 * access of one `should_probe` call, or one `record_adoption`.
 */
module Probe {

  const PROBE_BUDGET := 8
  const I64_MIN := -0x8000_0000_0000_0000
  const I64_SPAN := 0x1_0000_0000_0000_0000

  /** `AtomicI64::fetch_sub` wraps around. */
  function Wrap(x: int): int {
    (x - I64_MIN) % I64_SPAN + I64_MIN
  }

  /** Where a call of `should_probe` stands. `counted` says whether the counter decided it. */
  datatype Phase = Began | NotAdopted | Returned(granted: bool, counted: bool)

  datatype State = State(enabled: bool, remaining: int, adopted: bool, calls: map<nat, Phase>)

  datatype Step = Begin(t: nat) | Load(t: nat) | FetchSub(t: nat) | Adopt

  function New(): State {
    State(true, PROBE_BUDGET, false, map[])
  }

  function Disabled(): State {
    State(false, 0, false, map[])
  }

  predicate Enabled(s: State, step: Step) {
    match step
    case Begin(t) => t !in s.calls
    case Load(t) => t in s.calls && s.calls[t].Began?
    case FetchSub(t) => t in s.calls && s.calls[t].NotAdopted?
    case Adopt => true
  }

  function Next(s: State, step: Step): State
    requires Enabled(s, step)
  {
    match step
    case Begin(t) => s.(calls := s.calls[t := if s.enabled then Began else Returned(false, false)])
    case Load(t) => s.(calls := s.calls[t := if s.adopted then Returned(true, false) else NotAdopted])
    case FetchSub(t) =>
      s.(remaining := Wrap(s.remaining - 1), calls := s.calls[t := Returned(s.remaining > 0, true)])
    case Adopt => s.(adopted := true)
  }

  // ---------------------------------------------------------------------------
  // What every step keeps
  // ---------------------------------------------------------------------------

  /** The calls the counter decided, and those among them it granted. */
  ghost function Counted(s: State): set<nat> {
    set t | t in s.calls && s.calls[t].Returned? && s.calls[t].counted
  }

  ghost function CounterGrants(s: State): set<nat> {
    set t | t in Counted(s) && s.calls[t].granted
  }

  ghost function Granted(s: State): set<nat> {
    set t | t in s.calls && s.calls[t].Returned? && s.calls[t].granted
  }

  /** As many decrements as the 64-bit counter takes before it wraps to a positive value. */
  const SAFE_CALLS := 0x8000_0000_0000_0000 + PROBE_BUDGET + 1

  ghost predicate Inv(s: State) {
    && (s.enabled ==> s.remaining == Wrap(PROBE_BUDGET - |Counted(s)|))
    && (|Counted(s)| <= SAFE_CALLS ==>
          |CounterGrants(s)| == (if |Counted(s)| < PROBE_BUDGET then |Counted(s)| else PROBE_BUDGET))
    && (|Counted(s)| > SAFE_CALLS ==> |CounterGrants(s)| > PROBE_BUDGET)
    && (forall t | t in s.calls && s.calls[t].Returned? && s.calls[t].granted && !s.calls[t].counted :: s.adopted)
    && (!s.enabled ==> forall t | t in s.calls :: s.calls[t] == Returned(false, false))
  }

  /** The counter's value after `n` decrements, and when it is positive. */
  lemma CounterAfter(n: nat)
    ensures Wrap(Wrap(PROBE_BUDGET - n) - 1) == Wrap(PROBE_BUDGET - (n + 1))
    ensures n < SAFE_CALLS ==> Wrap(PROBE_BUDGET - n) == PROBE_BUDGET - n
    ensures n == SAFE_CALLS ==> Wrap(PROBE_BUDGET - n) > 0
  {
  }

  lemma GrantsAfterFetchSub(s: State, t: nat)
    requires Enabled(s, FetchSub(t))
    ensures var s' := Next(s, FetchSub(t));
            && |Counted(s')| == |Counted(s)| + 1
            && |CounterGrants(s')| == |CounterGrants(s)| + if s.remaining > 0 then 1 else 0
  {
    hide Wrap;
    var s' := Next(s, FetchSub(t));
    assert Counted(s') == Counted(s) + {t};
    if s.remaining > 0 {
      assert CounterGrants(s') == CounterGrants(s) + {t};
    } else {
      assert CounterGrants(s') == CounterGrants(s);
    }
  }

  lemma FetchSubKeepsInv(s: State, t: nat)
    requires Inv(s) && Enabled(s, FetchSub(t))
    ensures Inv(Next(s, FetchSub(t)))
  {
    hide Wrap, Counted, CounterGrants;
    GrantsAfterFetchSub(s, t);
    CounterAfter(|Counted(s)|);
  }

  lemma StepKeepsInv(s: State, step: Step)
    requires Inv(s) && Enabled(s, step)
    ensures Inv(Next(s, step))
  {
    var s' := Next(s, step);
    if step.FetchSub? {
      FetchSubKeepsInv(s, step.t);
    } else {
      assert Counted(s') == Counted(s);
      assert CounterGrants(s') == CounterGrants(s);
    }
  }

  // ---------------------------------------------------------------------------
  // Whole runs
  // ---------------------------------------------------------------------------

  ghost predicate Runs(s: State, steps: seq<Step>)
    decreases |steps|
  {
    steps == [] || (Enabled(s, steps[0]) && Runs(Next(s, steps[0]), steps[1..]))
  }

  ghost function After(s: State, steps: seq<Step>): State
    requires Runs(s, steps)
    decreases |steps|
  {
    if steps == [] then s else After(Next(s, steps[0]), steps[1..])
  }

  lemma {:induction false} RunKeepsInv(s: State, steps: seq<Step>)
    requires Inv(s) && Runs(s, steps)
    ensures Inv(After(s, steps)) && After(s, steps).enabled == s.enabled
    decreases |steps|
  {
    if steps == [] {
    } else {
      StepKeepsInv(s, steps[0]);
      RunKeepsInv(Next(s, steps[0]), steps[1..]);
    }
  }

  /** In every interleaving the counter grants at most the budget, exactly as long as it does not wrap. */
  lemma BudgetHoldsUntilTheCounterWraps(steps: seq<Step>)
    requires Runs(New(), steps)
    ensures |CounterGrants(After(New(), steps))| <= 8 <==> |Counted(After(New(), steps))| <= 0x8000_0000_0000_0009
  {
    assert Counted(New()) == {} && CounterGrants(New()) == {};
    RunKeepsInv(New(), steps);
  }

  /** When all calls have returned and nothing was adopted, exactly the first eight were granted. */
  lemma UnadoptedRunSpendsTheBudget(steps: seq<Step>)
    requires Runs(New(), steps)
    requires var e := After(New(), steps);
             !e.adopted && |e.calls| <= 0x8000_0000_0000_0009 && forall t | t in e.calls :: e.calls[t].Returned?
    ensures var e := After(New(), steps);
            |Granted(e)| == if |e.calls| < 8 then |e.calls| else 8
  {
    assert Counted(New()) == {} && CounterGrants(New()) == {};
    RunKeepsInv(New(), steps);
    RunKeepsUncountedGranted(New(), steps);
    var e := After(New(), steps);
    assert Counted(e) == e.calls.Keys;
    assert Granted(e) == CounterGrants(e);
  }

  /** An enabled probe answers without the counter only by granting. */
  ghost predicate UncountedGranted(s: State) {
    s.enabled && forall t | t in s.calls && s.calls[t].Returned? :: s.calls[t].counted || s.calls[t].granted
  }

  lemma {:induction false} RunKeepsUncountedGranted(s: State, steps: seq<Step>)
    requires Runs(s, steps) && UncountedGranted(s)
    ensures UncountedGranted(After(s, steps))
    decreases |steps|
  {
    if steps == [] {
    } else {
      RunKeepsUncountedGranted(Next(s, steps[0]), steps[1..]);
    }
  }

  /** A call that starts after an adoption is granted, in whatever order the rest runs. */
  lemma {:induction false} AdoptionGrantsLaterCalls(s: State, steps: seq<Step>, t: nat)
    requires Runs(s, steps) && s.enabled && s.adopted
    requires t in s.calls ==> s.calls[t].Began? || s.calls[t] == Returned(true, false)
    ensures var e := After(s, steps);
            t in e.calls ==> e.calls[t].Began? || e.calls[t] == Returned(true, false)
    decreases |steps|
  {
    if steps == [] {
    } else {
      AdoptionGrantsLaterCalls(Next(s, steps[0]), steps[1..], t);
    }
  }

  /** A disabled probe grants nothing, ever. */
  lemma DisabledNeverGrants(steps: seq<Step>)
    requires Runs(Disabled(), steps)
    ensures Granted(After(Disabled(), steps)) == {}
  {
    assert Counted(Disabled()) == {} && CounterGrants(Disabled()) == {};
    RunKeepsInv(Disabled(), steps);
  }

  // ---------------------------------------------------------------------------
  // One call after another
  // ---------------------------------------------------------------------------

  /** The accesses of one call that nothing interrupts, and what they come to. */
  ghost function CallSteps(s: State, t: nat): seq<Step> {
    if !s.enabled then [Begin(t)]
    else if s.adopted then [Begin(t), Load(t)]
    else [Begin(t), Load(t), FetchSub(t)]
  }

  ghost function Called(s: State, t: nat): State {
    if !s.enabled then s.(calls := s.calls[t := Returned(false, false)])
    else if s.adopted then s.(calls := s.calls[t := Returned(true, false)])
    else s.(remaining := Wrap(s.remaining - 1), calls := s.calls[t := Returned(s.remaining > 0, true)])
  }

  lemma Unroll(s: State, step: Step, rest: seq<Step>)
    requires Enabled(s, step) && Runs(Next(s, step), rest)
    ensures Runs(s, [step] + rest) && After(s, [step] + rest) == After(Next(s, step), rest)
  {
    hide Next, Enabled;
    assert ([step] + rest)[1..] == rest;
  }

  lemma OneStep(s: State, step: Step)
    requires Enabled(s, step)
    ensures Runs(s, [step]) && After(s, [step]) == Next(s, step)
  {
    hide Next, Enabled;
    Unroll(s, step, []);
    assert [step] + [] == [step];
  }

  lemma OneCall(s: State, t: nat)
    requires t !in s.calls
    ensures Runs(s, CallSteps(s, t)) && After(s, CallSteps(s, t)) == Called(s, t)
  {
    hide Runs, After, Wrap;
    var s1 := Next(s, Begin(t));
    if !s.enabled {
      OneStep(s, Begin(t));
    } else if s.adopted {
      OneStep(s1, Load(t));
      Unroll(s, Begin(t), [Load(t)]);
      assert [Begin(t)] + [Load(t)] == CallSteps(s, t);
      assert s1.calls[t := Returned(true, false)] == s.calls[t := Returned(true, false)];
    } else {
      var s2 := Next(s1, Load(t));
      OneStep(s2, FetchSub(t));
      Unroll(s1, Load(t), [FetchSub(t)]);
      Unroll(s, Begin(t), [Load(t)] + [FetchSub(t)]);
      assert [Begin(t)] + ([Load(t)] + [FetchSub(t)]) == CallSteps(s, t);
      assert Next(s2, FetchSub(t)).calls == Called(s, t).calls;
    }
  }

  lemma {:induction false} RunThenMore(s: State, a: seq<Step>, b: seq<Step>)
    requires Runs(s, a) && Runs(After(s, a), b)
    ensures Runs(s, a + b) && After(s, a + b) == After(After(s, a), b)
    decreases |a|
  {
    hide Next, Enabled;
    if a == [] {
      assert a + b == b;
    } else {
      RunThenMore(Next(s, a[0]), a[1..], b);
      assert (a + b)[1..] == a[1..] + b;
    }
  }

  /** A run of `n` calls that the counter decides, for every `n`. */
  lemma {:induction false} EveryCountIsReached(n: nat) returns (steps: seq<Step>)
    ensures Runs(New(), steps)
    ensures var e := After(New(), steps);
            e.enabled && !e.adopted && |Counted(e)| == n && forall t | t in e.calls :: t < n
  {
    if n == 0 {
      steps := [];
      assert Counted(New()) == {};
    } else {
      var before := EveryCountIsReached(n - 1);
      var s := After(New(), before);
      hide Runs, After, Wrap;
      OneCall(s, n - 1);
      RunThenMore(New(), before, CallSteps(s, n - 1));
      steps := before + CallSteps(s, n - 1);
      assert Counted(Called(s, n - 1)) == Counted(s) + {n - 1};
    }
  }

  /** So the budget is overspent by some run: one of every length past the safe one. */
  lemma BudgetIsOverspent(n: nat) returns (steps: seq<Step>)
    requires n > 0x8000_0000_0000_0009
    ensures Runs(New(), steps)
    ensures |Counted(After(New(), steps))| == n && |CounterGrants(After(New(), steps))| > 8
  {
    hide Runs, After;
    steps := EveryCountIsReached(n);
    BudgetHoldsUntilTheCounterWraps(steps);
  }

  // ---------------------------------------------------------------------------
  // The probe as one thread uses it
  // ---------------------------------------------------------------------------

  class MigrationProbe {
    var remaining: int
    var adoptedAny: bool
    const enabled: bool

    constructor New()
      ensures enabled && remaining == PROBE_BUDGET && !adoptedAny
    {
      remaining, adoptedAny, enabled := PROBE_BUDGET, false, true;
    }

    constructor Off()
      ensures !enabled && remaining == 0 && !adoptedAny
    {
      remaining, adoptedAny, enabled := 0, false, false;
    }

    /** Uninterrupted, a call is its two steps in a row. */
    method ShouldProbe(ghost s: State, ghost t: nat) returns (granted: bool)
      requires s.enabled == enabled && s.remaining == remaining && s.adopted == adoptedAny && t !in s.calls
      modifies this`remaining
      ensures
        var steps := CallSteps(s, t);
        && Runs(s, steps)
        && var e := After(s, steps);
        && t in e.calls && e.calls[t].Returned? && e.calls[t].granted == granted
        && e.remaining == remaining && e.adopted == adoptedAny
    {
      OneCall(s, t);
      if !enabled {
        return false;
      }
      if adoptedAny {
        return true;
      }
      granted := remaining > 0;
      remaining := Wrap(remaining - 1);
    }

    method RecordAdoption()
      modifies this`adoptedAny
      ensures adoptedAny
    {
      adoptedAny := true;
    }
  }
}
