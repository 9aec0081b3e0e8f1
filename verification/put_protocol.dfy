/**
 * `LocalDiskCache::put` under concurrency. Any number of calls, in any number of processes, run
 * against one directory tree; a step is one filesystem operation of one call.
 */
module PutProtocol {
  import opened Text
  import opened CacheKeys

  datatype Path = Path(shard: string, name: string)

  function Hex(key: string): string
    requires IsValidKey(key)
  {
    key[|KEY_PREFIX|..]
  }

  /** `<root>/<first2hex>/<hex>.json`. */
  function PathFor(key: string): (p: Path)
    requires IsValidKey(key)
    ensures |p.shard| == 2 && |p.name| == 69 && p.name[64..] == ".json"
    ensures key == "sha256:" + p.name[..64] && p.name[..2] == p.shard
  {
    Path(Hex(key)[..2], Hex(key) + ".json")
  }

  /** `path.with_extension("tmp-<pid>-<n>")`. */
  function TempPath(key: string, pid: nat, n: nat): (p: Path)
    requires IsValidKey(key)
    ensures p.shard == PathFor(key).shard
  {
    Path(Hex(key)[..2], Hex(key) + (".tmp-" + (Decimal(pid) + ['-'] + Decimal(n))))
  }

  lemma PathForInjective(a: string, b: string)
    requires IsValidKey(a) && IsValidKey(b) && PathFor(a) == PathFor(b)
    ensures a == b
  {
    assert Hex(a) == PathFor(a).name[..64] && Hex(b) == PathFor(b).name[..64];
    assert a == KEY_PREFIX + Hex(a) && b == KEY_PREFIX + Hex(b);
  }

  /** Temp names collide only for one key, one process and one counter value, and never with an entry. */
  lemma TempPathUnique(a: string, p: nat, m: nat, b: string, q: nat, n: nat)
    requires IsValidKey(a) && IsValidKey(b)
    ensures TempPath(a, p, m) == TempPath(b, q, n) ==> a == b && p == q && m == n
    ensures TempPath(a, p, m) != PathFor(b)
  {
    hide Decimal;
    var (x, y) := (Decimal(p) + ['-'] + Decimal(m), Decimal(q) + ['-'] + Decimal(n));
    var (s, t) := (TempPath(a, p, m).name, TempPath(b, q, n).name);
    assert s[65] == 't' && PathFor(b).name[65] == 'j';
    if TempPath(a, p, m) == TempPath(b, q, n) {
      assert Hex(a) == s[..64] && Hex(b) == t[..64];
      assert a == KEY_PREFIX + Hex(a) && b == KEY_PREFIX + Hex(b);
      assert x == s[69..] && y == t[69..];
      DecimalShape(p);
      DecimalShape(q);
      SplitAtSeparator(Decimal(p), Decimal(q), Decimal(m), Decimal(n), '-');
      DecimalInjective(p, q);
      DecimalInjective(m, n);
    }
  }

  // ---------------------------------------------------------------------------
  // The state machine
  // ---------------------------------------------------------------------------

  type Bytes = seq<Byte>

  /** Where a call stands; `n` is the counter value in its temp name, `w` how much is written. */
  datatype Phase =
    | Started
    | Checked
    | HasDir
    | Named(n: nat)
    | Writing(n: nat, w: nat)
    | RenameFailed(n: nat)
    | TempRemoved
    | Returned(ok: bool)

  datatype Call = Call(key: string, bytes: Bytes, pid: nat, phase: Phase)

  datatype State = State(files: map<Path, Bytes>, counters: map<nat, nat>, calls: map<nat, Call>)

  datatype Step =
    | Invoke(t: nat, key: string, bytes: Bytes, pid: nat)
    | CheckExists(t: nat, works: bool)
    | MakeDir(t: nat, ok: bool)
    | TakeSuffix(t: nat)
    | Append(t: nat, upTo: nat)
    | WriteError(t: nat)
    | Rename(t: nat, ok: bool)
    | RemoveTemp(t: nat, ok: bool)
    | Recheck(t: nat, works: bool)

  function Counter(s: State, pid: nat): nat {
    if pid in s.counters then s.counters[pid] else 0
  }

  predicate Enabled(s: State, step: Step) {
    match step
    case Invoke(t, key, _, _) => t !in s.calls && IsValidKey(key)
    case CheckExists(t, _) => t in s.calls && s.calls[t].phase.Started?
    case MakeDir(t, _) => t in s.calls && s.calls[t].phase.Checked?
    case TakeSuffix(t) => t in s.calls && s.calls[t].phase.HasDir?
    case Append(t, upTo) =>
      && t in s.calls && upTo <= |s.calls[t].bytes|
      && (s.calls[t].phase.Named? || (s.calls[t].phase.Writing? && s.calls[t].phase.w <= upTo))
    case WriteError(t) => t in s.calls && (s.calls[t].phase.Named? || s.calls[t].phase.Writing?)
    case Rename(t, _) => t in s.calls && s.calls[t].phase.Writing? && s.calls[t].phase.w == |s.calls[t].bytes|
    case RemoveTemp(t, _) => t in s.calls && s.calls[t].phase.RenameFailed?
    case Recheck(t, _) => t in s.calls && s.calls[t].phase.TempRemoved?
  }

  function Goto(s: State, t: nat, phase: Phase): State
    requires t in s.calls
  {
    s.(calls := s.calls[t := s.calls[t].(phase := phase)])
  }

  ghost predicate ValidKeys(s: State) {
    forall t | t in s.calls :: IsValidKey(s.calls[t].key)
  }

  /** An existence check that errors counts as "absent"; a rename replaces its target at once. */
  function Next(s: State, step: Step): State
    requires Enabled(s, step) && ValidKeys(s)
  {
    match step
    case Invoke(t, key, bytes, pid) => s.(calls := s.calls[t := Call(key, bytes, pid, Started)])
    case CheckExists(t, works) =>
      Goto(s, t, if works && PathFor(s.calls[t].key) in s.files then Returned(true) else Checked)
    case MakeDir(t, ok) => Goto(s, t, if ok then HasDir else Returned(false))
    case TakeSuffix(t) =>
      var pid := s.calls[t].pid;
      var n := Counter(s, pid);
      Goto(s, t, Named(n)).(counters := s.counters[pid := n + 1])
    case Append(t, upTo) =>
      var c := s.calls[t];
      Goto(s, t, Writing(c.phase.n, upTo)).(files := s.files[TempPath(c.key, c.pid, c.phase.n) := c.bytes[..upTo]])
    case WriteError(t) => Goto(s, t, Returned(false))
    case Rename(t, ok) =>
      var c := s.calls[t];
      var temp := TempPath(c.key, c.pid, c.phase.n);
      if ok && temp in s.files then
        Goto(s, t, Returned(true)).(files := (s.files - {temp})[PathFor(c.key) := s.files[temp]])
      else Goto(s, t, RenameFailed(c.phase.n))
    case RemoveTemp(t, ok) =>
      var c := s.calls[t];
      Goto(s, t, TempRemoved).(files := if ok then s.files - {TempPath(c.key, c.pid, c.phase.n)} else s.files)
    case Recheck(t, works) => Goto(s, t, Returned(works && PathFor(s.calls[t].key) in s.files))
  }

  // ---------------------------------------------------------------------------
  // What every step keeps
  // ---------------------------------------------------------------------------

  predicate HasTemp(p: Phase) {
    p.Named? || p.Writing? || p.RenameFailed?
  }

  /** The bytes are all of some `put` made for this key, or were there from the start. */
  ghost predicate Whole(initial: map<Path, Bytes>, calls: map<nat, Call>, key: string, bytes: Bytes)
    requires IsValidKey(key)
  {
    || (PathFor(key) in initial && initial[PathFor(key)] == bytes)
    || exists t :: t in calls && calls[t].key == key && calls[t].bytes == bytes
  }

  ghost predicate TempsApart(s: State) {
    && (forall t | t in s.calls && HasTemp(s.calls[t].phase) :: s.calls[t].phase.n < Counter(s, s.calls[t].pid))
    && (forall t, u | t in s.calls && u in s.calls && t != u
           && HasTemp(s.calls[t].phase) && HasTemp(s.calls[u].phase) && s.calls[t].pid == s.calls[u].pid ::
          s.calls[t].phase.n != s.calls[u].phase.n)
  }

  /** A temp file being written holds what its own call has written so far, and nothing else. */
  ghost predicate TempsExact(s: State)
    requires ValidKeys(s)
  {
    forall t | t in s.calls && s.calls[t].phase.Writing? ::
      var c := s.calls[t];
      var temp := TempPath(c.key, c.pid, c.phase.n);
      c.phase.w <= |c.bytes| && temp in s.files && s.files[temp] == c.bytes[..c.phase.w]
  }

  ghost predicate EntriesWhole(initial: map<Path, Bytes>, s: State) {
    forall key | IsValidKey(key) && PathFor(key) in s.files :: Whole(initial, s.calls, key, s.files[PathFor(key)])
  }

  ghost predicate OkPresent(s: State)
    requires ValidKeys(s)
  {
    forall t | t in s.calls && s.calls[t].phase == Returned(true) :: PathFor(s.calls[t].key) in s.files
  }

  ghost predicate Inv(initial: map<Path, Bytes>, s: State) {
    ValidKeys(s) && TempsApart(s) && TempsExact(s) && EntriesWhole(initial, s) && OkPresent(s)
  }

  /** No step but a rename touches an entry, and a rename touches its own key's only. */
  lemma StepEntries(initial: map<Path, Bytes>, s: State, step: Step, key: string)
    requires Inv(initial, s) && Enabled(s, step) && IsValidKey(key)
    ensures
      var s' := Next(s, step);
      var p := PathFor(key);
      if step.Rename? && step.ok && s.calls[step.t].key == key then
        p in s'.files && s'.files[p] == s.calls[step.t].bytes
      else (p in s'.files <==> p in s.files) && (p in s.files ==> s'.files[p] == s.files[p])
  {
    hide TempPath, PathFor;
    match step
    case Append(t, _) =>
      var c := s.calls[t];
      TempPathUnique(c.key, c.pid, c.phase.n, key, 0, 0);
    case Rename(t, _) =>
      var c := s.calls[t];
      TempPathUnique(c.key, c.pid, c.phase.n, key, 0, 0);
      assert c.bytes[..|c.bytes|] == c.bytes;
      if PathFor(c.key) == PathFor(key) {
        PathForInjective(c.key, key);
      }
    case RemoveTemp(t, _) =>
      var c := s.calls[t];
      TempPathUnique(c.key, c.pid, c.phase.n, key, 0, 0);
    case _ =>
  }

  /** A temp name in use was in use before the step, or was taken from the counter by it. */
  lemma TempOrigin(s: State, step: Step, t: nat)
    requires ValidKeys(s) && Enabled(s, step)
    requires t in Next(s, step).calls && HasTemp(Next(s, step).calls[t].phase)
    ensures
      var (c, s') := (Next(s, step).calls[t], Next(s, step));
      if step == TakeSuffix(t) then
        c.phase.n == Counter(s, c.pid) && Counter(s', c.pid) == Counter(s, c.pid) + 1
      else
        && t in s.calls && HasTemp(s.calls[t].phase)
        && c.phase.n == s.calls[t].phase.n && c.pid == s.calls[t].pid
        && Counter(s', c.pid) >= Counter(s, c.pid)
  {
    hide TempPath, PathFor;
  }

  lemma StepKeepsTempsApart(initial: map<Path, Bytes>, s: State, step: Step)
    requires Inv(initial, s) && Enabled(s, step)
    ensures TempsApart(Next(s, step))
  {
    hide EntriesWhole, TempsExact, OkPresent, Next, Enabled, Counter;
    var s' := Next(s, step);
    forall t | t in s'.calls && HasTemp(s'.calls[t].phase)
      ensures s'.calls[t].phase.n < Counter(s', s'.calls[t].pid)
    {
      TempOrigin(s, step, t);
    }
    forall t, u | t in s'.calls && u in s'.calls && t != u && HasTemp(s'.calls[t].phase)
                  && HasTemp(s'.calls[u].phase) && s'.calls[t].pid == s'.calls[u].pid
      ensures s'.calls[t].phase.n != s'.calls[u].phase.n
    {
      TempOrigin(s, step, t);
      TempOrigin(s, step, u);
    }
  }

  lemma StepKeepsTempsExact(initial: map<Path, Bytes>, s: State, step: Step)
    requires Inv(initial, s) && Enabled(s, step)
    ensures ValidKeys(Next(s, step)) && TempsExact(Next(s, step))
  {
    hide TempPath, PathFor, EntriesWhole, OkPresent, IsValidKey;
    var s' := Next(s, step);
    forall u | u in s'.calls && s'.calls[u].phase.Writing?
      ensures var c := s'.calls[u];
              var temp := TempPath(c.key, c.pid, c.phase.n);
              c.phase.w <= |c.bytes| && temp in s'.files && s'.files[temp] == c.bytes[..c.phase.w]
    {
      var d := s'.calls[u];
      if !step.Invoke? && u != step.t {
        OtherTempUntouched(s, step, u);
      }
    }
  }

  /** A step of one call leaves the temp file of another alone. */
  lemma OtherTempUntouched(s: State, step: Step, u: nat)
    requires ValidKeys(s) && TempsApart(s) && Enabled(s, step) && !step.Invoke? && u != step.t
    requires u in s.calls && s.calls[u].phase.Writing?
    ensures var c := s.calls[u];
            var temp := TempPath(c.key, c.pid, c.phase.n);
            var s' := Next(s, step);
            (temp in s'.files <==> temp in s.files) && (temp in s.files ==> s'.files[temp] == s.files[temp])
  {
    hide TempPath, PathFor;
    var (c, d) := (s.calls[step.t], s.calls[u]);
    TempPathUnique(d.key, d.pid, d.phase.n, c.key, c.pid, if HasTemp(c.phase) then c.phase.n else 0);
  }

  lemma CallKept(s: State, step: Step, t: nat)
    requires ValidKeys(s) && Enabled(s, step) && t in s.calls
    ensures t in Next(s, step).calls
    ensures Next(s, step).calls[t].key == s.calls[t].key && Next(s, step).calls[t].bytes == s.calls[t].bytes
  {
    hide TempPath, PathFor;
  }

  lemma StepKeepsEntries(initial: map<Path, Bytes>, s: State, step: Step)
    requires Inv(initial, s) && Enabled(s, step)
    ensures EntriesWhole(initial, Next(s, step))
  {
    hide TempPath, PathFor, TempsApart, TempsExact, OkPresent, Next, IsValidKey;
    var s' := Next(s, step);
    forall key | IsValidKey(key) && PathFor(key) in s'.files
      ensures Whole(initial, s'.calls, key, s'.files[PathFor(key)])
    {
      StepEntries(initial, s, step, key);
      if step.Rename? && step.ok && s.calls[step.t].key == key {
        CallKept(s, step, step.t);
      } else if !(PathFor(key) in initial && initial[PathFor(key)] == s.files[PathFor(key)]) {
        var t :| t in s.calls && s.calls[t].key == key && s.calls[t].bytes == s.files[PathFor(key)];
        CallKept(s, step, t);
      }
    }
  }

  lemma StepKeepsOk(initial: map<Path, Bytes>, s: State, step: Step)
    requires Inv(initial, s) && Enabled(s, step) && ValidKeys(Next(s, step))
    ensures OkPresent(Next(s, step))
  {
    hide TempPath, PathFor, TempsApart, EntriesWhole;
    var s' := Next(s, step);
    forall t | t in s'.calls && s'.calls[t].phase == Returned(true) ensures PathFor(s'.calls[t].key) in s'.files {
      StepEntries(initial, s, step, s'.calls[t].key);
    }
  }

  /** The invariant is inductive: no step of any call, failing or not, breaks it. */
  lemma StepKeepsInv(initial: map<Path, Bytes>, s: State, step: Step)
    requires Inv(initial, s) && Enabled(s, step)
    ensures Inv(initial, Next(s, step))
  {
    StepKeepsTempsExact(initial, s, step);
    StepKeepsTempsApart(initial, s, step);
    StepKeepsEntries(initial, s, step);
    StepKeepsOk(initial, s, step);
  }

  // ---------------------------------------------------------------------------
  // Whole runs
  // ---------------------------------------------------------------------------

  /** Every step is enabled when its turn comes. */
  ghost predicate Runs(s: State, steps: seq<Step>)
    decreases |steps|
  {
    ValidKeys(s) && (steps == [] || (Enabled(s, steps[0]) && Runs(Next(s, steps[0]), steps[1..])))
  }

  ghost function After(s: State, steps: seq<Step>): State
    requires Runs(s, steps)
    decreases |steps|
  {
    if steps == [] then s else After(Next(s, steps[0]), steps[1..])
  }

  /** Before any call: files as found on disk, no call in flight. */
  ghost predicate Initial(s: State) {
    s.calls == map[]
  }

  lemma {:induction false} RunKeepsInv(initial: map<Path, Bytes>, s: State, steps: seq<Step>)
    requires Inv(initial, s) && Runs(s, steps)
    ensures Inv(initial, After(s, steps))
    decreases |steps|
  {
    if steps == [] {
    } else {
      StepKeepsInv(initial, s, steps[0]);
      RunKeepsInv(initial, Next(s, steps[0]), steps[1..]);
    }
  }

  /**
   * At every point of every interleaving an entry is the complete bytes of one `put` for its key
   * (or what the store started with), and a `put` that returned `Ok` left its key present.
   */
  lemma ConcurrentPutsAreSafe(s: State, steps: seq<Step>)
    requires Initial(s) && Runs(s, steps)
    ensures
      var e := After(s, steps);
      && ValidKeys(e)
      && (forall key | IsValidKey(key) && PathFor(key) in e.files ::
            Whole(s.files, e.calls, key, e.files[PathFor(key)]))
      && (forall t | t in e.calls && e.calls[t].phase == Returned(true) :: PathFor(e.calls[t].key) in e.files)
  {
    assert Inv(s.files, s);
    RunKeepsInv(s.files, s, steps);
  }

  /** Every path is an entry of a valid key or a temp file of one. */
  ghost predicate LaidOutPaths(ps: set<Path>) {
    forall p | p in ps ::
      || (exists key :: IsValidKey(key) && p == PathFor(key))
      || (exists key, pid: nat, n: nat :: IsValidKey(key) && p == TempPath(key, pid, n))
  }

  /** However the calls interleave and fail, they leave entries and temp files behind, nothing else. */
  lemma {:induction false} RunsStayLaidOut(s: State, steps: seq<Step>)
    requires Runs(s, steps) && LaidOutPaths(s.files.Keys)
    ensures LaidOutPaths(After(s, steps).files.Keys)
    decreases |steps|
  {
    hide PathFor, TempPath, IsValidKey;
    if steps == [] {
    } else {
      var s' := Next(s, steps[0]);
      forall p | p in s'.files && p !in s.files
        ensures || (exists key :: IsValidKey(key) && p == PathFor(key))
                || (exists key, pid: nat, n: nat :: IsValidKey(key) && p == TempPath(key, pid, n))
      {
        var c := s.calls[steps[0].t];
        assert p == PathFor(c.key) || p == TempPath(c.key, c.pid, c.phase.n);
      }
      RunsStayLaidOut(s', steps[1..]);
    }
  }

  // ---------------------------------------------------------------------------
  // First write wins, exactly when nobody is between the check and the rename
  // ---------------------------------------------------------------------------

  predicate BeforeRename(p: Phase) {
    p.Checked? || p.HasDir? || p.Named? || p.Writing?
  }

  /** Some call for this key has passed its check, not yet renamed, and carries other bytes. */
  ghost predicate Racing(s: State, key: string, bytes: Bytes) {
    exists t :: t in s.calls && s.calls[t].key == key && BeforeRename(s.calls[t].phase) && s.calls[t].bytes != bytes
  }

  ghost predicate ChecksWork(steps: seq<Step>) {
    forall i | 0 <= i < |steps| && steps[i].CheckExists? :: steps[i].works
  }

  lemma SettledStep(initial: map<Path, Bytes>, s: State, step: Step, key: string)
    requires Inv(initial, s) && Enabled(s, step) && (step.CheckExists? ==> step.works)
    requires IsValidKey(key) && PathFor(key) in s.files && !Racing(s, key, s.files[PathFor(key)])
    ensures
      var s' := Next(s, step);
      PathFor(key) in s'.files && s'.files[PathFor(key)] == s.files[PathFor(key)]
      && !Racing(s', key, s.files[PathFor(key)])
  {
    hide TempPath, PathFor, TempsApart, TempsExact, OkPresent, EntriesWhole;
    StepEntries(initial, s, step, key);
    var s' := Next(s, step);
    var bytes := s.files[PathFor(key)];
    assert step.Rename? && s.calls[step.t].key == key ==> s.calls[step.t].bytes == bytes;
    forall t | t in s'.calls && s'.calls[t].key == key && BeforeRename(s'.calls[t].phase)
      ensures s'.calls[t].bytes == bytes
    {
      assert t in s.calls && s.calls[t].key == key && s.calls[t].bytes == s'.calls[t].bytes;
      assert BeforeRename(s.calls[t].phase);
    }
  }

  lemma {:induction false} SettledRun(initial: map<Path, Bytes>, s: State, steps: seq<Step>, key: string)
    requires Inv(initial, s) && Runs(s, steps) && ChecksWork(steps)
    requires IsValidKey(key) && PathFor(key) in s.files && !Racing(s, key, s.files[PathFor(key)])
    ensures PathFor(key) in After(s, steps).files
    ensures After(s, steps).files[PathFor(key)] == s.files[PathFor(key)]
    decreases |steps|
  {
    hide PathFor, Racing, Next, Enabled, Inv;
    if steps == [] {
    } else {
      SettledStep(initial, s, steps[0], key);
      StepKeepsInv(initial, s, steps[0]);
      SettledRun(initial, Next(s, steps[0]), steps[1..], key);
    }
  }

  /** The steps a racing call still has to take. */
  ghost function Finish(t: nat, c: Call): seq<Step>
    requires BeforeRename(c.phase)
  {
    (if c.phase.Checked? then [MakeDir(t, true)] else [])
    + (if c.phase.Checked? || c.phase.HasDir? then [TakeSuffix(t)] else [])
    + [Append(t, |c.bytes|), Rename(t, true)]
  }

  lemma {:induction false} RunThenMore(s: State, a: seq<Step>, b: seq<Step>)
    requires Runs(s, a) && Runs(After(s, a), b)
    ensures Runs(s, a + b) && After(s, a + b) == After(After(s, a), b)
    decreases |a|
  {
    hide Next, Enabled;
    if a == [] {
      assert a + b == b;
    } else {
      RunThenMore(Next(s, a[0]), a[1..], b);
      assert (a + b)[1..] == a[1..] + b;
    }
  }

  lemma OneStep(initial: map<Path, Bytes>, s: State, step: Step)
    requires Inv(initial, s) && Enabled(s, step)
    ensures Runs(s, [step]) && After(s, [step]) == Next(s, step)
  {
    StepKeepsInv(initial, s, step);
    assert [step][1..] == [];
  }

  lemma LastTwoSteps(initial: map<Path, Bytes>, s: State, t: nat)
    requires Inv(initial, s) && t in s.calls
    requires s.calls[t].phase.Named? || s.calls[t].phase.Writing?
    ensures var c := s.calls[t];
            var steps := [Append(t, |c.bytes|), Rename(t, true)];
            && Runs(s, steps)
            && PathFor(c.key) in After(s, steps).files && After(s, steps).files[PathFor(c.key)] == c.bytes
            && t in After(s, steps).calls && After(s, steps).calls[t].phase == Returned(true)
  {
    hide TempPath, PathFor, TempsApart, EntriesWhole, OkPresent;
    var c := s.calls[t];
    var (a, b) := (Append(t, |c.bytes|), Rename(t, true));
    OneStep(initial, s, a);
    StepKeepsInv(initial, s, a);
    var s1 := Next(s, a);
    StepEntries(initial, s1, b, c.key);
    OneStep(initial, s1, b);
    RunThenMore(s, [a], [b]);
    assert [a] + [b] == [a, b];
  }

  lemma RacerOverwrites(initial: map<Path, Bytes>, s: State, t: nat)
    requires Inv(initial, s) && t in s.calls && BeforeRename(s.calls[t].phase)
    ensures var c := s.calls[t];
            var steps := Finish(t, c);
            && Runs(s, steps) && ChecksWork(steps)
            && PathFor(c.key) in After(s, steps).files && After(s, steps).files[PathFor(c.key)] == c.bytes
            && t in After(s, steps).calls && After(s, steps).calls[t].phase == Returned(true)
    decreases if s.calls[t].phase.Checked? then 2 else if s.calls[t].phase.HasDir? then 1 else 0
  {
    hide PathFor, TempPath, TempsApart, TempsExact, EntriesWhole, OkPresent;
    var c := s.calls[t];
    if c.phase.Checked? || c.phase.HasDir? {
      var first := if c.phase.Checked? then MakeDir(t, true) else TakeSuffix(t);
      OneStep(initial, s, first);
      StepKeepsInv(initial, s, first);
      var s1 := Next(s, first);
      RacerOverwrites(initial, s1, t);
      RunThenMore(s, [first], Finish(t, s1.calls[t]));
      assert [first] + Finish(t, s1.calls[t]) == Finish(t, c);
    } else {
      LastTwoSteps(initial, s, t);
      assert Finish(t, c) == [Append(t, |c.bytes|), Rename(t, true)];
    }
  }

  /**
   * An entry on disk can never change again exactly when no call with other bytes for its key
   * sits between its existence check and its rename.
   */
  lemma EntryIsFinalIffNobodyRaces(initial: map<Path, Bytes>, s: State, key: string)
    requires Inv(initial, s) && IsValidKey(key) && PathFor(key) in s.files
    ensures (forall steps | Runs(s, steps) && ChecksWork(steps) ::
               PathFor(key) in After(s, steps).files && After(s, steps).files[PathFor(key)] == s.files[PathFor(key)])
            <==> !Racing(s, key, s.files[PathFor(key)])
  {
    var bytes := s.files[PathFor(key)];
    if !Racing(s, key, bytes) {
      forall steps | Runs(s, steps) && ChecksWork(steps)
        ensures PathFor(key) in After(s, steps).files && After(s, steps).files[PathFor(key)] == bytes
      {
        SettledRun(initial, s, steps, key);
      }
    } else {
      var t :| t in s.calls && s.calls[t].key == key && BeforeRename(s.calls[t].phase) && s.calls[t].bytes != bytes;
      RacerOverwrites(initial, s, t);
      var steps := Finish(t, s.calls[t]);
      assert Runs(s, steps) && ChecksWork(steps) && After(s, steps).files[PathFor(key)] != bytes;
    }
  }

  // ---------------------------------------------------------------------------
  // When a `put` returns an error
  // ---------------------------------------------------------------------------

  /** No step of the call's own fails but, perhaps, its check, its rename or the removal of its temp file. */
  ghost predicate StepsWork(steps: seq<Step>, t: nat) {
    forall i | 0 <= i < |steps| ::
      steps[i] != MakeDir(t, false) && steps[i] != WriteError(t) && steps[i] != Recheck(t, false)
  }

  /** A `put` that loses the rename to another one has still succeeded: the entry is there. */
  lemma {:induction false} PresentMeansOk(initial: map<Path, Bytes>, s: State, steps: seq<Step>, t: nat)
    requires Inv(initial, s) && Runs(s, steps) && StepsWork(steps, t)
    requires t in s.calls && s.calls[t].phase != Returned(false) && PathFor(s.calls[t].key) in s.files
    ensures t in After(s, steps).calls && After(s, steps).calls[t].phase != Returned(false)
    decreases |steps|
  {
    hide PathFor, TempPath, Inv;
    if steps == [] {
    } else {
      StepEntries(initial, s, steps[0], s.calls[t].key);
      StepKeepsInv(initial, s, steps[0]);
      CallKept(s, steps[0], t);
      assert steps[0] in steps;
      PresentMeansOk(initial, Next(s, steps[0]), steps[1..], t);
    }
  }

  /** An error is a directory, a write or a recheck that failed, or a lost rename with nothing in its place. */
  lemma ErrorsHaveACause(s: State, step: Step, t: nat)
    requires ValidKeys(s) && Enabled(s, step) && t in s.calls && !s.calls[t].phase.Returned?
    ensures t in Next(s, step).calls
    ensures Next(s, step).calls[t].phase == Returned(false) <==>
            || step == MakeDir(t, false) || step == WriteError(t) || step == Recheck(t, false)
            || (step == Recheck(t, true) && PathFor(s.calls[t].key) !in s.files)
  {
    hide PathFor, TempPath;
  }

  /** How far a call still is from its return. */
  ghost function Distance(p: Phase): nat {
    match p
    case Started => 7
    case Checked => 6
    case HasDir => 5
    case Named(_) => 4
    case Writing(_, _) => 3
    case RenameFailed(_) => 2
    case TempRemoved => 1
    case Returned(_) => 0
  }

  /** The next step of a call, whatever the disk answers it. */
  ghost function NextStep(t: nat, c: Call, works: bool): Step {
    match c.phase
    case Started => CheckExists(t, works)
    case Checked => MakeDir(t, works)
    case HasDir => TakeSuffix(t)
    case Named(_) => if works then Append(t, |c.bytes|) else WriteError(t)
    case Writing(_, w) => if w < |c.bytes| then WriteError(t) else Rename(t, works)
    case RenameFailed(_) => RemoveTemp(t, works)
    case _ => Recheck(t, works)
  }

  /** No call waits for another: however its steps turn out, each can be taken and brings it nearer its return. */
  lemma StepBringsNearer(initial: map<Path, Bytes>, s: State, t: nat, works: bool)
    requires Inv(initial, s) && t in s.calls && !s.calls[t].phase.Returned?
    ensures var step := NextStep(t, s.calls[t], works);
            && Enabled(s, step) && t in Next(s, step).calls
            && Distance(Next(s, step).calls[t].phase) < Distance(s.calls[t].phase)
  {
    hide PathFor, TempPath, TempsApart, EntriesWhole, OkPresent;
  }

  /** From every state every call can be run to its return. */
  lemma {:induction false} CallCanFinish(initial: map<Path, Bytes>, s: State, t: nat, works: bool)
    returns (steps: seq<Step>)
    requires Inv(initial, s) && t in s.calls
    ensures Runs(s, steps) && t in After(s, steps).calls && After(s, steps).calls[t].phase.Returned?
    decreases Distance(s.calls[t].phase)
  {
    hide Next, Enabled, Distance;
    if s.calls[t].phase.Returned? {
      steps := [];
    } else {
      hide Runs, After;
      StepBringsNearer(initial, s, t, works);
      var step := NextStep(t, s.calls[t], works);
      StepKeepsInv(initial, s, step);
      OneStep(initial, s, step);
      var rest := CallCanFinish(initial, Next(s, step), t, works);
      RunThenMore(s, [step], rest);
      steps := [step] + rest;
    }
  }

  // ---------------------------------------------------------------------------
  // A check that comes after the first rename, and one that comes before it
  // ---------------------------------------------------------------------------

  /**
   * Once an entry is on disk, a `put` for it that has not checked yet, or has not been called yet, never
   * gets past its check, whoever else is racing: it finds the entry and stops.
   */
  lemma {:induction false} LateCheckNeverRenames(
    initial: map<Path, Bytes>, s: State, steps: seq<Step>, key: string, t: nat)
    requires Inv(initial, s) && Runs(s, steps) && ChecksWork(steps)
    requires IsValidKey(key) && PathFor(key) in s.files
    requires t in s.calls && s.calls[t].key == key ==> s.calls[t].phase == Started || s.calls[t].phase == Returned(true)
    ensures PathFor(key) in After(s, steps).files
    ensures var e := After(s, steps);
            t in e.calls && e.calls[t].key == key ==> e.calls[t].phase == Started || e.calls[t].phase == Returned(true)
    decreases |steps|
  {
    hide PathFor, TempPath, Inv;
    if steps == [] {
    } else {
      var s' := Next(s, steps[0]);
      StepEntries(initial, s, steps[0], key);
      StepKeepsInv(initial, s, steps[0]);
      if t in s.calls {
        CallKept(s, steps[0], t);
      }
      LateCheckNeverRenames(initial, s', steps[1..], key, t);
    }
  }

  /** Some call past its check and before its rename carries these bytes. */
  ghost predicate Carried(s: State, key: string, bytes: Bytes) {
    exists t :: t in s.calls && s.calls[t].key == key && BeforeRename(s.calls[t].phase) && s.calls[t].bytes == bytes
  }

  lemma CarriedBefore(s: State, step: Step, key: string, bytes: Bytes)
    requires ValidKeys(s) && Enabled(s, step) && (step.CheckExists? ==> step.works)
    requires IsValidKey(key) && PathFor(key) in s.files && Carried(Next(s, step), key, bytes)
    ensures Carried(s, key, bytes)
  {
    hide PathFor, TempPath;
    var s' := Next(s, step);
    var t :| t in s'.calls && s'.calls[t].key == key && BeforeRename(s'.calls[t].phase) && s'.calls[t].bytes == bytes;
    assert t in s.calls && s.calls[t].key == key && s.calls[t].bytes == bytes;
    assert BeforeRename(s.calls[t].phase);
  }

  /** So an entry is only ever replaced by the bytes of a call that was racing when it was there first. */
  lemma {:induction false} OnlyRacersReplace(initial: map<Path, Bytes>, s: State, steps: seq<Step>, key: string)
    requires Inv(initial, s) && Runs(s, steps) && ChecksWork(steps)
    requires IsValidKey(key) && PathFor(key) in s.files
    ensures PathFor(key) in After(s, steps).files
    ensures var now := After(s, steps).files[PathFor(key)];
            now == s.files[PathFor(key)] || Carried(s, key, now)
    decreases |steps|
  {
    hide PathFor, TempPath, TempsApart, TempsExact, EntriesWhole, OkPresent, Next;
    if steps == [] {
    } else {
      var s' := Next(s, steps[0]);
      StepEntries(initial, s, steps[0], key);
      StepKeepsInv(initial, s, steps[0]);
      OnlyRacersReplace(initial, s', steps[1..], key);
      var now := After(s, steps).files[PathFor(key)];
      if Carried(s', key, now) {
        CarriedBefore(s, steps[0], key, now);
      }
    }
  }

  lemma {:induction false} OtherCallWaits(s: State, steps: seq<Step>, u: nat)
    requires Runs(s, steps) && u in s.calls && forall i | 0 <= i < |steps| :: steps[i].t != u
    ensures u in After(s, steps).calls && After(s, steps).calls[u] == s.calls[u]
    decreases |steps|
  {
    hide PathFor, TempPath;
    if steps == [] {
    } else {
      OtherCallWaits(Next(s, steps[0]), steps[1..], u);
    }
  }

  lemma {:induction false} OnlyInvokesAddCalls(s: State, steps: seq<Step>)
    requires Runs(s, steps) && forall i | 0 <= i < |steps| :: !steps[i].Invoke?
    ensures After(s, steps).calls.Keys == s.calls.Keys
    decreases |steps|
  {
    hide PathFor, TempPath;
    if steps == [] {
    } else {
      OnlyInvokesAddCalls(Next(s, steps[0]), steps[1..]);
    }
  }

  /** A call that finds no entry passes its check. */
  lemma PassesCheck(initial: map<Path, Bytes>, s: State, t: nat)
    requires Inv(initial, s) && t in s.calls && s.calls[t].phase.Started? && PathFor(s.calls[t].key) !in s.files
    ensures Runs(s, [CheckExists(t, true)]) && After(s, [CheckExists(t, true)]) == Goto(s, t, Checked)
    ensures Inv(initial, Goto(s, t, Checked))
  {
    hide PathFor, TempPath, TempsApart, TempsExact, EntriesWhole, OkPresent, Runs, After;
    OneStep(initial, s, CheckExists(t, true));
    StepKeepsInv(initial, s, CheckExists(t, true));
  }

  /** One of two calls past their check runs to its end while the other waits. */
  lemma FirstOfTwoRenames(initial: map<Path, Bytes>, s: State, t: nat, u: nat)
    requires Inv(initial, s) && t in s.calls && u in s.calls && t != u && BeforeRename(s.calls[t].phase)
    ensures var c := s.calls[t];
            var steps := Finish(t, c);
            && Runs(s, steps) && ChecksWork(steps) && Inv(initial, After(s, steps))
            && PathFor(c.key) in After(s, steps).files && After(s, steps).files[PathFor(c.key)] == c.bytes
            && t in After(s, steps).calls && After(s, steps).calls[t].phase == Returned(true)
            && u in After(s, steps).calls && After(s, steps).calls[u] == s.calls[u]
  {
    hide PathFor, TempPath, TempsApart, TempsExact, EntriesWhole, OkPresent;
    var steps := Finish(t, s.calls[t]);
    RacerOverwrites(initial, s, t);
    OtherCallWaits(s, steps, u);
    RunKeepsInv(initial, s, steps);
  }

  /** Two calls for one missing entry, neither of which has looked. */
  ghost predicate TwoPending(s: State, t: nat, u: nat, key: string) {
    && t in s.calls && u in s.calls && t != u && s.calls[t].phase.Started? && s.calls[u].phase.Started?
    && s.calls[t].key == key && s.calls[u].key == key && IsValidKey(key) && PathFor(key) !in s.files
  }

  /** Both check, then the first goes on to its rename. */
  ghost function BothCheck(s: State, t: nat, u: nat): seq<Step>
    requires t in s.calls
  {
    [CheckExists(t, true)] + ([CheckExists(u, true)] + Finish(t, s.calls[t].(phase := Checked)))
  }

  lemma BothCheckAndRace(initial: map<Path, Bytes>, s: State, t: nat, u: nat, key: string)
    requires Inv(initial, s) && TwoPending(s, t, u, key) && s.calls[t].bytes != s.calls[u].bytes
    ensures var steps := BothCheck(s, t, u);
            && Runs(s, steps) && ChecksWork(steps) && Inv(initial, After(s, steps))
            && PathFor(key) in After(s, steps).files && After(s, steps).files[PathFor(key)] == s.calls[t].bytes
            && Racing(After(s, steps), key, s.calls[t].bytes)
            && t in After(s, steps).calls && After(s, steps).calls[t].phase == Returned(true)
  {
    hide Runs, After, PathFor, TempPath, Inv, Finish, IsValidKey;
    PassesCheck(initial, s, t);
    var s1 := Goto(s, t, Checked);
    PassesCheck(initial, s1, u);
    var s2 := Goto(s1, u, Checked);
    FirstOfTwoRenames(initial, s2, t, u);
    var rest := Finish(t, s2.calls[t]);
    RunThenMore(s1, [CheckExists(u, true)], rest);
    RunThenMore(s, [CheckExists(t, true)], [CheckExists(u, true)] + rest);
    assert After(s2, rest).calls[u] == s2.calls[u];
  }

  /** The first checks and renames before the second looks. */
  ghost function OneChecks(s: State, t: nat, u: nat): seq<Step>
    requires t in s.calls
  {
    [CheckExists(t, true)] + (Finish(t, s.calls[t].(phase := Checked)) + [CheckExists(u, true)])
  }

  /** The second then stops; with no other call about, the entry is settled. */
  lemma OneChecksLate(initial: map<Path, Bytes>, s: State, t: nat, u: nat, key: string)
    requires Inv(initial, s) && TwoPending(s, t, u, key) && s.calls.Keys == {t, u}
    ensures var steps := OneChecks(s, t, u);
            && Runs(s, steps) && ChecksWork(steps) && Inv(initial, After(s, steps))
            && PathFor(key) in After(s, steps).files && After(s, steps).files[PathFor(key)] == s.calls[t].bytes
            && !Racing(After(s, steps), key, s.calls[t].bytes)
            && u in After(s, steps).calls && After(s, steps).calls[u].phase == Returned(true)
  {
    hide Runs, After, PathFor, TempPath, TempsApart, TempsExact, EntriesWhole, OkPresent, IsValidKey;
    PassesCheck(initial, s, t);
    var s1 := Goto(s, t, Checked);
    FirstOfTwoRenames(initial, s1, t, u);
    var rest := Finish(t, s1.calls[t]);
    OnlyInvokesAddCalls(s1, rest);
    var s2 := After(s1, rest);
    assert s2.calls[u] == s.calls[u];
    StepEntries(initial, s2, CheckExists(u, true), key);
    StepKeepsInv(initial, s2, CheckExists(u, true));
    OneStep(initial, s2, CheckExists(u, true));
    RunThenMore(s1, rest, [CheckExists(u, true)]);
    RunThenMore(s, [CheckExists(t, true)], rest + [CheckExists(u, true)]);
  }

  lemma TwoInvokes(s: State, key: string, a: Bytes, b: Bytes, pid: nat)
    requires Initial(s) && IsValidKey(key) && PathFor(key) !in s.files
    ensures var steps := [Invoke(0, key, a, pid), Invoke(1, key, b, pid)];
            && Runs(s, steps) && ChecksWork(steps) && Inv(s.files, After(s, steps))
            && After(s, steps) == s.(calls := map[0 := Call(key, a, pid, Started), 1 := Call(key, b, pid, Started)])
  {
    assert Inv(s.files, s);
    hide Inv, PathFor, TempPath, IsValidKey, Runs, After;
    var (v, w) := (Invoke(0, key, a, pid), Invoke(1, key, b, pid));
    OneStep(s.files, s, v);
    StepKeepsInv(s.files, s, v);
    OneStep(s.files, Next(s, v), w);
    StepKeepsInv(s.files, Next(s, v), w);
    RunThenMore(s, [v], [w]);
    assert [v] + [w] == [v, w];
  }

  /**
   * From any store without the entry, two calls with different bytes that both check before the
   * first renames reach a state in which the entry is there and can still be replaced.
   */
  lemma RaceIsReachable(s: State, key: string, a: Bytes, b: Bytes, pid: nat) returns (steps: seq<Step>)
    requires Initial(s) && IsValidKey(key) && PathFor(key) !in s.files && a != b
    ensures Runs(s, steps) && ChecksWork(steps) && Inv(s.files, After(s, steps))
    ensures PathFor(key) in After(s, steps).files && After(s, steps).files[PathFor(key)] == a
    ensures Racing(After(s, steps), key, a)
  {
    hide Runs, After, PathFor, TempPath, Inv, Finish, Racing, IsValidKey, BothCheck;
    TwoInvokes(s, key, a, b, pid);
    var calls := [Invoke(0, key, a, pid), Invoke(1, key, b, pid)];
    var s2 := After(s, calls);
    BothCheckAndRace(s.files, s2, 0, 1, key);
    RunThenMore(s, calls, BothCheck(s2, 0, 1));
    steps := calls + BothCheck(s2, 0, 1);
  }
}
