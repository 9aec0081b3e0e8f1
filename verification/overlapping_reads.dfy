/**
 * `LayeredCache::get` over a disk, with any number of reads and writes in flight at once: a read
 * misses, asks the remote and populates the disk in separate steps, and anything may run between.
 * The remote stands for every tier behind the disk and may reply anything.
 */
module OverlappingReads {
  import opened Text
  import opened CacheKeys
  import Puts = PutProtocol

  type Bytes = Puts.Bytes

  /** Where a read stands; `t` is the `put` by which it populates the local tier. */
  datatype ReadPhase =
    | Asked
    | Missed
    | Fetched(bytes: Bytes)
    | Populating(bytes: Bytes, t: nat)
    | Answered(answer: Option<Bytes>)
    | Errored

  datatype Reader = Reader(key: string, phase: ReadPhase)

  datatype World = World(store: Puts.State, readers: map<nat, Reader>)

  /** A remote that errs replies `None`; a populate that errs is ignored. */
  datatype Event =
    | Write(step: Puts.Step)
    | Ask(r: nat, key: string)
    | ReadLocal(r: nat, works: bool)
    | Reply(r: nat, reply: Option<Bytes>)
    | Populate(r: nat, t: nat, pid: nat)
    | Finish(r: nat)

  predicate Enabled(w: World, event: Event) {
    match event
    case Write(step) => Puts.Enabled(w.store, step)
    case Ask(r, key) => r !in w.readers && IsValidKey(key)
    case ReadLocal(r, _) => r in w.readers && w.readers[r].phase.Asked?
    case Reply(r, _) => r in w.readers && w.readers[r].phase.Missed?
    case Populate(r, t, pid) => r in w.readers && w.readers[r].phase.Fetched? && t !in w.store.calls
    case Finish(r) =>
      && r in w.readers && w.readers[r].phase.Populating?
      && w.readers[r].phase.t in w.store.calls && w.store.calls[w.readers[r].phase.t].phase.Returned?
  }

  ghost predicate ValidKeys(w: World) {
    Puts.ValidKeys(w.store) && forall r | r in w.readers :: IsValidKey(w.readers[r].key)
  }

  function Goto(w: World, r: nat, phase: ReadPhase): World
    requires r in w.readers
  {
    w.(readers := w.readers[r := w.readers[r].(phase := phase)])
  }

  /** What a look at the local tier finds. */
  function Found(w: World, key: string): Option<Bytes>
    requires IsValidKey(key)
  {
    if Puts.PathFor(key) in w.store.files then Some(w.store.files[Puts.PathFor(key)]) else None
  }

  function Next(w: World, event: Event): World
    requires Enabled(w, event) && ValidKeys(w)
  {
    match event
    case Write(step) => w.(store := Puts.Next(w.store, step))
    case Ask(r, key) => w.(readers := w.readers[r := Reader(key, Asked)])
    case ReadLocal(r, works) =>
      var found := Found(w, w.readers[r].key);
      Goto(w, r, if !works then Errored else if found.Some? then Answered(found) else Missed)
    case Reply(r, reply) => Goto(w, r, if reply.Some? then Fetched(reply.value) else Answered(None))
    case Populate(r, t, pid) =>
      var (key, bytes) := (w.readers[r].key, w.readers[r].phase.bytes);
      Goto(w, r, Populating(bytes, t)).(store := Puts.Next(w.store, Puts.Invoke(t, key, bytes, pid)))
    case Finish(r) => Goto(w, r, Answered(Some(w.readers[r].phase.bytes)))
  }

  // ---------------------------------------------------------------------------
  // What every event keeps
  // ---------------------------------------------------------------------------

  /** The bytes a read carries are the remote's, or all of an entry that some `put` completed. */
  ghost predicate Backed(initial: map<Puts.Path, Bytes>, w: World, r: nat)
    requires r in w.readers && IsValidKey(w.readers[r].key)
  {
    var (key, phase) := (w.readers[r].key, w.readers[r].phase);
    && (phase.Populating? ==>
          phase.t in w.store.calls && w.store.calls[phase.t].key == key && w.store.calls[phase.t].bytes == phase.bytes)
    && (phase.Answered? && phase.answer.Some? ==> Puts.Whole(initial, w.store.calls, key, phase.answer.value))
  }

  ghost predicate Inv(initial: map<Puts.Path, Bytes>, w: World) {
    ValidKeys(w) && Puts.Inv(initial, w.store) && forall r | r in w.readers :: Backed(initial, w, r)
  }

  /** What an event does to the store: one step of the `put` protocol, or nothing. */
  ghost function StoreStep(w: World, event: Event): Option<Puts.Step>
    requires Enabled(w, event)
  {
    match event
    case Write(step) => Some(step)
    case Populate(r, t, pid) => Some(Puts.Invoke(t, w.readers[r].key, w.readers[r].phase.bytes, pid))
    case _ => None
  }

  lemma StoreMoves(w: World, event: Event)
    requires ValidKeys(w) && Enabled(w, event)
    ensures var step := StoreStep(w, event);
            if step.None? then Next(w, event).store == w.store
            else Puts.Enabled(w.store, step.value) && Next(w, event).store == Puts.Next(w.store, step.value)
  {
    hide Puts.Next, IsValidKey, Found;
  }

  lemma WholeStays(initial: map<Puts.Path, Bytes>, s: Puts.State, step: Puts.Step, key: string, bytes: Bytes)
    requires Puts.ValidKeys(s) && Puts.Enabled(s, step) && IsValidKey(key)
    requires Puts.Whole(initial, s.calls, key, bytes)
    ensures Puts.Whole(initial, Puts.Next(s, step).calls, key, bytes)
  {
    hide Puts.Next, Puts.Enabled, IsValidKey, Puts.PathFor;
    if !(Puts.PathFor(key) in initial && initial[Puts.PathFor(key)] == bytes) {
      var t :| t in s.calls && s.calls[t].key == key && s.calls[t].bytes == bytes;
      Puts.CallKept(s, step, t);
    }
  }

  /** A read the event does not move stays backed. */
  lemma BackedStays(initial: map<Puts.Path, Bytes>, w: World, event: Event, r: nat)
    requires ValidKeys(w) && Enabled(w, event) && r in w.readers && Backed(initial, w, r)
    requires r in Next(w, event).readers && Next(w, event).readers[r] == w.readers[r]
    ensures Backed(initial, Next(w, event), r)
  {
    hide Puts.Next, Next, Enabled, Puts.Enabled, IsValidKey, Puts.Whole;
    StoreMoves(w, event);
    var (step, phase, key) := (StoreStep(w, event), w.readers[r].phase, w.readers[r].key);
    if step.Some? {
      if phase.Populating? {
        Puts.CallKept(w.store, step.value, phase.t);
      }
      if phase.Answered? && phase.answer.Some? {
        WholeStays(initial, w.store, step.value, key, phase.answer.value);
      }
    }
  }

  /** A read the event moves is backed afterwards. */
  lemma MovedIsBacked(initial: map<Puts.Path, Bytes>, w: World, event: Event)
    requires Inv(initial, w) && Enabled(w, event) && !event.Write?
    ensures IsValidKey(Next(w, event).readers[event.r].key) && Backed(initial, Next(w, event), event.r)
  {
    hide Puts.TempsApart, Puts.TempsExact, Puts.OkPresent, Puts.PathFor, IsValidKey;
    assert event.Finish? ==> Backed(initial, w, event.r);
  }

  lemma StepKeepsInv(initial: map<Puts.Path, Bytes>, w: World, event: Event)
    requires Inv(initial, w) && Enabled(w, event)
    ensures Inv(initial, Next(w, event))
  {
    hide Puts.Inv, Backed, Puts.Next, Puts.Enabled, IsValidKey, Found;
    var w' := Next(w, event);
    StoreMoves(w, event);
    if StoreStep(w, event).Some? {
      Puts.StepKeepsInv(initial, w.store, StoreStep(w, event).value);
    }
    StoreKeysValid(initial, w'.store);
    if !event.Write? {
      MovedIsBacked(initial, w, event);
    }
    forall r | r in w'.readers ensures IsValidKey(w'.readers[r].key) && Backed(initial, w', r) {
      if event.Write? || r != event.r {
        BackedStays(initial, w, event, r);
      }
    }
  }

  lemma StoreKeysValid(initial: map<Puts.Path, Bytes>, s: Puts.State)
    requires Puts.Inv(initial, s)
    ensures Puts.ValidKeys(s)
  {
  }

  // ---------------------------------------------------------------------------
  // Whole runs
  // ---------------------------------------------------------------------------

  ghost predicate Runs(w: World, events: seq<Event>)
    decreases |events|
  {
    ValidKeys(w) && (events == [] || (Enabled(w, events[0]) && Runs(Next(w, events[0]), events[1..])))
  }

  ghost function After(w: World, events: seq<Event>): World
    requires Runs(w, events)
    decreases |events|
  {
    if events == [] then w else After(Next(w, events[0]), events[1..])
  }

  ghost predicate CheckWorks(event: Event) {
    event.Write? && event.step.CheckExists? ==> event.step.works
  }

  ghost predicate ChecksWork(events: seq<Event>) {
    forall i | 0 <= i < |events| :: CheckWorks(events[i])
  }

  ghost predicate Initial(w: World) {
    Puts.Initial(w.store) && w.readers == map[]
  }

  lemma {:induction false} RunKeepsInv(initial: map<Puts.Path, Bytes>, w: World, events: seq<Event>)
    requires Inv(initial, w) && Runs(w, events)
    ensures Inv(initial, After(w, events))
    decreases |events|
  {
    hide Inv, Next, Enabled;
    if events == [] {
    } else {
      StepKeepsInv(initial, w, events[0]);
      RunKeepsInv(initial, Next(w, events[0]), events[1..]);
    }
  }

  /**
   * However reads and writes overlap and fail, no read answers part of an entry: an answer is all
   * the bytes of one `put` for its key (a populate carries the remote's), or the initial entry.
   */
  lemma AnswersAreWhole(w: World, events: seq<Event>)
    requires Initial(w) && Runs(w, events)
    ensures var e := After(w, events);
            && ValidKeys(e)
            && forall r | r in e.readers && e.readers[r].phase.Answered? && e.readers[r].phase.answer.Some? ::
              Puts.Whole(w.store.files, e.store.calls, e.readers[r].key, e.readers[r].phase.answer.value)
  {
    hide IsValidKey;
    assert Inv(w.store.files, w);
    RunKeepsInv(w.store.files, w, events);
    var e := After(w, events);
    forall r | r in e.readers && e.readers[r].phase.Answered? && e.readers[r].phase.answer.Some?
      ensures Puts.Whole(w.store.files, e.store.calls, e.readers[r].key, e.readers[r].phase.answer.value)
    {
      assert Backed(w.store.files, e, r);
    }
  }

  // ---------------------------------------------------------------------------
  // Exactly when later reads agree
  // ---------------------------------------------------------------------------

  /** The disk holds these bytes and no call past its check carries others. */
  ghost predicate Settled(w: World, key: string, bytes: Bytes)
    requires IsValidKey(key)
  {
    Found(w, key) == Some(bytes) && !Puts.Racing(w.store, key, bytes)
  }

  /** Every read of the key that is not in `asked` has not answered, or has answered `bytes`. */
  ghost predicate NewReadsAnswer(asked: set<nat>, w: World, key: string, bytes: Bytes) {
    forall r | r in w.readers && r !in asked && w.readers[r].key == key ::
      w.readers[r].phase.Asked? || w.readers[r].phase.Errored? || w.readers[r].phase == Answered(Some(bytes))
  }

  lemma SettledEvent(
    initial: map<Puts.Path, Bytes>, asked: set<nat>, w: World, event: Event, key: string, bytes: Bytes)
    requires Inv(initial, w) && Enabled(w, event) && CheckWorks(event) && IsValidKey(key)
    requires Settled(w, key, bytes) && NewReadsAnswer(asked, w, key, bytes)
    ensures Settled(Next(w, event), key, bytes) && NewReadsAnswer(asked, Next(w, event), key, bytes)
  {
    hide Puts.Inv, Puts.PathFor, Puts.Next, Puts.Enabled, Puts.Racing, IsValidKey, Backed;
    StoreMoves(w, event);
    if StoreStep(w, event).Some? {
      Puts.SettledStep(initial, w.store, StoreStep(w, event).value, key);
    }
  }

  lemma {:induction false} SettledRun(
    initial: map<Puts.Path, Bytes>, asked: set<nat>, w: World, events: seq<Event>, key: string, bytes: Bytes)
    requires Inv(initial, w) && Runs(w, events) && ChecksWork(events) && IsValidKey(key)
    requires Settled(w, key, bytes) && NewReadsAnswer(asked, w, key, bytes)
    ensures NewReadsAnswer(asked, After(w, events), key, bytes)
    decreases |events|
  {
    hide Inv, Settled, NewReadsAnswer, Next, Enabled, CheckWorks;
    if events == [] {
    } else {
      assert CheckWorks(events[0]);
      SettledEvent(initial, asked, w, events[0], key, bytes);
      StepKeepsInv(initial, w, events[0]);
      SettledRun(initial, asked, Next(w, events[0]), events[1..], key, bytes);
    }
  }

  ghost predicate AnswerOnly(asked: set<nat>, w: World, key: string, bytes: Bytes) {
    forall r | r in w.readers && r !in asked && w.readers[r].key == key && w.readers[r].phase.Answered? ::
      w.readers[r].phase.answer == Some(bytes)
  }

  /** In every continuation, every read asked from now on that answers, answers `bytes`. */
  ghost predicate LaterReadsAnswer(w: World, key: string, bytes: Bytes) {
    forall events | Runs(w, events) && ChecksWork(events) ::
      AnswerOnly(w.readers.Keys, After(w, events), key, bytes)
  }

  lemma {:induction false} RunThenMore(w: World, a: seq<Event>, b: seq<Event>)
    requires Runs(w, a) && Runs(After(w, a), b)
    ensures Runs(w, a + b) && After(w, a + b) == After(After(w, a), b)
    decreases |a|
  {
    hide Next, Enabled;
    if a == [] {
      assert a + b == b;
    } else {
      RunThenMore(Next(w, a[0]), a[1..], b);
      assert (a + b)[1..] == a[1..] + b;
    }
  }

  lemma OneEvent(initial: map<Puts.Path, Bytes>, w: World, event: Event)
    requires Inv(initial, w) && Enabled(w, event)
    ensures Runs(w, [event]) && After(w, [event]) == Next(w, event) && Inv(initial, Next(w, event))
  {
    hide Puts.Inv, Backed, Next, Enabled;
    StepKeepsInv(initial, w, event);
    assert [event][1..] == [];
  }

  /** The events of writes alone. */
  ghost function Writes(steps: seq<Puts.Step>): seq<Event> {
    seq(|steps|, i requires 0 <= i < |steps| => Write(steps[i]))
  }

  /** A run of the `put` protocol is a run here, and no read notices. */
  lemma {:induction false} WritesRun(initial: map<Puts.Path, Bytes>, w: World, steps: seq<Puts.Step>)
    requires Inv(initial, w) && Puts.Runs(w.store, steps)
    ensures Runs(w, Writes(steps)) && After(w, Writes(steps)) == w.(store := Puts.After(w.store, steps))
    ensures Inv(initial, After(w, Writes(steps)))
    decreases |steps|
  {
    hide Puts.Inv, Puts.Next, Puts.Enabled, Backed;
    if steps == [] {
    } else {
      var w1 := w.(store := Puts.Next(w.store, steps[0]));
      OneEvent(initial, w, Write(steps[0]));
      WritesRun(initial, w1, steps[1..]);
      RunThenMore(w, [Write(steps[0])], Writes(steps[1..]));
      assert [Write(steps[0])] + Writes(steps[1..]) == Writes(steps);
    }
  }

  lemma {:induction false} Fresh(s: set<nat>) returns (n: nat)
    ensures forall x | x in s :: x < n
  {
    if s == {} {
      n := 0;
    } else {
      var x :| x in s;
      var m := Fresh(s - {x});
      n := if m <= x then x + 1 else m;
      assert s == (s - {x}) + {x};
    }
  }

  /** A read by itself, of a remote that has nothing: it answers what the disk holds. */
  lemma FreshReadShows(initial: map<Puts.Path, Bytes>, w: World, r: nat, key: string) returns (events: seq<Event>)
    requires Inv(initial, w) && r !in w.readers && IsValidKey(key)
    ensures Runs(w, events) && ChecksWork(events)
    ensures After(w, events).readers == w.readers[r := Reader(key, Answered(Found(w, key)))]
  {
    hide Puts.Inv, Backed, IsValidKey, Puts.PathFor;
    var (ask, look, reply) := (Ask(r, key), ReadLocal(r, true), Reply(r, None));
    OneEvent(initial, w, ask);
    var w1 := Next(w, ask);
    OneEvent(initial, w1, look);
    var w2 := Next(w1, look);
    RunThenMore(w, [ask], [look]);
    events := [ask] + [look];
    if Found(w, key).None? {
      OneEvent(initial, w2, reply);
      RunThenMore(w, events, [reply]);
      events := events + [reply];
    }
  }

  /** Whatever a run of writes leads to, a read asked after it tells. */
  lemma LaterReadShows(initial: map<Puts.Path, Bytes>, w: World, steps: seq<Puts.Step>, key: string, bytes: Bytes)
    requires Inv(initial, w) && Puts.Runs(w.store, steps) && Puts.ChecksWork(steps) && IsValidKey(key)
    requires LaterReadsAnswer(w, key, bytes)
    ensures Found(w.(store := Puts.After(w.store, steps)), key) == Some(bytes)
  {
    hide Inv, Found, Runs, After, IsValidKey, Puts.Runs, Puts.After;
    WritesRun(initial, w, steps);
    var w1 := After(w, Writes(steps));
    var r := Fresh(w.readers.Keys);
    var more := FreshReadShows(initial, w1, r, key);
    RunThenMore(w, Writes(steps), more);
    var events := Writes(steps) + more;
    assert ChecksWork(events);
    assert After(w, events).readers[r] == Reader(key, Answered(Found(w1, key)));
  }

  /**
   * All reads of a key asked from now on answer `bytes`, in every interleaving, exactly when the
   * disk holds them and no `put` or populate with other bytes is past its check and not yet renamed.
   */
  lemma LaterReadsAgreeIffSettled(initial: map<Puts.Path, Bytes>, w: World, key: string, bytes: Bytes)
    requires Inv(initial, w) && IsValidKey(key)
    ensures LaterReadsAnswer(w, key, bytes) <==> Settled(w, key, bytes)
  {
    hide Puts.Inv, Puts.PathFor, IsValidKey, Backed, Runs, After, Puts.Runs, Puts.After;
    if Settled(w, key, bytes) {
      forall events | Runs(w, events) && ChecksWork(events)
        ensures AnswerOnly(w.readers.Keys, After(w, events), key, bytes)
      {
        SettledRun(initial, w.readers.Keys, w, events, key, bytes);
      }
    }
    if LaterReadsAnswer(w, key, bytes) {
      NoStoreSteps(w.store);
      LaterReadShows(initial, w, [], key, bytes);
      if Puts.Racing(w.store, key, bytes) {
        var t :| t in w.store.calls && w.store.calls[t].key == key && Puts.BeforeRename(w.store.calls[t].phase)
                 && w.store.calls[t].bytes != bytes;
        Puts.RacerOverwrites(initial, w.store, t);
        LaterReadShows(initial, w, Puts.Finish(t, w.store.calls[t]), key, bytes);
        assert false;
      }
    }
  }

  lemma NoStoreSteps(s: Puts.State)
    requires Puts.ValidKeys(s)
    ensures Puts.Runs(s, []) && Puts.After(s, []) == s
  {
  }

  // ---------------------------------------------------------------------------
  // Two reads at once, of a remote that answers them differently
  // ---------------------------------------------------------------------------

  /** A read that misses, is answered by the remote and has begun to populate the disk. */
  lemma FetchesFromRemote(initial: map<Puts.Path, Bytes>, w: World, r: nat, call: Puts.Call)
    returns (events: seq<Event>)
    requires Inv(initial, w) && r !in w.readers && r !in w.store.calls
    requires IsValidKey(call.key) && call.phase.Started? && Found(w, call.key).None?
    ensures Runs(w, events) && ChecksWork(events) && Inv(initial, After(w, events))
    ensures After(w, events) == World(w.store.(calls := w.store.calls[r := call]),
                                      w.readers[r := Reader(call.key, Populating(call.bytes, r))])
  {
    hide Inv, IsValidKey, Puts.PathFor, Runs, After;
    var (key, bytes) := (call.key, call.bytes);
    InvHasValidKeys(initial, w);
    var ask := Ask(r, key);
    OneEvent(initial, w, ask);
    var w1 := Next(w, ask);
    InvHasValidKeys(initial, w1);
    var look := ReadLocal(r, true);
    OneEvent(initial, w1, look);
    var w2 := Next(w1, look);
    InvHasValidKeys(initial, w2);
    var reply := Reply(r, Some(bytes));
    OneEvent(initial, w2, reply);
    var w3 := Next(w2, reply);
    InvHasValidKeys(initial, w3);
    var populate := Populate(r, r, call.pid);
    OneEvent(initial, w3, populate);
    RunThenMore(w2, [reply], [populate]);
    RunThenMore(w1, [look], [reply] + [populate]);
    RunThenMore(w, [ask], [look] + ([reply] + [populate]));
    events := [ask] + ([look] + ([reply] + [populate]));
  }

  lemma InvHasValidKeys(initial: map<Puts.Path, Bytes>, w: World)
    requires Inv(initial, w)
    ensures ValidKeys(w)
  {
  }

  /** Both reads have missed, been answered and begun to populate. */
  lemma BothFetch(w: World, key: string, a: Bytes, b: Bytes, pid: nat) returns (events: seq<Event>)
    requires Initial(w) && IsValidKey(key) && Found(w, key).None?
    ensures Runs(w, events) && ChecksWork(events) && Inv(w.store.files, After(w, events))
    ensures After(w, events) == World(
      w.store.(calls := map[0 := Puts.Call(key, a, pid, Puts.Started), 1 := Puts.Call(key, b, pid, Puts.Started)]),
      map[0 := Reader(key, Populating(a, 0)), 1 := Reader(key, Populating(b, 1))])
  {
    assert Inv(w.store.files, w);
    hide Inv, IsValidKey, Puts.PathFor, Runs, After;
    var first := FetchesFromRemote(w.store.files, w, 0, Puts.Call(key, a, pid, Puts.Started));
    var second := FetchesFromRemote(w.store.files, After(w, first), 1, Puts.Call(key, b, pid, Puts.Started));
    RunThenMore(w, first, second);
    events := first + second;
  }

  /** Writes, and then a read whose populate has returned answers. */
  lemma WritesThenFinish(initial: map<Puts.Path, Bytes>, w: World, steps: seq<Puts.Step>, r: nat)
    returns (events: seq<Event>)
    requires Inv(initial, w) && Puts.Runs(w.store, steps) && Puts.ChecksWork(steps)
    requires r in w.readers && w.readers[r].phase.Populating?
    requires var s := Puts.After(w.store, steps);
             w.readers[r].phase.t in s.calls && s.calls[w.readers[r].phase.t].phase.Returned?
    ensures Runs(w, events) && ChecksWork(events) && Inv(initial, After(w, events))
    ensures After(w, events) == Goto(w, r, Answered(Some(w.readers[r].phase.bytes))).(store := Puts.After(w.store, steps))
  {
    hide Inv, IsValidKey, Runs, After, Puts.Runs, Puts.After;
    WritesRun(initial, w, steps);
    var w1 := After(w, Writes(steps));
    InvHasValidKeys(initial, w1);
    OneEvent(initial, w1, Finish(r));
    RunThenMore(w, Writes(steps), [Finish(r)]);
    events := Writes(steps) + [Finish(r)];
  }

  /**
   * Both populates check before the first renames: the first read answers `a`, the disk holds `a`,
   * and a later read can still answer something else.
   */
  lemma OverlappingReadIsNotFinal(w: World, key: string, a: Bytes, b: Bytes, pid: nat) returns (events: seq<Event>)
    requires Initial(w) && IsValidKey(key) && Found(w, key).None? && a != b
    ensures Runs(w, events) && ChecksWork(events)
    ensures var e := After(w, events);
            && 0 in e.readers && e.readers[0] == Reader(key, Answered(Some(a)))
            && Found(e, key) == Some(a) && !LaterReadsAnswer(e, key, a)
  {
    hide Inv, IsValidKey, Runs, After, LaterReadsAnswer;
    hide Puts.Runs, Puts.After, Puts.PathFor, Puts.Racing, Puts.BothCheck;
    var before := BothFetch(w, key, a, b, pid);
    var w1 := After(w, before);
    InvHasStoreInv(w.store.files, w1);
    Puts.BothCheckAndRace(w.store.files, w1.store, 0, 1, key);
    var more := WritesThenFinish(w.store.files, w1, Puts.BothCheck(w1.store, 0, 1), 0);
    RunThenMore(w, before, more);
    events := before + more;
    LaterReadsAgreeIffSettled(w.store.files, After(w, events), key, a);
  }

  lemma InvHasStoreInv(initial: map<Puts.Path, Bytes>, w: World)
    requires Inv(initial, w)
    ensures Puts.Inv(initial, w.store)
  {
  }

  /**
   * The second populate checks after the first renamed: nobody races, yet the second read answers
   * `b` where the disk holds `a`, and every later read answers `a`.
   */
  lemma LateReadDisagreesWithTheDisk(w: World, key: string, a: Bytes, b: Bytes, pid: nat)
    returns (events: seq<Event>)
    requires Initial(w) && IsValidKey(key) && Found(w, key).None? && a != b
    ensures Runs(w, events) && ChecksWork(events)
    ensures var e := After(w, events);
            && 1 in e.readers && e.readers[1] == Reader(key, Answered(Some(b)))
            && LaterReadsAnswer(e, key, a)
  {
    hide Inv, IsValidKey, Runs, After, Puts.Runs, Puts.After, Puts.PathFor, Puts.OneChecks, LaterReadsAnswer;
    var before := BothFetch(w, key, a, b, pid);
    var w1 := After(w, before);
    InvHasStoreInv(w.store.files, w1);
    Puts.OneChecksLate(w.store.files, w1.store, 0, 1, key);
    var more := WritesThenFinish(w.store.files, w1, Puts.OneChecks(w1.store, 0, 1), 1);
    RunThenMore(w, before, more);
    events := before + more;
    LaterReadsAgreeIffSettled(w.store.files, After(w, events), key, a);
  }
}
