/**
 * The tier stack: `LayeredCache`, `ReadOnlyCache` and the disk and remote backends under them,
 * nested the way `build_cache` nests them, against a remote that may answer anything.
 */
module Tiers {
  import opened Text

  type Key = string
  type Entry = string
  type Disk = map<Key, Entry>

  datatype Result<+T> = Ok(value: T) | Err

  /** Backends are shared handles: the state they reach lives in the world. */
  datatype Backend =
    | DiskCache(id: nat)
    | Remote
    | ReadOnly(inner: Backend)
    | Layered(local: Backend, remote: Backend)

  datatype Reply = Hit(entry: Entry) | Miss | Down

  /** How a disk access fares: it works, it fails, or only its existence check errors and counts as "absent". */
  datatype Fault = Fine | Fails | CheckFails

  /**
   * What the outside does at each tick: the remote's answers, how an access to a disk fares, and
   * which files a purge manages to remove.
   */
  datatype Env = Env(
    remoteGet: (nat, Key) -> Reply, remotePut: nat -> bool, disk: (nat, nat) -> Fault, removes: (nat, Key) -> bool)

  /** `sent` is what the remotes were asked to store. */
  datatype World = World(disks: map<nat, Disk>, clock: nat, sent: seq<(Key, Entry)>)

  function DiskAt(w: World, id: nat): Disk {
    if id in w.disks then w.disks[id] else map[]
  }

  function Tick(w: World): World {
    w.(clock := w.clock + 1)
  }

  function WriteDisk(w: World, id: nat, d: Disk): World {
    w.(disks := w.disks[id := d])
  }

  // ---------------------------------------------------------------------------
  // The operations as functions of the world
  // ---------------------------------------------------------------------------

  function GetSpec(env: Env, b: Backend, k: Key, w: World): (Result<Option<Entry>>, World)
    decreases b
  {
    match b
    case DiskCache(id) =>
      if env.disk(id, w.clock).Fails? then (Err, Tick(w))
      else (Ok(if k in DiskAt(w, id) then Some(DiskAt(w, id)[k]) else None), Tick(w))
    case Remote =>
      (match env.remoteGet(w.clock, k)
       case Hit(e) => Ok(Some(e))
       case Miss => Ok(None)
       case Down => Err, Tick(w))
    case ReadOnly(inner) => GetSpec(env, inner, k, w)
    case Layered(local, remote) =>
      var (r, w1) := GetSpec(env, local, k, w);
      if r.Err? || r.value.Some? then (r, w1)
      else
        var (r2, w2) := GetSpec(env, remote, k, w1);
        if r2.Err? then (Ok(None), w2)
        else if r2.value.None? then (Ok(None), w2)
        else (r2, PutSpec(env, local, k, r2.value.value, w2).1)
  }

  function PutSpec(env: Env, b: Backend, k: Key, e: Entry, w: World): (Result<()>, World)
    decreases b
  {
    match b
    case DiskCache(id) =>
      if env.disk(id, w.clock).Fails? then (Err, Tick(w))
      else if env.disk(id, w.clock).Fine? && k in DiskAt(w, id) then (Ok(()), Tick(w))
      else (Ok(()), WriteDisk(Tick(w), id, DiskAt(w, id)[k := e]))
    case Remote => (if env.remotePut(w.clock) then Ok(()) else Err, Tick(w).(sent := w.sent + [(k, e)]))
    case ReadOnly(_) => (Ok(()), w)
    case Layered(local, remote) =>
      var (r, w1) := PutSpec(env, local, k, e, w);
      if r.Err? then (r, w1) else (Ok(()), PutSpec(env, remote, k, e, w1).1)
  }

  /** The size of the store behind the handle; a remote's count is its own business. */
  function StatsSpec(env: Env, b: Backend, w: World): (Result<nat>, World)
    decreases b
  {
    match b
    case DiskCache(id) => (if env.disk(id, w.clock).Fails? then Err else Ok(|DiskAt(w, id)|), Tick(w))
    case Remote => (Err, Tick(w))
    case ReadOnly(inner) => StatsSpec(env, inner, w)
    case Layered(local, _) => StatsSpec(env, local, w)
  }

  /** What a purge takes: the doomed entries whose removal succeeds. */
  function Taken(env: Env, d: Disk, doomed: set<Key>, tick: nat): set<Key> {
    set k | k in d && k in doomed && env.removes(tick, k)
  }

  /** `doomed` is what the filter selects. A walk that fails midway has removed files already. */
  function PurgeSpec(env: Env, b: Backend, doomed: set<Key>, w: World): (Result<nat>, World)
    decreases b
  {
    match b
    case DiskCache(id) =>
      var taken := Taken(env, DiskAt(w, id), doomed, w.clock);
      (if env.disk(id, w.clock).Fails? then Err else Ok(|taken|), WriteDisk(Tick(w), id, DiskAt(w, id) - taken))
    case Remote => (Err, Tick(w))
    case ReadOnly(_) => (Ok(0), w)
    case Layered(local, _) => PurgeSpec(env, local, doomed, w)
  }

  /** The stack at work. */
  class CacheStack {
    const env: Env
    var disks: map<nat, Disk>
    var clock: nat
    var sent: seq<(Key, Entry)>

    constructor (env: Env, disks: map<nat, Disk>)
      ensures this.env == env && this.disks == disks && clock == 0 && sent == []
    {
      this.env, this.disks, this.clock, this.sent := env, disks, 0, [];
    }

    ghost function Now(): World
      reads this
    {
      World(disks, clock, sent)
    }

    /** Reading through changes nothing stored, and on a healthy stack the answer is held from then on. */
    method Get(b: Backend, k: Key) returns (r: Result<Option<Entry>>)
      modifies this
      ensures (r, Now()) == GetSpec(env, b, k, old(Now()))
      ensures Grows(env, old(Now()), Now(), GetWrites(b))
      ensures Spine(b) && Healthy(env, Primary(b)) ==>
        && r.Ok?
        && (k in DiskAt(old(Now()), Primary(b)) ==> r.value == Some(DiskAt(old(Now()), Primary(b))[k]))
        && (r.value.Some? ==> Holds(Now(), Primary(b), k, r.value.value))
      decreases b
    {
      ghost var before := Now();
      GetGrows(env, b, k, before);
      if Spine(b) && Healthy(env, Primary(b)) {
        GetSettles(env, b, k, before);
      }
      match b
      case DiskCache(id) =>
        var d := if id in disks then disks[id] else map[];
        r := if env.disk(id, clock).Fails? then Err else Ok(if k in d then Some(d[k]) else None);
        clock := clock + 1;
      case Remote =>
        var reply := env.remoteGet(clock, k);
        clock := clock + 1;
        match reply {
          case Hit(e) => r := Ok(Some(e));
          case Miss => r := Ok(None);
          case Down => r := Err;
        }
      case ReadOnly(inner) =>
        r := Get(inner, k);
      case Layered(local, remote) =>
        r := Get(local, k);
        if r.Err? || r.value.Some? {
          return;
        }
        r := Get(remote, k);
        if r.Err? || r.value.None? {
          return Ok(None);
        }
        var populated := Put(local, k, r.value.value);
    }

    /** A write changes nothing stored, and on a healthy stack the key is there afterwards. */
    method Put(b: Backend, k: Key, e: Entry) returns (r: Result<()>)
      modifies this
      ensures (r, Now()) == PutSpec(env, b, k, e, old(Now()))
      ensures Grows(env, old(Now()), Now(), PutWrites(b))
      ensures Spine(b) && Healthy(env, Primary(b)) ==>
        && r.Ok? && k in DiskAt(Now(), Primary(b))
        && (k !in DiskAt(old(Now()), Primary(b)) ==> Holds(Now(), Primary(b), k, e))
      ensures Stacked(b) ==> sent == old(sent) + if r.Ok? then Copies(k, e, Remotes(b)) else []
      decreases b
    {
      ghost var before := Now();
      PutGrows(env, b, k, e, before);
      if Stacked(b) {
        PutIsSent(env, b, k, e, before);
      }
      if Spine(b) && Healthy(env, Primary(b)) {
        PutLands(env, b, k, e, before);
      }
      match b
      case DiskCache(id) =>
        var d := if id in disks then disks[id] else map[];
        var fault := env.disk(id, clock);
        clock := clock + 1;
        if fault.Fails? {
          return Err;
        }
        if !(fault.Fine? && k in d) {
          disks := disks[id := d[k := e]];
        }
        r := Ok(());
      case Remote =>
        r := if env.remotePut(clock) then Ok(()) else Err;
        sent := sent + [(k, e)];
        clock := clock + 1;
      case ReadOnly(_) =>
        r := Ok(());
      case Layered(local, remote) =>
        r := Put(local, k, e);
        if r.Err? {
          return;
        }
        var ignored := Put(remote, k, e);
        r := Ok(());
    }

    /** Counts the primary disk and changes none. */
    method Stats(b: Backend) returns (r: Result<nat>)
      modifies this`clock
      ensures (r, Now()) == StatsSpec(env, b, old(Now()))
      ensures Spine(b) && r.Ok? ==> r.value == |DiskAt(Now(), Primary(b))|
      decreases b
    {
      StatsChangesNothing(env, b, Now());
      match b
      case DiskCache(id) =>
        r := if env.disk(id, clock).Fails? then Err else Ok(if id in disks then |disks[id]| else 0);
        clock := clock + 1;
      case Remote =>
        r := Err;
        clock := clock + 1;
      case ReadOnly(inner) =>
        r := Stats(inner);
      case Layered(local, _) =>
        r := Stats(local);
    }

    /** Reports what the primary disk lost; no other disk changes. */
    method Purge(b: Backend, doomed: set<Key>) returns (r: Result<nat>)
      modifies this
      ensures (r, Now()) == PurgeSpec(env, b, doomed, old(Now()))
      ensures Spine(b) ==> forall id | id != Primary(b) :: DiskAt(Now(), id) == DiskAt(old(Now()), id)
      ensures Spine(b) && r.Ok? ==> |DiskAt(Now(), Primary(b))| + r.value == |DiskAt(old(Now()), Primary(b))|
      decreases b
    {
      hide Taken, Holds;
      if Spine(b) {
        PurgeReachesPrimaryOnly(env, b, doomed, Now());
        PurgeReportsWhatItTook(env, b, doomed, Now());
      }
      match b
      case DiskCache(id) =>
        r := PurgeDisk(id, doomed);
      case Remote =>
        r := Err;
        clock := clock + 1;
      case ReadOnly(_) =>
        r := Ok(0);
      case Layered(local, _) =>
        r := Purge(local, doomed);
    }

    method PurgeDisk(id: nat, doomed: set<Key>) returns (r: Result<nat>)
      modifies this
      ensures (r, Now()) == PurgeSpec(env, DiskCache(id), doomed, old(Now()))
    {
      hide Taken;
      var d := if id in disks then disks[id] else map[];
      var fails := env.disk(id, clock).Fails?;
      var taken := Taken(env, d, doomed, clock);
      clock := clock + 1;
      disks := disks[id := d - taken];
      r := if fails then Err else Ok(|taken|);
    }
  }

  // ---------------------------------------------------------------------------
  // Which disk is authoritative, and which disks a write can reach
  // ---------------------------------------------------------------------------

  /** The local-most disk of a spine. */
  function Primary(b: Backend): nat {
    match b
    case DiskCache(id) => id
    case Layered(local, _) => Primary(local)
    case _ => 0
  }

  /** The disks a `put` can write. */
  function PutWrites(b: Backend): set<nat> {
    match b
    case DiskCache(id) => {id}
    case Remote => {}
    case ReadOnly(_) => {}
    case Layered(local, remote) => PutWrites(local) + PutWrites(remote)
  }

  /** The disks a `get` can write, by reading through. */
  function GetWrites(b: Backend): set<nat> {
    match b
    case DiskCache(_) => {}
    case Remote => {}
    case ReadOnly(inner) => GetWrites(inner)
    case Layered(local, remote) => GetWrites(local) + GetWrites(remote) + PutWrites(local)
  }

  /** The local-most tier is a disk, and no tier behind it writes to that disk. */
  predicate Spine(b: Backend) {
    match b
    case DiskCache(_) => true
    case Layered(local, remote) => Spine(local) && Primary(local) !in PutWrites(remote) + GetWrites(remote)
    case _ => false
  }

  ghost predicate Healthy(env: Env, id: nat) {
    forall tick :: env.disk(id, tick) == Fine
  }

  ghost predicate ChecksWork(env: Env, id: nat) {
    forall tick :: env.disk(id, tick) != CheckFails
  }

  ghost predicate Holds(w: World, id: nat, k: Key, e: Entry) {
    k in DiskAt(w, id) && DiskAt(w, id)[k] == e
  }

  /** Where existence checks work every stored entry stays as it is, and only the named disks change. */
  ghost predicate Grows(env: Env, w: World, w': World, writes: set<nat>) {
    && (forall id, k, e | ChecksWork(env, id) && Holds(w, id, k, e) :: Holds(w', id, k, e))
    && (forall id | id !in writes :: DiskAt(w', id) == DiskAt(w, id))
  }

  lemma {:induction false} PutGrows(env: Env, b: Backend, k: Key, e: Entry, w: World)
    ensures Grows(env, w, PutSpec(env, b, k, e, w).1, PutWrites(b))
    decreases b
  {
    if !b.Layered? {
    } else {
      PutGrows(env, b.local, k, e, w);
      PutGrows(env, b.remote, k, e, PutSpec(env, b.local, k, e, w).1);
    }
  }

  lemma {:induction false} GetGrows(env: Env, b: Backend, k: Key, w: World)
    ensures Grows(env, w, GetSpec(env, b, k, w).1, GetWrites(b))
    decreases b
  {
    match b
    case ReadOnly(inner) => GetGrows(env, inner, k, w);
    case Layered(local, remote) =>
      GetGrows(env, local, k, w);
      var (r, w1) := GetSpec(env, local, k, w);
      GetGrows(env, remote, k, w1);
      var (r2, w2) := GetSpec(env, remote, k, w1);
      if r2.Ok? && r2.value.Some? {
        PutGrows(env, local, k, r2.value.value, w2);
      }
    case _ =>
  }

  // ---------------------------------------------------------------------------
  // One read, one write
  // ---------------------------------------------------------------------------

  /** A write to a healthy stack succeeds and leaves the key on the primary disk; an old entry stays. */
  lemma {:induction false} PutLands(env: Env, b: Backend, k: Key, e: Entry, w: World)
    requires Spine(b) && Healthy(env, Primary(b))
    ensures PutSpec(env, b, k, e, w).0.Ok?
    ensures k in DiskAt(PutSpec(env, b, k, e, w).1, Primary(b))
    ensures k !in DiskAt(w, Primary(b)) ==> Holds(PutSpec(env, b, k, e, w).1, Primary(b), k, e)
    decreases b
  {
    if !b.Layered? {
    } else {
      PutLands(env, b.local, k, e, w);
      PutGrows(env, b.remote, k, e, PutSpec(env, b.local, k, e, w).1);
    }
  }

  /** A read of a healthy stack answers what the primary disk holds, and what it answers is held there. */
  lemma {:induction false} GetSettles(env: Env, b: Backend, k: Key, w: World)
    requires Spine(b) && Healthy(env, Primary(b))
    ensures GetSpec(env, b, k, w).0.Ok?
    ensures k in DiskAt(w, Primary(b)) ==> GetSpec(env, b, k, w).0.value == Some(DiskAt(w, Primary(b))[k])
    ensures var (r, w') := GetSpec(env, b, k, w);
            r.value.Some? ==> Holds(w', Primary(b), k, r.value.value)
    ensures var (r, w') := GetSpec(env, b, k, w);
            r.value.None? ==> k !in DiskAt(w', Primary(b))
    decreases b
  {
    if !b.Layered? {
    } else {
      var (local, remote) := (b.local, b.remote);
      GetSettles(env, local, k, w);
      var (r, w1) := GetSpec(env, local, k, w);
      if r.value.None? {
        GetGrows(env, remote, k, w1);
        var (r2, w2) := GetSpec(env, remote, k, w1);
        assert DiskAt(w2, Primary(b)) == DiskAt(w1, Primary(b));
        if r2.Ok? && r2.value.Some? {
          PutLands(env, local, k, r2.value.value, w2);
        }
      }
    }
  }

  // ---------------------------------------------------------------------------
  // Whole runs
  // ---------------------------------------------------------------------------

  datatype Op = DoGet(k: Key) | DoPut(k: Key, e: Entry) | DoStats | DoPurge(doomed: set<Key>)

  function Apply(env: Env, b: Backend, op: Op, w: World): World {
    match op
    case DoGet(k) => GetSpec(env, b, k, w).1
    case DoPut(k, e) => PutSpec(env, b, k, e, w).1
    case DoStats => StatsSpec(env, b, w).1
    case DoPurge(doomed) => PurgeSpec(env, b, doomed, w).1
  }

  function Run(env: Env, b: Backend, ops: seq<Op>, w: World): World
    decreases |ops|
  {
    if ops == [] then w else Run(env, b, ops[1..], Apply(env, b, ops[0], w))
  }

  /** Counting changes nothing, and counts the primary disk. */
  lemma {:induction false} StatsChangesNothing(env: Env, b: Backend, w: World)
    ensures StatsSpec(env, b, w).1.disks == w.disks
    ensures Spine(b) && StatsSpec(env, b, w).0.Ok? ==> StatsSpec(env, b, w).0.value == |DiskAt(w, Primary(b))|
  {
    match b
    case ReadOnly(inner) => StatsChangesNothing(env, inner, w);
    case Layered(local, _) => StatsChangesNothing(env, local, w);
    case _ =>
  }

  /** A purge reaches the primary disk alone and takes only what is doomed. */
  lemma {:induction false} PurgeReachesPrimaryOnly(env: Env, b: Backend, doomed: set<Key>, w: World)
    requires Spine(b)
    ensures var w' := PurgeSpec(env, b, doomed, w).1;
            && (forall id | id != Primary(b) :: DiskAt(w', id) == DiskAt(w, id))
            && (forall k, e | k !in doomed :: Holds(w', Primary(b), k, e) <==> Holds(w, Primary(b), k, e))
  {
    if !b.Layered? {
    } else {
      PurgeReachesPrimaryOnly(env, b.local, doomed, w);
    }
  }

  lemma TakenKeysCount(d: Disk, taken: set<Key>)
    requires taken <= d.Keys
    ensures |d - taken| + |taken| == |d|
  {
    assert (d - taken).Keys == d.Keys - taken;
    assert d.Keys == (d.Keys - taken) + taken;
  }

  /** What a purge reports is what the primary disk lost: the doomed entries that could be removed. */
  lemma {:induction false} PurgeReportsWhatItTook(env: Env, b: Backend, doomed: set<Key>, w: World)
    requires Spine(b)
    ensures var (r, w') := PurgeSpec(env, b, doomed, w);
            && (r.Ok? ==> |DiskAt(w', Primary(b))| + r.value == |DiskAt(w, Primary(b))|)
            && (forall k, e | Holds(w, Primary(b), k, e) ::
                  Holds(w', Primary(b), k, e) <==> !(k in doomed && env.removes(w.clock, k)))
  {
    if b.Layered? {
      PurgeReportsWhatItTook(env, b.local, doomed, w);
    } else {
      TakenKeysCount(DiskAt(w, b.id), Taken(env, DiskAt(w, b.id), doomed, w.clock));
    }
  }

  /** No purge in the run dooms this key. */
  ghost predicate Spared(ops: seq<Op>, k: Key) {
    forall i | 0 <= i < |ops| && ops[i].DoPurge? :: k !in ops[i].doomed
  }

  lemma {:induction false} HeldThroughRun(env: Env, b: Backend, ops: seq<Op>, w: World, k: Key, e: Entry)
    requires Spine(b) && ChecksWork(env, Primary(b)) && Spared(ops, k) && Holds(w, Primary(b), k, e)
    ensures Holds(Run(env, b, ops, w), Primary(b), k, e)
    decreases |ops|
  {
    if ops == [] {
    } else {
      hide Holds;
      var w1 := Apply(env, b, ops[0], w);
      assert Holds(w1, Primary(b), k, e) by {
        match ops[0]
        case DoGet(j) => GetGrows(env, b, j, w);
        case DoPut(j, f) => PutGrows(env, b, j, f, w);
        case DoStats => StatsKeeps(env, b, w, k, e);
        case DoPurge(doomed) => PurgeReachesPrimaryOnly(env, b, doomed, w);
      }
      HeldThroughRun(env, b, ops[1..], w1, k, e);
    }
  }

  lemma StatsKeeps(env: Env, b: Backend, w: World, k: Key, e: Entry)
    requires Spine(b) && Holds(w, Primary(b), k, e)
    ensures Holds(StatsSpec(env, b, w).1, Primary(b), k, e)
  {
    StatsChangesNothing(env, b, w);
  }

  /**
   * One operation after another: once a read has answered `e`, every later read of that key
   * answers `e`, whatever the remote answers, loses or refuses, until a purge takes the key.
   */
  lemma ReadsAreStable(env: Env, b: Backend, k: Key, w: World, ops: seq<Op>)
    requires Spine(b) && Healthy(env, Primary(b)) && Spared(ops, k)
    ensures
      var (r, w1) := GetSpec(env, b, k, w);
      r.Ok? && (r.value.Some? ==> GetSpec(env, b, k, Run(env, b, ops, w1)).0 == r)
  {
    GetSettles(env, b, k, w);
    var (r, w1) := GetSpec(env, b, k, w);
    if r.value.Some? {
      HeldThroughRun(env, b, ops, w1, k, r.value.value);
      GetSettles(env, b, k, Run(env, b, ops, w1));
    }
  }

  /** One operation after another: once a write has returned, later reads of that key answer the first entry stored. */
  lemma WritesAreStable(env: Env, b: Backend, k: Key, e: Entry, w: World, ops: seq<Op>)
    requires Spine(b) && Healthy(env, Primary(b)) && Spared(ops, k)
    ensures
      var (r, w1) := PutSpec(env, b, k, e, w);
      var kept := if k in DiskAt(w, Primary(b)) then DiskAt(w, Primary(b))[k] else e;
      r.Ok? && GetSpec(env, b, k, Run(env, b, ops, w1)).0 == Ok(Some(kept))
  {
    PutLands(env, b, k, e, w);
    PutGrows(env, b, k, e, w);
    var (r, w1) := PutSpec(env, b, k, e, w);
    var kept := if k in DiskAt(w, Primary(b)) then DiskAt(w, Primary(b))[k] else e;
    assert k in DiskAt(w, Primary(b)) ==> Holds(w, Primary(b), k, kept);
    HeldThroughRun(env, b, ops, w1, k, kept);
    GetSettles(env, b, k, Run(env, b, ops, w1));
  }

  // ---------------------------------------------------------------------------
  // Exactly when an answer is final
  // ---------------------------------------------------------------------------

  /** The primary disk works, every other disk fails, and the remote has nothing. */
  ghost function OnlyDisk(id: nat): Env {
    Env((tick, k) => Miss, tick => false, (i, tick) => if i == id then Fine else Fails, (tick, k) => true)
  }

  /** With nothing else answering, an entry comes from that disk. */
  lemma {:induction false} OnlyDiskReads(b: Backend, id: nat, k: Key, w: World)
    requires id !in GetWrites(b)
    ensures var r := GetSpec(OnlyDisk(id), b, k, w).0;
            r.Ok? && r.value.Some? ==> Holds(w, id, k, r.value.value)
    decreases b
  {
    match b
    case ReadOnly(inner) => OnlyDiskReads(inner, id, k, w);
    case Layered(local, remote) =>
      OnlyDiskReads(local, id, k, w);
      GetGrows(OnlyDisk(id), local, k, w);
      OnlyDiskReads(remote, id, k, GetSpec(OnlyDisk(id), local, k, w).1);
    case _ =>
  }

  lemma {:induction false} SpineAnswersItsDisk(b: Backend, k: Key, w: World)
    requires Spine(b)
    ensures var r := GetSpec(OnlyDisk(Primary(b)), b, k, w).0;
            r.Ok? && r.value.Some? ==> Holds(w, Primary(b), k, r.value.value)
    decreases b
  {
    if !b.Layered? {
    } else {
      var env := OnlyDisk(Primary(b));
      SpineAnswersItsDisk(b.local, k, w);
      GetSettles(env, b.local, k, w);
      var (r, w1) := GetSpec(env, b.local, k, w);
      OnlyDiskReads(b.remote, Primary(b), k, w1);
    }
  }

  /** Every later read answers `e`, whatever runs first, as long as the primary disk is healthy. */
  ghost predicate AlwaysAnswers(b: Backend, k: Key, e: Entry, w: World) {
    forall env, ops | Healthy(env, Primary(b)) && Spared(ops, k) ::
      GetSpec(env, b, k, Run(env, b, ops, w)).0 == Ok(Some(e))
  }

  /** An answer is final exactly when the primary disk holds it. */
  lemma AnswerIsFinalIffHeld(b: Backend, k: Key, e: Entry, w: World)
    requires Spine(b)
    ensures AlwaysAnswers(b, k, e, w) <==> Holds(w, Primary(b), k, e)
  {
    if Holds(w, Primary(b), k, e) {
      forall env, ops | Healthy(env, Primary(b)) && Spared(ops, k)
        ensures GetSpec(env, b, k, Run(env, b, ops, w)).0 == Ok(Some(e))
      {
        HeldThroughRun(env, b, ops, w, k, e);
        GetSettles(env, b, k, Run(env, b, ops, w));
      }
    }
    if AlwaysAnswers(b, k, e, w) {
      var env := OnlyDisk(Primary(b));
      assert Healthy(env, Primary(b)) && Spared([], k);
      assert GetSpec(env, b, k, Run(env, b, [], w)).0 == Ok(Some(e));
      SpineAnswersItsDisk(b, k, w);
    }
  }

  /** The key was there already, or the read-through write of the answer did not fail. */
  ghost predicate Populated(env: Env, b: Backend, k: Key, w: World)
    decreases b
  {
    if b.Layered? then
      var (r, w1) := GetSpec(env, b.local, k, w);
      if r.Ok? && r.value.Some? then Populated(env, b.local, k, w)
      else !env.disk(Primary(b), GetSpec(env, b.remote, k, w1).1.clock).Fails?
    else true
  }

  lemma {:induction false} PutHeldUnlessItFails(env: Env, b: Backend, k: Key, e: Entry, w: World)
    requires Spine(b) && k !in DiskAt(w, Primary(b))
    ensures var w' := PutSpec(env, b, k, e, w).1;
            if env.disk(Primary(b), w.clock).Fails? then k !in DiskAt(w', Primary(b))
            else Holds(w', Primary(b), k, e)
    decreases b
  {
    if !b.Layered? {
    } else {
      PutHeldUnlessItFails(env, b.local, k, e, w);
      PutGrows(env, b.remote, k, e, PutSpec(env, b.local, k, e, w).1);
    }
  }

  /** With or without faults: a miss means the primary disk lacks the key. */
  lemma {:induction false} MissMeansAbsent(env: Env, b: Backend, k: Key, w: World)
    requires Spine(b) && GetSpec(env, b, k, w).0 == Ok(None)
    ensures k !in DiskAt(GetSpec(env, b, k, w).1, Primary(b))
    decreases b
  {
    if !b.Layered? {
    } else {
      MissMeansAbsent(env, b.local, k, w);
      GetGrows(env, b.remote, k, GetSpec(env, b.local, k, w).1);
    }
  }

  lemma {:induction false} AnswerHeldIffPopulated(env: Env, b: Backend, k: Key, w: World, e: Entry)
    requires Spine(b) && GetSpec(env, b, k, w).0 == Ok(Some(e))
    ensures Holds(GetSpec(env, b, k, w).1, Primary(b), k, e) <==> Populated(env, b, k, w)
    decreases b
  {
    if !b.Layered? {
    } else {
      var (r, w1) := GetSpec(env, b.local, k, w);
      if r.value.Some? {
        AnswerHeldIffPopulated(env, b.local, k, w, e);
      } else {
        MissMeansAbsent(env, b.local, k, w);
        GetGrows(env, b.remote, k, w1);
        PutHeldUnlessItFails(env, b.local, k, e, GetSpec(env, b.remote, k, w1).1);
      }
    }
  }

  /**
   * Under any faults at all: the entry a read answered is what every later read answers, exactly
   * when the key was there already or populating did not fail.
   */
  lemma ReadIsFinalIffPopulated(env: Env, b: Backend, k: Key, w: World, e: Entry)
    requires Spine(b) && GetSpec(env, b, k, w).0 == Ok(Some(e))
    ensures AlwaysAnswers(b, k, e, GetSpec(env, b, k, w).1) <==> Populated(env, b, k, w)
  {
    AnswerHeldIffPopulated(env, b, k, w, e);
    AnswerIsFinalIffHeld(b, k, e, GetSpec(env, b, k, w).1);
  }

  /** A disk no operation writes is the same after every run. */
  lemma {:induction false} UnwrittenDiskNeverChanges(env: Env, b: Backend, ops: seq<Op>, w: World, id: nat)
    requires Spine(b) && id !in PutWrites(b) + GetWrites(b)
    ensures DiskAt(Run(env, b, ops, w), id) == DiskAt(w, id)
    decreases |ops|
  {
    PrimaryIsWritten(b);
    if ops == [] {
    } else {
      var w1 := Apply(env, b, ops[0], w);
      assert DiskAt(w1, id) == DiskAt(w, id) by {
        match ops[0]
        case DoGet(j) => GetGrows(env, b, j, w);
        case DoPut(j, f) => PutGrows(env, b, j, f, w);
        case DoStats => StatsChangesNothing(env, b, w);
        case DoPurge(doomed) => PurgeReachesPrimaryOnly(env, b, doomed, w);
      }
      UnwrittenDiskNeverChanges(env, b, ops[1..], w1, id);
    }
  }

  lemma {:induction false} PrimaryIsWritten(b: Backend)
    requires Spine(b)
    ensures Primary(b) in PutWrites(b)
  {
    if !b.Layered? {
    } else {
      PrimaryIsWritten(b.local);
    }
  }

  // ---------------------------------------------------------------------------
  // What the remote is sent
  // ---------------------------------------------------------------------------

  /** The remotes a `put` writes to. */
  function Remotes(b: Backend): nat {
    match b
    case DiskCache(_) => 0
    case Remote => 1
    case ReadOnly(_) => 0
    case Layered(local, remote) => Remotes(local) + Remotes(remote)
  }

  /** A disk with remotes and read-only tiers behind it. */
  predicate Stacked(b: Backend) {
    match b
    case DiskCache(_) => true
    case Layered(local, remote) => Stacked(local) && (remote.Remote? || remote.ReadOnly?)
    case _ => false
  }

  /** Nothing that a read populates passes an entry on to a remote. */
  predicate ReadsStayLocal(b: Backend) {
    match b
    case ReadOnly(inner) => ReadsStayLocal(inner)
    case Layered(local, remote) => Remotes(local) == 0 && ReadsStayLocal(local) && ReadsStayLocal(remote)
    case _ => true
  }

  function Copies(k: Key, e: Entry, n: nat): seq<(Key, Entry)> {
    seq(n, i requires 0 <= i < n => (k, e))
  }

  lemma {:induction false} PutSendsNothingWithoutRemotes(env: Env, b: Backend, k: Key, e: Entry, w: World)
    requires Remotes(b) == 0
    ensures PutSpec(env, b, k, e, w).1.sent == w.sent
    decreases b
  {
    if !b.Layered? {
    } else {
      PutSendsNothingWithoutRemotes(env, b.local, k, e, w);
      PutSendsNothingWithoutRemotes(env, b.remote, k, e, PutSpec(env, b.local, k, e, w).1);
    }
  }

  /** A write goes to every remote once, unless the local write failed: then it fails and goes to none. */
  lemma {:induction false} PutIsSent(env: Env, b: Backend, k: Key, e: Entry, w: World)
    requires Stacked(b)
    ensures var (r, w') := PutSpec(env, b, k, e, w);
            if env.disk(Primary(b), w.clock).Fails? then r.Err? && w' == Tick(w)
            else r.Ok? && w'.sent == w.sent + Copies(k, e, Remotes(b))
    decreases b
  {
    if !b.Layered? {
      assert Copies(k, e, 0) == [];
    } else {
      PutIsSent(env, b.local, k, e, w);
      var sent := Copies(k, e, Remotes(b.local));
      if b.remote.Remote? {
        Assoc(w.sent, sent, [(k, e)]);
        assert sent + [(k, e)] == Copies(k, e, Remotes(b));
      }
    }
  }

  lemma {:induction false} ReadsSendNothing(env: Env, b: Backend, k: Key, w: World)
    requires ReadsStayLocal(b)
    ensures GetSpec(env, b, k, w).1.sent == w.sent
    decreases b
  {
    match b
    case ReadOnly(inner) => ReadsSendNothing(env, inner, k, w);
    case Layered(local, remote) =>
      ReadsSendNothing(env, local, k, w);
      var (r, w1) := GetSpec(env, local, k, w);
      ReadsSendNothing(env, remote, k, w1);
      var (r2, w2) := GetSpec(env, remote, k, w1);
      if r2.Ok? && r2.value.Some? {
        PutSendsNothingWithoutRemotes(env, local, k, r2.value.value, w2);
      }
    case _ =>
  }

  // ---------------------------------------------------------------------------
  // `build_cache`
  // ---------------------------------------------------------------------------

  datatype BackendKind = KindDisk | KindHttp | KindS3 | KindLayered
  datatype RemoteTier = NoRemote | HttpRemote | S3Remote

  function RemoteTierOf(kind: BackendKind, hasS3: bool): RemoteTier {
    match kind
    case KindDisk => NoRemote
    case KindHttp => HttpRemote
    case KindS3 => S3Remote
    case KindLayered => if hasS3 then S3Remote else HttpRemote
  }

  /** `reachable` says whether the selected remote client could be built; if not, local disk alone. */
  method BuildCache(root: nat, legacy: Option<nat>, kind: BackendKind, hasS3: bool, reachable: bool)
    returns (b: Backend, tier: RemoteTier)
    requires legacy != Some(root)
    ensures tier == S3Remote <==> kind == KindS3 || (kind == KindLayered && hasS3)
    ensures tier == HttpRemote <==> kind == KindHttp || (kind == KindLayered && !hasS3)
    ensures Spine(b) && Primary(b) == root
    ensures PutWrites(b) + GetWrites(b) == {root}
    ensures legacy.Some? ==> Drains(b, legacy.value)
    ensures (b.Layered? && b.remote.Remote?) <==> (reachable && kind != KindDisk)
    ensures Stacked(b) && ReadsStayLocal(b) && Remotes(b) == if reachable && kind != KindDisk then 1 else 0
  {
    b := DiskCache(root);
    assert Spine(b) && Primary(b) == root && PutWrites(b) == {root} && GetWrites(b) == {};
    if legacy.Some? {
      var legacyDisk := DiskCache(legacy.value);
      assert GetWrites(legacyDisk) == {} && ReadsStayLocal(legacyDisk);
      assert ReadsStayLocal(b) && ReadsStayLocal(ReadOnly(legacyDisk));
      b := Layered(b, ReadOnly(legacyDisk));
    }
    assert Spine(b) && Primary(b) == root && ReadsStayLocal(b) && Remotes(b) == 0;
    assert PutWrites(b) == {root} && GetWrites(b) <= {root};
    tier := RemoteTierOf(kind, hasS3);
    if tier != NoRemote && reachable {
      b := Layered(b, Remote);
    }
  }

  /** The stack reads the legacy store before any remote, read-only. */
  predicate Drains(b: Backend, legacy: nat) {
    && b.Layered?
    && ((b.local.DiskCache? && b.remote == ReadOnly(DiskCache(legacy))) || Drains(b.local, legacy))
  }

  /** A read-only tier reads as the tier inside it, takes a write for done and a purge for nothing done. */
  lemma ReadOnlyTier(env: Env, inner: Backend, k: Key, e: Entry, doomed: set<Key>, w: World)
    ensures GetSpec(env, ReadOnly(inner), k, w) == GetSpec(env, inner, k, w)
    ensures StatsSpec(env, ReadOnly(inner), w) == StatsSpec(env, inner, w)
    ensures PutSpec(env, ReadOnly(inner), k, e, w) == (Ok(()), w)
    ensures PurgeSpec(env, ReadOnly(inner), doomed, w) == (Ok(0), w)
  {
  }

  /** Whatever runs, the legacy store stays as it was found. */
  lemma LegacyStoreIsNeverWritten(env: Env, b: Backend, root: nat, legacy: nat, ops: seq<Op>, w: World)
    requires Spine(b) && PutWrites(b) + GetWrites(b) == {root} && legacy != root
    ensures DiskAt(Run(env, b, ops, w), legacy) == DiskAt(w, legacy)
  {
    UnwrittenDiskNeverChanges(env, b, ops, w, legacy);
  }

  /** A key the new root lacks and the legacy store has is answered from the legacy store. */
  lemma {:induction false} LegacyHitIsAnswered(env: Env, b: Backend, legacy: nat, k: Key, w: World)
    requires Spine(b) && Drains(b, legacy) && Healthy(env, Primary(b)) && Healthy(env, legacy)
    requires k in DiskAt(w, legacy) && k !in DiskAt(w, Primary(b))
    ensures GetSpec(env, b, k, w).0 == Ok(Some(DiskAt(w, legacy)[k]))
    decreases b
  {
    if b.local.DiskCache? && b.remote == ReadOnly(DiskCache(legacy)) {
      var (r, w1) := GetSpec(env, b.local, k, w);
      assert r == Ok(None) && DiskAt(w1, legacy) == DiskAt(w, legacy);
      assert GetSpec(env, DiskCache(legacy), k, w1).0 == Ok(Some(DiskAt(w, legacy)[k]));
      assert GetSpec(env, b.remote, k, w1) == GetSpec(env, DiskCache(legacy), k, w1);
    } else {
      LegacyHitIsAnswered(env, b.local, legacy, k, w);
    }
  }

  /** From then on the new root alone answers it, through every run that does not purge the key. */
  lemma LegacyHitMovesToTheRoot(env: Env, b: Backend, legacy: nat, k: Key, w: World, ops: seq<Op>)
    requires Spine(b) && Drains(b, legacy) && Healthy(env, Primary(b)) && Healthy(env, legacy)
    requires k in DiskAt(w, legacy) && k !in DiskAt(w, Primary(b)) && Spared(ops, k)
    ensures var (r, w1) := GetSpec(env, b, k, w);
            && r == Ok(Some(DiskAt(w, legacy)[k]))
            && GetSpec(env, DiskCache(Primary(b)), k, Run(env, b, ops, w1)).0 == r
  {
    LegacyHitIsAnswered(env, b, legacy, k, w);
    GetSettles(env, b, k, w);
    var (r, w1) := GetSpec(env, b, k, w);
    HeldThroughRun(env, b, ops, w1, k, r.value.value);
  }

  /** A populate that fails: two reads of one key answer differently. */
  lemma FailedPopulateBreaksStability(env: Env)
    requires env.remoteGet(1, "k") == Hit("a") && env.remoteGet(4, "k") == Hit("b")
    requires forall tick :: env.disk(0, tick) == if tick == 2 then Fails else Fine
    ensures
      var b := Layered(DiskCache(0), Remote);
      var (r, w1) := GetSpec(env, b, "k", World(map[], 0, []));
      r == Ok(Some("a")) && GetSpec(env, b, "k", w1).0 == Ok(Some("b"))
  {
    var b := Layered(DiskCache(0), Remote);
    var w := World(map[], 0, []);
    assert GetSpec(env, b, "k", w) == (Ok(Some("a")), World(map[], 3, []));
    assert GetSpec(env, b, "k", World(map[], 3, [])).0 == Ok(Some("b"));
  }
}
