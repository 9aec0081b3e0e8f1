/** The disk cache's walks: purge, stats and enumerate, in whatever order the directory lists. */
module DiskStore {
  import opened Text
  import opened CacheKeys
  import opened PurgeFilters
  import opened PutProtocol

  const JSON_SUFFIX := ".json"

  predicate EndsWithJson(name: string) {
    |name| >= 5 && name[|name| - 5..] == JSON_SUFFIX
  }

  /** `path.extension() == Some("json")`: a bare `.json` is a hidden file, not an extension. */
  predicate HasJsonExtension(name: string) {
    |name| > 5 && EndsWithJson(name)
  }

  function KeyOfName(name: string): string
    requires EndsWithJson(name)
  {
    KEY_PREFIX + name[..|name| - 5]
  }

  predicate IsEntryName(name: string) {
    EndsWithJson(name) && IsValidKey(KeyOfName(name))
  }

  /** The three walks' name tests in terms of what stands before the suffix. */
  lemma NameTests(name: string)
    ensures EndsWithJson(name) <==> exists stem :: name == stem + ".json"
    ensures HasJsonExtension(name) <==> exists stem :: stem != "" && name == stem + ".json"
    ensures IsEntryName(name) <==> exists key :: IsValidKey(key) && name == key[7..] + ".json"
  {
    assert JSON_SUFFIX == ".json" && KEY_PREFIX == "sha256:";
    if EndsWithJson(name) {
      var stem := name[..|name| - 5];
      assert name == stem + ".json";
      assert KeyOfName(name)[7..] == stem;
    }
    forall stem | name == stem + ".json" ensures EndsWithJson(name) && name[..|name| - 5] == stem {
      assert name[|name| - 5..] == ".json";
    }
    forall key | IsValidKey(key) && name == key[7..] + ".json" ensures KeyOfName(name) == key {
      ValidKeyStart(key);
    }
  }

  lemma ValidKeyStart(key: string)
    requires IsValidKey(key)
    ensures key == "sha256:" + key[7..]
  {
    assert |KEY_PREFIX| == 7;
    assert key == key[..7] + key[7..];
  }

  type Files = map<Path, File>

  /** Every file was put there by `put`: an entry at its own path, or a temp file. */
  ghost predicate LaidOut(files: Files) {
    LaidOutPaths(files.Keys)
  }

  lemma EntryPath(key: string)
    requires IsValidKey(key)
    ensures IsEntryName(PathFor(key).name) && KeyOfName(PathFor(key).name) == key
    ensures HasJsonExtension(PathFor(key).name)
  {
    var name := PathFor(key).name;
    assert name[|name| - 5..] == JSON_SUFFIX && name[..|name| - 5] == Hex(key);
    assert KEY_PREFIX + Hex(key) == key;
  }

  lemma TempNotJson(key: string, pid: nat, n: nat)
    requires IsValidKey(key)
    ensures !EndsWithJson(TempPath(key, pid, n).name)
  {
    var name := TempPath(key, pid, n).name;
    DecimalShape(n);
    assert name[|name| - 1] == Decimal(n)[|Decimal(n)| - 1];
    assert name[|name| - 1] == name[|name| - 5..][4];
  }

  /** In such a store the three name tests of the three walks agree, and names are keys. */
  lemma LaidOutNames(files: Files, p: Path)
    requires LaidOut(files) && p in files
    ensures EndsWithJson(p.name) <==> HasJsonExtension(p.name)
    ensures EndsWithJson(p.name) <==> IsEntryName(p.name)
    ensures EndsWithJson(p.name) ==> p == PathFor(KeyOfName(p.name))
  {
    hide PathFor, TempPath, EndsWithJson, IsValidKey;
    if key :| IsValidKey(key) && p == PathFor(key) {
      EntryPath(key);
    } else {
      var key, pid: nat, n: nat :| IsValidKey(key) && p == TempPath(key, pid, n);
      TempNotJson(key, pid, n);
    }
  }

  // ---------------------------------------------------------------------------
  // What the walks compute
  // ---------------------------------------------------------------------------

  ghost function Doomed(files: Files, f: PurgeFilter, now: int): set<Path> {
    set p | p in files && HasJsonExtension(p.name) && ShouldRemove(f, now, files[p]) && files[p].removable
  }

  ghost function Counted(files: Files): set<Path> {
    set p | p in files && EndsWithJson(p.name) && files[p].statOk
  }

  ghost function TotalSize(files: Files, ps: set<Path>): nat
    requires ps <= files.Keys
  {
    if ps == {} then 0
    else
      var p :| p in ps;
      files[p].size + TotalSize(files, ps - {p})
  }

  lemma {:induction false} TotalSizeWithout(files: Files, ps: set<Path>, p: Path)
    requires ps <= files.Keys && p in ps
    ensures TotalSize(files, ps) == files[p].size + TotalSize(files, ps - {p})
  {
    var q :| q in ps && TotalSize(files, ps) == files[q].size + TotalSize(files, ps - {q});
    if q == p {
    } else {
      TotalSizeWithout(files, ps - {q}, p);
      TotalSizeWithout(files, ps - {p}, q);
      assert ps - {q} - {p} == ps - {p} - {q};
    }
  }

  lemma NoFilesNoBytes(files: Files)
    ensures TotalSize(files, {}) == 0
  {
  }

  datatype Listed = Listed(key: string, size: nat, modified: Option<int>)

  function ListedFor(p: Path, file: File): Listed
    requires EndsWithJson(p.name)
  {
    Listed(KeyOfName(p.name), file.size, file.modified)
  }

  ghost function Listable(files: Files): set<Path> {
    set p | p in files && IsEntryName(p.name) && files[p].statOk
  }

  ghost function Entries(files: Files): set<Listed> {
    set p | p in Listable(files) :: ListedFor(p, files[p])
  }

  /** Newest first, an unknown time last, ties by key. */
  predicate Newer(a: Option<int>, b: Option<int>) {
    a.Some? && (b.None? || a.value > b.value)
  }

  predicate Before(a: Listed, b: Listed) {
    Newer(a.modified, b.modified) || (a.modified == b.modified && Less(a.key, b.key))
  }

  lemma BeforeIsOrder(a: Listed, b: Listed)
    ensures !(Before(a, b) && Before(b, a))
    ensures a.key != b.key ==> Before(a, b) || Before(b, a)
    ensures !Before(a, a)
  {
    LessTotal(a.key, b.key);
  }

  ghost predicate Ordered(r: seq<Listed>) {
    forall i, j | 0 <= i < j < |r| :: Before(r[i], r[j])
  }

  /** The first `limit` entries in the listing order, and whether there are more. */
  ghost predicate IsListing(es: set<Listed>, limit: nat, r: seq<Listed>, truncated: bool) {
    && Ordered(r) && (forall i | 0 <= i < |r| :: r[i] in es)
    && |r| == (if |es| < limit then |es| else limit)
    && (forall e | e in es && e !in r :: forall i | 0 <= i < |r| :: Before(r[i], e))
    && (truncated <==> |es| > limit)
  }

  /** A set of entries has one listing, so the order of the walk cannot show in it. */
  lemma {:induction false} ListingUnique(es: set<Listed>, limit: nat, r: seq<Listed>, t: bool, r': seq<Listed>, t': bool)
    requires IsListing(es, limit, r, t) && IsListing(es, limit, r', t')
    ensures r == r' && t == t'
    decreases |r|
  {
    hide Before;
    if r == [] {
    } else {
      FirstIsLeast(es, limit, r, t);
      FirstIsLeast(es, limit, r', t');
      BeforeIsOrder(r[0], r'[0]);
      ListingTail(es, limit, r, t);
      ListingTail(es, limit, r', t');
      ListingUnique(es - {r[0]}, limit - 1, r[1..], t, r'[1..], t');
      assert r == [r[0]] + r[1..] && r' == [r'[0]] + r'[1..];
    }
  }

  lemma FirstIsLeast(es: set<Listed>, limit: nat, r: seq<Listed>, t: bool)
    requires IsListing(es, limit, r, t) && r != []
    ensures forall e | e in es && e != r[0] :: Before(r[0], e)
  {
    hide Before;
    forall e | e in es && e != r[0] ensures Before(r[0], e) {
      if e in r {
        var i :| 0 <= i < |r| && r[i] == e;
      }
    }
  }

  lemma ListingTail(es: set<Listed>, limit: nat, r: seq<Listed>, t: bool)
    requires IsListing(es, limit, r, t) && r != []
    ensures IsListing(es - {r[0]}, limit - 1, r[1..], t)
  {
    hide Before;
    forall i | 1 <= i < |r| ensures r[i] != r[0] {
      BeforeIsOrder(r[0], r[i]);
      assert Before(r[0], r[i]);
    }
    assert |es - {r[0]}| == |es| - 1;
    assert forall e | e in r :: e == r[0] || e in r[1..];
  }

  // ---------------------------------------------------------------------------
  // Sorting what was found
  // ---------------------------------------------------------------------------

  /** No entry comes before one listed ahead of it. */
  ghost predicate InOrder(r: seq<Listed>) {
    forall i, j | 0 <= i < j < |r| :: !Before(r[j], r[i])
  }

  lemma NotBeforeTransitive(a: Listed, b: Listed, c: Listed)
    requires !Before(b, a) && !Before(c, b)
    ensures !Before(c, a)
  {
    LessTotal(a.key, b.key);
    LessTotal(b.key, c.key);
    LessTotal(a.key, c.key);
    if Less(a.key, b.key) && Less(b.key, c.key) {
      LessTransitive(a.key, b.key, c.key);
    }
  }

  function InsertListed(x: Listed, xs: seq<Listed>): (r: seq<Listed>)
    ensures multiset(r) == multiset{x} + multiset(xs)
  {
    if xs == [] || !Before(xs[0], x) then [x] + xs
    else
      assert xs == [xs[0]] + xs[1..];
      [xs[0]] + InsertListed(x, xs[1..])
  }

  /** `found.sort_by(newest first, then key)`. */
  function SortListed(xs: seq<Listed>): (r: seq<Listed>)
    ensures multiset(r) == multiset(xs)
  {
    if xs == [] then []
    else
      assert xs == [xs[0]] + xs[1..];
      InsertListed(xs[0], SortListed(xs[1..]))
  }

  lemma {:induction false} InsertListedInOrder(x: Listed, xs: seq<Listed>)
    requires InOrder(xs)
    ensures InOrder(InsertListed(x, xs))
  {
    hide Before;
    if xs == [] {
    } else if !Before(xs[0], x) {
      forall j | 0 <= j < |xs| ensures !Before(xs[j], x) {
        if j > 0 { NotBeforeTransitive(x, xs[0], xs[j]); }
      }
    } else {
      InsertListedInOrder(x, xs[1..]);
      BeforeIsOrder(xs[0], x);
      var rest := InsertListed(x, xs[1..]);
      forall j | 0 <= j < |rest| ensures !Before(rest[j], xs[0]) {
        assert rest[j] in multiset(rest);
        assert rest[j] == x || rest[j] in xs[1..];
      }
    }
  }

  lemma {:induction false} SortListedInOrder(xs: seq<Listed>)
    ensures InOrder(SortListed(xs))
  {
    if xs == [] {
    } else {
      SortListedInOrder(xs[1..]);
      InsertListedInOrder(xs[0], SortListed(xs[1..]));
    }
  }

  /** The listable files among these that read as `e`; two shards may hold one name. */
  ghost function Holding(files: Files, ps: set<Path>, e: Listed): set<Path> {
    set p | p in ps && p in Listable(files) && ListedFor(p, files[p]) == e
  }

  /**
   * The first `limit` of whatever is listable, in order: one line for each file, none invented,
   * and nothing left out that comes before a line that is there.
   */
  ghost predicate IsWindow(files: Files, limit: nat, r: seq<Listed>, truncated: bool) {
    && InOrder(r)
    && (forall e :: multiset(r)[e] <= |Holding(files, files.Keys, e)|)
    && |r| == (if |Listable(files)| < limit then |Listable(files)| else limit)
    && (forall e, i | multiset(r)[e] < |Holding(files, files.Keys, e)| && 0 <= i < |r| :: !Before(e, r[i]))
    && (truncated <==> |Listable(files)| > limit)
  }

  /** In an ordered sequence nothing a prefix leaves out comes before any of it. */
  lemma PrefixFirst(sorted: seq<Listed>, n: nat)
    requires InOrder(sorted) && n <= |sorted|
    ensures InOrder(sorted[..n])
    ensures forall e :: multiset(sorted[..n])[e] <= multiset(sorted)[e]
    ensures forall e, i | multiset(sorted[..n])[e] < multiset(sorted)[e] && 0 <= i < n :: !Before(e, sorted[..n][i])
  {
    hide Before;
    assert sorted == sorted[..n] + sorted[n..];
    assert multiset(sorted) == multiset(sorted[..n]) + multiset(sorted[n..]);
    forall e, i | multiset(sorted[..n])[e] < multiset(sorted)[e] && 0 <= i < n
      ensures !Before(e, sorted[..n][i])
    {
      assert e in multiset(sorted[n..]);
      assert e in sorted[n..];
      var j :| n <= j < |sorted| && sorted[j] == e;
    }
  }

  /** Sorting everything and keeping the first `limit` is the window. */
  lemma TruncatedSortIsWindow(files: Files, found: seq<Listed>, limit: nat)
    requires FoundFrom(files, found, files.Keys)
    ensures IsWindow(files, limit, Truncated(SortListed(found), limit), |found| > limit)
    ensures |SortListed(found)| == |found|
  {
    hide Before, SortListed, InOrder, Holding;
    SortListedInOrder(found);
    var sorted := SortListed(found);
    assert |sorted| == |multiset(sorted)| && |found| == |multiset(found)|;
    assert files.Keys * Listable(files) == Listable(files);
    var r := Truncated(sorted, limit);
    PrefixFirst(sorted, |r|);
    assert sorted[..|r|] == r;
  }

  /** `found.truncate(limit)`. */
  function Truncated(xs: seq<Listed>, limit: nat): seq<Listed> {
    if |xs| > limit then xs[..limit] else xs
  }

  // ---------------------------------------------------------------------------
  // The store
  // ---------------------------------------------------------------------------

  /** The directory tree under one root, which may not exist yet. */
  class LocalDiskCache {
    var rootExists: bool
    var dirs: set<string>
    var strays: set<string>
    var files: Files

    ghost predicate Valid()
      reads this
    {
      && (forall p | p in files :: p.shard in dirs)
      && (!rootExists ==> dirs == {} && strays == {})
    }

    constructor (rootExists: bool, dirs: set<string>, strays: set<string>, files: Files)
      requires forall p | p in files :: p.shard in dirs
      requires !rootExists ==> dirs == {} && strays == {}
      ensures Valid() && this.files == files && this.dirs == dirs && this.strays == strays
    {
      this.rootExists, this.dirs, this.strays, this.files := rootExists, dirs, strays, files;
    }

    /** Deletes exactly the doomed files, in whatever order the walk meets them, and counts them. */
    method Purge(f: PurgeFilter, now: int) returns (removed: nat)
      requires Valid()
      modifies this`files
      ensures Valid()
      ensures files == old(files) - Doomed(old(files), f, now)
      ensures removed == |Doomed(old(files), f, now)|
    {
      hide HasJsonExtension, ShouldRemove;
      removed := 0;
      if !rootExists {
        return;
      }
      ghost var all := files;
      ghost var doomed := Doomed(files, f, now);
      ghost var done: set<Path> := {};
      var shards := dirs + strays;
      while shards != {}
        invariant shards <= dirs + strays
        invariant done <= doomed && files == all - done && removed == |done|
        invariant forall p | p in doomed && p.shard !in shards :: p in done
        invariant forall p | p in done :: p.shard !in shards
        decreases shards
      {
        var shard :| shard in shards;
        shards := shards - {shard};
        if shard in strays && shard !in dirs {
          continue;
        }
        var names := set p | p in files && p.shard == shard;
        while names != {}
          invariant forall p | p in names :: p in files && p.shard == shard
          invariant done <= doomed && files == all - done && removed == |done|
          invariant forall p | p in doomed && p.shard !in shards && p !in names :: p in done
          invariant forall p | p in done :: p.shard !in shards
          decreases names
        {
          var p :| p in names;
          names := names - {p};
          if !HasJsonExtension(p.name) {
            continue;
          }
          if ShouldRemove(f, now, files[p]) && files[p].removable {
            files := files - {p};
            removed := removed + 1;
            done := done + {p};
          }
        }
      }
      assert done == doomed;
    }

    /** Counts the entries and adds up their sizes. */
    method Stats() returns (entries: nat, totalBytes: nat)
      requires Valid()
      ensures entries == |Counted(files)| && totalBytes == TotalSize(files, Counted(files))
    {
      hide EndsWithJson, TotalSize;
      entries, totalBytes := 0, 0;
      assert TotalSize(files, {}) == 0 by { NoFilesNoBytes(files); }
      if !rootExists {
        return;
      }
      ghost var counted := Counted(files);
      ghost var done: set<Path> := {};
      var shards := dirs + strays;
      while shards != {}
        invariant done <= counted && entries == |done| && totalBytes == TotalSize(files, done)
        invariant forall p | p in counted && p.shard !in shards :: p in done
        invariant forall p | p in done :: p.shard !in shards
        invariant shards <= dirs + strays
        decreases shards
      {
        var shard :| shard in shards;
        shards := shards - {shard};
        if shard in strays && shard !in dirs {
          continue;
        }
        var names := set p | p in files && p.shard == shard;
        while names != {}
          invariant forall p | p in names :: p in files && p.shard == shard && p !in done
          invariant done <= counted && entries == |done| && totalBytes == TotalSize(files, done)
          invariant forall p | p in counted && p.shard !in shards && p !in names :: p in done
          invariant forall p | p in done :: p.shard !in shards
          decreases names
        {
          var p :| p in names;
          names := names - {p};
          if EndsWithJson(p.name) && files[p].statOk {
            entries := entries + 1;
            totalBytes := totalBytes + files[p].size;
            TotalSizeWithout(files, done + {p}, p);
            assert done + {p} - {p} == done;
            done := done + {p};
          }
        }
      }
      assert done == counted;
    }

    /** Lists the newest `limit` entries of any store; in one laid out by `put` the walk order cannot show. */
    method Enumerate(limit: nat) returns (entries: seq<Listed>, truncated: bool, scanned: nat)
      requires Valid()
      ensures IsWindow(files, limit, entries, truncated)
      ensures NewestFirst(entries) && forall i | 0 <= i < |entries| :: IsLineOf(entries[i], files)
      ensures LaidOut(files) ==> IsListing(Entries(files), limit, entries, truncated)
      ensures scanned == |set p | p in files && EndsWithJson(p.name)|
    {
      hide EndsWithJson, IsValidKey, KeyOfName, FoundFrom, LaidOut, IsListing, IsWindow, SortListed, Entries;
      hide NewestFirst, IsLineOf;
      scanned := 0;
      assert FoundFrom(files, [], {}) by { NothingFound(files); }
      var found: seq<Listed> := [];
      ghost var done: set<Path> := {};
      ghost var scannedPaths := set p | p in files && EndsWithJson(p.name);
      var shards := dirs + strays;
      while shards != {}
        invariant shards <= dirs + strays
        invariant FoundFrom(files, found, done)
        invariant done <= scannedPaths && scanned == |done|
        invariant forall p | p in scannedPaths && p.shard !in shards :: p in done
        invariant forall p | p in done :: p.shard !in shards
        decreases shards
      {
        var shard :| shard in shards;
        shards := shards - {shard};
        if shard in strays && shard !in dirs {
          continue;
        }
        var names := set p | p in files && p.shard == shard;
        while names != {}
          invariant forall p | p in names :: p in files && p.shard == shard && p !in done
          invariant FoundFrom(files, found, done)
          invariant done <= scannedPaths && scanned == |done|
          invariant forall p | p in scannedPaths && p.shard !in shards && p !in names :: p in done
          invariant forall p | p in done :: p.shard !in shards
          decreases names
        {
          var p :| p in names;
          names := names - {p};
          if !EndsWithJson(p.name) {
            continue;
          }
          scanned := scanned + 1;
          FoundOneMore(files, found, done, p);
          done := done + {p};
          if !IsValidKey(KeyOfName(p.name)) || !files[p].statOk {
            continue;
          }
          found := found + [ListedFor(p, files[p])];
        }
      }
      assert done == scannedPaths;
      FoundAll(files, found, done);
      TruncatedSortIsWindow(files, found, limit);
      WindowIsNewestFirst(files, limit, Truncated(SortListed(found), limit), |found| > limit);
      if LaidOut(files) {
        WindowIsListing(files, limit, Truncated(SortListed(found), limit), |found| > limit);
      }
      found := SortListed(found);
      truncated := |found| > limit;
      entries := Truncated(found, limit);
    }
  }

  /** `found` has one line for each listable file among those visited. */
  ghost predicate FoundFrom(files: Files, found: seq<Listed>, done: set<Path>) {
    && |found| == |done * Listable(files)|
    && forall e :: multiset(found)[e] == |Holding(files, done, e)|
  }

  lemma NothingFound(files: Files)
    ensures FoundFrom(files, [], {})
  {
    assert {} * Listable(files) == {};
    forall e ensures Holding(files, {}, e) == {} {
    }
  }

  lemma FoundOneMore(files: Files, found: seq<Listed>, done: set<Path>, p: Path)
    requires FoundFrom(files, found, done)
    requires p in files && p !in done && EndsWithJson(p.name)
    ensures FoundFrom(files, if p in Listable(files) then found + [ListedFor(p, files[p])] else found, done + {p})
  {
    hide EndsWithJson, IsValidKey, KeyOfName, Listable, Holding, ListedFor;
    if p in Listable(files) {
      var x := ListedFor(p, files[p]);
      assert multiset(found + [x]) == multiset(found) + multiset{x};
      assert (done + {p}) * Listable(files) == done * Listable(files) + {p};
      forall e ensures multiset(found + [x])[e] == |Holding(files, done + {p}, e)| {
        HoldingOneMore(files, done, p, e);
      }
    } else {
      assert (done + {p}) * Listable(files) == done * Listable(files);
      forall e ensures Holding(files, done + {p}, e) == Holding(files, done, e) {
        HoldingOneMore(files, done, p, e);
      }
    }
  }

  lemma HoldingOneMore(files: Files, done: set<Path>, p: Path, e: Listed)
    requires p !in done
    ensures var here := p in Listable(files) && ListedFor(p, files[p]) == e;
            && Holding(files, done + {p}, e) == Holding(files, done, e) + (if here then {p} else {})
            && |Holding(files, done + {p}, e)| == |Holding(files, done, e)| + if here then 1 else 0
  {
    hide EndsWithJson, IsValidKey, KeyOfName;
    assert Holding(files, done + {p}, e) ==
           Holding(files, done, e) + if p in Listable(files) && ListedFor(p, files[p]) == e then {p} else {};
  }

  /** The files not visited are not listable. */
  lemma FoundAll(files: Files, found: seq<Listed>, done: set<Path>)
    requires FoundFrom(files, found, done) && done <= files.Keys && forall p | p in Listable(files) :: p in done
    ensures FoundFrom(files, found, files.Keys)
  {
    hide EndsWithJson, IsValidKey;
    assert files.Keys * Listable(files) == done * Listable(files);
    forall e ensures Holding(files, files.Keys, e) == Holding(files, done, e) {
    }
  }

  // ---------------------------------------------------------------------------
  // What a line says, and in which order lines come
  // ---------------------------------------------------------------------------

  /** The key, size and time of one file that can be statted. */
  ghost predicate IsLineOf(e: Listed, files: Files) {
    exists p :: p in files && files[p].statOk && e.size == files[p].size && e.modified == files[p].modified
                && IsValidKey(e.key) && p.name == e.key[7..] + ".json"
  }

  /** Later times first, unknown times last, and equal times by the first difference of the keys. */
  ghost predicate NewestFirst(r: seq<Listed>) {
    forall i, j | 0 <= i < j < |r| ::
      && (r[i].modified == None ==> r[j].modified == None)
      && (r[i].modified.Some? && r[j].modified.Some? ==> r[i].modified.value >= r[j].modified.value)
      && (r[i].modified == r[j].modified ==> !Precedes(r[j].key, r[i].key))
  }

  lemma ListedIsLine(files: Files, p: Path)
    requires p in Listable(files)
    ensures IsLineOf(ListedFor(p, files[p]), files)
  {
    hide IsValidKey;
    var key := KeyOfName(p.name);
    assert |KEY_PREFIX| == 7 && key[7..] == p.name[..|p.name| - 5];
    assert p.name == p.name[..|p.name| - 5] + p.name[|p.name| - 5..];
  }

  lemma WindowIsNewestFirst(files: Files, limit: nat, r: seq<Listed>, truncated: bool)
    requires IsWindow(files, limit, r, truncated)
    ensures NewestFirst(r) && forall i | 0 <= i < |r| :: IsLineOf(r[i], files)
  {
    hide IsLineOf, Precedes, Less, ListedFor, EndsWithJson, IsValidKey;
    forall i, j | 0 <= i < j < |r| ensures r[i].modified == r[j].modified ==> !Precedes(r[j].key, r[i].key) {
      LessIsFirstDifference(r[j].key, r[i].key);
    }
    forall i | 0 <= i < |r| ensures IsLineOf(r[i], files) {
      assert r[i] in multiset(r);
      assert |Holding(files, files.Keys, r[i])| > 0;
      var p :| p in Holding(files, files.Keys, r[i]);
      ListedIsLine(files, p);
    }
  }

  // ---------------------------------------------------------------------------
  // In a store laid out by `put`
  // ---------------------------------------------------------------------------

  /** Two listable files never read as entries with one key. */
  lemma KeysTellFilesApart(files: Files, p: Path, q: Path)
    requires LaidOut(files) && p in Listable(files) && q in Listable(files) && p != q
    ensures ListedFor(p, files[p]).key != ListedFor(q, files[q]).key
  {
    hide LaidOut, EndsWithJson, IsValidKey, PathFor;
    LaidOutNames(files, p);
    LaidOutNames(files, q);
  }

  lemma {:induction false} EntriesCount(files: Files, ps: set<Path>)
    requires LaidOut(files) && ps <= Listable(files)
    ensures |set p | p in ps :: ListedFor(p, files[p])| == |ps|
    decreases ps
  {
    hide LaidOut, ListedFor, EndsWithJson, IsValidKey, KeyOfName;
    if ps == {} {
    } else {
      var p :| p in ps;
      EntriesCount(files, ps - {p});
      var rest := set q | q in ps - {p} :: ListedFor(q, files[q]);
      assert (set q | q in ps :: ListedFor(q, files[q])) == rest + {ListedFor(p, files[p])};
      forall q | q in ps - {p} ensures ListedFor(q, files[q]) != ListedFor(p, files[p]) {
        KeysTellFilesApart(files, p, q);
      }
    }
  }

  /** Each line of a window stands for a file, and in such a store for one only. */
  lemma WindowLines(files: Files, limit: nat, r: seq<Listed>, truncated: bool, e: Listed)
    requires LaidOut(files) && IsWindow(files, limit, r, truncated)
    ensures e in r ==> e in Entries(files)
    ensures multiset(r)[e] <= 1
    ensures e in Entries(files) && e !in r ==> multiset(r)[e] < |Holding(files, files.Keys, e)|
  {
    hide LaidOut, ListedFor, EndsWithJson, IsValidKey, KeyOfName, Before;
    var here := Holding(files, files.Keys, e);
    assert e in r <==> e in multiset(r);
    if here == {} {
    } else {
      var p :| p in here;
      forall q | q in here ensures q == p {
        if q != p {
          KeysTellFilesApart(files, p, q);
        }
      }
      assert here == {p};
    }
    if e in Entries(files) {
      var p :| p in Listable(files) && e == ListedFor(p, files[p]);
      assert p in here;
    }
  }

  lemma LinesDiffer(r: seq<Listed>, i: nat, j: nat)
    requires i < j < |r| && multiset(r)[r[i]] <= 1
    ensures r[i] != r[j]
  {
    assert r == r[..j] + [r[j]] + r[j + 1..];
    assert multiset(r) == multiset(r[..j]) + multiset{r[j]} + multiset(r[j + 1..]);
    assert r[..j][i] == r[i] && r[i] in multiset(r[..j]);
  }

  /** Different entries of such a store are strictly ordered. */
  lemma EntriesAreOrdered(files: Files, a: Listed, b: Listed)
    requires LaidOut(files) && a in Entries(files) && b in Entries(files) && a != b
    ensures Before(a, b) || Before(b, a)
  {
    hide LaidOut, ListedFor, EndsWithJson, IsValidKey, KeyOfName, Before;
    var p :| p in Listable(files) && a == ListedFor(p, files[p]);
    var q :| q in Listable(files) && b == ListedFor(q, files[q]);
    KeysTellFilesApart(files, p, q);
    BeforeIsOrder(a, b);
  }

  /** There the window is the listing of the store's entries, whichever way the walk went. */
  lemma WindowIsListing(files: Files, limit: nat, r: seq<Listed>, truncated: bool)
    requires LaidOut(files) && IsWindow(files, limit, r, truncated)
    ensures IsListing(Entries(files), limit, r, truncated)
  {
    hide LaidOut, Before, Entries, Holding, EndsWithJson, IsValidKey, ListedFor;
    EntriesAreCounted(files);
    forall e ensures e in r ==> e in Entries(files) {
      WindowLines(files, limit, r, truncated, e);
    }
    forall i, j | 0 <= i < j < |r| ensures Before(r[i], r[j]) {
      WindowLines(files, limit, r, truncated, r[i]);
      LinesDiffer(r, i, j);
      assert r[i] in r && r[j] in r;
      EntriesAreOrdered(files, r[i], r[j]);
    }
    forall e, i | e in Entries(files) && e !in r && 0 <= i < |r| ensures Before(r[i], e) {
      WindowLines(files, limit, r, truncated, e);
      assert r[i] in r;
      EntriesAreOrdered(files, r[i], e);
    }
  }

  lemma EntriesAreCounted(files: Files)
    requires LaidOut(files)
    ensures |Entries(files)| == |Listable(files)|
  {
    EntriesCount(files, Listable(files));
  }

  // ---------------------------------------------------------------------------
  // Exactness, conservation and completeness
  // ---------------------------------------------------------------------------

  ghost predicate AllRemovable(files: Files) {
    forall p | p in files :: files[p].removable
  }

  ghost predicate AllStat(files: Files) {
    forall p | p in files :: files[p].statOk
  }

  /** After a purge an entry is gone exactly when every predicate the filter sets holds of it. */
  lemma PurgeIsExact(files: Files, f: PurgeFilter, now: int, key: string)
    requires AllRemovable(files) && IsValidKey(key) && PathFor(key) in files
    ensures PathFor(key) !in files - Doomed(files, f, now) <==> Asked(f, now, files[PathFor(key)])
  {
    hide PathFor, HasJsonExtension, ShouldRemove, Asked, IsValidKey;
    EntryPath(key);
    ShouldRemoveIsTheConjunction(f, now, files[PathFor(key)]);
  }

  /** Temp files of writers in flight are never purged. */
  lemma PurgeSparesTempFiles(files: Files, f: PurgeFilter, now: int, key: string, pid: nat, n: nat)
    requires IsValidKey(key) && TempPath(key, pid, n) in files
    ensures TempPath(key, pid, n) in files - Doomed(files, f, now)
  {
    hide TempPath, EndsWithJson, ShouldRemove;
    TempNotJson(key, pid, n);
  }

  lemma TighterPurgeRemovesLess(files: Files, g: PurgeFilter, f: PurgeFilter, now: int)
    requires Tightens(g, f)
    ensures Doomed(files, g, now) <= Doomed(files, f, now)
  {
    hide ShouldRemove, HasJsonExtension, Tightens;
    forall p | p in Doomed(files, g, now) ensures p in Doomed(files, f, now) {
      TighteningOnlyNarrows(g, f, now, files[p]);
    }
  }

  lemma {:induction false} TotalSizeSplit(files: Files, ps: set<Path>, qs: set<Path>)
    requires ps <= files.Keys && qs <= ps
    ensures TotalSize(files, ps) == TotalSize(files, ps - qs) + TotalSize(files, qs)
    decreases qs
  {
    if qs == {} {
      assert ps - qs == ps;
    } else {
      var q :| q in qs;
      TotalSizeWithout(files, ps, q);
      TotalSizeWithout(files, qs, q);
      TotalSizeSplit(files, ps - {q}, qs - {q});
      assert ps - {q} - (qs - {q}) == ps - qs;
    }
  }

  lemma {:induction false} TotalSizeFrame(files: Files, less: Files, ps: set<Path>)
    requires ps <= files.Keys && ps <= less.Keys && forall p | p in ps :: less[p] == files[p]
    ensures TotalSize(less, ps) == TotalSize(files, ps)
    decreases ps
  {
    if ps == {} {
    } else {
      var p :| p in ps;
      TotalSizeWithout(files, ps, p);
      TotalSizeWithout(less, ps, p);
      TotalSizeFrame(files, less, ps - {p});
    }
  }

  /** What `stats` loses is what `purge` reports, in entries and in bytes. */
  lemma PurgeConservesStats(files: Files, f: PurgeFilter, now: int)
    requires AllStat(files)
    ensures
      var doomed := Doomed(files, f, now);
      var left := files - doomed;
      && doomed <= Counted(files)
      && Counted(left) == Counted(files) - doomed
      && |Counted(left)| + |doomed| == |Counted(files)|
      && TotalSize(left, Counted(left)) + TotalSize(files, doomed) == TotalSize(files, Counted(files))
  {
    hide EndsWithJson, ShouldRemove;
    var doomed := Doomed(files, f, now);
    var left := files - doomed;
    assert Counted(left) == Counted(files) - doomed;
    assert Counted(files) == Counted(left) + doomed;
    TotalSizeSplit(files, Counted(files), doomed);
    TotalSizeFrame(files, left, Counted(left));
  }

  /** With room for all, the listing names every stored key and nothing else. */
  lemma FullListingNamesTheStore(files: Files, limit: nat, r: seq<Listed>, truncated: bool, key: string)
    requires LaidOut(files) && AllStat(files)
    requires IsListing(Entries(files), limit, r, truncated) && limit >= |Entries(files)|
    ensures !truncated
    ensures (exists i :: 0 <= i < |r| && r[i].key == key) <==> IsValidKey(key) && PathFor(key) in files
  {
    hide PathFor, EndsWithJson, IsValidKey, Before, LaidOut;
    forall i, j | 0 <= i < j < |r| ensures r[i] != r[j] {
      BeforeIsOrder(r[i], r[j]);
      assert Before(r[i], r[j]);
    }
    DistinctCount(r);
    var have := set e | e in r;
    var all := Entries(files);
    assert have <= all && |all - have| == |all| - |have| == 0;
    assert all == have + (all - have);
    if i :| 0 <= i < |r| && r[i].key == key {
      assert r[i] in all;
      var p :| p in Listable(files) && r[i] == ListedFor(p, files[p]);
      LaidOutNames(files, p);
    }
    if IsValidKey(key) && PathFor(key) in files {
      EntryPath(key);
      var e := ListedFor(PathFor(key), files[PathFor(key)]);
      assert PathFor(key) in Listable(files);
      assert e in all && e in have;
    }
  }
}
