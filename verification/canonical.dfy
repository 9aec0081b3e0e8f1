/** `canonical_json`: the text every cache key hashes. */
module Canonical {
  import opened Text
  import opened Json
  import opened JsonRoundTrip

  // ---------------------------------------------------------------------------
  // Sorting object members by key
  // ---------------------------------------------------------------------------

  function InsertSorted(m: Member, ms: seq<Member>): (r: seq<Member>)
    ensures multiset(r) == multiset{m} + multiset(ms)
  {
    if ms == [] || Less(m.key, ms[0].key) then [m] + ms
    else
      assert ms == [ms[0]] + ms[1..];
      [ms[0]] + InsertSorted(m, ms[1..])
  }

  function SortMembers(ms: seq<Member>): (r: seq<Member>)
    ensures multiset(r) == multiset(ms)
  {
    if ms == [] then []
    else
      assert ms == [ms[0]] + ms[1..];
      InsertSorted(ms[0], SortMembers(ms[1..]))
  }

  ghost predicate Ascending(ms: seq<Member>) {
    forall i, j | 0 <= i < j < |ms| :: Less(ms[i].key, ms[j].key)
  }

  lemma {:induction false} InsertSortedAscending(m: Member, ms: seq<Member>)
    requires Ascending(ms)
    requires forall i | 0 <= i < |ms| :: ms[i].key != m.key
    ensures Ascending(InsertSorted(m, ms))
  {
    if ms == [] {
    } else {
      LessTotal(m.key, ms[0].key);
      if Less(m.key, ms[0].key) {
        forall j | 0 <= j < |ms| ensures Less(m.key, ms[j].key) {
          if j > 0 { LessTransitive(m.key, ms[0].key, ms[j].key); }
        }
      } else {
        var rest := InsertSorted(m, ms[1..]);
        InsertSortedAscending(m, ms[1..]);
        forall j | 0 <= j < |rest| ensures Less(ms[0].key, rest[j].key) {
          assert rest[j] in multiset(rest);
          assert rest[j] == m || rest[j] in ms[1..];
        }
      }
    }
  }

  lemma SameMembers(a: seq<Member>, b: seq<Member>)
    requires multiset(a) == multiset(b)
    ensures forall m :: m in a <==> m in b
    ensures |a| == |b|
  {
    assert forall m :: m in a <==> m in multiset(a);
    assert forall m :: m in b <==> m in multiset(b);
    assert |a| == |multiset(a)| && |b| == |multiset(b)|;
  }

  lemma {:induction false} SortMembersAscending(ms: seq<Member>)
    requires DistinctKeys(ms)
    ensures Ascending(SortMembers(ms))
  {
    if ms == [] {
    } else {
      SortMembersAscending(ms[1..]);
      SameMembers(SortMembers(ms[1..]), ms[1..]);
      var sorted := SortMembers(ms[1..]);
      assert forall i | 0 <= i < |sorted| :: sorted[i] in ms[1..];
      InsertSortedAscending(ms[0], sorted);
    }
  }

  lemma AscendingDistinct(ms: seq<Member>)
    requires Ascending(ms)
    ensures DistinctKeys(ms)
  {
    forall i, j | 0 <= i < j < |ms| ensures ms[i].key != ms[j].key {
      LessTotal(ms[i].key, ms[j].key);
    }
  }

  /** A set of members has one ascending listing. */
  lemma {:induction false} AscendingUnique(a: seq<Member>, b: seq<Member>)
    requires Ascending(a) && Ascending(b)
    requires forall m :: m in a <==> m in b
    ensures a == b
    decreases |a|
  {
    assert b != [] ==> b[0] in b;
    if a == [] {
    } else {
      assert a[0] in a && a[0] in b;
      assert b[0] in b && b[0] in a;
      var i :| 0 <= i < |b| && b[i] == a[0];
      var j :| 0 <= j < |a| && a[j] == b[0];
      LessTotal(a[0].key, b[0].key);
      assert a[0] == b[0];
      AscendingDistinct(a);
      AscendingDistinct(b);
      forall m ensures m in a[1..] <==> m in b[1..] {
        assert m in a <==> m == a[0] || m in a[1..];
        assert m in b <==> m == b[0] || m in b[1..];
      }
      AscendingUnique(a[1..], b[1..]);
      assert a == [a[0]] + a[1..] && b == [b[0]] + b[1..];
    }
  }

  // ---------------------------------------------------------------------------
  // The value with every object's members in key order
  // ---------------------------------------------------------------------------

  function Sorted(v: Json): Json
    decreases v, 1
  {
    match v
    case Array(items) => Array(SortedItems(items))
    case Object(ms) => Object(SortMembers(SortedValues(ms)))
    case _ => v
  }

  function SortedItems(items: seq<Json>): (r: seq<Json>)
    ensures |r| == |items| && forall i | 0 <= i < |r| :: r[i] == Sorted(items[i])
    decreases items, 0
  {
    if items == [] then [] else [Sorted(items[0])] + SortedItems(items[1..])
  }

  function SortedValues(ms: seq<Member>): (r: seq<Member>)
    ensures |r| == |ms|
    ensures forall i | 0 <= i < |r| :: r[i] == Member(ms[i].key, Sorted(ms[i].value))
    decreases ms, 0
  {
    if ms == [] then [] else [Member(ms[0].key, Sorted(ms[0].value))] + SortedValues(ms[1..])
  }

  /** `canonical_json(value)`. */
  function CanonicalText(v: Json): string {
    Print(Sorted(v))
  }

  lemma {:induction false} SortedValid(v: Json)
    requires Valid(v)
    ensures Valid(Sorted(v))
  {
    match v
    case Array(items) =>
      forall i | 0 <= i < |items| ensures Valid(Sorted(items[i])) { SortedValid(items[i]); }
    case Object(ms) =>
      forall i | 0 <= i < |ms| ensures Valid(Sorted(ms[i].value)) { SortedValid(ms[i].value); }
      var ns := SortedValues(ms);
      SortMembersAscending(ns);
      AscendingDistinct(SortMembers(ns));
      SameMembers(SortMembers(ns), ns);
      forall i | 0 <= i < |SortMembers(ns)| ensures Valid(SortMembers(ns)[i].value) {
        assert SortMembers(ns)[i] in ns;
      }
    case _ =>
  }

  /** The canonical text reads back, whole, as the value with its keys sorted. */
  lemma CanonicalRoundTrip(v: Json)
    requires Valid(v)
    ensures Parse(CanonicalText(v)) == Some(Sorted(v))
  {
    SortedValid(v);
    ParsePrinted(Sorted(v));
  }

  // ---------------------------------------------------------------------------
  // Two values print alike exactly when they differ in member order only
  // ---------------------------------------------------------------------------

  lemma {:induction false} SortedEqualImpliesEquiv(a: Json, b: Json)
    requires Valid(a) && Valid(b) && Sorted(a) == Sorted(b)
    ensures Equiv(a, b)
  {
    match (a, b)
    case (Array(xs), Array(ys)) =>
      assert SortedItems(xs) == SortedItems(ys);
      forall i | 0 <= i < |xs| ensures Equiv(xs[i], ys[i]) {
        assert SortedItems(xs)[i] == SortedItems(ys)[i];
        SortedEqualImpliesEquiv(xs[i], ys[i]);
      }
    case (Object(ms), Object(ns)) =>
      SameMembers(SortedValues(ms), SortedValues(ns));
      forall i | 0 <= i < |ms| ensures EquivIn(ms[i], ns) {
        assert SortedValues(ms)[i] in SortedValues(ns);
        var j := SortedIndex(SortedValues(ms)[i], ns);
        LookupAt(ns, j);
        SortedEqualImpliesEquiv(ms[i].value, ns[j].value);
      }
    case _ =>
  }

  lemma SortedIndex(m: Member, ns: seq<Member>) returns (j: nat)
    requires m in SortedValues(ns)
    ensures j < |ns| && ns[j].key == m.key && Sorted(ns[j].value) == m.value
  {
    j :| 0 <= j < |ns| && SortedValues(ns)[j] == m;
  }

  lemma EquivIndex(m: Member, ns: seq<Member>) returns (j: nat)
    requires EquivIn(m, ns)
    ensures j < |ns| && ns[j].key == m.key && Equiv(m.value, ns[j].value)
  {
    hide Equiv;
    j :| 0 <= j < |ns| && ns[j] == Member(m.key, Lookup(ns, m.key).value);
  }

  lemma {:induction false} EquivImpliesSortedEqual(a: Json, b: Json)
    requires Valid(a) && Valid(b) && Equiv(a, b)
    ensures Sorted(a) == Sorted(b)
  {
    hide IsNumber, SortMembers, Lookup;
    match (a, b)
    case (Array(xs), Array(ys)) =>
      forall i | 0 <= i < |xs| ensures Sorted(xs[i]) == Sorted(ys[i]) {
        EquivImpliesSortedEqual(xs[i], ys[i]);
      }
      assert SortedItems(xs) == SortedItems(ys);
    case (Object(ms), Object(ns)) =>
      var (sm, sn) := (SortedValues(ms), SortedValues(ns));
      forall i | 0 <= i < |ms| ensures sm[i] in sn {
        var j := EquivIndex(ms[i], ns);
        EquivImpliesSortedEqual(ms[i].value, ns[j].value);
        assert sn[j] == sm[i];
      }
      SubsetSortsAlike(sm, sn);
    case _ =>
  }

  /** Equally many distinct members, all of one found in the other: one sorted listing. */
  lemma SubsetSortsAlike(a: seq<Member>, b: seq<Member>)
    requires DistinctKeys(a) && DistinctKeys(b) && |a| == |b|
    requires forall i | 0 <= i < |a| :: a[i] in b
    ensures SortMembers(a) == SortMembers(b)
  {
    DistinctCount(a);
    DistinctCount(b);
    var (sa, sb) := (set m | m in a, set m | m in b);
    assert sa <= sb;
    assert |sb - sa| == |sb| - |sa| == 0;
    assert sb == sa + (sb - sa);
    forall m ensures m in a <==> m in b {
      assert m in a <==> m in sa;
    }
    SortMembersAscending(a);
    SortMembersAscending(b);
    SameMembers(SortMembers(a), a);
    SameMembers(SortMembers(b), b);
    AscendingUnique(SortMembers(a), SortMembers(b));
  }

  /** Equivalence is having the same sorted form, so it is reflexive, symmetric and transitive. */
  lemma EquivIsSortedEquality(a: Json, b: Json)
    requires Valid(a) && Valid(b)
    ensures Equiv(a, b) <==> Sorted(a) == Sorted(b)
  {
    if Equiv(a, b) {
      EquivImpliesSortedEqual(a, b);
    }
    if Sorted(a) == Sorted(b) {
      SortedEqualImpliesEquiv(a, b);
    }
  }

  /** Map order never changes the text, and nothing else leaves it unchanged. */
  lemma CanonicalTextDecidesEquiv(a: Json, b: Json)
    requires Valid(a) && Valid(b)
    ensures CanonicalText(a) == CanonicalText(b) <==> Equiv(a, b)
  {
    CanonicalRoundTrip(a);
    CanonicalRoundTrip(b);
    EquivIsSortedEquality(a, b);
  }

  // ---------------------------------------------------------------------------
  // The order itself, by first difference, and the one text it leaves
  // ---------------------------------------------------------------------------

  /** At every depth each key precedes the next: it ends first, or has the smaller code point where they part. */
  ghost predicate KeysAscend(v: Json) {
    match v
    case Array(items) => forall i | 0 <= i < |items| :: KeysAscend(items[i])
    case Object(ms) =>
      && (forall i | 0 < i < |ms| :: Precedes(ms[i - 1].key, ms[i].key))
      && (forall i | 0 <= i < |ms| :: KeysAscend(ms[i].value))
    case _ => true
  }

  lemma {:induction false} SortedAscends(v: Json)
    requires Valid(v)
    ensures KeysAscend(Sorted(v))
  {
    hide Less, Precedes, SortMembers, IsNumber;
    match v
    case Array(items) =>
      forall i | 0 <= i < |items| ensures KeysAscend(SortedItems(items)[i]) { SortedAscends(items[i]); }
    case Object(ms) =>
      var sv := SortedValues(ms);
      var sorted := SortMembers(sv);
      forall i | 0 <= i < |ms| ensures KeysAscend(sv[i].value) { SortedAscends(ms[i].value); }
      SameMembers(sorted, sv);
      forall i | 0 <= i < |sorted| ensures KeysAscend(sorted[i].value) {
        assert sorted[i] in sv;
      }
      SortMembersAscending(sv);
      forall i | 0 < i < |sorted| ensures Precedes(sorted[i - 1].key, sorted[i].key) {
        LessIsFirstDifference(sorted[i - 1].key, sorted[i].key);
      }
    case _ =>
  }

  lemma {:induction false} NeighboursAscend(ms: seq<Member>, i: nat, j: nat)
    requires i < j < |ms| && forall k | 0 < k < |ms| :: Precedes(ms[k - 1].key, ms[k].key)
    ensures Less(ms[i].key, ms[j].key)
    decreases j - i
  {
    hide Less, Precedes;
    LessIsFirstDifference(ms[j - 1].key, ms[j].key);
    if i == j - 1 {
    } else {
      NeighboursAscend(ms, i, j - 1);
      LessTransitive(ms[i].key, ms[j - 1].key, ms[j].key);
    }
  }

  /** A value whose keys ascend is its own sorted form. */
  lemma {:induction false} AscendingIsSorted(v: Json)
    requires KeysAscend(v)
    ensures Sorted(v) == v
  {
    hide Less, Precedes, SortMembers;
    match v
    case Array(items) =>
      forall i | 0 <= i < |items| ensures Sorted(items[i]) == items[i] { AscendingIsSorted(items[i]); }
      assert SortedItems(items) == items;
    case Object(ms) =>
      forall i | 0 <= i < |ms| ensures Sorted(ms[i].value) == ms[i].value { AscendingIsSorted(ms[i].value); }
      assert SortedValues(ms) == ms;
      forall i, j | 0 <= i < j < |ms| ensures Less(ms[i].key, ms[j].key) { NeighboursAscend(ms, i, j); }
      AscendingDistinct(ms);
      SortMembersAscending(ms);
      SameMembers(SortMembers(ms), ms);
      AscendingUnique(SortMembers(ms), ms);
    case _ =>
  }

  lemma SortedTwice(v: Json)
    requires Valid(v)
    ensures Sorted(Sorted(v)) == Sorted(v)
  {
    SortedAscends(v);
    AscendingIsSorted(Sorted(v));
  }

  /** The text is that of an equal value with ascending keys: it parses to one. */
  lemma CanonicalKeysAscend(v: Json)
    requires Valid(v)
    ensures Parse(CanonicalText(v)).Some?
    ensures var w := Parse(CanonicalText(v)).value;
            Valid(w) && Equiv(v, w) && KeysAscend(w) && CanonicalText(v) == Print(w)
  {
    hide Valid, Equiv, KeysAscend, Parse;
    CanonicalRoundTrip(v);
    SortedValid(v);
    SortedAscends(v);
    SortedTwice(v);
    EquivIsSortedEquality(v, Sorted(v));
  }

  /** And it is the only such text: any equal value with ascending keys prints it. */
  lemma CanonicalTextUnique(v: Json, w: Json)
    requires Valid(v) && Valid(w) && Equiv(v, w) && KeysAscend(w)
    ensures CanonicalText(v) == Print(w)
  {
    EquivIsSortedEquality(v, w);
    AscendingIsSorted(w);
  }

  // ---------------------------------------------------------------------------
  // `write_canonical`: sort the keys, then append value by value
  // ---------------------------------------------------------------------------

  function Keys(ms: seq<Member>): seq<string> {
    seq(|ms|, i requires 0 <= i < |ms| => ms[i].key)
  }

  function InsertKey(k: string, ks: seq<string>): seq<string> {
    if ks == [] || Less(k, ks[0]) then [k] + ks else [ks[0]] + InsertKey(k, ks[1..])
  }

  /** `keys.sort()`. */
  function SortKeys(ks: seq<string>): seq<string> {
    if ks == [] then [] else InsertKey(ks[0], SortKeys(ks[1..]))
  }

  lemma {:induction false} InsertKeyOf(m: Member, ms: seq<Member>)
    ensures Keys(InsertSorted(m, ms)) == InsertKey(m.key, Keys(ms))
  {
    if ms != [] && !Less(m.key, ms[0].key) {
      InsertKeyOf(m, ms[1..]);
      assert Keys(ms)[1..] == Keys(ms[1..]);
      assert Keys([ms[0]] + InsertSorted(m, ms[1..])) == [ms[0].key] + Keys(InsertSorted(m, ms[1..]));
    } else {
      assert Keys([m] + ms) == [m.key] + Keys(ms);
    }
  }

  lemma {:induction false} SortKeysOf(ms: seq<Member>)
    ensures Keys(SortMembers(ms)) == SortKeys(Keys(ms))
  {
    if ms == [] {
    } else {
      hide Less;
      SortKeysOf(ms[1..]);
      InsertKeyOf(ms[0], SortMembers(ms[1..]));
      assert Keys(ms)[1..] == Keys(ms[1..]);
    }
  }

  /** Looking each sorted key up visits the members of the sorted object in turn. */
  lemma SortedKeyLookup(ms: seq<Member>, i: nat)
    requires DistinctKeys(ms)
    requires i < |SortKeys(Keys(ms))|
    ensures var sorted := SortMembers(SortedValues(ms));
            var v := Lookup(ms, SortKeys(Keys(ms))[i]);
            && |sorted| == |SortKeys(Keys(ms))|
            && v.Some? && (exists j :: 0 <= j < |ms| && ms[j].value == v.value)
            && sorted[i] == Member(SortKeys(Keys(ms))[i], Sorted(v.value))
  {
    var sv := SortedValues(ms);
    var sorted := SortMembers(sv);
    assert Keys(sv) == Keys(ms);
    SortKeysOf(sv);
    SameMembers(sorted, sv);
    var k := Keys(sorted)[i];
    assert sorted[i] in sv;
    var j :| 0 <= j < |sv| && sv[j] == sorted[i];
    LookupAt(ms, j);
  }

  lemma {:induction false} PrintItemsSnoc(items: seq<Json>, n: nat)
    requires n < |items|
    ensures PrintItems(items[..n + 1]) == PrintItems(items[..n]) + (if n == 0 then "" else ",") + Print(items[n])
    decreases n
  {
    hide Print;
    if n == 0 {
      assert items[..1] == [items[0]];
    } else {
      PrintItemsSnoc(items[1..], n - 1);
      assert items[..n + 1][1..] == items[1..][..n] && items[..n][1..] == items[1..][..n - 1];
      if n == 1 {
        assert items[..1] == [items[0]];
      } else {
        Assoc(Print(items[0]) + ",", PrintItems(items[1..][..n - 1]), ",");
        Assoc(Print(items[0]) + ",", PrintItems(items[1..][..n - 1]) + ",", Print(items[n]));
      }
    }
  }

  lemma {:induction false} PrintMembersSnoc(ms: seq<Member>, n: nat)
    requires n < |ms|
    ensures PrintMembers(ms[..n + 1]) == PrintMembers(ms[..n]) + (if n == 0 then "" else ",") + PrintMember(ms[n])
    decreases n
  {
    hide PrintMember;
    if n == 0 {
      assert ms[..1] == [ms[0]];
    } else {
      PrintMembersSnoc(ms[1..], n - 1);
      assert ms[..n + 1][1..] == ms[1..][..n] && ms[..n][1..] == ms[1..][..n - 1];
      if n == 1 {
        assert ms[..1] == [ms[0]];
      } else {
        Assoc(PrintMember(ms[0]) + ",", PrintMembers(ms[1..][..n - 1]), ",");
        Assoc(PrintMember(ms[0]) + ",", PrintMembers(ms[1..][..n - 1]) + ",", PrintMember(ms[n]));
      }
    }
  }

  lemma NothingPrinted()
    ensures PrintItems([]) == "" && PrintMembers([]) == ""
  {
  }

  /** The text of an equal value whose keys ascend at every depth. */
  ghost predicate IsOrderedText(v: Json, text: string) {
    exists w :: Valid(w) && Equiv(v, w) && KeysAscend(w) && text == Print(w)
  }

  lemma OrderedTextIs(v: Json)
    requires Valid(v)
    ensures IsOrderedText(v, CanonicalText(v))
  {
    hide Valid, Equiv, KeysAscend, Parse;
    CanonicalKeysAscend(v);
  }

  method WriteCanonical(value: Json, out: string) returns (res: string)
    requires Valid(value)
    ensures res == out + CanonicalText(value)
    ensures IsOrderedText(value, res[|out|..])
    decreases value, 1
  {
    hide IsOrderedText;
    OrderedTextIs(value);
    assert (out + CanonicalText(value))[|out|..] == CanonicalText(value);
    match value
    case Null => res := out + "null";
    case Bool(b) => res := out + (if b then "true" else "false");
    case Number(t) => res := out + t;
    case String(s) => res := out + PrintString(s);
    case Array(items) =>
      res := WriteArray(items, out + "[");
      res := res + "]";
      Assoc(out + "[", PrintItems(SortedItems(items)), "]");
      Assoc(out, "[", PrintItems(SortedItems(items)) + "]");
      Assoc("[", PrintItems(SortedItems(items)), "]");
    case Object(ms) =>
      var body := WriteObject(ms, out + "{");
      res := body + "}";
      var text := PrintMembers(SortMembers(SortedValues(ms)));
      Assoc(out + "{", text, "}");
      Assoc(out, "{", text + "}");
      Assoc("{", text, "}");
  }

  method WriteArray(items: seq<Json>, out: string) returns (res: string)
    requires forall i | 0 <= i < |items| :: Valid(items[i])
    ensures res == out + PrintItems(SortedItems(items))
    decreases items, 0
  {
    hide Print, PrintItems, SortMembers, IsOrderedText, Equiv;
    ghost var sorted := SortedItems(items);
    assert PrintItems(sorted[..0]) == "" by { NothingPrinted(); }
    res := out;
    for i := 0 to |items|
      invariant res == out + PrintItems(sorted[..i])
    {
      PrintItemsSnoc(sorted, i);
      ghost var before := PrintItems(sorted[..i]);
      if i > 0 {
        res := res + ",";
        Assoc(out, before, ",");
      }
      var next := WriteCanonical(items[i], res);
      Assoc(out, before + (if i == 0 then "" else ","), Print(sorted[i]));
      res := next;
    }
    assert sorted[..|items|] == sorted;
  }

  /** One more member is a comma unless it is the first, its key, a colon and its value. */
  lemma MemberWritten(out: string, sorted: seq<Member>, i: nat)
    requires i < |sorted|
    ensures var before := out + PrintMembers(sorted[..i]);
            (if i > 0 then before + "," else before) + PrintString(sorted[i].key) + ":" + Print(sorted[i].value)
            == out + PrintMembers(sorted[..i + 1])
  {
    hide Print, PrintString, PrintMembers;
    PrintMembersSnoc(sorted, i);
    var before := PrintMembers(sorted[..i]);
    var (sep, key, value) := (if i == 0 then "" else ",", PrintString(sorted[i].key), Print(sorted[i].value));
    Assoc(out, before, sep);
    Assoc(out + (before + sep), key, ":");
    Assoc(out + (before + sep), key + ":", value);
    Assoc(out, before + sep, PrintMember(sorted[i]));
  }

  method WriteObject(ms: seq<Member>, out: string) returns (res: string)
    requires DistinctKeys(ms) && forall i | 0 <= i < |ms| :: Valid(ms[i].value)
    ensures res == out + PrintMembers(SortMembers(SortedValues(ms)))
    decreases ms, 0
  {
    hide Print, PrintMembers, PrintString, SortMembers, SortKeys, Lookup, IsOrderedText, Equiv;
    var keys := SortKeys(Keys(ms));
    ghost var sorted := SortMembers(SortedValues(ms));
    SortKeysOf(SortedValues(ms));
    assert Keys(SortedValues(ms)) == Keys(ms);
    assert PrintMembers(sorted[..0]) == "" by { NothingPrinted(); }
    res := out;
    for i := 0 to |keys|
      invariant res == out + PrintMembers(sorted[..i])
    {
      SortedKeyLookup(ms, i);
      if i > 0 {
        res := res + ",";
      }
      var k := keys[i];
      res := res + PrintString(k);
      res := res + ":";
      var value := Lookup(ms, k);
      res := WriteCanonical(value.value, res);
      MemberWritten(out, sorted, i);
    }
    assert sorted[..|keys|] == sorted;
  }
}
