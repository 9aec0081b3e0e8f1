/** `extract_json`: the first balanced JSON object or array embedded in a model's prose. */
module EmbeddedJson {
  import opened Text
  import opened Json
  import opened JsonRoundTrip
  import opened Canonical
  import opened JsonPrefix

  predicate IsOpen(c: char) {
    c == '{' || c == '['
  }

  function CloseOf(open: char): char {
    if open == '{' then '}' else ']'
  }

  /** Openings minus closings. */
  ghost function Balance(s: string, open: char): int {
    if s == "" then 0
    else Balance(s[..|s| - 1], open) +
         (if s[|s| - 1] == open then 1 else if s[|s| - 1] == CloseOf(open) then -1 else 0)
  }

  /** The first `n` characters balance, and no shorter non-empty prefix does. */
  ghost predicate ShortestBalanced(s: string, open: char, n: int) {
    && 0 < n <= |s| && Balance(s[..n], open) == 0
    && forall k | 0 < k < n :: Balance(s[..k], open) != 0
  }

  /** The index of the first bracket, or the length when there is none. */
  function FirstBracket(text: string): (i: nat)
    ensures i <= |text|
    ensures i < |text| ==> IsOpen(text[i])
    ensures forall k | 0 <= k < i :: !IsOpen(text[k])
  {
    if text == "" || IsOpen(text[0]) then 0 else 1 + FirstBracket(text[1..])
  }

  lemma BalanceStep(s: string, open: char, n: nat)
    requires n < |s|
    ensures Balance(s[..n + 1], open) == Balance(s[..n], open) +
              (if s[n] == open then 1 else if s[n] == CloseOf(open) then -1 else 0)
  {
    assert s[..n + 1][..n] == s[..n];
  }

  /**
   * A text that is JSON as a whole stands for itself. Otherwise the result is the reading of the
   * shortest balanced slice that starts at the first bracket, and nothing when none balances.
   */
  ghost predicate Extracts(text: string, r: Option<Json>) {
    if Parse(Trim(text)).Some? then r == Parse(Trim(text))
    else
      var start := FirstBracket(text);
      if start < |text| && exists n :: ShortestBalanced(text[start..], text[start], n) then
        exists n :: ShortestBalanced(text[start..], text[start], n) && r == Parse(text[start..][..n])
      else r.None?
  }

  method ExtractJson(text: string) returns (r: Option<Json>)
    ensures Extracts(text, r)
  {
    hide Parse, Trim;
    var whole := Parse(Trim(text));
    if whole.Some? {
      return whole;
    }
    var start := FirstBracket(text);
    if start == |text| {
      return None;
    }
    var open := text[start];
    var close := CloseOf(open);
    ghost var s := text[start..];
    var depth := 0;
    for i := start to |text|
      invariant depth == Balance(s[..i - start], open)
      invariant i > start ==> depth > 0
      invariant forall k | 0 < k <= i - start :: Balance(s[..k], open) > 0
    {
      BalanceStep(s, open, i - start);
      if text[i] == open {
        depth := depth + 1;
      } else if text[i] == close {
        depth := depth - 1;
        if depth == 0 {
          ghost var n := i + 1 - start;
          assert ShortestBalanced(s, open, n);
          assert text[start..i + 1] == s[..n];
          return Parse(text[start..i + 1]);
        }
      }
    }
    return None;
  }

  // ---------------------------------------------------------------------------
  // What the bracket count sees of a printed value
  // ---------------------------------------------------------------------------

  /** Balanced, and never below zero on the way. */
  ghost predicate Nested(s: string, open: char) {
    Balance(s, open) == 0 && forall k | 0 <= k <= |s| :: Balance(s[..k], open) >= 0
  }

  lemma {:induction false} BalanceConcat(a: string, b: string, open: char)
    ensures Balance(a + b, open) == Balance(a, open) + Balance(b, open)
    decreases |b|
  {
    if b == "" {
      assert a + b == a;
    } else {
      assert (a + b)[..|a + b| - 1] == a + b[..|b| - 1];
      BalanceConcat(a, b[..|b| - 1], open);
    }
  }

  lemma PrefixOfConcat(a: string, b: string, k: nat)
    requires k <= |a + b|
    ensures (a + b)[..k] == if k <= |a| then a[..k] else a + b[..k - |a|]
  {
  }

  lemma NestedConcat(a: string, b: string, open: char)
    requires Nested(a, open) && Nested(b, open)
    ensures Nested(a + b, open)
  {
    BalanceConcat(a, b, open);
    forall k | 0 <= k <= |a + b| ensures Balance((a + b)[..k], open) >= 0 {
      PrefixOfConcat(a, b, k);
      if k > |a| {
        BalanceConcat(a, b[..k - |a|], open);
      }
    }
  }

  /** Neither bracket of the pair occurs. */
  predicate Free(s: string, open: char) {
    open !in s && CloseOf(open) !in s
  }

  lemma {:induction false} FreeNested(s: string, open: char)
    requires Free(s, open)
    ensures Nested(s, open)
  {
    if s == "" {
    } else {
      var t := s[..|s| - 1];
      FreeNested(t, open);
      forall k | 0 <= k <= |s| ensures Balance(s[..k], open) >= 0 {
        if k < |s| {
          assert s[..k] == t[..k];
        } else {
          assert s[..k] == s;
        }
      }
    }
  }

  /** A bracketed nested text balances at its end and not before. */
  lemma BracketedShortest(body: string, open: char)
    requires IsOpen(open) && Nested(body, open)
    ensures ShortestBalanced([open] + body + [CloseOf(open)], open, |body| + 2)
    ensures Nested([open] + body + [CloseOf(open)], open)
  {
    var s := [open] + body + [CloseOf(open)];
    forall k | 0 < k < |s| ensures Balance(s[..k], open) > 0 {
      assert s[..k] == [open] + body[..k - 1];
      BalanceConcat([open], body[..k - 1], open);
      assert [open][..0] == "";
      assert Balance([open], open) == 1;
    }
    BalanceStep(s, open, |s| - 1);
    assert s[..|s|] == s && s[..|s| - 1] == [open] + body;
    BalanceConcat([open], body, open);
    assert [open][..0] == "";
    assert Balance([open], open) == 1;
  }

  /** No string and no key of the value holds a bracket of this pair. */
  predicate Clean(v: Json, open: char) {
    match v
    case String(s) => Free(s, open)
    case Array(items) => forall i | 0 <= i < |items| :: Clean(items[i], open)
    case Object(ms) => forall i | 0 <= i < |ms| :: Free(ms[i].key, open) && Clean(ms[i].value, open)
    case _ => true
  }

  /** A string or a key somewhere in the value. */
  ghost predicate Mentions(v: Json, s: string) {
    || v == String(s)
    || (v.Array? && exists i :: 0 <= i < |v.items| && Mentions(v.items[i], s))
    || (v.Object? && exists i :: 0 <= i < |v.members| && (v.members[i].key == s || Mentions(v.members[i].value, s)))
  }

  lemma {:induction false} CleanIs(v: Json, open: char)
    ensures Clean(v, open) <==> forall s | Mentions(v, s) :: Free(s, open)
  {
    hide Free;
    match v
    case String(s) => assert Mentions(v, s);
    case Array(items) =>
      forall i | 0 <= i < |items| ensures Clean(items[i], open) <==> forall s | Mentions(items[i], s) :: Free(s, open) {
        CleanIs(items[i], open);
      }
    case Object(ms) =>
      forall i | 0 <= i < |ms|
        ensures Clean(ms[i].value, open) <==> forall s | Mentions(ms[i].value, s) :: Free(s, open)
        ensures Mentions(v, ms[i].key)
      {
        CleanIs(ms[i].value, open);
      }
    case _ =>
  }

  lemma {:induction false} EscapeFree(s: string, open: char)
    requires IsOpen(open) && Free(s, open)
    ensures Free(Escape(s), open)
  {
    if s == "" {
    } else {
      EscapeFree(s[1..], open);
      assert s[0] in s;
      assert Free(EscapeChar(s[0]), open);
    }
  }

  lemma PrintedStringNested(s: string, open: char)
    requires IsOpen(open) && Free(s, open)
    ensures Nested(PrintString(s), open)
  {
    EscapeFree(s, open);
    FreeNested(PrintString(s), open);
  }

  lemma {:induction false} PrintedNested(v: Json, open: char)
    requires Valid(v) && Clean(v, open) && IsOpen(open)
    ensures Nested(Print(v), open)
    decreases v, 1
  {
    hide Nested, Balance, PrintItems, PrintMembers, PrintString, IsNumber;
    match v
    case Null => FreeNested(Print(v), open);
    case Bool(_) => FreeNested(Print(v), open);
    case Number(t) => NumberChars(t); FreeNested(t, open);
    case String(s) => PrintedStringNested(s, open);
    case Array(items) =>
      PrintedItemsNested(items, open);
      BracketNested('[', PrintItems(items), open);
    case Object(ms) =>
      PrintedMembersNested(ms, open);
      BracketNested('{', PrintMembers(ms), open);
  }

  lemma BracketNested(b: char, body: string, open: char)
    requires IsOpen(b) && IsOpen(open) && Nested(body, open)
    ensures Nested([b] + body + [CloseOf(b)], open)
  {
    if b == open {
      BracketedShortest(body, open);
    } else {
      FreeNested([b], open);
      FreeNested([CloseOf(b)], open);
      NestedConcat([b], body, open);
      NestedConcat([b] + body, [CloseOf(b)], open);
    }
  }

  lemma {:induction false} PrintedItemsNested(items: seq<Json>, open: char)
    requires IsOpen(open)
    requires forall i | 0 <= i < |items| :: Valid(items[i]) && Clean(items[i], open)
    ensures Nested(PrintItems(items), open)
    decreases items, 0
  {
    if |items| == 0 {
    } else {
      PrintedNested(items[0], open);
      if |items| > 1 {
        PrintedItemsNested(items[1..], open);
        FreeNested(",", open);
        NestedConcat(Print(items[0]), ",", open);
        NestedConcat(Print(items[0]) + ",", PrintItems(items[1..]), open);
      }
    }
  }

  lemma {:induction false} PrintedMemberNested(m: Member, open: char)
    requires IsOpen(open) && Valid(m.value) && Free(m.key, open) && Clean(m.value, open)
    ensures Nested(PrintMember(m), open)
    decreases m, 2
  {
    PrintedStringNested(m.key, open);
    FreeNested(":", open);
    PrintedNested(m.value, open);
    NestedConcat(PrintString(m.key), ":", open);
    NestedConcat(PrintString(m.key) + ":", Print(m.value), open);
  }

  lemma {:induction false} PrintedMembersNested(ms: seq<Member>, open: char)
    requires IsOpen(open)
    requires forall i | 0 <= i < |ms| :: Valid(ms[i].value) && Free(ms[i].key, open) && Clean(ms[i].value, open)
    ensures Nested(PrintMembers(ms), open)
    decreases ms, 0
  {
    if |ms| == 0 {
    } else {
      PrintedMemberNested(ms[0], open);
      if |ms| > 1 {
        PrintedMembersNested(ms[1..], open);
        FreeNested(",", open);
        NestedConcat(PrintMember(ms[0]), ",", open);
        NestedConcat(PrintMember(ms[0]) + ",", PrintMembers(ms[1..]), open);
      }
    }
  }

  lemma {:induction false} SortedClean(v: Json, open: char)
    requires Clean(v, open)
    ensures Clean(Sorted(v), open)
  {
    match v
    case Array(items) =>
      forall i | 0 <= i < |items| ensures Clean(Sorted(items[i]), open) { SortedClean(items[i], open); }
    case Object(ms) =>
      forall i | 0 <= i < |ms| ensures Clean(Sorted(ms[i].value), open) { SortedClean(ms[i].value, open); }
      var sv := SortedValues(ms);
      SameMembers(SortMembers(sv), sv);
      forall i | 0 <= i < |sv|
        ensures Free(SortMembers(sv)[i].key, open) && Clean(SortMembers(sv)[i].value, open)
      {
        assert SortMembers(sv)[i] in sv;
      }
    case _ =>
  }

  // ---------------------------------------------------------------------------
  // Recovery of an embedded canonical value
  // ---------------------------------------------------------------------------

  predicate IsContainer(v: Json) {
    v.Array? || v.Object?
  }

  lemma {:induction false} FirstBracketAfter(pre: string, rest: string)
    requires forall k | 0 <= k < |pre| :: !IsOpen(pre[k])
    requires rest != "" && IsOpen(rest[0])
    ensures FirstBracket(pre + rest) == |pre|
  {
    if pre == "" {
      assert pre + rest == rest;
    } else {
      assert (pre + rest)[1..] == pre[1..] + rest;
      FirstBracketAfter(pre[1..], rest);
    }
  }

  lemma ShortestUnique(s: string, open: char, m: int, n: int)
    requires ShortestBalanced(s, open, m) && ShortestBalanced(s, open, n)
    ensures m == n
  {
  }

  /** The character that brings the count back to zero is the closing bracket. */
  lemma ShortestEndsClosed(s: string, open: char, n: int)
    requires IsOpen(open) && s != "" && s[0] == open && ShortestBalanced(s, open, n)
    ensures s[n - 1] == CloseOf(open)
  {
    PositiveInside(s, open, n, n - 1);
    BalanceStep(s, open, n - 1);
  }

  lemma {:induction false} PositiveInside(s: string, open: char, n: int, k: nat)
    requires IsOpen(open) && s != "" && s[0] == open && ShortestBalanced(s, open, n) && k < n
    ensures k > 0 ==> Balance(s[..k], open) > 0
    ensures n > 1
  {
    assert s[..0] == "";
    BalanceStep(s, open, 0);
    if k <= 1 {
    } else {
      PositiveInside(s, open, n, k - 1);
      BalanceStep(s, open, k - 1);
    }
  }

  lemma {:induction false} SpaceOnly(s: string)
    requires SkipSpace(s) == ""
    ensures forall i | 0 <= i < |s| :: IsJsonSpace(s[i])
  {
    if s == "" {
    } else {
      SpaceOnly(s[1..]);
    }
  }

  lemma PrefixIsNotTheValue(v: Json, p: string, q: string)
    requires Valid(v) && IsContainer(v)
    requires p + q == Print(v) && q != ""
    ensures Parse(p) != Some(v)
  {
    hide ReadValue, Print, Valid;
    ReadPrinted(v, "");
    assert Print(v) + "" == Print(v);
    if Parse(p) == Some(v) {
      ReadValueExtends(p, q);
    }
  }

  lemma LongerIsNotTheValue(v: Json, q: string)
    requires Valid(v) && IsContainer(v)
    requires q != "" && !IsJsonSpace(q[|q| - 1])
    ensures Parse(Print(v) + q).None?
  {
    hide ReadValue, Print, Valid;
    ReadPrinted(v, q);
    if SkipSpace(q) == "" {
      SpaceOnly(q);
    }
  }

  /** A slice that reads as the embedded value is the embedded text, no more and no less. */
  lemma SliceIsTheValue(v: Json, post: string, n: nat)
    requires Valid(v) && IsContainer(v)
    requires ShortestBalanced(Print(v) + post, Print(v)[0], n)
    requires Parse((Print(v) + post)[..n]) == Some(v)
    ensures n == |Print(v)|
  {
    hide Parse, Valid, Balance, Print;
    var text := Print(v);
    if n < |text| {
      assert (text + post)[..n] == text[..n];
      assert text[..n] + text[n..] == text;
      PrefixIsNotTheValue(v, text[..n], text[n..]);
    } else if n > |text| {
      LongerSlice(v, post, n);
    }
  }

  lemma LongerSlice(v: Json, post: string, n: nat)
    requires Valid(v) && IsContainer(v)
    requires ShortestBalanced(Print(v) + post, Print(v)[0], n) && n > |Print(v)|
    ensures Parse((Print(v) + post)[..n]).None?
  {
    hide Parse, Valid, Balance;
    var text := Print(v);
    var q := post[..n - |text|];
    assert (text + post)[..n] == text + q;
    ShortestEndsClosed(text + post, text[0], n);
    assert q[|q| - 1] == (text + post)[n - 1];
    LongerIsNotTheValue(v, q);
  }

  lemma ExtractsAfter(pre: string, tail: string, r: Option<Json>)
    requires forall k | 0 <= k < |pre| :: !IsOpen(pre[k])
    requires tail != "" && IsOpen(tail[0])
    requires Parse(Trim(pre + tail)).None? && Extracts(pre + tail, r)
    ensures r.Some? ==> exists n :: ShortestBalanced(tail, tail[0], n) && r == Parse(tail[..n])
    ensures forall n :: ShortestBalanced(tail, tail[0], n) ==> r == Parse(tail[..n])
  {
    FirstBracketAfter(pre, tail);
    assert (pre + tail)[|pre|..] == tail;
    forall n | ShortestBalanced(tail, tail[0], n) ensures r == Parse(tail[..n]) {
      var m :| ShortestBalanced(tail, tail[0], m) && r == Parse(tail[..m]);
      ShortestUnique(tail, tail[0], m, n);
    }
  }

  lemma ShortestInPrefix(text: string, post: string, open: char, n: int)
    requires n <= |text|
    ensures ShortestBalanced(text, open, n) <==> ShortestBalanced(text + post, open, n)
  {
    assert forall k | 0 <= k <= |text| :: (text + post)[..k] == text[..k];
  }

  /**
   * Prose around a canonical object or array: the scan returns that value exactly when no
   * proper prefix of its text balances the outer bracket pair.
   */
  lemma EmbeddedRecovery(pre: string, v: Json, post: string, r: Option<Json>)
    requires Valid(v) && IsContainer(v)
    requires forall k | 0 <= k < |pre| :: pre[k] != '{' && pre[k] != '['
    requires Parse(Trim(pre + (CanonicalText(v) + post))).None?
    requires Extracts(pre + (CanonicalText(v) + post), r)
    ensures r == Some(Sorted(v)) <==>
            ShortestBalanced(CanonicalText(v), CanonicalText(v)[0], |CanonicalText(v)|)
  {
    var text := CanonicalText(v);
    var open := text[0];
    ExtractsAfter(pre, text + post, r);
    ShortestInPrefix(text, post, open, |text|);
    if ShortestBalanced(text, open, |text|) {
      CanonicalRoundTrip(v);
      assert (text + post)[..|text|] == text;
    }
    if r == Some(Sorted(v)) {
      var n :| ShortestBalanced(text + post, open, n) && r == Parse((text + post)[..n]);
      SortedValid(v);
      SliceIsTheValue(Sorted(v), post, n);
    }
  }

  /** A bracket pair whose text is nested closes at its end and not before. */
  lemma CleanIsShortest(v: Json)
    requires Valid(v) && IsContainer(v) && Clean(v, CanonicalText(v)[0])
    ensures ShortestBalanced(CanonicalText(v), CanonicalText(v)[0], |CanonicalText(v)|)
  {
    hide Balance, Nested, ShortestBalanced;
    var open := CanonicalText(v)[0];
    var w := Sorted(v);
    SortedValid(v);
    SortedClean(v, open);
    if w.Array? {
      PrintedItemsNested(w.items, open);
      BracketedShortest(PrintItems(w.items), open);
    } else {
      PrintedMembersNested(w.members, open);
      BracketedShortest(PrintMembers(w.members), open);
    }
  }

  /** Strings and keys free of the outer brackets are enough. */
  lemma CleanRecovery(pre: string, v: Json, post: string, r: Option<Json>)
    requires Valid(v) && IsContainer(v) && forall s | Mentions(v, s) :: Free(s, CanonicalText(v)[0])
    requires forall k | 0 <= k < |pre| :: pre[k] != '{' && pre[k] != '['
    requires Parse(Trim(pre + (CanonicalText(v) + post))).None?
    requires Extracts(pre + (CanonicalText(v) + post), r)
    ensures r.Some? && r.value == Sorted(v) && Equiv(v, r.value)
  {
    CleanIs(v, CanonicalText(v)[0]);
    hide Parse, CanonicalText, Print, Balance, Nested, Sorted, Valid, Equiv, ShortestBalanced, Extracts, Trim;
    CleanIsShortest(v);
    EmbeddedRecovery(pre, v, post, r);
    SortedTwice(v);
    SortedValid(v);
    EquivIsSortedEquality(v, Sorted(v));
  }

  lemma QuotedBracketText()
    ensures Sorted(Array([String("]")])) == Array([String("]")])
    ensures CanonicalText(Array([String("]")])) == "[\"]\"]"
  {
    var v := Array([String("]")]);
    assert SortedItems(v.items) == v.items;
    assert "]"[1..] == "";
    assert EscapeChar(']') == "]" && Escape("]") == "]";
  }

  lemma QuotedBracketNotWhole()
    ensures Parse(Trim("x[\"]\"]")).None?
  {
    var whole := "x[\"]\"]";
    assert Trim(whole) == whole;
    assert NumberRun(whole) == 0 && whole[..0] == "";
  }

  /** A bracket inside a string breaks recovery: `["]"]` after a word is not found. */
  lemma BracketInStringIsLost(r: Option<Json>)
    requires Extracts("x[\"]\"]", r)
    ensures CanonicalText(Array([String("]")])) == "[\"]\"]"
    ensures r != Some(Sorted(Array([String("]")])))
  {
    hide Parse, Sorted, CanonicalText, Trim, Extracts;
    var text := "[\"]\"]";
    QuotedBracketText();
    QuotedBracketNotWhole();
    assert "x" + (text + "") == "x[\"]\"]";
    assert Balance(text[..3], '[') == 0 by {
      assert text[..0] == "";
      BalanceStep(text, '[', 0);
      BalanceStep(text, '[', 1);
      BalanceStep(text, '[', 2);
    }
    EmbeddedRecovery("x", Array([String("]")]), "", r);
  }
}
