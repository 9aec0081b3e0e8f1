/** The part of the regex crate's syntax and meaning that imported patterns live in. */
module Regexes {
  import opened Text

  datatype Regex =
    | Lit(c: char)
    | AnyChar
    | StartText
    | EndText
    | Star(r: Regex)
    | Plus(r: Regex)
    | Opt(r: Regex)
    | Concat(parts: seq<Regex>)
    | Alt(branches: seq<Regex>)

  // ---------------------------------------------------------------------------
  // Meaning: which slices of a text an expression matches
  // ---------------------------------------------------------------------------

  /** A place to cut the slice. */
  predicate Cut(i: nat, k: int, j: nat) {
    i <= k <= j
  }

  ghost predicate Matches(r: Regex, text: string, i: nat, j: nat)
    requires i <= j <= |text|
    decreases r, 0, 0
  {
    match r
    case Lit(c) => j == i + 1 && text[i] == c
    case AnyChar => j == i + 1 && text[i] != '\n'
    case StartText => i == j == 0
    case EndText => i == j == |text|
    case Star(s) => MatchesMany(s, text, i, j)
    case Plus(s) => exists k {:trigger Cut(i, k, j)} :: Cut(i, k, j) && Matches(s, text, i, k) && MatchesMany(s, text, k, j)
    case Opt(s) => i == j || Matches(s, text, i, j)
    case Concat(parts) => MatchesAll(parts, text, i, j)
    case Alt(branches) => exists n :: 0 <= n < |branches| && Matches(branches[n], text, i, j)
  }

  ghost predicate MatchesMany(r: Regex, text: string, i: nat, j: nat)
    requires i <= j <= |text|
    decreases r, 1, j - i
  {
    i == j || exists k {:trigger Cut(i, k, j)} :: Cut(i, k, j) && i < k && Matches(r, text, i, k) && MatchesMany(r, text, k, j)
  }

  ghost predicate MatchesAll(parts: seq<Regex>, text: string, i: nat, j: nat)
    requires i <= j <= |text|
    decreases parts, 2, |parts|
  {
    if parts == [] then i == j
    else exists k {:trigger Cut(i, k, j)} :: Cut(i, k, j) && Matches(parts[0], text, i, k) && MatchesAll(parts[1..], text, k, j)
  }

  /** `Regex::is_match`: somewhere in the text. */
  ghost predicate IsMatch(r: Regex, text: string) {
    exists i: nat, j: nat :: i <= j <= |text| && Matches(r, text, i, j)
  }

  /** A sequence is its parts one after the other, wherever it is cut. */
  lemma {:induction false} MatchesInTurn(a: seq<Regex>, b: seq<Regex>, text: string, i: nat, j: nat)
    requires i <= j <= |text|
    ensures MatchesAll(a + b, text, i, j) <==>
            exists k: nat :: i <= k <= j && MatchesAll(a, text, i, k) && MatchesAll(b, text, k, j)
    decreases |a|
  {
    if a == [] {
      assert a + b == b;
      assert MatchesAll(a, text, i, i);
    } else {
      var all := a + b;
      assert all[0] == a[0] && all[1..] == a[1..] + b;
      if MatchesAll(all, text, i, j) {
        var m: nat :| Cut(i, m, j) && Matches(all[0], text, i, m) && MatchesAll(all[1..], text, m, j);
        MatchesInTurn(a[1..], b, text, m, j);
        var k: nat :| m <= k <= j && MatchesAll(a[1..], text, m, k) && MatchesAll(b, text, k, j);
        assert Cut(i, m, k) && MatchesAll(a[1..], text, m, k);
        assert MatchesAll(a, text, i, k);
      }
      if k: nat :| i <= k <= j && MatchesAll(a, text, i, k) && MatchesAll(b, text, k, j) {
        var m: nat :| Cut(i, m, k) && Matches(a[0], text, i, m) && MatchesAll(a[1..], text, m, k);
        MatchesInTurn(a[1..], b, text, m, j);
        assert MatchesAll(a[1..], text, m, k) && MatchesAll(b, text, k, j);
        assert MatchesAll(a[1..] + b, text, m, j);
        assert Cut(i, m, j) && MatchesAll(all[1..], text, m, j);
        assert MatchesAll(all, text, i, j);
      }
    }
  }

  // ---------------------------------------------------------------------------
  // Syntax: a recursive-descent reader; classes, counts and flags are outside the fragment
  // ---------------------------------------------------------------------------

  const ESCAPABLE := "\\.+*?()|[]{}^$#&-~"

  function ReadAtom(s: string): (r: Read<Regex>)
    requires s != ""
    ensures r.Done? ==> |r.rest| < |s|
    decreases |s|, 0
  {
    var c := s[0];
    if c == '\\' then
      if |s| > 1 && s[1] in ESCAPABLE then Done(Lit(s[1]), s[2..]) else Fail
    else if c == '.' then Done(AnyChar, s[1..])
    else if c == '^' then Done(StartText, s[1..])
    else if c == '$' then Done(EndText, s[1..])
    else if c == '(' then
      if |s| > 1 && s[1] == '?' then Fail
      else
        var inner := ReadAlternation(s[1..], []);
        if inner.Done? && inner.rest != "" && inner.rest[0] == ')' then Done(inner.value, inner.rest[1..]) else Fail
    else if c in "[{*+?)|" then Fail
    else Done(Lit(c), s[1..])
  }

  /** Repetition marks after an atom. */
  function ReadPostfix(r: Regex, s: string): (out: Read<Regex>)
    ensures out.Done? ==> |out.rest| <= |s|
    decreases |s|
  {
    if s == "" then Done(r, s)
    else if s[0] == '*' then ReadPostfix(Star(r), s[1..])
    else if s[0] == '+' then ReadPostfix(Plus(r), s[1..])
    else if s[0] == '?' then ReadPostfix(Opt(r), s[1..])
    else if s[0] == '{' then Fail
    else Done(r, s)
  }

  /** One branch, up to `|`, `)` or the end. */
  function ReadBranch(s: string, acc: seq<Regex>): (r: Read<Regex>)
    ensures r.Done? ==> |r.rest| <= |s|
    decreases |s|, 1
  {
    if s == "" || s[0] == '|' || s[0] == ')' then Done(Concat(acc), s)
    else
      var atom := ReadAtom(s);
      if atom.Fail? then Fail
      else
        var whole := ReadPostfix(atom.value, atom.rest);
        if whole.Fail? then Fail else ReadBranch(whole.rest, acc + [whole.value])
  }

  function ReadAlternation(s: string, acc: seq<Regex>): (r: Read<Regex>)
    ensures r.Done? ==> |r.rest| <= |s|
    decreases |s|, 2
  {
    var branch := ReadBranch(s, []);
    if branch.Fail? then Fail
    else if branch.rest != "" && branch.rest[0] == '|' then
      ReadAlternation(branch.rest[1..], acc + [branch.value])
    else Done(Alt(acc + [branch.value]), branch.rest)
  }

  /** `Regex::new(pattern)`. */
  function Compile(pattern: string): Option<Regex> {
    var r := ReadAlternation(pattern, []);
    if r.Done? && r.rest == "" then Some(r.value) else None
  }

  // ---------------------------------------------------------------------------
  // Literals
  // ---------------------------------------------------------------------------

  function Literal(v: string): seq<Regex> {
    seq(|v|, i requires 0 <= i < |v| => Lit(v[i]))
  }

  /** A run of literals matches exactly the slice it spells. */
  lemma {:induction false} LiteralMatches(v: string, text: string, i: nat, j: nat)
    requires i <= j <= |text|
    ensures MatchesAll(Literal(v), text, i, j) <==> text[i..j] == v
    decreases |v|
  {
    if v == "" {
    } else {
      var parts := Literal(v);
      assert parts[0] == Lit(v[0]) && parts[1..] == Literal(v[1..]);
      if i < j {
        LiteralMatches(v[1..], text, i + 1, j);
        if text[i..j] == v {
          assert text[i] == text[i..j][0] == v[0];
          assert text[i + 1..j] == text[i..j][1..] == v[1..];
          assert Cut(i, i + 1, j) && Matches(parts[0], text, i, i + 1) && MatchesAll(parts[1..], text, i + 1, j);
        }
        if MatchesAll(parts, text, i, j) {
          var k :| Cut(i, k, j) && Matches(parts[0], text, i, k) && MatchesAll(parts[1..], text, k, j);
          assert k == i + 1;
          assert text[i..j] == [text[i]] + text[i + 1..j];
          assert v == [v[0]] + v[1..];
        }
      }
    }
  }

  predicate OccursAt(text: string, v: string, i: int) {
    0 <= i <= |text| - |v| && text[i..i + |v|] == v
  }

  /** `text.contains(v)`. */
  predicate Contains(text: string, v: string) {
    exists i | 0 <= i <= |text| :: OccursAt(text, v, i)
  }

  /** An alternation of literals matches a text exactly when the text contains one of them. */
  lemma LiteralAlternation(values: seq<string>, text: string)
    ensures IsMatch(Alt(LiteralBranches(values)), text) <==> exists n :: 0 <= n < |values| && Contains(text, values[n])
  {
    var r := Alt(LiteralBranches(values));
    if IsMatch(r, text) {
      var i: nat, j: nat :| i <= j <= |text| && Matches(r, text, i, j);
      var n :| 0 <= n < |values| && Matches(LiteralBranches(values)[n], text, i, j);
      LiteralMatches(values[n], text, i, j);
      assert OccursAt(text, values[n], i);
    }
    if n :| 0 <= n < |values| && Contains(text, values[n]) {
      var i :| 0 <= i <= |text| && OccursAt(text, values[n], i);
      var j := i + |values[n]|;
      LiteralMatches(values[n], text, i, j);
      assert Matches(LiteralBranches(values)[n], text, i, j);
      assert Matches(r, text, i, j);
    }
  }

  function LiteralBranches(values: seq<string>): seq<Regex> {
    seq(|values|, n requires 0 <= n < |values| => Concat(Literal(values[n])))
  }
}
