/** The importer's `contains-any` and `contains-all`: promptfoo assertions as domarinn ones. */
module Importer {
  import opened Text
  import opened Json
  import opened Regexes

  const META := "\\.+*?()|[]{}^$"

  function EscapeOne(c: char): string {
    if c in META then ['\\', c] else [c]
  }

  function Escaped(s: string): string {
    FlatMap(EscapeOne, s)
  }

  method RegexEscape(s: string) returns (out: string)
    ensures out == Escaped(s)
  {
    out := "";
    for i := 0 to |s|
      invariant out == Escaped(s[..i])
    {
      FlatMapSnoc(EscapeOne, s, i);
      ghost var before := out;
      if s[i] in META {
        out := out + "\\";
      }
      out := out + [s[i]];
      assert out == before + EscapeOne(s[i]);
    }
    assert s[..|s|] == s;
  }

  function EscapedAll(values: seq<string>): seq<string> {
    seq(|values|, i requires 0 <= i < |values| => Escaped(values[i]))
  }

  function Pattern(values: seq<string>): string {
    Join(EscapedAll(values), "|")
  }

  // ---------------------------------------------------------------------------
  // The pattern reads back as the alternation of exactly those literals
  // ---------------------------------------------------------------------------

  /** What may follow an escaped literal: another one, a bar, or the end. */
  predicate Follows(rest: string) {
    rest == "" || rest[0] !in "*+?{"
  }

  lemma ReadEscapedChar(c: char, rest: string)
    requires Follows(rest)
    ensures var s := EscapeOne(c) + rest;
            && s[0] !in "|)"
            && ReadAtom(s) == Done(Lit(c), rest)
            && ReadPostfix(Lit(c), rest) == Done(Lit(c), rest)
  {
    var s := EscapeOne(c) + rest;
    if c in META {
      assert s[2..] == rest;
      MetaEscapable(c);
    } else {
      assert s[1..] == rest;
      NotMeta(c);
    }
  }

  lemma MetaEscapable(c: char)
    requires c in META
    ensures c in ESCAPABLE
  {
  }

  lemma NotMeta(c: char)
    requires c !in META
    ensures c !in "\\.^$([{*+?)|"
  {
    var stop := "\\.^$([{*+?)|";
    forall i | 0 <= i < |stop| ensures stop[i] in META {
      assert META[0] == '\\' && META[1] == '.' && META[2] == '+' && META[3] == '*' && META[4] == '?' && META[5] == '(' &&
             META[6] == ')' && META[7] == '|' && META[8] == '[' && META[9] == ']' && META[10] == '{' &&
             META[11] == '}' && META[12] == '^' && META[13] == '$';
    }
  }

  lemma EscapedFollows(v: string, rest: string)
    requires Follows(rest)
    ensures Follows(Escaped(v) + rest)
  {
    if v != "" {
      assert (Escaped(v) + rest)[0] == EscapeOne(v[0])[0];
      if v[0] !in META {
        NotMeta(v[0]);
      }
    }
  }

  lemma {:induction false} ReadEscapedBranch(v: string, rest: string, acc: seq<Regex>)
    requires rest == "" || rest[0] == '|'
    ensures ReadBranch(Escaped(v) + rest, acc) == Done(Concat(acc + Literal(v)), rest)
    decreases |v|
  {
    if v == "" {
      assert Escaped(v) + rest == rest;
      assert acc + Literal(v) == acc;
    } else {
      var more := Escaped(v[1..]) + rest;
      EscapedFollows(v[1..], rest);
      Assoc(EscapeOne(v[0]), Escaped(v[1..]), rest);
      ReadEscapedChar(v[0], more);
      ReadEscapedBranch(v[1..], rest, acc + [Lit(v[0])]);
      assert acc + [Lit(v[0])] + Literal(v[1..]) == acc + Literal(v);
    }
  }

  lemma {:induction false} ReadPattern(values: seq<string>, acc: seq<Regex>)
    requires values != []
    ensures ReadAlternation(Pattern(values), acc) == Done(Alt(acc + LiteralBranches(values)), "")
    decreases |values|
  {
    hide ReadBranch, Literal, Escaped;
    var first := values[0];
    assert [] + Literal(first) == Literal(first);
    if |values| == 1 {
      ReadEscapedBranch(first, "", []);
      assert Escaped(first) + "" == Escaped(first);
      assert acc + [Concat(Literal(first))] == acc + LiteralBranches(values);
    } else {
      var rest := "|" + Pattern(values[1..]);
      assert EscapedAll(values)[1..] == EscapedAll(values[1..]);
      Assoc(Escaped(first), "|", Pattern(values[1..]));
      ReadEscapedBranch(first, rest, []);
      assert rest[1..] == Pattern(values[1..]);
      ReadPattern(values[1..], acc + [Concat(Literal(first))]);
      assert acc + [Concat(Literal(first))] + LiteralBranches(values[1..]) == acc + LiteralBranches(values);
    }
  }

  /** Metacharacters, empty values and all: the joined pattern is those literals and nothing else. */
  lemma PatternCompiles(values: seq<string>)
    requires values != []
    ensures Compile(Pattern(values)) == Some(Alt(LiteralBranches(values)))
  {
    ReadPattern(values, []);
    assert [] + LiteralBranches(values) == LiteralBranches(values);
  }

  ghost predicate ContainsSome(text: string, values: seq<string>) {
    exists n :: 0 <= n < |values| && Contains(text, values[n])
  }

  ghost predicate PatternMatches(values: seq<string>, text: string) {
    Compile(Pattern(values)).Some? && IsMatch(Compile(Pattern(values)).value, text)
  }

  lemma EmptyPatternMatchesAll(text: string)
    ensures PatternMatches([], text)
  {
    assert ReadBranch("", []) == Done(Concat([]), "");
    assert [] + [Concat([])] == [Concat([])];
    assert Compile("") == Some(Alt([Concat([])]));
    var r := Alt([Concat([])]);
    assert Matches(Concat([]), text, 0, 0);
    assert Matches(r.branches[0], text, 0, 0);
    assert Matches(r, text, 0, 0);
  }

  /**
   * The regex assertion means "contains at least one of the values" exactly when there is a
   * value: the pattern of an empty list is empty and matches every text.
   */
  lemma ContainsAnyKeepsItsMeaning(values: seq<string>, text: string)
    ensures (PatternMatches(values, text) <==> ContainsSome(text, values)) <==> values != []
  {
    if values != [] {
      PatternCompiles(values);
      LiteralAlternation(values, text);
    } else {
      EmptyPatternMatchesAll(text);
    }
  }

  // ---------------------------------------------------------------------------
  // `string_list` and the two arms of `convert_base`
  // ---------------------------------------------------------------------------

  function ItemStrings(items: seq<Json>): Option<seq<string>> {
    if items == [] then Some([])
    else
      var rest := ItemStrings(items[1..]);
      if rest.None? then None
      else if items[0].String? then Some([items[0].s] + rest.value)
      else if items[0].Number? then Some([items[0].token] + rest.value)
      else None
  }

  /** `s.split(',')`. */
  function SplitCommas(s: string): (r: seq<string>)
    ensures r != []
  {
    if s == "" then [""]
    else if s[0] == ',' then [""] + SplitCommas(s[1..])
    else
      var r := SplitCommas(s[1..]);
      [[s[0]] + r[0]] + r[1..]
  }

  function StringList(v: Option<Json>): Option<seq<string>> {
    if v.None? then None
    else
      match v.value
      case Array(items) => ItemStrings(items)
      case String(s) => var parts := SplitCommas(s); Some(seq(|parts|, i requires 0 <= i < |parts| => Trim(parts[i])))
      case _ => None
  }

  /** The pieces joined by commas are the text again, and no piece holds a comma. */
  lemma {:induction false} SplitCommasInverse(s: string)
    ensures Join(SplitCommas(s), ",") == s
    ensures forall i | 0 <= i < |SplitCommas(s)| :: ',' !in SplitCommas(s)[i]
  {
    if s == "" {
    } else {
      SplitCommasInverse(s[1..]);
      var r := SplitCommas(s[1..]);
      if s[0] == ',' {
        assert ([""] + r)[1..] == r;
        assert Join([""] + r, ",") == "" + "," + Join(r, ",");
      } else {
        var whole := [[s[0]] + r[0]] + r[1..];
        assert whole[1..] == r[1..];
        if |r| == 1 {
          assert Join(whole, ",") == [s[0]] + r[0];
        } else {
          Assoc([s[0]], r[0], ",");
          Assoc([s[0]], r[0] + ",", Join(r[1..], ","));
        }
      }
    }
  }

  /** Which list a `value` stands for: the texts of strings and numbers, or the trimmed pieces of a text. */
  ghost predicate Lists(v: Option<Json>, values: seq<string>) {
    && v.Some? && (v.value.Array? || v.value.String?)
    && (v.value.Array? ==>
          && |values| == |v.value.items|
          && forall i | 0 <= i < |values| :: v.value.items[i] == String(values[i]) || v.value.items[i] == Number(values[i]))
    && (v.value.String? ==>
          && |values| == |SplitCommas(v.value.s)|
          && forall i | 0 <= i < |values| :: IsTrimmed(values[i], SplitCommas(v.value.s)[i]))
  }

  /** `t` is the piece without the whitespace around it. */
  ghost predicate IsTrimmed(t: string, piece: string) {
    exists i, j :: 0 <= i <= j <= |piece| && t == piece[i..j] && AllWhitespace(piece[..i]) && AllWhitespace(piece[j..])
                   && (t != "" ==> !IsWhitespace(t[0]) && !IsWhitespace(t[|t| - 1]))
  }

  lemma TrimIsTrimmed(piece: string)
    ensures IsTrimmed(Trim(piece), piece)
  {
    hide Trim, AllWhitespace;
    var i, j := TrimCuts(piece);
    assert Trim(piece) == piece[i..j];
  }

  lemma {:induction false} ItemStringsAre(items: seq<Json>)
    ensures ItemStrings(items).None? <==> exists i :: 0 <= i < |items| && !items[i].String? && !items[i].Number?
    ensures ItemStrings(items).Some? ==> Lists(Some(Array(items)), ItemStrings(items).value)
  {
    if items == [] {
    } else {
      ItemStringsAre(items[1..]);
      assert forall i | 0 < i < |items| :: items[i] == items[1..][i - 1];
    }
  }

  /** There is no list exactly for what is neither a text nor an array of texts and numbers. */
  lemma StringListIs(v: Option<Json>)
    ensures StringList(v).Some? ==> Lists(v, StringList(v).value)
    ensures StringList(v).None? <==>
            || v.None? || !(v.value.Array? || v.value.String?)
            || (v.value.Array? && exists i :: 0 <= i < |v.value.items|
                                              && !v.value.items[i].String? && !v.value.items[i].Number?)
  {
    hide ItemStrings, SplitCommas, Trim, IsTrimmed;
    if v.Some? && v.value.Array? {
      ItemStringsAre(v.value.items);
    }
    if v.Some? && v.value.String? {
      var parts := SplitCommas(v.value.s);
      forall i | 0 <= i < |parts| ensures IsTrimmed(StringList(v).value[i], parts[i]) {
        TrimIsTrimmed(parts[i]);
      }
    }
  }

  datatype Kind = RegexKind | ContainsKind

  /** A weight as the configuration gives it: a number, or something else that is carried along. */
  datatype Weight = Numeric(value: real) | Other(json: Json)

  /** A domarinn assertion produced by the importer. */
  datatype Imported = Imported(negated: bool, kind: Kind, value: string, weight: Option<Weight>)

  datatype Promptfoo = Promptfoo(negated: bool, all: bool, value: Option<Json>, weight: Option<Weight>)

  /** The assertion is skipped, with a note, when this is `None`. */
  method ConvertAssert(a: Promptfoo) returns (out: Option<seq<Imported>>)
    ensures out.None? <==> StringList(a.value).None? || (a.all && a.negated)
    ensures out.Some? ==> Lists(a.value, StringList(a.value).value)
    ensures out.Some? && !a.all ==>
      out.value == [Imported(a.negated, RegexKind, Pattern(StringList(a.value).value), a.weight)]
    ensures out.Some? && a.all ==> out.value == SplitAll(StringList(a.value).value, a.weight)
  {
    if a.all && a.negated {
      return None;
    }
    hide Lists;
    StringListIs(a.value);
    var values := StringList(a.value);
    if values.None? {
      return None;
    }
    if a.all {
      return Some(SplitAll(values.value, a.weight));
    }
    var escaped: seq<string> := [];
    for i := 0 to |values.value|
      invariant escaped == EscapedAll(values.value)[..i]
    {
      var e := RegexEscape(values.value[i]);
      escaped := escaped + [e];
    }
    assert escaped == EscapedAll(values.value);
    out := Some([Imported(a.negated, RegexKind, Join(escaped, "|"), a.weight)]);
  }

  /** One `contains` per value, a numeric weight shared among them. */
  function SplitAll(values: seq<string>, weight: Option<Weight>): seq<Imported> {
    var w := if weight.Some? && weight.value.Numeric? && |values| > 1
             then Some(Numeric(weight.value.value / (|values| as real)))
             else weight;
    seq(|values|, i requires 0 <= i < |values| => Imported(false, ContainsKind, values[i], w))
  }

  /** Whether an imported assertion passes on a text (the pattern it carries compiles). */
  ghost predicate Passes(m: Imported, text: string) {
    var raw := match m.kind
               case RegexKind => Compile(m.value).Some? && IsMatch(Compile(m.value).value, text)
               case ContainsKind => Contains(text, m.value);
    raw != m.negated
  }

  ghost predicate AllPass(ms: seq<Imported>, text: string) {
    forall i | 0 <= i < |ms| :: Passes(ms[i], text)
  }

  /** What promptfoo means by the assertion. */
  ghost predicate Meant(negated: bool, all: bool, values: seq<string>, text: string) {
    if all then forall n | 0 <= n < |values| :: Contains(text, values[n])
    else ContainsSome(text, values) != negated
  }

  /** Conversion preserves meaning for every list but the empty `contains-any`. */
  lemma ConversionPreservesMeaning(a: Promptfoo, values: seq<string>, text: string)
    requires StringList(a.value) == Some(values) && !(a.all && a.negated)
    ensures
      var out := if a.all then SplitAll(values, a.weight)
                 else [Imported(a.negated, RegexKind, Pattern(values), a.weight)];
      (AllPass(out, text) <==> Meant(a.negated, a.all, values, text)) <==> (a.all || values != [])
  {
    if a.all {
      var out := SplitAll(values, a.weight);
      assert forall n | 0 <= n < |values| :: Passes(out[n], text) <==> Contains(text, values[n]);
    } else {
      ContainsAnyKeepsItsMeaning(values, text);
      var m := Imported(a.negated, RegexKind, Pattern(values), a.weight);
      assert AllPass([m], text) <==> Passes([m][0], text);
    }
  }

  ghost function WeightOf(m: Imported): real {
    if m.weight.Some? && m.weight.value.Numeric? then m.weight.value.value else 0.0
  }

  ghost function TotalWeight(ms: seq<Imported>): real {
    if ms == [] then 0.0 else WeightOf(ms[0]) + TotalWeight(ms[1..])
  }

  lemma {:induction false} EqualWeights(ms: seq<Imported>, w: real)
    requires forall i | 0 <= i < |ms| :: WeightOf(ms[i]) == w
    ensures TotalWeight(ms) == (|ms| as real) * w
  {
    if ms == [] {
    } else {
      EqualWeights(ms[1..], w);
      assert (|ms| as real) == 1.0 + (|ms[1..]| as real);
    }
  }

  /** Splitting a `contains-all` neither creates nor loses weight, and carries along what is no number. */
  lemma SplitSharesTheWeight(values: seq<string>, weight: Option<Weight>)
    requires values != []
    ensures var ms := SplitAll(values, weight);
            if weight.Some? && weight.value.Numeric? then
              && TotalWeight(ms) == weight.value.value
              && forall i, j | 0 <= i < |ms| && 0 <= j < |ms| :: ms[i].weight == ms[j].weight
            else forall i | 0 <= i < |ms| :: ms[i].weight == weight
  {
    if weight.Some? && weight.value.Numeric? {
      var (ms, w) := (SplitAll(values, weight), weight.value.value);
      var n := |values| as real;
      EqualWeights(ms, if |values| > 1 then w / n else w);
      assert n * (w / n) == w;
    }
  }
}
