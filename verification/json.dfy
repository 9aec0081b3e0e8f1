/** JSON values as serde_json holds them, the compact printer, and an RFC 8259 reader. */
module Json {
  import opened Text

  datatype Member = Member(key: string, value: Json)

  /**
   * An object keeps its members in insertion order. A number is the literal that prints it.
   */
  datatype Json =
    | Null
    | Bool(b: bool)
    | Number(token: string)
    | String(s: string)
    | Array(items: seq<Json>)
    | Object(members: seq<Member>)

  predicate DistinctKeys(ms: seq<Member>) {
    forall i, j | 0 <= i < j < |ms| :: ms[i].key != ms[j].key
  }

  /** What every serde_json value satisfies: unique member names, grammatical numbers. */
  predicate Valid(v: Json) {
    match v
    case Number(t) => IsNumber(t)
    case Array(items) => forall i | 0 <= i < |items| :: Valid(items[i])
    case Object(ms) => DistinctKeys(ms) && forall i | 0 <= i < |ms| :: Valid(ms[i].value)
    case _ => true
  }

  /** Equality up to the order of object members, at every depth: serde_json's own `==`. */
  predicate Equiv(a: Json, b: Json) {
    match (a, b)
    case (Array(xs), Array(ys)) =>
      |xs| == |ys| && forall i | 0 <= i < |xs| :: Equiv(xs[i], ys[i])
    case (Object(ms), Object(ns)) =>
      |ms| == |ns| && forall i | 0 <= i < |ms| :: EquivIn(ms[i], ns)
    case _ => a == b
  }

  /** The object `ns` binds this member's key to an equivalent value. */
  predicate EquivIn(m: Member, ns: seq<Member>) {
    var r := Lookup(ns, m.key);
    r.Some? && Equiv(m.value, r.value)
  }

  /** `value.get(key)` on an object's members. */
  function Lookup(ms: seq<Member>, key: string): (r: Option<Json>)
    ensures r.None? <==> forall i | 0 <= i < |ms| :: ms[i].key != key
    ensures r.Some? ==> Member(key, r.value) in ms
  {
    if ms == [] then None
    else if ms[0].key == key then Some(ms[0].value)
    else Lookup(ms[1..], key)
  }

  lemma {:induction false} LookupAt(ms: seq<Member>, i: nat)
    requires DistinctKeys(ms) && i < |ms|
    ensures Lookup(ms, ms[i].key) == Some(ms[i].value)
  {
    if i == 0 {
    } else {
      LookupAt(ms[1..], i - 1);
    }
  }

  /** `Value::get`. */
  function Get(v: Json, key: string): Option<Json> {
    if v.Object? then Lookup(v.members, key) else None
  }

  /** `value.get(key).and_then(as_str)`. */
  function GetString(v: Json, key: string): Option<string> {
    var r := Get(v, key);
    if r.Some? && r.value.String? then Some(r.value.s) else None
  }

  /** `Map::insert`: a present key keeps its place and takes the new value. */
  function Insert(ms: seq<Member>, key: string, value: Json): (r: seq<Member>)
    ensures (forall i | 0 <= i < |ms| :: ms[i].key != key) ==> r == ms + [Member(key, value)]
  {
    if ms == [] then [Member(key, value)]
    else if ms[0].key == key then [Member(key, value)] + ms[1..]
    else [ms[0]] + Insert(ms[1..], key, value)
  }

  /** The key is bound to the value, at its old place if it had one, and every other member stays where it was. */
  lemma {:induction false} InsertKeepsPlaces(ms: seq<Member>, key: string, value: Json)
    ensures var r := Insert(ms, key, value);
            && Lookup(r, key) == Some(value)
            && |r| == |ms| + (if Lookup(ms, key).Some? then 0 else 1)
            && forall i | 0 <= i < |ms| :: r[i].key == ms[i].key && (ms[i].key != key ==> r[i] == ms[i])
  {
    if ms == [] {
    } else if ms[0].key == key {
    } else {
      InsertKeepsPlaces(ms[1..], key, value);
    }
  }

  // ---------------------------------------------------------------------------
  // Number literals (section 6 of RFC 8259)
  // ---------------------------------------------------------------------------

  predicate IsNumberChar(c: char) {
    IsDigit(c) || c == '-' || c == '+' || c == '.' || c == 'e' || c == 'E'
  }

  /** How many digits a text starts with. */
  function DigitRun(s: string): (n: nat)
    ensures n <= |s|
    ensures forall i | 0 <= i < n :: IsDigit(s[i])
    ensures n < |s| ==> !IsDigit(s[n])
  {
    if s == "" || !IsDigit(s[0]) then 0 else 1 + DigitRun(s[1..])
  }

  predicate IsExponent(s: string) {
    s == "" ||
    ((s[0] == 'e' || s[0] == 'E') &&
     var t := if |s| > 1 && (s[1] == '+' || s[1] == '-') then s[2..] else s[1..];
     t != "" && DigitRun(t) == |t|)
  }

  predicate IsFraction(s: string) {
    if s != "" && s[0] == '.' then
      var n := DigitRun(s[1..]);
      n > 0 && IsExponent(s[1 + n..])
    else
      IsExponent(s)
  }

  predicate IsUnsigned(s: string) {
    var n := DigitRun(s);
    n > 0 && (n > 1 ==> s[0] != '0') && IsFraction(s[n..])
  }

  predicate IsNumber(s: string) {
    if s != "" && s[0] == '-' then IsUnsigned(s[1..]) else IsUnsigned(s)
  }

  lemma ExponentChars(s: string)
    requires IsExponent(s)
    ensures forall i | 0 <= i < |s| :: IsNumberChar(s[i])
  {
    if s != "" {
      var k := if |s| > 1 && (s[1] == '+' || s[1] == '-') then 2 else 1;
      assert forall i | k <= i < |s| :: s[i] == s[k..][i - k];
    }
  }

  lemma FractionChars(s: string)
    requires IsFraction(s)
    ensures forall i | 0 <= i < |s| :: IsNumberChar(s[i])
  {
    if s != "" && s[0] == '.' {
      var n := DigitRun(s[1..]);
      ExponentChars(s[1 + n..]);
      assert forall i | 1 <= i < 1 + n :: s[i] == s[1..][i - 1];
      assert forall i | 1 + n <= i < |s| :: s[i] == s[1 + n..][i - 1 - n];
    } else {
      ExponentChars(s);
    }
  }

  lemma UnsignedChars(s: string)
    requires IsUnsigned(s)
    ensures s != "" && IsDigit(s[0])
    ensures forall i | 0 <= i < |s| :: IsNumberChar(s[i])
  {
    var n := DigitRun(s);
    FractionChars(s[n..]);
    assert forall i | n <= i < |s| :: s[i] == s[n..][i - n];
  }

  lemma NumberChars(s: string)
    requires IsNumber(s)
    ensures s != "" && (s[0] == '-' || IsDigit(s[0]))
    ensures forall i | 0 <= i < |s| :: IsNumberChar(s[i])
  {
    if s != "" && s[0] == '-' {
      UnsignedChars(s[1..]);
      assert forall i | 1 <= i < |s| :: s[i] == s[1..][i - 1];
    } else {
      UnsignedChars(s);
    }
  }

  lemma {:induction false} DigitRunAll(s: string)
    requires forall i | 0 <= i < |s| :: IsDigit(s[i])
    ensures DigitRun(s) == |s|
  {
    if s == "" {
    } else {
      DigitRunAll(s[1..]);
    }
  }

  lemma DecimalIsNumber(n: nat)
    ensures IsNumber(Decimal(n))
  {
    DecimalShape(n);
    DigitRunAll(Decimal(n));
  }

  // The grammar, part by part

  ghost predicate AllDigits(s: string) {
    forall i | 0 <= i < |s| :: '0' <= s[i] <= '9'
  }

  ghost predicate FractionPart(s: string) {
    s == "" || (|s| > 1 && s[0] == '.' && AllDigits(s[1..]))
  }

  ghost predicate ExponentPart(s: string) {
    || s == ""
    || (|s| > 1 && (s[0] == 'e' || s[0] == 'E')
        && (AllDigits(s[1..]) || (|s| > 2 && (s[1] == '+' || s[1] == '-') && AllDigits(s[2..]))))
  }

  /** `[ minus ] int [ frac ] [ exp ]`. */
  ghost predicate NumberParts(s: string, minus: string, whole: string, fraction: string, exponent: string) {
    && s == minus + (whole + (fraction + exponent)) && (minus == "" || minus == "-")
    && whole != "" && AllDigits(whole) && (|whole| > 1 ==> whole[0] != '0')
    && FractionPart(fraction) && ExponentPart(exponent)
  }

  lemma {:induction false} DigitRunIs(digits: string, rest: string)
    requires AllDigits(digits) && (rest == "" || !IsDigit(rest[0]))
    ensures DigitRun(digits + rest) == |digits|
  {
    if digits == "" {
      assert digits + rest == rest;
    } else {
      assert (digits + rest)[1..] == digits[1..] + rest;
      DigitRunIs(digits[1..], rest);
    }
  }

  lemma ExponentIs(s: string)
    ensures IsExponent(s) <==> ExponentPart(s)
  {
    if |s| > 1 && AllDigits(s[1..]) { DigitRunIs(s[1..], ""); assert s[1..] + "" == s[1..]; }
    if |s| > 2 && AllDigits(s[2..]) { DigitRunIs(s[2..], ""); assert s[2..] + "" == s[2..]; }
    if |s| > 1 { assert s[1] == s[1..][0]; }
  }

  lemma FractionIs(s: string)
    ensures IsFraction(s) ==>
            exists n | 0 <= n <= |s| :: FractionPart(s[..n]) && ExponentPart(s[n..])
    ensures forall n | 0 <= n <= |s| :: FractionPart(s[..n]) && ExponentPart(s[n..]) ==> IsFraction(s)
  {
    hide IsExponent, ExponentPart;
    if IsFraction(s) {
      var n := if s != "" && s[0] == '.' then 1 + DigitRun(s[1..]) else 0;
      ExponentIs(s[n..]);
      assert n > 0 ==> s[..n][1..] == s[1..][..n - 1];
      assert FractionPart(s[..n]) && s[0..] == s;
    }
    forall n | 0 <= n <= |s| && FractionPart(s[..n]) && ExponentPart(s[n..]) ensures IsFraction(s) {
      ExponentIs(s[n..]);
      ExponentStart(s[n..]);
      if n == 0 {
        assert s[0..] == s;
      } else {
        assert s[1..] == s[..n][1..] + s[n..];
        DigitRunIs(s[..n][1..], s[n..]);
      }
    }
  }

  lemma ExponentStart(s: string)
    requires ExponentPart(s)
    ensures s == "" || (!IsDigit(s[0]) && s[0] != '.')
  {
  }

  lemma UnsignedIs(s: string, whole: string, fraction: string, exponent: string)
    requires NumberParts(s, "", whole, fraction, exponent)
    ensures IsUnsigned(s)
  {
    hide IsFraction, ExponentPart, FractionPart;
    var tail := fraction + exponent;
    assert s == whole + tail;
    ExponentStart(exponent);
    FractionStart(fraction);
    DigitRunIs(whole, tail);
    assert s[|whole|..] == tail;
    assert tail[..|fraction|] == fraction && tail[|fraction|..] == exponent;
    FractionIs(tail);
  }

  lemma FractionStart(s: string)
    requires FractionPart(s)
    ensures s == "" || !IsDigit(s[0])
  {
  }

  lemma UnsignedHasParts(s: string) returns (whole: string, fraction: string, exponent: string)
    requires IsUnsigned(s)
    ensures NumberParts(s, "", whole, fraction, exponent)
  {
    hide IsFraction, ExponentPart, FractionPart;
    var n := DigitRun(s);
    whole := s[..n];
    FractionIs(s[n..]);
    var m :| 0 <= m <= |s[n..]| && FractionPart(s[n..][..m]) && ExponentPart(s[n..][m..]);
    fraction, exponent := s[n..][..m], s[n..][m..];
    assert fraction + exponent == s[n..];
    assert s == "" + (whole + (fraction + exponent));
  }

  lemma NumberHasParts(s: string) returns (minus: string, whole: string, fraction: string, exponent: string)
    requires IsNumber(s)
    ensures NumberParts(s, minus, whole, fraction, exponent)
  {
    hide IsUnsigned, ExponentPart, FractionPart, AllDigits;
    if s != "" && s[0] == '-' {
      minus := "-";
      whole, fraction, exponent := UnsignedHasParts(s[1..]);
      assert "" + (whole + (fraction + exponent)) == whole + (fraction + exponent);
      assert s == "-" + s[1..];
    } else {
      minus := "";
      whole, fraction, exponent := UnsignedHasParts(s);
    }
  }

  lemma PartsMakeANumber(s: string, minus: string, whole: string, fraction: string, exponent: string)
    requires NumberParts(s, minus, whole, fraction, exponent)
    ensures IsNumber(s)
  {
    hide IsUnsigned, ExponentPart, FractionPart;
    var rest := whole + (fraction + exponent);
    assert rest == "" + rest;
    UnsignedIs(rest, whole, fraction, exponent);
    assert rest[0] == whole[0];
    if minus == "-" {
      assert s[1..] == rest;
    } else {
      assert s == rest;
    }
  }

  /** A literal is a number exactly when the grammar of section 6 of RFC 8259 derives it. */
  lemma NumberIs(s: string)
    ensures IsNumber(s) <==> exists minus, whole, fraction, exponent :: NumberParts(s, minus, whole, fraction, exponent)
  {
    hide IsNumber, NumberParts;
    if IsNumber(s) {
      var minus, whole, fraction, exponent := NumberHasParts(s);
    }
    if minus, whole, fraction, exponent :| NumberParts(s, minus, whole, fraction, exponent) {
      PartsMakeANumber(s, minus, whole, fraction, exponent);
    }
  }

  // ---------------------------------------------------------------------------
  // Printing: `serde_json::to_string`, members in the order they are held
  // ---------------------------------------------------------------------------

  /** One lowercase hexadecimal digit, `char::from_digit(d, 16)`. */
  function HexDigit(d: nat): char
    requires d < 16
  {
    if d < 10 then (48 + d) as char else (87 + d) as char
  }

  function EscapeChar(c: char): string {
    if c == '\"' then "\\\""
    else if c == '\\' then "\\\\"
    else if c == '\U{0008}' then "\\b"
    else if c == '\U{000C}' then "\\f"
    else if c == '\n' then "\\n"
    else if c == '\r' then "\\r"
    else if c == '\t' then "\\t"
    else if c < ' ' then "\\u00" + [HexDigit(c as int / 16), HexDigit(c as int % 16)]
    else [c]
  }

  function Escape(s: string): string {
    if s == "" then "" else EscapeChar(s[0]) + Escape(s[1..])
  }

  function PrintString(s: string): string {
    "\"" + Escape(s) + "\""
  }

  function Print(v: Json): string
    decreases v, 1
  {
    match v
    case Null => "null"
    case Bool(b) => if b then "true" else "false"
    case Number(t) => t
    case String(s) => PrintString(s)
    case Array(items) => "[" + PrintItems(items) + "]"
    case Object(ms) => "{" + PrintMembers(ms) + "}"
  }

  function PrintItems(items: seq<Json>): string
    decreases items, 0
  {
    if |items| == 0 then ""
    else if |items| == 1 then Print(items[0])
    else Print(items[0]) + "," + PrintItems(items[1..])
  }

  function PrintMember(m: Member): string
    decreases m, 2
  {
    PrintString(m.key) + ":" + Print(m.value)
  }

  function PrintMembers(ms: seq<Member>): string
    decreases ms, 0
  {
    if |ms| == 0 then ""
    else if |ms| == 1 then PrintMember(ms[0])
    else PrintMember(ms[0]) + "," + PrintMembers(ms[1..])
  }

  // ---------------------------------------------------------------------------
  // Reading: `serde_json::from_str`
  // ---------------------------------------------------------------------------

  predicate IsJsonSpace(c: char) {
    c == ' ' || c == '\n' || c == '\r' || c == '\t'
  }

  /** Section 2 of RFC 8259 allows these four. */
  lemma JsonSpaces(c: char)
    ensures IsJsonSpace(c) <==> c as int in {0x09, 0x0A, 0x0D, 0x20}
  {
  }

  function SkipSpace(s: string): (r: string)
    ensures |r| <= |s|
    ensures r == "" || !IsJsonSpace(r[0])
  {
    if s != "" && IsJsonSpace(s[0]) then SkipSpace(s[1..]) else s
  }

  function HexValue(c: char): Option<nat> {
    if '0' <= c <= '9' then Some(c as int - 48)
    else if 'a' <= c <= 'f' then Some(c as int - 87)
    else if 'A' <= c <= 'F' then Some(c as int - 55)
    else None
  }

  /** Digit `n`, in either case. */
  lemma HexDigits(c: char, n: nat)
    ensures HexValue(c) == Some(n) <==> n < 16 && (c == "0123456789abcdef"[n] || c == "0123456789ABCDEF"[n])
  {
    if n < 16 {
      var (lower, upper) := ("0123456789abcdef", "0123456789ABCDEF");
      assert lower[n] == (if n < 10 then (48 + n) as char else (87 + n) as char);
      assert upper[n] == (if n < 10 then (48 + n) as char else (55 + n) as char);
    }
  }

  /** Four hexadecimal digits. */
  function ReadHex4(s: string): (r: Read<nat>)
    ensures r.Done? ==> |s| >= 4 && r.rest == s[4..] && r.value < 0x10000
  {
    if |s| < 4 then Fail
    else
      var (a, b, c, d) := (HexValue(s[0]), HexValue(s[1]), HexValue(s[2]), HexValue(s[3]));
      if a.Some? && b.Some? && c.Some? && d.Some? then
        Done(a.value * 4096 + b.value * 256 + c.value * 16 + d.value, s[4..])
      else Fail
  }

  /** What follows a backslash; surrogates must come in pairs. */
  function ReadEscape(s: string): (r: Read<char>)
    ensures r.Done? ==> |r.rest| < |s|
  {
    if s == "" then Fail
    else if s[0] == '\"' || s[0] == '\\' || s[0] == '/' then Done(s[0], s[1..])
    else if s[0] == 'b' then Done('\U{0008}', s[1..])
    else if s[0] == 'f' then Done('\U{000C}', s[1..])
    else if s[0] == 'n' then Done('\n', s[1..])
    else if s[0] == 'r' then Done('\r', s[1..])
    else if s[0] == 't' then Done('\t', s[1..])
    else if s[0] == 'u' then
      var hi := ReadHex4(s[1..]);
      if hi.Fail? then Fail
      else if 0xD800 <= hi.value < 0xDC00 then
        if |hi.rest| < 2 || hi.rest[0] != '\\' || hi.rest[1] != 'u' then Fail
        else
          var lo := ReadHex4(hi.rest[2..]);
          if lo.Fail? || !(0xDC00 <= lo.value < 0xE000) then Fail
          else Done((0x10000 + (hi.value - 0xD800) * 0x400 + (lo.value - 0xDC00)) as char, lo.rest)
      else if 0xDC00 <= hi.value < 0xE000 then Fail
      else Done(hi.value as char, hi.rest)
    else Fail
  }

  /** A string body, the opening quote already consumed. */
  function ReadChars(s: string): (r: Read<string>)
    ensures r.Done? ==> |r.rest| < |s|
    decreases |s|
  {
    if s == "" || s[0] < ' ' then Fail
    else if s[0] == '\"' then Done("", s[1..])
    else
      var c := if s[0] == '\\' then ReadEscape(s[1..]) else Done(s[0], s[1..]);
      if c.Fail? then Fail
      else
        var more := ReadChars(c.rest);
        if more.Fail? then Fail else Done([c.value] + more.value, more.rest)
  }

  /** The longest prefix made of number characters. */
  function NumberRun(s: string): (n: nat)
    ensures n <= |s|
    ensures forall i | 0 <= i < n :: IsNumberChar(s[i])
    ensures n < |s| ==> !IsNumberChar(s[n])
  {
    if s == "" || !IsNumberChar(s[0]) then 0 else 1 + NumberRun(s[1..])
  }

  function ReadNumber(s: string): (r: Read<Json>)
    ensures r.Done? ==> |r.rest| < |s|
  {
    var n := NumberRun(s);
    if IsNumber(s[..n]) then NumberChars(s[..n]); Done(Number(s[..n]), s[n..]) else Fail
  }

  function ReadValue(s: string): (r: Read<Json>)
    ensures r.Done? ==> |r.rest| < |s|
    decreases |s|, 1
  {
    var t := SkipSpace(s);
    if t == "" then Fail
    else if t[0] == 'n' then if "null" <= t then Done(Null, t[4..]) else Fail
    else if t[0] == 't' then if "true" <= t then Done(Bool(true), t[4..]) else Fail
    else if t[0] == 'f' then if "false" <= t then Done(Bool(false), t[5..]) else Fail
    else if t[0] == '\"' then
      var r := ReadChars(t[1..]);
      if r.Fail? then Fail else Done(String(r.value), r.rest)
    else if t[0] == '[' then
      ReadArray(SkipSpace(t[1..]))
    else if t[0] == '{' then
      ReadObject(SkipSpace(t[1..]))
    else ReadNumber(t)
  }

  function ReadArray(s: string): (r: Read<Json>)
    ensures r.Done? ==> |r.rest| < |s|
    decreases |s|, 3
  {
    if s != "" && s[0] == ']' then Done(Array([]), s[1..]) else ReadItems(s, [])
  }

  function ReadObject(s: string): (r: Read<Json>)
    ensures r.Done? ==> |r.rest| < |s|
    decreases |s|, 3
  {
    if s != "" && s[0] == '}' then Done(Object([]), s[1..]) else ReadMembers(s, [])
  }

  /** The rest of an array, at least one item to come. */
  function ReadItems(s: string, acc: seq<Json>): (r: Read<Json>)
    ensures r.Done? ==> |r.rest| < |s|
    decreases |s|, 2
  {
    var v := ReadValue(s);
    if v.Fail? then Fail
    else
      var t := SkipSpace(v.rest);
      if t == "" then Fail
      else if t[0] == ',' then ReadItems(t[1..], acc + [v.value])
      else if t[0] == ']' then Done(Array(acc + [v.value]), t[1..])
      else Fail
  }

  /** The rest of an object, at least one member to come. A repeated name overwrites. */
  function ReadMembers(s: string, acc: seq<Member>): (r: Read<Json>)
    ensures r.Done? ==> |r.rest| < |s|
    decreases |s|, 2
  {
    var t := SkipSpace(s);
    if t == "" || t[0] != '\"' then Fail
    else
      var k := ReadChars(t[1..]);
      if k.Fail? then Fail
      else
        var u := SkipSpace(k.rest);
        if u == "" || u[0] != ':' then Fail
        else
          var v := ReadValue(u[1..]);
          if v.Fail? then Fail
          else
            var w := SkipSpace(v.rest);
            var acc' := Insert(acc, k.value, v.value);
            if w == "" then Fail
            else if w[0] == ',' then ReadMembers(w[1..], acc')
            else if w[0] == '}' then Done(Object(acc'), w[1..])
            else Fail
  }

  /** `serde_json::from_str::<Value>(text)`. */
  function Parse(text: string): Option<Json> {
    var r := ReadValue(text);
    if r.Done? && SkipSpace(r.rest) == "" then Some(r.value) else None
  }
}
