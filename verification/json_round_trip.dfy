/** Reading back what was printed, for every value and whatever text follows it. */
module JsonRoundTrip {
  import opened Text
  import opened Json

  /** One escaped character reads back, and hands the reader the rest of the body. */
  lemma ReadEscapedChar(c: char, rest: string)
    requires ReadChars(rest).Done?
    ensures ReadChars(EscapeChar(c) + rest) == Done([c] + ReadChars(rest).value, ReadChars(rest).rest)
  {
    hide ReadEscape, HexDigit, EscapeChar;
    EscapeCharStart(c);
    var t := EscapeChar(c) + rest;
    if EscapeChar(c)[0] == '\\' {
      ReadEscapeOf(c, rest);
    } else {
      assert t[1..] == rest;
    }
  }

  lemma EscapeCharStart(c: char)
    ensures EscapeChar(c) != ""
    ensures EscapeChar(c)[0] == '\\' || (EscapeChar(c) == [c] && c >= ' ' && c != '\"')
  {
    hide HexDigit;
  }

  lemma ReadEscapeOf(c: char, rest: string)
    requires EscapeChar(c)[0] == '\\'
    ensures ReadEscape((EscapeChar(c) + rest)[1..]) == Done(c, rest)
  {
    hide ReadHex4, HexDigit;
    var u := (EscapeChar(c) + rest)[1..];
    if u[0] == 'u' {
      ReadControlEscape(c, rest);
      assert u[1..] == ['0', '0', HexDigit(c as int / 16), HexDigit(c as int % 16)] + rest;
    } else {
      ShortEscape(c);
      assert u == [EscapeChar(c)[1]] + rest;
      assert u[1..] == rest;
    }
  }

  /** The two-character escapes. */
  lemma ShortEscape(c: char)
    requires |EscapeChar(c)| > 1 && EscapeChar(c)[1] != 'u'
    ensures |EscapeChar(c)| == 2 && EscapeChar(c)[0] == '\\'
  {
    hide HexDigit;
  }

  lemma ReadControlEscape(c: char, rest: string)
    requires c < ' '
    ensures ReadHex4(['0', '0', HexDigit(c as int / 16), HexDigit(c as int % 16)] + rest) == Done(c as int, rest)
  {
    var h := ['0', '0', HexDigit(c as int / 16), HexDigit(c as int % 16)] + rest;
    assert HexValue(h[2]) == Some(c as int / 16) && HexValue(h[3]) == Some(c as int % 16);
    assert h[4..] == rest;
  }

  lemma ReadClosingQuote(rest: string)
    ensures ReadChars("\"" + rest) == Done("", rest)
  {
    assert ("\"" + rest)[1..] == rest;
  }

  lemma {:induction false} ReadEscaped(s: string, rest: string)
    ensures ReadChars(Escape(s) + ("\"" + rest)) == Done(s, rest)
  {
    var q := "\"" + rest;
    if s == "" {
      ReadClosingQuote(rest);
      assert Escape(s) + q == q;
    } else {
      Assoc(EscapeChar(s[0]), Escape(s[1..]), q);
      ReadEscaped(s[1..], rest);
      ReadEscapedChar(s[0], Escape(s[1..]) + q);
      assert [s[0]] + s[1..] == s;
    }
  }

  /** A printed string, as any reader of strings meets it. */
  lemma ReadPrintedString(s: string, rest: string)
    ensures (PrintString(s) + rest) != "" && (PrintString(s) + rest)[0] == '\"'
    ensures ReadChars((PrintString(s) + rest)[1..]) == Done(s, rest)
  {
    hide ReadChars, Escape;
    ReadEscaped(s, rest);
    assert (PrintString(s) + rest)[1..] == Escape(s) + ("\"" + rest);
  }

  lemma {:induction false} NumberRunOf(t: string, rest: string)
    requires forall i | 0 <= i < |t| :: IsNumberChar(t[i])
    requires rest == "" || !IsNumberChar(rest[0])
    ensures NumberRun(t + rest) == |t|
  {
    if t == "" {
      assert t + rest == rest;
    } else {
      NumberRunOf(t[1..], rest);
      assert (t + rest)[1..] == t[1..] + rest;
    }
  }

  lemma ReadPrintedNumber(t: string, rest: string)
    requires IsNumber(t)
    requires rest == "" || !IsNumberChar(rest[0])
    ensures ReadValue(t + rest) == Done(Number(t), rest)
  {
    hide IsNumber, ReadChars, ReadArray, ReadObject, NumberRun;
    NumberChars(t);
    NumberRunOf(t, rest);
    assert (t + rest)[..|t|] == t && (t + rest)[|t|..] == rest;
    assert SkipSpace(t + rest) == t + rest;
  }

  /** The first character of a printed value is never blank. */
  lemma PrintedStart(v: Json)
    requires Valid(v)
    ensures Print(v) != "" && !IsJsonSpace(Print(v)[0]) && Print(v)[0] !in "]},:"
  {
    if v.Number? {
      NumberChars(v.token);
    }
  }

  lemma Bracketed(open: char, body: string, close: char, rest: string)
    ensures ([open] + body + [close] + rest)[0] == open
    ensures ([open] + body + [close] + rest)[1..] == body + ([close] + rest)
  {
  }

  /** A printed value ends where the reader stops: nothing more, nothing less. */
  lemma {:induction false} ReadPrinted(v: Json, rest: string)
    requires Valid(v)
    requires v.Number? ==> rest == "" || !IsNumberChar(rest[0])
    ensures ReadValue(Print(v) + rest) == Done(v, rest)
    decreases v, 1
  {
    hide ReadChars, ReadArray, ReadObject, ReadNumber, IsNumber, PrintItems, PrintMembers, PrintString;
    PrintedStart(v);
    var t := Print(v) + rest;
    assert SkipSpace(t) == t;
    match v
    case Null => assert t[4..] == rest && t[..4] == "null";
    case Bool(b) =>
      var n := if b then 4 else 5;
      assert t[n..] == rest && t[..n] == Print(v);
    case Number(tok) => ReadPrintedNumber(tok, rest);
    case String(s) => ReadPrintedString(s, rest);
    case Array(items) =>
      ReadPrintedArray(items, rest);
      Bracketed('[', PrintItems(items), ']', rest);
    case Object(ms) =>
      ReadPrintedObject(ms, rest);
      Bracketed('{', PrintMembers(ms), '}', rest);
  }

  /** What `ReadValue` does once it has seen `[`. */
  lemma {:induction false} ReadPrintedArray(items: seq<Json>, rest: string)
    requires forall i | 0 <= i < |items| :: Valid(items[i])
    ensures
      var u := PrintItems(items) + ("]" + rest);
      && SkipSpace(u) == u
      && ReadArray(u) == Done(Array(items), rest)
    decreases items, 1
  {
    var u := PrintItems(items) + ("]" + rest);
    if |items| == 0 {
      assert u == "]" + rest;
    } else {
      PrintedStart(items[0]);
      assert u[0] == Print(items[0])[0];
      ReadPrintedItems(items, [], rest);
      assert [] + items == items;
    }
  }

  /** What `ReadValue` does once it has seen `{`. */
  lemma {:induction false} ReadPrintedObject(ms: seq<Member>, rest: string)
    requires DistinctKeys(ms) && forall i | 0 <= i < |ms| :: Valid(ms[i].value)
    ensures
      var u := PrintMembers(ms) + ("}" + rest);
      && SkipSpace(u) == u
      && ReadObject(u) == Done(Object(ms), rest)
    decreases ms, 1
  {
    var u := PrintMembers(ms) + ("}" + rest);
    if |ms| == 0 {
      assert u == "}" + rest;
    } else {
      assert u[0] == PrintMember(ms[0])[0] == '\"';
      assert [] + ms == ms;
      ReadPrintedMembers(ms, [], rest);
    }
  }

  lemma {:induction false} ReadPrintedItems(items: seq<Json>, acc: seq<Json>, rest: string)
    requires |items| > 0 && forall i | 0 <= i < |items| :: Valid(items[i])
    ensures ReadItems(PrintItems(items) + ("]" + rest), acc) == Done(Array(acc + items), rest)
    decreases items, 0
  {
    hide ReadValue, Print, Valid;
    var s := PrintItems(items) + ("]" + rest);
    if |items| == 1 {
      ReadPrinted(items[0], "]" + rest);
      assert ("]" + rest)[1..] == rest;
      assert items == [items[0]];
    } else {
      var more := PrintItems(items[1..]) + ("]" + rest);
      assert s == Print(items[0]) + ("," + more);
      ReadPrinted(items[0], "," + more);
      assert ("," + more)[1..] == more;
      ReadPrintedItems(items[1..], acc + [items[0]], rest);
      assert acc + [items[0]] + items[1..] == acc + items;
    }
  }

  lemma PrintedMembersStep(ms: seq<Member>, end: string)
    requires |ms| > 0
    ensures PrintMembers(ms) + end
         == PrintMember(ms[0]) + (if |ms| == 1 then end else "," + (PrintMembers(ms[1..]) + end))
  {
    if |ms| > 1 {
      Assoc(PrintMember(ms[0]) + ",", PrintMembers(ms[1..]), end);
      Assoc(PrintMember(ms[0]), ",", PrintMembers(ms[1..]) + end);
    }
  }

  lemma MemberText(m: Member, after: string)
    ensures PrintMember(m) + after == PrintString(m.key) + (":" + (Print(m.value) + after))
  {
    Assoc(PrintString(m.key) + ":", Print(m.value), after);
    Assoc(PrintString(m.key), ":", Print(m.value) + after);
  }

  /** One turn of the member loop. */
  lemma ReadMemberStep(m: Member, after: string, acc: seq<Member>)
    requires after != "" && (after[0] == ',' || after[0] == '}')
    requires ReadValue(Print(m.value) + after) == Done(m.value, after)
    ensures ReadMembers(PrintMember(m) + after, acc)
         == if after[0] == ',' then ReadMembers(after[1..], Insert(acc, m.key, m.value))
            else Done(Object(Insert(acc, m.key, m.value)), after[1..])
  {
    hide ReadValue, Print, PrintMember, PrintString, ReadChars, Insert;
    var colon := ":" + (Print(m.value) + after);
    MemberText(m, after);
    ReadPrintedString(m.key, colon);
    assert colon[1..] == Print(m.value) + after;
    assert SkipSpace(after) == after && SkipSpace(colon) == colon;
  }

  lemma {:induction false} ReadPrintedMembers(ms: seq<Member>, acc: seq<Member>, rest: string)
    requires |ms| > 0 && forall i | 0 <= i < |ms| :: Valid(ms[i].value)
    requires DistinctKeys(acc + ms)
    ensures ReadMembers(PrintMembers(ms) + ("}" + rest), acc) == Done(Object(acc + ms), rest)
    decreases ms, 0
  {
    hide ReadValue, ReadMembers, Print, PrintMember, Valid, Insert;
    var m := ms[0];
    var after := if |ms| == 1 then "}" + rest else "," + (PrintMembers(ms[1..]) + ("}" + rest));
    assert ReadMembers(PrintMembers(ms) + ("}" + rest), acc)
        == if after[0] == ',' then ReadMembers(after[1..], acc + [m]) else Done(Object(acc + [m]), after[1..])
    by {
      ReadPrinted(m.value, after);
      PrintedMembersStep(ms, "}" + rest);
      ReadMemberStep(m, after, acc);
      InsertFresh(acc, ms);
    }
    if |ms| == 1 {
      assert after[1..] == rest;
      assert ms == [m];
    } else {
      assert after[1..] == PrintMembers(ms[1..]) + ("}" + rest);
      Assoc(acc, [m], ms[1..]);
      assert [m] + ms[1..] == ms;
      ReadPrintedMembers(ms[1..], acc + [m], rest);
    }
  }

  lemma InsertFresh(acc: seq<Member>, ms: seq<Member>)
    requires |ms| > 0 && DistinctKeys(acc + ms)
    ensures Insert(acc, ms[0].key, ms[0].value) == acc + [ms[0]]
  {
    assert (acc + ms)[|acc|] == ms[0];
    assert forall i | 0 <= i < |acc| :: (acc + ms)[i] == acc[i];
  }

  /** `from_str(&v.to_string())` is `v`. */
  lemma ParsePrinted(v: Json)
    requires Valid(v)
    ensures Parse(Print(v)) == Some(v)
  {
    ReadPrinted(v, "");
    assert Print(v) + "" == Print(v);
  }
}
