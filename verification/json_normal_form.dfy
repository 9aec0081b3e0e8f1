/** Whatever the reader accepts is a valid value, and the printed text is a shortest one that reads as it. */
module JsonNormalForm {
  import opened Text
  import opened Json
  import opened JsonRoundTrip
  import opened Canonical

  // ---------------------------------------------------------------------------
  // Strings
  // ---------------------------------------------------------------------------

  lemma EscapeLengths(c: char)
    ensures 1 <= |EscapeChar(c)| <= 6
    ensures c >= ' ' && c != '\"' && c != '\\' ==> |EscapeChar(c)| == 1
    ensures c in "\"\\/\U{0008}\U{000C}\n\r\t" ==> |EscapeChar(c)| <= 2
  {
    hide HexDigit;
  }

  /** An escape is written in lowercase, and in long form for a control character only. */
  lemma EscapesAreLowercase(c: char)
    requires |EscapeChar(c)| > 2
    ensures c < ' ' && |EscapeChar(c)| == 6 && EscapeChar(c)[..4] == "\\u00"
    ensures forall i | 4 <= i < 6 :: '0' <= EscapeChar(c)[i] <= '9' || 'a' <= EscapeChar(c)[i] <= 'f'
  {
  }

  lemma ReadEscapeLength(s: string)
    requires ReadEscape(s).Done?
    ensures |EscapeChar(ReadEscape(s).value)| + |ReadEscape(s).rest| <= |s| + 1
  {
    hide EscapeChar, ReadHex4;
    EscapeLengths(ReadEscape(s).value);
    if s[0] != 'u' {
      assert ReadEscape(s).rest == s[1..];
      assert ReadEscape(s).value in "\"\\/\U{0008}\U{000C}\n\r\t" by { ShortEscapes(s); }
    }
  }

  lemma ShortEscapes(s: string)
    requires ReadEscape(s).Done? && s[0] != 'u'
    ensures ReadEscape(s).value in "\"\\/\U{0008}\U{000C}\n\r\t"
  {
    var all := "\"\\/\U{0008}\U{000C}\n\r\t";
    assert all[0] == '\"' && all[1] == '\\' && all[2] == '/' && all[3] == '\U{0008}' && all[4] == '\U{000C}';
    assert all[5] == '\n' && all[6] == '\r' && all[7] == '\t';
  }

  lemma {:induction false} ReadCharsLength(s: string)
    requires ReadChars(s).Done?
    ensures |Escape(ReadChars(s).value)| + 1 + |ReadChars(s).rest| <= |s|
    decreases |s|
  {
    hide EscapeChar, ReadEscape;
    if s[0] == '\"' {
    } else {
      var c := if s[0] == '\\' then ReadEscape(s[1..]) else Done(s[0], s[1..]);
      ReadCharsLength(c.rest);
      if s[0] == '\\' {
        ReadEscapeLength(s[1..]);
      } else {
        EscapeLengths(s[0]);
      }
      var more := ReadChars(c.rest).value;
      assert ([c.value] + more)[1..] == more;
      assert Escape([c.value] + more) == EscapeChar(c.value) + Escape(more);
    }
  }

  // ---------------------------------------------------------------------------
  // Objects: a repeated name overwrites, which never makes the text longer
  // ---------------------------------------------------------------------------

  lemma {:induction false} InsertValid(ms: seq<Member>, key: string, value: Json)
    requires Valid(Object(ms)) && Valid(value)
    ensures Valid(Object(Insert(ms, key, value)))
    ensures forall m | m in Insert(ms, key, value) :: m.key == key || exists i :: 0 <= i < |ms| && ms[i].key == m.key
  {
    hide IsNumber;
    if ms == [] {
    } else if ms[0].key == key {
      assert forall i | 0 < i < |ms| :: ms[i] == ms[1..][i - 1];
    } else {
      hide Insert;
      TailValid(ms);
      InsertValid(ms[1..], key, value);
      var rest := Insert(ms[1..], key, value);
      InsertPast(ms, key, value);
      forall j | 0 <= j < |rest| ensures rest[j].key != ms[0].key {
        assert rest[j] in rest;
      }
      ConsValid(ms[0], rest);
    }
  }

  lemma TailValid(ms: seq<Member>)
    requires ms != [] && Valid(Object(ms))
    ensures Valid(ms[0].value) && Valid(Object(ms[1..]))
    ensures forall i | 0 <= i < |ms[1..]| :: ms[1..][i].key != ms[0].key
  {
    hide IsNumber;
  }

  lemma ConsValid(m: Member, rest: seq<Member>)
    requires Valid(m.value) && Valid(Object(rest)) && forall j | 0 <= j < |rest| :: rest[j].key != m.key
    ensures Valid(Object([m] + rest))
  {
    hide IsNumber;
  }

  lemma InsertPast(ms: seq<Member>, key: string, value: Json)
    requires ms != [] && ms[0].key != key
    ensures Insert(ms, key, value) == [ms[0]] + Insert(ms[1..], key, value)
  {
  }

  lemma MembersLength(m: Member, rest: seq<Member>)
    ensures |PrintMembers([m] + rest)| == |PrintMember(m)| + if rest == [] then 0 else 1 + |PrintMembers(rest)|
  {
    hide PrintMember;
    assert ([m] + rest)[1..] == rest;
  }

  lemma {:induction false} InsertLength(ms: seq<Member>, key: string, value: Json)
    ensures |PrintMembers(Insert(ms, key, value))| <=
            |PrintMembers(ms)| + (if ms == [] then 0 else 1) + |PrintMember(Member(key, value))|
    ensures Insert(ms, key, value) != []
  {
    hide PrintMember, PrintMembers;
    var m := Member(key, value);
    MembersLength(m, []);
    assert [m] + [] == [m];
    if ms == [] {
      EmptyText();
    } else {
      MembersLength(ms[0], ms[1..]);
      assert [ms[0]] + ms[1..] == ms;
      if ms[0].key == key {
        MembersLength(m, ms[1..]);
      } else {
        InsertLength(ms[1..], key, value);
        MembersLength(ms[0], Insert(ms[1..], key, value));
        EmptyText();
      }
    }
  }

  lemma EmptyText()
    ensures PrintMembers([]) == "" && PrintItems([]) == ""
  {
  }

  lemma ItemsLength(items: seq<Json>, v: Json)
    ensures |PrintItems(items + [v])| == |PrintItems(items)| + (if items == [] then 0 else 1) + |Print(v)|
  {
    hide Print, PrintItems;
    var all := items + [v];
    PrintItemsSnoc(all, |items|);
    assert all[..|items| + 1] == all && all[..|items|] == items;
  }

  // ---------------------------------------------------------------------------
  // The reader
  // ---------------------------------------------------------------------------

  /** What was read is valid, and its own text fits in what was consumed. */
  ghost predicate Fits(r: Read<Json>, budget: int) {
    r.Done? ==> Valid(r.value) && |Print(r.value)| + |r.rest| <= budget
  }

  lemma NumberFits(s: string)
    ensures Fits(ReadNumber(s), |s|)
  {
    hide IsNumber;
  }

  lemma {:induction false} ReadValueFits(s: string)
    ensures Fits(ReadValue(s), |s|)
    decreases |s|, 1
  {
    hide ReadChars, ReadArray, ReadObject, ReadNumber, Escape, PrintItems, PrintMembers, IsNumber;
    var t := SkipSpace(s);
    if t != "" {
      if t[0] == '\"' {
        if ReadChars(t[1..]).Done? {
          ReadCharsLength(t[1..]);
        }
      } else if t[0] == '[' {
        ReadArrayFits(SkipSpace(t[1..]));
      } else if t[0] == '{' {
        ReadObjectFits(SkipSpace(t[1..]));
      } else if t[0] != 'n' && t[0] != 't' && t[0] != 'f' {
        NumberFits(t);
      }
    }
  }

  lemma {:induction false} ReadArrayFits(s: string)
    ensures Fits(ReadArray(s), |s| + 1)
    decreases |s|, 3
  {
    hide ReadItems, IsNumber;
    ReadItemsFits(s, []);
  }

  lemma {:induction false} ReadObjectFits(s: string)
    ensures Fits(ReadObject(s), |s| + 1)
    decreases |s|, 3
  {
    hide ReadMembers, IsNumber;
    ReadMembersFits(s, []);
  }

  /** The text of the items read so far, with the comma that must follow. */
  ghost function ItemsSpent(acc: seq<Json>): int {
    |PrintItems(acc)| + if acc == [] then 0 else 1
  }

  ghost function MembersSpent(acc: seq<Member>): int {
    |PrintMembers(acc)| + if acc == [] then 0 else 1
  }

  lemma ArrayText(items: seq<Json>)
    ensures |Print(Array(items))| == |PrintItems(items)| + 2
  {
    hide PrintItems;
  }

  lemma ObjectText(ms: seq<Member>)
    ensures |Print(Object(ms))| == |PrintMembers(ms)| + 2
  {
    hide PrintMembers;
  }

  lemma {:induction false} ReadItemsFits(s: string, acc: seq<Json>)
    requires Valid(Array(acc))
    ensures Fits(ReadItems(s, acc), |s| + 1 + ItemsSpent(acc))
    decreases |s|, 2
  {
    hide ReadValue, Print, PrintItems, IsNumber;
    ReadValueFits(s);
    var v := ReadValue(s);
    if v.Done? {
      var t := SkipSpace(v.rest);
      var more := acc + [v.value];
      ItemsLength(acc, v.value);
      if t != "" && t[0] == ',' {
        ReadItemsFits(t[1..], more);
      } else {
        ArrayText(more);
      }
    }
  }

  lemma MemberText(m: Member)
    ensures |PrintMember(m)| == |Escape(m.key)| + 3 + |Print(m.value)|
  {
    hide Print, Escape;
  }

  lemma {:induction false} ReadMembersFits(s: string, acc: seq<Member>)
    requires Valid(Object(acc))
    ensures Fits(ReadMembers(s, acc), |s| + 1 + MembersSpent(acc))
    decreases |s|, 2
  {
    hide ReadValue, ReadChars, Print, PrintMembers, PrintMember, Insert, Escape, Valid;
    var t := SkipSpace(s);
    if t != "" && t[0] == '\"' && ReadChars(t[1..]).Done? {
      var k := ReadChars(t[1..]);
      ReadCharsLength(t[1..]);
      var u := SkipSpace(k.rest);
      if u != "" && u[0] == ':' && ReadValue(u[1..]).Done? {
        ReadValueFits(u[1..]);
        var v := ReadValue(u[1..]);
        var w := SkipSpace(v.rest);
        var more := Insert(acc, k.value, v.value);
        MemberText(Member(k.value, v.value));
        InsertLength(acc, k.value, v.value);
        InsertValid(acc, k.value, v.value);
        if w != "" && w[0] == ',' {
          ReadMembersFits(w[1..], more);
        } else {
          ObjectText(more);
        }
      }
    }
  }

  /** Any text that parses parses to a valid value, and no text of that value is shorter than the printed one. */
  lemma PrintedIsShortest(text: string, v: Json)
    requires Parse(text) == Some(v)
    ensures Valid(v) && Parse(Print(v)) == Some(v) && |Print(v)| <= |text|
  {
    hide ReadValue, Print, Valid;
    ReadValueFits(text);
    ParsePrinted(v);
  }
}
