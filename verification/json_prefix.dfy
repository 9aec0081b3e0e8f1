/** Reading a value does not look past its end: text appended after it is left over untouched. */
module JsonPrefix {
  import opened Text
  import opened Json

  lemma {:induction false} SkipSpaceExtends(s: string, x: string)
    requires SkipSpace(s) != ""
    ensures SkipSpace(s + x) == SkipSpace(s) + x
  {
    if !IsJsonSpace(s[0]) {
    } else {
      assert (s + x)[1..] == s[1..] + x;
      SkipSpaceExtends(s[1..], x);
    }
  }

  lemma ReadHex4Extends(s: string, x: string)
    requires ReadHex4(s).Done?
    ensures ReadHex4(s + x) == Done(ReadHex4(s).value, ReadHex4(s).rest + x)
  {
    assert (s + x)[4..] == s[4..] + x;
  }

  lemma ReadEscapeExtends(s: string, x: string)
    requires ReadEscape(s).Done?
    ensures ReadEscape(s + x) == Done(ReadEscape(s).value, ReadEscape(s).rest + x)
  {
    hide ReadHex4;
    assert (s + x)[1..] == s[1..] + x;
    if s[0] == 'u' {
      var hi := ReadHex4(s[1..]);
      ReadHex4Extends(s[1..], x);
      if 0xD800 <= hi.value < 0xDC00 {
        ReadHex4Extends(hi.rest[2..], x);
        assert (hi.rest + x)[2..] == hi.rest[2..] + x;
      }
    }
  }

  lemma {:induction false} ReadCharsExtends(s: string, x: string)
    requires ReadChars(s).Done?
    ensures ReadChars(s + x) == Done(ReadChars(s).value, ReadChars(s).rest + x)
    decreases |s|
  {
    assert (s + x)[1..] == s[1..] + x;
    if s[0] == '\"' {
    } else {
      if s[0] == '\\' {
        ReadEscapeExtends(s[1..], x);
        ReadCharsExtends(ReadEscape(s[1..]).rest, x);
      } else {
        ReadCharsExtends(s[1..], x);
      }
    }
  }

  lemma {:induction false} NumberRunExtends(s: string, x: string)
    requires NumberRun(s) < |s|
    ensures NumberRun(s + x) == NumberRun(s)
  {
    if !IsNumberChar(s[0]) {
    } else {
      assert (s + x)[1..] == s[1..] + x;
      NumberRunExtends(s[1..], x);
    }
  }

  lemma ReadNumberExtends(s: string, x: string)
    requires ReadNumber(s).Done? && ReadNumber(s).rest != ""
    ensures ReadNumber(s + x) == Done(ReadNumber(s).value, ReadNumber(s).rest + x)
  {
    hide IsNumber;
    NumberRunExtends(s, x);
    var n := NumberRun(s);
    assert (s + x)[..n] == s[..n] && (s + x)[n..] == s[n..] + x;
  }

  lemma PrefixExtends(lit: string, s: string, x: string)
    requires lit <= s
    ensures lit <= s + x && (s + x)[|lit|..] == s[|lit|..] + x
  {
  }

  /** Only a number at the very end of the text can grow when more text follows. */
  lemma {:induction false} ReadValueExtends(s: string, x: string)
    requires ReadValue(s).Done?
    requires ReadValue(s).value.Number? ==> ReadValue(s).rest != ""
    ensures ReadValue(s + x) == Done(ReadValue(s).value, ReadValue(s).rest + x)
    decreases |s|, 1
  {
    hide ReadArray, ReadObject, ReadChars, IsNumber;
    var t := SkipSpace(s);
    SkipSpaceExtends(s, x);
    assert (t + x)[1..] == t[1..] + x;
    if t[0] == 'n' {
      PrefixExtends("null", t, x);
    } else if t[0] == 't' {
      PrefixExtends("true", t, x);
    } else if t[0] == 'f' {
      PrefixExtends("false", t, x);
    } else if t[0] == '\"' {
      ReadCharsExtends(t[1..], x);
    } else if t[0] == '[' {
      SkipSpaceExtends(t[1..], x);
      ReadArrayExtends(SkipSpace(t[1..]), x);
    } else if t[0] == '{' {
      SkipSpaceExtends(t[1..], x);
      ReadObjectExtends(SkipSpace(t[1..]), x);
    } else {
      ReadNumberExtends(t, x);
    }
  }

  lemma {:induction false} ReadArrayExtends(s: string, x: string)
    requires ReadArray(s).Done?
    ensures ReadArray(s + x) == Done(ReadArray(s).value, ReadArray(s).rest + x)
    decreases |s|, 3
  {
    if s != "" && s[0] == ']' {
      assert (s + x)[1..] == s[1..] + x;
    } else {
      ReadItemsExtends(s, [], x);
    }
  }

  lemma {:induction false} ReadObjectExtends(s: string, x: string)
    requires ReadObject(s).Done?
    ensures ReadObject(s + x) == Done(ReadObject(s).value, ReadObject(s).rest + x)
    decreases |s|, 3
  {
    if s != "" && s[0] == '}' {
      assert (s + x)[1..] == s[1..] + x;
    } else {
      ReadMembersExtends(s, [], x);
    }
  }

  lemma {:induction false} ReadItemsExtends(s: string, acc: seq<Json>, x: string)
    requires ReadItems(s, acc).Done?
    ensures ReadItems(s + x, acc) == Done(ReadItems(s, acc).value, ReadItems(s, acc).rest + x)
    decreases |s|, 2
  {
    var v := ReadValue(s);
    var t := SkipSpace(v.rest);
    ReadValueExtends(s, x);
    SkipSpaceExtends(v.rest, x);
    assert (t + x)[1..] == t[1..] + x;
    if t[0] != ',' {
    } else {
      ReadItemsExtends(t[1..], acc + [v.value], x);
    }
  }

  /** Up to the value of the first member. */
  ghost predicate ReadsKey(s: string, key: string, value: string)
  {
    var t := SkipSpace(s);
    && t != "" && t[0] == '\"'
    && var k := ReadChars(t[1..]);
    && k.Done? && k.value == key
    && var u := SkipSpace(k.rest);
    && u != "" && u[0] == ':' && value == u[1..]
  }

  lemma ReadsKeyExtends(s: string, key: string, value: string, x: string)
    requires ReadsKey(s, key, value)
    ensures ReadsKey(s + x, key, value + x)
  {
    var t := SkipSpace(s);
    var k := ReadChars(t[1..]);
    var u := SkipSpace(k.rest);
    SkipSpaceExtends(s, x);
    assert (t + x)[1..] == t[1..] + x;
    ReadCharsExtends(t[1..], x);
    SkipSpaceExtends(k.rest, x);
    assert (u + x)[1..] == u[1..] + x;
  }

  lemma ReadMembersFrom(s: string, acc: seq<Member>, key: string, value: string)
    requires ReadsKey(s, key, value) && ReadValue(value).Done?
    requires SkipSpace(ReadValue(value).rest) != ""
    ensures
      var v := ReadValue(value);
      var w := SkipSpace(v.rest);
      var acc' := Insert(acc, key, v.value);
      ReadMembers(s, acc) == if w[0] == ',' then ReadMembers(w[1..], acc')
                             else if w[0] == '}' then Done(Object(acc'), w[1..])
                             else Fail
  {
  }

  lemma {:induction false} ReadMembersExtends(s: string, acc: seq<Member>, x: string)
    requires ReadMembers(s, acc).Done?
    ensures ReadMembers(s + x, acc) == Done(ReadMembers(s, acc).value, ReadMembers(s, acc).rest + x)
    decreases |s|, 2
  {
    hide ReadValue, ReadChars, Insert;
    var t := SkipSpace(s);
    var k := ReadChars(t[1..]);
    var u := SkipSpace(k.rest);
    var v := ReadValue(u[1..]);
    var w := SkipSpace(v.rest);
    assert ReadsKey(s, k.value, u[1..]);
    ReadsKeyExtends(s, k.value, u[1..], x);
    ReadValueExtends(u[1..], x);
    SkipSpaceExtends(v.rest, x);
    ReadMembersFrom(s, acc, k.value, u[1..]);
    ReadMembersFrom(s + x, acc, k.value, u[1..] + x);
    assert (w + x)[1..] == w[1..] + x;
    if w[0] == ',' {
      ReadMembersExtends(w[1..], Insert(acc, k.value, v.value), x);
    }
  }
}
