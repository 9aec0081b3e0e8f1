/** The live cache key, the two retired key spaces, and what keeps them apart. */
module CacheKeys {
  import opened Text
  import opened Json
  import opened Canonical

  type Byte = n: int | 0 <= n < 256

  // ---------------------------------------------------------------------------
  // `CacheKey::compute` and `CacheKey::is_valid`; the digest itself is a parameter
  // ---------------------------------------------------------------------------

  function HexOf(bytes: seq<Byte>): string {
    if bytes == [] then "" else [HexDigit(bytes[0] / 16), HexDigit(bytes[0] % 16)] + HexOf(bytes[1..])
  }

  lemma {:induction false} HexOfPrefix(bytes: seq<Byte>, i: nat)
    requires i < |bytes|
    ensures HexOf(bytes[..i + 1]) == HexOf(bytes[..i]) + [HexDigit(bytes[i] / 16), HexDigit(bytes[i] % 16)]
  {
    if i == 0 {
      assert bytes[..1] == [bytes[0]] && bytes[..0] == [];
      assert [bytes[0]][1..] == [];
    } else {
      HexOfPrefix(bytes[1..], i - 1);
      assert bytes[..i + 1][1..] == bytes[1..][..i] && bytes[..i][1..] == bytes[1..][..i - 1];
    }
  }

  /** Two digits spell this byte, the high half first, in lowercase. */
  ghost predicate Spells(high: char, low: char, byte: int) {
    && HexValue(high).Some? && HexValue(low).Some? && !('A' <= high <= 'F') && !('A' <= low <= 'F')
    && 16 * HexValue(high).value + HexValue(low).value == byte
  }

  lemma {:induction false} HexOfSpells(bytes: seq<Byte>)
    ensures |HexOf(bytes)| == 2 * |bytes|
    ensures forall i | 0 <= i < |bytes| :: Spells(HexOf(bytes)[2 * i], HexOf(bytes)[2 * i + 1], bytes[i])
  {
    hide Spells;
    if bytes == [] {
    } else {
      var rest := HexOf(bytes[1..]);
      HexOfSpells(bytes[1..]);
      OneByteSpells(bytes[0]);
      forall i | 0 <= i < |bytes| ensures Spells(HexOf(bytes)[2 * i], HexOf(bytes)[2 * i + 1], bytes[i]) {
        if i > 0 {
          assert bytes[i] == bytes[1..][i - 1];
          assert HexOf(bytes)[2 * i] == rest[2 * (i - 1)] && HexOf(bytes)[2 * i + 1] == rest[2 * (i - 1) + 1];
        }
      }
    }
  }

  lemma OneByteSpells(byte: Byte)
    ensures Spells(HexDigit(byte / 16), HexDigit(byte % 16), byte)
  {
  }

  method HexLower(bytes: seq<Byte>) returns (s: string)
    ensures s == HexOf(bytes)
    ensures |s| == 2 * |bytes| && forall i | 0 <= i < |bytes| :: Spells(s[2 * i], s[2 * i + 1], bytes[i])
  {
    hide Spells;
    HexOfSpells(bytes);
    s := "";
    for i := 0 to |bytes|
      invariant s == HexOf(bytes[..i])
    {
      HexOfPrefix(bytes, i);
      ghost var before := s;
      s := s + [HexDigit(bytes[i] / 16)];
      s := s + [HexDigit(bytes[i] % 16)];
      assert s == before + [HexDigit(bytes[i] / 16), HexDigit(bytes[i] % 16)];
    }
    assert bytes[..|bytes|] == bytes;
  }

  predicate IsLowerHex(c: char) {
    '0' <= c <= '9' || 'a' <= c <= 'f'
  }

  const KEY_PREFIX := "sha256:"

  predicate IsValidKey(s: string) {
    && |s| == |KEY_PREFIX| + 64 && s[..|KEY_PREFIX|] == KEY_PREFIX
    && forall i | |KEY_PREFIX| <= i < |s| :: IsLowerHex(s[i])
  }

  lemma {:induction false} HexOfShape(bytes: seq<Byte>)
    ensures |HexOf(bytes)| == 2 * |bytes|
    ensures forall i | 0 <= i < |HexOf(bytes)| :: IsLowerHex(HexOf(bytes)[i])
  {
    if bytes == [] {
    } else {
      HexOfShape(bytes[1..]);
    }
  }

  lemma {:induction false} HexOfInjective(a: seq<Byte>, b: seq<Byte>)
    requires HexOf(a) == HexOf(b)
    ensures a == b
  {
    HexOfShape(a);
    HexOfShape(b);
    if a == [] {
    } else {
      assert HexOf(a)[2..] == HexOf(a[1..]) && HexOf(b)[2..] == HexOf(b[1..]);
      HexOfInjective(a[1..], b[1..]);
      assert HexOf(a)[0] == HexOf(b)[0] && HexOf(a)[1] == HexOf(b)[1];
      assert a[0] / 16 == b[0] / 16 && a[0] % 16 == b[0] % 16;
      assert a == [a[0]] + a[1..] && b == [b[0]] + b[1..];
    }
  }

  /** The byte two lowercase digits spell. */
  ghost function ByteOf(high: char, low: char): (b: Byte)
    requires IsLowerHex(high) && IsLowerHex(low)
    ensures HexDigit(b / 16) == high && HexDigit(b % 16) == low
  {
    16 * HexValue(high).value + HexValue(low).value
  }

  /** Lowercase digits in pairs are the hex of some bytes. */
  lemma {:induction false} SomeBytesHaveThisHex(s: string) returns (bytes: seq<Byte>)
    requires |s| % 2 == 0 && forall i | 0 <= i < |s| :: IsLowerHex(s[i])
    ensures HexOf(bytes) == s && 2 * |bytes| == |s|
  {
    hide IsLowerHex, ByteOf;
    if s == "" {
      bytes := [];
    } else {
      var rest := SomeBytesHaveThisHex(s[2..]);
      bytes := [ByteOf(s[0], s[1])] + rest;
      assert bytes[1..] == rest;
      assert s == [s[0], s[1]] + s[2..];
    }
  }

  /** A text is a well-formed key exactly when it is the key of some 32-byte digest. */
  lemma ValidKeysAreDigests(s: string)
    ensures IsValidKey(s) <==> exists digest: seq<Byte> :: |digest| == 32 && s == "sha256:" + HexOf(digest)
  {
    assert |KEY_PREFIX| == 7;
    if IsValidKey(s) {
      var digest := SomeBytesHaveThisHex(s[7..]);
      assert s == s[..7] + s[7..];
    }
    if digest: seq<Byte> :| |digest| == 32 && s == "sha256:" + HexOf(digest) {
      HexOfShape(digest);
      assert s[..7] == "sha256:" && s[7..] == HexOf(digest);
      assert forall i | 7 <= i < |s| :: s[i] == s[7..][i - 7];
    }
  }

  function KeyOf(parts: Json, sha256: string -> seq<Byte>): string {
    KEY_PREFIX + HexOf(sha256(CanonicalText(parts)))
  }

  /** A computed key is well formed, and two of them agree exactly when the digests do. */
  lemma KeyIsDigest(a: Json, b: Json, sha256: string -> seq<Byte>)
    requires |sha256(CanonicalText(a))| == 32
    ensures IsValidKey(KeyOf(a, sha256))
    ensures KeyOf(a, sha256) == KeyOf(b, sha256) <==> sha256(CanonicalText(a)) == sha256(CanonicalText(b))
  {
    HexOfShape(sha256(CanonicalText(a)));
    var ka, kb := KeyOf(a, sha256), KeyOf(b, sha256);
    assert ka[|KEY_PREFIX|..] == HexOf(sha256(CanonicalText(a)));
    assert kb[|KEY_PREFIX|..] == HexOf(sha256(CanonicalText(b)));
    if ka == kb {
      HexOfInjective(sha256(CanonicalText(a)), sha256(CanonicalText(b)));
    }
  }

  // ---------------------------------------------------------------------------
  // Equivalent objects bind the same keys to equivalent values
  // ---------------------------------------------------------------------------

  lemma EquivLookup(a: Json, b: Json, key: string)
    requires Valid(a) && Valid(b) && a.Object? && b.Object? && Equiv(a, b)
    ensures Get(a, key).Some? <==> Get(b, key).Some?
    ensures Get(a, key).Some? ==> Equiv(Get(a, key).value, Get(b, key).value)
  {
    hide IsNumber, Lookup, Sorted;
    EquivIsSortedEquality(a, b);
    EquivIsSortedEquality(b, a);
    if Get(a, key).Some? {
      var i :| 0 <= i < |a.members| && a.members[i] == Member(key, Get(a, key).value);
      assert EquivIn(a.members[i], b.members);
    }
    if Get(b, key).Some? {
      var j :| 0 <= j < |b.members| && b.members[j] == Member(key, Get(b, key).value);
      assert EquivIn(b.members[j], a.members);
    }
  }

  predicate AllDistinct(names: seq<string>) {
    forall i, j | 0 <= i < j < |names| :: names[i] != names[j]
  }

  /** An object with these names: valid, each name bound to its value, no other name bound. */
  lemma ObjectFacts(ms: seq<Member>, names: seq<string>)
    requires AllDistinct(names) && Keys(ms) == names
    requires forall i | 0 <= i < |ms| :: Valid(ms[i].value)
    ensures Valid(Object(ms))
    ensures forall i | 0 <= i < |ms| :: Get(Object(ms), names[i]) == Some(ms[i].value)
    ensures forall key :: key !in names ==> Get(Object(ms), key).None?
  {
    hide Valid, Lookup;
    assert forall i | 0 <= i < |ms| :: ms[i].key == Keys(ms)[i];
    assert DistinctKeys(ms);
    ValidObject(ms);
    forall i | 0 <= i < |ms| ensures Get(Object(ms), names[i]) == Some(ms[i].value) {
      LookupAt(ms, i);
    }
    forall key | key !in names ensures Get(Object(ms), key).None? {
      assert forall i | 0 <= i < |ms| :: ms[i].key in names;
    }
  }

  lemma ValidObject(ms: seq<Member>)
    requires DistinctKeys(ms) && forall i | 0 <= i < |ms| :: Valid(ms[i].value)
    ensures Valid(Object(ms))
  {
  }

  function Optional(key: string, value: Option<string>): seq<Member> {
    if value.Some? then [Member(key, String(value.value))] else []
  }

  lemma NumeralsEqual(m: nat, n: nat)
    ensures Equiv(Number(Decimal(m)), Number(Decimal(n))) <==> m == n
    ensures Valid(Number(Decimal(m)))
  {
    DecimalIsNumber(m);
    if Decimal(m) == Decimal(n) {
      DecimalInjective(m, n);
    }
  }

  // ---------------------------------------------------------------------------
  // The live key: `request_cache_key`
  // ---------------------------------------------------------------------------

  datatype LiveCall = LiveCall(request: Json, repeat: nat, providerSalt: Option<string>, caseSalt: Option<string>)

  function LiveParts(c: LiveCall): Json {
    Object([Member("request", c.request), Member("repeat", Number(Decimal(c.repeat)))]
           + Optional("provider_salt", c.providerSalt)
           + Optional("case_salt", c.caseSalt))
  }

  method RequestCacheKey(c: LiveCall, sha256: string -> seq<Byte>) returns (key: string)
    requires Valid(c.request)
    ensures key == KeyOf(LiveParts(c), sha256)
  {
    hide CanonicalText;
    var members := [Member("request", c.request), Member("repeat", Number(Decimal(c.repeat)))];
    if c.providerSalt.Some? {
      members := Insert(members, "provider_salt", String(c.providerSalt.value));
    }
    if c.caseSalt.Some? {
      members := Insert(members, "case_salt", String(c.caseSalt.value));
    }
    assert Object(members) == LiveParts(c);
    LivePartsValid(c);
    var text := WriteCanonical(Object(members), "");
    assert "" + CanonicalText(Object(members)) == CanonicalText(Object(members));
    var hex := HexLower(sha256(text));
    key := KEY_PREFIX + hex;
  }

  lemma LivePartsValid(c: LiveCall)
    requires Valid(c.request)
    ensures Valid(LiveParts(c))
  {
    DecimalIsNumber(c.repeat);
  }

  lemma LiveLookups(c: LiveCall)
    ensures Get(LiveParts(c), "request") == Some(c.request)
    ensures Get(LiveParts(c), "repeat") == Some(Number(Decimal(c.repeat)))
    ensures Get(LiveParts(c), "provider_salt") == Salt(c.providerSalt)
    ensures Get(LiveParts(c), "case_salt") == Salt(c.caseSalt)
  {
    hide Lookup, Decimal;
    var ms := LiveParts(c).members;
    assert DistinctKeys(ms);
    LookupAt(ms, 0);
    LookupAt(ms, 1);
    if c.providerSalt.Some? { LookupAt(ms, 2); }
    if c.caseSalt.Some? { LookupAt(ms, |ms| - 1); }
  }

  /** And there is no other member. */
  lemma LiveHasNoOtherMember(c: LiveCall, key: string)
    requires key !in ["request", "repeat", "provider_salt", "case_salt"]
    ensures Get(LiveParts(c), key).None?
  {
    hide Lookup, Decimal;
    var names := ["request", "repeat", "provider_salt", "case_salt"];
    assert names[0] == "request" && names[1] == "repeat" && names[2] == "provider_salt" && names[3] == "case_salt";
    var ms := LiveParts(c).members;
    assert forall i | 0 <= i < |ms| :: ms[i].key in names;
  }

  lemma LiveAbsent(c: LiveCall)
    ensures Get(LiveParts(c), "prompt").None? && Get(LiveParts(c), "kind").None?
  {
    hide Lookup, Decimal;
    assert "prompt"[0] != "repeat"[0];
  }

  /** How an optional salt shows in the key object. */
  function Salt(salt: Option<string>): Option<Json> {
    if salt.Some? then Some(String(salt.value)) else None
  }

  /**
   * One text per call: equal exactly when the requests agree up to member order, the repeats
   * agree, and each salt agrees, where unset, empty and split salts are all different.
   */
  lemma LiveTextDecidesCall(a: LiveCall, b: LiveCall)
    requires Valid(a.request) && Valid(b.request)
    ensures CanonicalText(LiveParts(a)) == CanonicalText(LiveParts(b)) <==>
            && Equiv(a.request, b.request) && a.repeat == b.repeat
            && a.providerSalt == b.providerSalt && a.caseSalt == b.caseSalt
  {
    LivePartsValid(a);
    LivePartsValid(b);
    CanonicalTextDecidesEquiv(LiveParts(a), LiveParts(b));
    if Equiv(LiveParts(a), LiveParts(b)) {
      LiveEquivOnlyIf(a, b);
    }
    if Equiv(a.request, b.request) && a.(request := b.request) == b {
      LiveEquivIf(a, b);
    }
  }

  lemma LiveEquivOnlyIf(a: LiveCall, b: LiveCall)
    requires Valid(a.request) && Valid(b.request) && Equiv(LiveParts(a), LiveParts(b))
    ensures Equiv(a.request, b.request) && a.(request := b.request) == b
  {
    hide LiveParts, Valid, Get;
    LivePartsValid(a);
    LivePartsValid(b);
    LiveLookups(a);
    LiveLookups(b);
    LivePartsObject(a);
    LivePartsObject(b);
    NumeralsEqual(a.repeat, b.repeat);
    EquivLookup(LiveParts(a), LiveParts(b), "request");
    EquivLookup(LiveParts(a), LiveParts(b), "repeat");
    EquivLookup(LiveParts(a), LiveParts(b), "provider_salt");
    EquivLookup(LiveParts(a), LiveParts(b), "case_salt");
  }

  lemma LivePartsObject(c: LiveCall)
    ensures LiveParts(c).Object?
  {
  }

  lemma LiveEquivIf(a: LiveCall, b: LiveCall)
    requires Valid(b.request) && Equiv(a.request, b.request) && a.(request := b.request) == b
    ensures Equiv(LiveParts(a), LiveParts(b))
  {
    hide Decimal, Valid;
    LivePartsValid(b);
    ValidMeansDistinct(LiveParts(b).members);
    PairwiseEquiv(LiveParts(a).members, LiveParts(b).members);
  }

  // ---------------------------------------------------------------------------
  // The retired key spaces: `legacy_provider_key`, `legacy_grader_verdict_key`
  // ---------------------------------------------------------------------------

  datatype ProviderRequest = ProviderRequest(
    prompt: Option<Json>, vars: seq<Member>, params: seq<Member>, tools: seq<Json>, caseSalt: Option<string>)

  ghost predicate ValidRequest(req: ProviderRequest) {
    && (req.prompt.Some? ==> Valid(req.prompt.value))
    && Valid(Object(req.vars)) && Valid(Object(req.params)) && Valid(Array(req.tools))
  }

  function ProviderBase(fingerprint: Json, req: ProviderRequest, repeat: nat): seq<Member> {
    [Member("fingerprint", fingerprint),
     Member("prompt", if req.prompt.Some? then req.prompt.value else Null),
     Member("vars", Object(req.vars)),
     Member("params", Object(req.params)),
     Member("repeat", Number(Decimal(repeat)))]
  }

  function ProviderParts(fingerprint: Json, req: ProviderRequest, repeat: nat): Json {
    Object(ProviderBase(fingerprint, req, repeat)
           + (if req.tools != [] then [Member("tools", Array(req.tools))] else [])
           + Optional("case_salt", req.caseSalt))
  }

  method LegacyProviderKey(fingerprint: Json, req: ProviderRequest, repeat: nat, sha256: string -> seq<Byte>)
    returns (key: string)
    requires Valid(fingerprint) && ValidRequest(req)
    ensures key == KeyOf(ProviderParts(fingerprint, req, repeat), sha256)
  {
    hide CanonicalText, Valid;
    var members := ProviderBase(fingerprint, req, repeat);
    ProviderPartsValid(fingerprint, req, repeat);
    ProviderNames();
    if req.tools != [] {
      members := Insert(members, "tools", Array(req.tools));
    }
    if req.caseSalt.Some? {
      members := Insert(members, "case_salt", String(req.caseSalt.value));
    }
    assert Object(members) == ProviderParts(fingerprint, req, repeat);
    var text := WriteCanonical(Object(members), "");
    assert "" + CanonicalText(Object(members)) == CanonicalText(Object(members));
    var hex := HexLower(sha256(text));
    key := KEY_PREFIX + hex;
  }

  lemma ProviderNames()
    ensures "prompt" != "params" && "prompt" != "repeat" && "params" != "repeat"
  {
    assert "prompt"[1] != "params"[1] && "prompt"[0] != "repeat"[0] && "params"[0] != "repeat"[0];
  }

  lemma ProviderPartsValid(fingerprint: Json, req: ProviderRequest, repeat: nat)
    requires Valid(fingerprint) && ValidRequest(req)
    ensures Valid(ProviderParts(fingerprint, req, repeat))
  {
    hide IsNumber, Decimal;
    DecimalIsNumber(repeat);
    ProviderNames();
    var base := ProviderBase(fingerprint, req, repeat);
    assert DistinctKeys(base);
    assert forall i | 0 <= i < |base| :: Valid(base[i].value);
  }

  lemma ProviderLookups(fingerprint: Json, req: ProviderRequest, repeat: nat)
    ensures var parts := ProviderParts(fingerprint, req, repeat);
            && Get(parts, "fingerprint") == Some(fingerprint)
            && Get(parts, "prompt").Some?
            && Get(parts, "request").None? && Get(parts, "kind").None?
  {
    hide Lookup, Decimal;
    ProviderNames();
    var parts := ProviderParts(fingerprint, req, repeat).members;
    assert parts[0].key == "fingerprint" && parts[1].key == "prompt";
    assert forall i | 0 <= i < |parts| :: parts[i].key != "request" && parts[i].key != "kind";
  }

  function PromptJson(req: ProviderRequest): Json {
    if req.prompt.Some? then req.prompt.value else Null
  }

  function ToolsJson(req: ProviderRequest): Option<Json> {
    if req.tools != [] then Some(Array(req.tools)) else None
  }

  /** The five members that are always there, and the two that are there only when set. */
  lemma ProviderMembers(fingerprint: Json, req: ProviderRequest, repeat: nat)
    requires Valid(fingerprint) && ValidRequest(req)
    ensures var parts := ProviderParts(fingerprint, req, repeat);
            && Get(parts, "fingerprint") == Some(fingerprint)
            && Get(parts, "prompt") == Some(PromptJson(req))
            && PromptJson(req) == (if req.prompt == None then Null else req.prompt.value)
            && Get(parts, "vars") == Some(Object(req.vars)) && Get(parts, "params") == Some(Object(req.params))
            && Get(parts, "repeat") == Some(Number(Decimal(repeat)))
            && Get(parts, "tools") == ToolsJson(req) && Get(parts, "case_salt") == Salt(req.caseSalt)
  {
    ProviderLookups(fingerprint, req, repeat);
    hide Lookup, Decimal, Valid;
    ProviderPartsValid(fingerprint, req, repeat);
    var ms := ProviderParts(fingerprint, req, repeat).members;
    assert DistinctKeys(ms) by { ValidMeansDistinct(ms); }
    assert ms[..5] == ProviderBase(fingerprint, req, repeat);
    LookupAt(ms, 1);
    LookupAt(ms, 2);
    LookupAt(ms, 3);
    LookupAt(ms, 4);
    if req.tools != [] { LookupAt(ms, 5); } else { ToolsAbsent(fingerprint, req, repeat); }
    if req.caseSalt.Some? { LookupAt(ms, |ms| - 1); } else { SaltAbsent(fingerprint, req, repeat); }
  }

  lemma ProviderHasNoOtherMember(fingerprint: Json, req: ProviderRequest, repeat: nat, key: string)
    requires key !in ["fingerprint", "prompt", "vars", "params", "repeat", "tools", "case_salt"]
    ensures Get(ProviderParts(fingerprint, req, repeat), key).None?
  {
    hide Lookup, Decimal;
    var names := ["fingerprint", "prompt", "vars", "params", "repeat", "tools", "case_salt"];
    assert names[0] == "fingerprint" && names[1] == "prompt" && names[2] == "vars" && names[3] == "params";
    assert names[4] == "repeat" && names[5] == "tools" && names[6] == "case_salt";
    var ms := ProviderParts(fingerprint, req, repeat).members;
    assert forall i | 0 <= i < |ms| :: ms[i].key in names;
  }

  lemma ValidMeansDistinct(ms: seq<Member>)
    requires Valid(Object(ms))
    ensures DistinctKeys(ms)
  {
  }

  lemma ToolsAbsent(fingerprint: Json, req: ProviderRequest, repeat: nat)
    requires req.tools == []
    ensures Get(ProviderParts(fingerprint, req, repeat), "tools").None?
  {
    hide Lookup, Decimal;
  }

  lemma SaltAbsent(fingerprint: Json, req: ProviderRequest, repeat: nat)
    requires req.caseSalt.None?
    ensures Get(ProviderParts(fingerprint, req, repeat), "case_salt").None?
  {
    hide Lookup, Decimal;
  }

  /** The parts of a legacy provider call agree, member by member. */
  ghost predicate SameProviderCall(fpA: Json, a: ProviderRequest, rA: nat, fpB: Json, b: ProviderRequest, rB: nat) {
    && Equiv(fpA, fpB) && Equiv(PromptJson(a), PromptJson(b))
    && Equiv(Object(a.vars), Object(b.vars)) && Equiv(Object(a.params), Object(b.params))
    && Equiv(Array(a.tools), Array(b.tools)) && a.caseSalt == b.caseSalt && rA == rB
  }

  /** The retired provider text determines its call just as the live one does. */
  lemma LegacyProviderTextDecidesCall(fpA: Json, a: ProviderRequest, rA: nat, fpB: Json, b: ProviderRequest, rB: nat)
    requires Valid(fpA) && ValidRequest(a) && Valid(fpB) && ValidRequest(b)
    ensures CanonicalText(ProviderParts(fpA, a, rA)) == CanonicalText(ProviderParts(fpB, b, rB)) <==>
            SameProviderCall(fpA, a, rA, fpB, b, rB)
  {
    hide CanonicalText, ProviderParts, Valid, SameProviderCall, Equiv;
    var (pa, pb) := (ProviderParts(fpA, a, rA), ProviderParts(fpB, b, rB));
    ProviderPartsValid(fpA, a, rA);
    ProviderPartsValid(fpB, b, rB);
    CanonicalTextDecidesEquiv(pa, pb);
    if Equiv(pa, pb) {
      ProviderEquivOnlyIf(fpA, a, rA, fpB, b, rB);
    }
    if SameProviderCall(fpA, a, rA, fpB, b, rB) {
      ProviderEquivIf(fpA, a, rA, fpB, b, rB);
    }
  }

  lemma ProviderEquivOnlyIf(fpA: Json, a: ProviderRequest, rA: nat, fpB: Json, b: ProviderRequest, rB: nat)
    requires Valid(fpA) && ValidRequest(a) && Valid(fpB) && ValidRequest(b)
    requires Equiv(ProviderParts(fpA, a, rA), ProviderParts(fpB, b, rB))
    ensures SameProviderCall(fpA, a, rA, fpB, b, rB)
  {
    hide ProviderParts, Valid, Get, Equiv, PromptJson;
    var (pa, pb) := (ProviderParts(fpA, a, rA), ProviderParts(fpB, b, rB));
    ProviderPartsValid(fpA, a, rA);
    ProviderPartsValid(fpB, b, rB);
    ProviderPartsObject(fpA, a, rA);
    ProviderPartsObject(fpB, b, rB);
    ProviderLookups(fpA, a, rA);
    ProviderLookups(fpB, b, rB);
    ProviderMembers(fpA, a, rA);
    ProviderMembers(fpB, b, rB);
    EquivLookup(pa, pb, "fingerprint");
    EquivLookup(pa, pb, "prompt");
    EquivLookup(pa, pb, "vars");
    EquivLookup(pa, pb, "params");
    EquivLookup(pa, pb, "repeat");
    EquivLookup(pa, pb, "tools");
    EquivLookup(pa, pb, "case_salt");
    NumeralsEqual(rA, rB);
    EmptyToolsEquiv(a.tools, b.tools);
    SaltEquiv(a.caseSalt, b.caseSalt);
  }

  lemma ProviderPartsObject(fingerprint: Json, req: ProviderRequest, repeat: nat)
    ensures ProviderParts(fingerprint, req, repeat).Object?
  {
  }

  lemma EmptyToolsEquiv(a: seq<Json>, b: seq<Json>)
    ensures a == [] && b == [] ==> Equiv(Array(a), Array(b))
  {
  }

  lemma SaltEquiv(a: Option<string>, b: Option<string>)
    ensures a.Some? && b.Some? && Equiv(String(a.value), String(b.value)) ==> a == b
  {
  }

  lemma ProviderEquivIf(fpA: Json, a: ProviderRequest, rA: nat, fpB: Json, b: ProviderRequest, rB: nat)
    requires Valid(fpA) && ValidRequest(a) && Valid(fpB) && ValidRequest(b)
    requires SameProviderCall(fpA, a, rA, fpB, b, rB)
    ensures Equiv(ProviderParts(fpA, a, rA), ProviderParts(fpB, b, rB))
  {
    hide Valid, Lookup, Decimal, Equiv, Pairwise;
    var (ba, bb) := (ProviderBase(fpA, a, rA), ProviderBase(fpB, b, rB));
    ScalarEquiv(Number(Decimal(rA)));
    BaseParts(fpA, a, rA, fpB, b, rB);
    SameToolsShape(a.tools, b.tools);
    var ta := if a.tools != [] then [Member("tools", Array(a.tools))] else [];
    var tb := if b.tools != [] then [Member("tools", Array(b.tools))] else [];
    assert Pairwise(ta, tb) by { ToolsPairwise(a.tools, b.tools); }
    var sa := Optional("case_salt", a.caseSalt);
    SaltPairwise(a.caseSalt);
    PairwiseConcat(ba, bb, ta, tb);
    PairwiseConcat(ba + ta, bb + tb, sa, sa);
    ProviderPartsValid(fpB, b, rB);
    ValidMeansDistinct(ProviderParts(fpB, b, rB).members);
    PairwiseEquiv(ProviderParts(fpA, a, rA).members, ProviderParts(fpB, b, rB).members);
  }

  /** Same names in the same places, equivalent values. */
  ghost predicate Pairwise(ms: seq<Member>, ns: seq<Member>) {
    |ms| == |ns| && forall i | 0 <= i < |ms| :: ms[i].key == ns[i].key && Equiv(ms[i].value, ns[i].value)
  }

  lemma BaseParts(fpA: Json, a: ProviderRequest, rA: nat, fpB: Json, b: ProviderRequest, rB: nat)
    requires SameProviderCall(fpA, a, rA, fpB, b, rB) && Equiv(Number(Decimal(rA)), Number(Decimal(rA)))
    ensures Pairwise(ProviderBase(fpA, a, rA), ProviderBase(fpB, b, rB))
  {
    hide Equiv, Decimal;
  }

  lemma ToolsPairwise(a: seq<Json>, b: seq<Json>)
    requires Equiv(Array(a), Array(b))
    ensures Pairwise(if a != [] then [Member("tools", Array(a))] else [], if b != [] then [Member("tools", Array(b))] else [])
  {
  }

  lemma SaltPairwise(salt: Option<string>)
    ensures Pairwise(Optional("case_salt", salt), Optional("case_salt", salt))
  {
  }

  lemma PairwiseConcat(a: seq<Member>, b: seq<Member>, c: seq<Member>, d: seq<Member>)
    requires Pairwise(a, b) && Pairwise(c, d)
    ensures Pairwise(a + c, b + d)
  {
    hide Equiv;
  }

  lemma PairwiseEquiv(ms: seq<Member>, ns: seq<Member>)
    requires Pairwise(ms, ns) && DistinctKeys(ns)
    ensures Equiv(Object(ms), Object(ns))
  {
    forall i | 0 <= i < |ms| ensures EquivIn(ms[i], ns) {
      LookupAt(ns, i);
    }
  }

  lemma SameToolsShape(a: seq<Json>, b: seq<Json>)
    requires Equiv(Array(a), Array(b))
    ensures |a| == |b|
  {
  }

  lemma ScalarEquiv(v: Json)
    ensures v.Number? || v.String? ==> Equiv(v, v)
  {
  }

  function VerdictParts(fingerprint: Json, graded: Json, repeat: nat): Json {
    Object([Member("kind", String("grader-verdict")),
            Member("fingerprint", fingerprint),
            Member("graded", graded),
            Member("repeat", Number(Decimal(repeat)))])
  }

  lemma VerdictFacts(fingerprint: Json, graded: Json, repeat: nat)
    requires Valid(fingerprint) && Valid(graded)
    ensures var parts := VerdictParts(fingerprint, graded, repeat);
            && Valid(parts) && parts.Object?
            && Get(parts, "kind").Some? && Get(parts, "request").None? && Get(parts, "prompt").None?
  {
    hide IsNumber, Lookup, Decimal;
    DecimalIsNumber(repeat);
    assert "graded"[0] != "repeat"[0] && "graded"[0] != "prompt"[0] && "repeat"[0] != "prompt"[0];
    var ms := VerdictParts(fingerprint, graded, repeat).members;
    assert ms[0].key == "kind";
    assert forall i | 0 <= i < |ms| :: ms[i].key != "request" && ms[i].key != "prompt";
  }

  /** The retired verdict text determines the judge, the graded document and the repeat. */
  lemma LegacyVerdictTextDecidesCall(fpA: Json, a: Json, rA: nat, fpB: Json, b: Json, rB: nat)
    requires Valid(fpA) && Valid(a) && Valid(fpB) && Valid(b)
    ensures CanonicalText(VerdictParts(fpA, a, rA)) == CanonicalText(VerdictParts(fpB, b, rB)) <==>
            Equiv(fpA, fpB) && Equiv(a, b) && rA == rB
  {
    hide CanonicalText, Valid, VerdictParts;
    VerdictFacts(fpA, a, rA);
    VerdictFacts(fpB, b, rB);
    CanonicalTextDecidesEquiv(VerdictParts(fpA, a, rA), VerdictParts(fpB, b, rB));
    if Equiv(VerdictParts(fpA, a, rA), VerdictParts(fpB, b, rB)) {
      VerdictEquivOnlyIf(fpA, a, rA, fpB, b, rB);
    }
    if Equiv(fpA, fpB) && Equiv(a, b) && rA == rB {
      VerdictEquivIf(fpA, a, fpB, b, rA);
    }
  }

  lemma VerdictEquivOnlyIf(fpA: Json, a: Json, rA: nat, fpB: Json, b: Json, rB: nat)
    requires Valid(fpA) && Valid(a) && Valid(fpB) && Valid(b)
    requires Equiv(VerdictParts(fpA, a, rA), VerdictParts(fpB, b, rB))
    ensures Equiv(fpA, fpB) && Equiv(a, b) && rA == rB
  {
    hide VerdictParts, Valid, Get, Equiv;
    var (pa, pb) := (VerdictParts(fpA, a, rA), VerdictParts(fpB, b, rB));
    VerdictFacts(fpA, a, rA);
    VerdictFacts(fpB, b, rB);
    VerdictMembers(fpA, a, rA);
    VerdictMembers(fpB, b, rB);
    EquivLookup(pa, pb, "fingerprint");
    EquivLookup(pa, pb, "graded");
    EquivLookup(pa, pb, "repeat");
    NumeralsEqual(rA, rB);
  }

  lemma VerdictEquivIf(fpA: Json, a: Json, fpB: Json, b: Json, repeat: nat)
    requires Valid(fpB) && Valid(b) && Equiv(fpA, fpB) && Equiv(a, b)
    ensures Equiv(VerdictParts(fpA, a, repeat), VerdictParts(fpB, b, repeat))
  {
    hide Decimal, Valid, Equiv;
    VerdictFacts(fpB, b, repeat);
    ValidMeansDistinct(VerdictParts(fpB, b, repeat).members);
    ScalarEquiv(Number(Decimal(repeat)));
    ScalarEquiv(String("grader-verdict"));
    PairwiseEquiv(VerdictParts(fpA, a, repeat).members, VerdictParts(fpB, b, repeat).members);
  }

  lemma VerdictMembers(fingerprint: Json, graded: Json, repeat: nat)
    requires Valid(fingerprint) && Valid(graded)
    ensures var parts := VerdictParts(fingerprint, graded, repeat);
            && Get(parts, "fingerprint") == Some(fingerprint) && Get(parts, "graded") == Some(graded)
            && Get(parts, "repeat") == Some(Number(Decimal(repeat)))
            && Get(parts, "kind") == Some(String("grader-verdict"))
            && forall key | key !in ["kind", "fingerprint", "graded", "repeat"] :: Get(parts, key).None?
  {
    hide Lookup, Decimal, Valid;
    var names := ["kind", "fingerprint", "graded", "repeat"];
    assert names[0] == "kind" && names[1] == "fingerprint" && names[2] == "graded" && names[3] == "repeat";
    var ms := VerdictParts(fingerprint, graded, repeat).members;
    assert forall i | 0 <= i < |ms| :: ms[i].key in names;
    VerdictFacts(fingerprint, graded, repeat);
    ValidMeansDistinct(ms);
    LookupAt(ms, 0);
    LookupAt(ms, 1);
    LookupAt(ms, 2);
    LookupAt(ms, 3);
  }

  /** A member name one object has and the other lacks keeps their texts apart. */
  lemma NameSeparates(a: Json, b: Json, key: string)
    requires Valid(a) && Valid(b) && a.Object? && b.Object?
    requires Get(a, key).Some? && Get(b, key).None?
    ensures CanonicalText(a) != CanonicalText(b)
  {
    CanonicalTextDecidesEquiv(a, b);
    if Equiv(a, b) {
      EquivLookup(a, b, key);
    }
  }

  /** No hashed text belongs to two of the three key spaces. */
  lemma KeySpacesDisjoint(
    live: LiveCall, fp1: Json, req: ProviderRequest, r1: nat, fp2: Json, graded: Json, r2: nat)
    requires Valid(live.request) && Valid(fp1) && ValidRequest(req) && Valid(fp2) && Valid(graded)
    ensures CanonicalText(LiveParts(live)) != CanonicalText(ProviderParts(fp1, req, r1))
    ensures CanonicalText(LiveParts(live)) != CanonicalText(VerdictParts(fp2, graded, r2))
    ensures CanonicalText(ProviderParts(fp1, req, r1)) != CanonicalText(VerdictParts(fp2, graded, r2))
  {
    hide CanonicalText, LiveParts, ProviderParts, VerdictParts, Valid;
    LivePartsValid(live);
    LiveLookups(live);
    LiveAbsent(live);
    ProviderPartsValid(fp1, req, r1);
    ProviderLookups(fp1, req, r1);
    VerdictFacts(fp2, graded, r2);
    ObjectParts(live, fp1, req, r1, fp2, graded, r2);
    NameSeparates(LiveParts(live), ProviderParts(fp1, req, r1), "request");
    NameSeparates(LiveParts(live), VerdictParts(fp2, graded, r2), "request");
    NameSeparates(ProviderParts(fp1, req, r1), VerdictParts(fp2, graded, r2), "prompt");
  }

  lemma ObjectParts(live: LiveCall, fp1: Json, req: ProviderRequest, r1: nat, fp2: Json, graded: Json, r2: nat)
    ensures LiveParts(live).Object? && ProviderParts(fp1, req, r1).Object? && VerdictParts(fp2, graded, r2).Object?
  {
  }

  // ---------------------------------------------------------------------------
  // `legacy_exec_fingerprints`
  // ---------------------------------------------------------------------------

  function TextOrNull(s: Option<string>): Json {
    if s.Some? then String(s.value) else Null
  }

  function Command(command: seq<string>): (r: Json)
    ensures Valid(r)
  {
    Array(seq(|command|, i requires 0 <= i < |command| => String(command[i])))
  }

  /** The `json!` literal with these names, in this order. */
  function Literal(names: seq<string>, values: seq<Json>): Json
    requires |names| == |values|
  {
    Object(seq(|names|, i requires 0 <= i < |names| => Member(names[i], values[i])))
  }

  /** Since 0.3.1: the program and the environment are both part of the fingerprint. */
  function WithEnv(command: seq<string>, program: Json, env: Option<string>, salt: Option<string>): Json {
    Literal(["type", "command", "program", "env", "cache_salt"],
            [String("exec"), Command(command), program, TextOrNull(env), TextOrNull(salt)])
  }

  /** 0.3.0: before the environment joined. */
  function WithProgram(command: seq<string>, program: Json, salt: Option<string>): Json {
    Literal(["type", "command", "program", "cache_salt"],
            [String("exec"), Command(command), program, TextOrNull(salt)])
  }

  /** 0.2.x: before the program joined. */
  function CommandOnly(command: seq<string>, salt: Option<string>): Json {
    Literal(["type", "command", "cache_salt"], [String("exec"), Command(command), TextOrNull(salt)])
  }

  /** The two `program` arrays come from a filesystem walk and are parameters here. */
  method LegacyExecFingerprints(
    command: seq<string>, env: Option<string>, salt: Option<string>, byContent: Json, byStat: Json)
    returns (out: seq<Json>)
    requires Valid(byContent) && Valid(byStat)
    ensures out == [WithEnv(command, byContent, env, salt), WithEnv(command, byStat, env, salt)]
                   + if env.Some? then [] else [WithProgram(command, byStat, salt), CommandOnly(command, salt)]
    ensures forall i | 0 <= i < |out| :: IsProbe(out[i], env) && NamesCommand(out[i], command, salt)
    ensures |out| == if env.Some? then 2 else 4
    ensures Get(out[0], "program") == Some(byContent) && Get(out[1], "program") == Some(byStat)
    ensures env.None? ==> Get(out[2], "program") == Some(byStat) && Get(out[3], "program").None?
  {
    hide WithEnv, WithProgram, CommandOnly, Valid, IsProbe, NamesCommand, Get;
    out := [];
    var programs := [byContent, byStat];
    for i := 0 to 2
      invariant |out| == i
      invariant forall k | 0 <= k < i :: out[k] == WithEnv(command, programs[k], env, salt) && IsProbe(out[k], env)
                                         && NamesCommand(out[k], command, salt)
                                         && Get(out[k], "program") == Some(programs[k])
    {
      out := out + [WithEnv(command, programs[i], env, salt)];
      FingerprintEnv(command, programs[i], env, salt);
    }
    if env.Some? {
      return;
    }
    ProgramFingerprint(command, byStat, salt);
    CommandFingerprint(command, salt);
    out := out + [WithProgram(command, byStat, salt)];
    out := out + [CommandOnly(command, salt)];
  }

  /** An `exec` fingerprint with this command, word by word, and this salt. */
  ghost predicate NamesCommand(fp: Json, command: seq<string>, salt: Option<string>) {
    && Get(fp, "type") == Some(String("exec"))
    && Get(fp, "cache_salt") == Some(if salt == None then Null else String(salt.value))
    && var words := Get(fp, "command");
    && words.Some? && words.value.Array? && |words.value.items| == |command|
    && forall i | 0 <= i < |command| :: words.value.items[i] == String(command[i])
  }

  /** What a probe says about the environment it stands for; saying nothing means unset. */
  ghost predicate IsProbe(fp: Json, env: Option<string>) {
    && Valid(fp) && fp.Object?
    && (Get(fp, "env") == Some(TextOrNull(env)) || (Get(fp, "env").None? && env.None?))
  }

  lemma LiteralFacts(names: seq<string>, values: seq<Json>)
    requires |names| == |values| && AllDistinct(names) && forall i | 0 <= i < |values| :: Valid(values[i])
    ensures Literal(names, values).Object? && Valid(Literal(names, values))
    ensures forall i | 0 <= i < |names| :: Get(Literal(names, values), names[i]) == Some(values[i])
    ensures forall key :: key !in names ==> Get(Literal(names, values), key).None?
  {
    hide Valid, Get;
    var ms := Literal(names, values).members;
    assert Keys(ms) == names;
    ObjectFacts(ms, names);
  }

  lemma FingerprintEnv(command: seq<string>, program: Json, env: Option<string>, salt: Option<string>)
    requires Valid(program)
    ensures IsProbe(WithEnv(command, program, env, salt), env)
    ensures NamesCommand(WithEnv(command, program, env, salt), command, salt)
    ensures Get(WithEnv(command, program, env, salt), "program") == Some(program)
  {
    hide AllDistinct, Get, Literal, IsNumber;
    var names := ["type", "command", "program", "env", "cache_salt"];
    var values := [String("exec"), Command(command), program, TextOrNull(env), TextOrNull(salt)];
    assert AllDistinct(names) by { ExecNames(); }
    LiteralFacts(names, values);
    assert Get(Literal(names, values), names[0]) == Some(values[0]);
    assert Get(Literal(names, values), names[1]) == Some(values[1]);
    assert Get(Literal(names, values), names[2]) == Some(values[2]);
    assert Get(Literal(names, values), names[3]) == Some(values[3]);
    assert Get(Literal(names, values), names[4]) == Some(values[4]);
  }

  lemma ExecNames()
    ensures AllDistinct(["type", "command", "program", "env", "cache_salt"])
  {
    assert "command"[0] != "program"[0];
  }

  lemma ProgramFingerprint(command: seq<string>, program: Json, salt: Option<string>)
    requires Valid(program)
    ensures IsProbe(WithProgram(command, program, salt), None)
    ensures NamesCommand(WithProgram(command, program, salt), command, salt)
    ensures Get(WithProgram(command, program, salt), "program") == Some(program)
  {
    hide AllDistinct, Get, Literal, IsNumber;
    var names := ["type", "command", "program", "cache_salt"];
    var values := [String("exec"), Command(command), program, TextOrNull(salt)];
    assert AllDistinct(names) && "env" !in names by { ProgramNames(); }
    LiteralFacts(names, values);
    assert Get(Literal(names, values), names[0]) == Some(values[0]);
    assert Get(Literal(names, values), names[1]) == Some(values[1]);
    assert Get(Literal(names, values), names[2]) == Some(values[2]);
    assert Get(Literal(names, values), names[3]) == Some(values[3]);
  }

  lemma ProgramNames()
    ensures AllDistinct(["type", "command", "program", "cache_salt"])
    ensures "env" !in ["type", "command", "program", "cache_salt"]
  {
    assert "command"[0] != "program"[0];
  }

  lemma CommandFingerprint(command: seq<string>, salt: Option<string>)
    ensures IsProbe(CommandOnly(command, salt), None)
    ensures NamesCommand(CommandOnly(command, salt), command, salt)
    ensures Get(CommandOnly(command, salt), "program").None?
  {
    hide AllDistinct, Get, Literal, IsNumber;
    var names := ["type", "command", "cache_salt"];
    var values := [String("exec"), Command(command), TextOrNull(salt)];
    assert AllDistinct(names) && "env" !in names && "program" !in names by { CommandNames(); }
    LiteralFacts(names, values);
    assert Get(Literal(names, values), names[0]) == Some(values[0]);
    assert Get(Literal(names, values), names[1]) == Some(values[1]);
    assert Get(Literal(names, values), names[2]) == Some(values[2]);
  }

  lemma CommandNames()
    ensures AllDistinct(["type", "command", "cache_salt"]) && "env" !in ["type", "command", "cache_salt"]
    ensures "program" !in ["type", "command", "cache_salt"]
  {
    assert "command"[0] != "program"[0];
  }

  lemma EnvTextsDiffer(a: Option<string>, b: Option<string>)
    requires a != b
    ensures !Equiv(TextOrNull(a), TextOrNull(b))
  {
  }

  /** Probes under two different declared environments never share a hashed text. */
  lemma EnvironmentsNeverShareAProbe(
    a: Json, b: Json, envA: Option<string>, envB: Option<string>,
    reqA: ProviderRequest, reqB: ProviderRequest, rA: nat, rB: nat)
    requires IsProbe(a, envA) && IsProbe(b, envB) && envA != envB
    requires ValidRequest(reqA) && ValidRequest(reqB)
    ensures CanonicalText(ProviderParts(a, reqA, rA)) != CanonicalText(ProviderParts(b, reqB, rB))
  {
    hide CanonicalText, Valid, Equiv, Lookup;
    var (pa, pb) := (ProviderParts(a, reqA, rA), ProviderParts(b, reqB, rB));
    ProviderPartsValid(a, reqA, rA);
    ProviderPartsValid(b, reqB, rB);
    CanonicalTextDecidesEquiv(pa, pb);
    if Equiv(pa, pb) {
      ProviderLookups(a, reqA, rA);
      ProviderLookups(b, reqB, rB);
      EquivLookup(pa, pb, "fingerprint");
      EquivLookup(a, b, "env");
      EnvTextsDiffer(envA, envB);
      assert false;
    }
  }
}
