/** Which entries a prune selects: `PurgeFilter` and the per-file decision of the disk walk. */
module PurgeFilters {
  import opened Text
  import opened Json

  datatype Verdict = Rubric | ExecGrading | Similarity

  datatype Output = TextOutput(text: string) | JsonOutput(value: Json)

  /** The fields of a cache entry that a filter can see. */
  datatype CacheEntry = CacheEntry(
    kind: Option<string>, verdict: Option<Verdict>, request: Option<Json>, output: Output,
    attempts: Option<nat>, providerLatencyMs: Option<nat>, emptyReason: Option<string>, model: Option<string>)

  lemma KindNames()
    ensures "judge" != "provider" && "judge" != "exec_assert" && "judge" != "embedding" && "judge" != "similar_verdict"
    ensures "similar_verdict" != "provider" && "similar_verdict" != "exec_assert" && "similar_verdict" != "embedding"
  {
  }

  /** The call kind an `exec` request names in the envelope it wrote to the child's stdin. */
  function EnvelopeKind(request: Json): Option<string> {
    var stdin := Get(request, "stdin");
    if GetString(request, "transport") != Some("exec") || stdin.None? then None
    else
      var envelope := Get(stdin.value, "domarinn");
      if envelope.None? then None else GetString(envelope.value, "kind")
  }

  /** A kind the writer stated is never overruled, and a stored verdict names its own judge. */
  function InferredKind(e: CacheEntry): (r: Option<string>)
    ensures e.kind.Some? ==> r == e.kind
    ensures e.kind.None? ==> (r == Some("judge") <==> e.verdict == Some(Rubric))
    ensures e.kind.None? ==> (r == Some("similar_verdict") <==> e.verdict == Some(Similarity))
    ensures r.None? ==> e.verdict.None? && e.attempts.None? && e.providerLatencyMs.None?
  {
    KindNames();
    var named := if e.request.Some? then EnvelopeKind(e.request.value) else None;
    if e.kind.Some? then e.kind
    else if e.verdict.Some? then
      Some(match e.verdict.value
           case Rubric => "judge"
           case ExecGrading => "exec_assert"
           case Similarity => "similar_verdict")
    else if named == Some("provider") then Some("provider")
    else if named == Some("assert") then Some("exec_assert")
    else if e.output.JsonOutput? && e.output.value.Object?
            && |e.output.value.members| == 1 && Get(e.output.value, "dims").Some? then Some("embedding")
    else if e.attempts.Some? || e.providerLatencyMs.Some? then Some("provider")
    else None
  }

  /** An `exec` request whose `stdin.domarinn.kind` is this text. */
  ghost predicate EnvelopeNames(request: Json, kind: string) {
    && Get(request, "transport") == Some(String("exec"))
    && exists stdin, envelope ::
         && Get(request, "stdin") == Some(stdin) && Get(stdin, "domarinn") == Some(envelope)
         && Get(envelope, "kind") == Some(String(kind))
  }

  lemma EnvelopeKindIs(request: Json, kind: string)
    ensures EnvelopeKind(request) == Some(kind) <==> EnvelopeNames(request, kind)
  {
    hide Get;
  }

  /** What each rung of the ladder says by itself, the strongest claim first. */
  ghost function Rung(e: CacheEntry, n: nat): Option<string> {
    match n
    case 0 => e.kind
    case 1 =>
      if e.verdict == Some(Rubric) then Some("judge")
      else if e.verdict == Some(ExecGrading) then Some("exec_assert")
      else if e.verdict == Some(Similarity) then Some("similar_verdict")
      else None
    case 2 =>
      if e.request.None? then None
      else if EnvelopeNames(e.request.value, "provider") then Some("provider")
      else if EnvelopeNames(e.request.value, "assert") then Some("exec_assert")
      else None
    case 3 => if exists v :: e.output == JsonOutput(Object([Member("dims", v)])) then Some("embedding") else None
    case 4 => if e.attempts == None && e.providerLatencyMs == None then None else Some("provider")
    case _ => None
  }

  ghost predicate Silent(e: CacheEntry, n: nat) {
    forall m: nat | m < n :: Rung(e, m).None?
  }

  /** An object of one member that has `dims` is that member alone. */
  lemma DimsAlone(v: Json)
    ensures (exists x :: v == Object([Member("dims", x)]))
            <==> v.Object? && |v.members| == 1 && Get(v, "dims").Some?
  {
    if v.Object? && |v.members| == 1 && Get(v, "dims").Some? {
      assert v.members == [Member("dims", v.members[0].value)];
    }
    if x :| v == Object([Member("dims", x)]) {
      assert v.members[0].key == "dims";
    }
  }

  /** The first rung that says anything decides, and only when none does is there no kind. */
  lemma FirstRungWins(e: CacheEntry)
    ensures forall n: nat | Rung(e, n).Some? && Silent(e, n) :: InferredKind(e) == Rung(e, n)
    ensures InferredKind(e).None? <==> Silent(e, 5)
  {
    hide EnvelopeKind, EnvelopeNames, Get;
    if e.request.Some? {
      EnvelopeKindIs(e.request.value, "provider");
      EnvelopeKindIs(e.request.value, "assert");
    }
    if e.output.JsonOutput? {
      DimsAlone(e.output.value);
    }
    assert e.verdict.Some? ==> e.verdict.value.Rubric? || e.verdict.value.ExecGrading? || e.verdict.value.Similarity?;
    assert Rung(e, 0) == e.kind && (Rung(e, 1).Some? <==> e.verdict.Some?);
    assert InferredKind(e).None? ==> Rung(e, 2).None? && Rung(e, 3).None? && Rung(e, 4).None?;
    forall n: nat | Rung(e, n).Some? && Silent(e, n) ensures InferredKind(e) == Rung(e, n) {
      assert n < 5;
      assert n > 0 ==> Rung(e, 0).None?;
      assert n > 1 ==> Rung(e, 1).None?;
      assert n > 2 ==> Rung(e, 2).None?;
      assert n > 3 ==> Rung(e, 3).None?;
    }
    assert InferredKind(e).Some? ==>
        Rung(e, 0).Some? || Rung(e, 1).Some? || Rung(e, 2).Some? || Rung(e, 3).Some? || Rung(e, 4).Some?;
  }

  predicate IsControl(c: char) {
    c as int < 0x20 || 0x7F <= c as int < 0xA0
  }

  function WithoutControls(s: string): string {
    if s == "" then "" else (if IsControl(s[0]) then "" else [s[0]]) + WithoutControls(s[1..])
  }

  const CLAMP_MAX := 64

  function Clamped(reason: string): string {
    var cleaned := WithoutControls(reason);
    if |cleaned| <= CLAMP_MAX then cleaned else cleaned[..CLAMP_MAX]
  }

  lemma {:induction false} WithoutControlsFixed(s: string)
    requires forall i | 0 <= i < |s| :: !IsControl(s[i])
    ensures WithoutControls(s) == s
  {
    if s == "" {
    } else {
      WithoutControlsFixed(s[1..]);
    }
  }

  lemma {:induction false} WithoutControlsClean(s: string)
    ensures forall i | 0 <= i < |WithoutControls(s)| :: !IsControl(WithoutControls(s)[i])
  {
    if s == "" {
    } else {
      WithoutControlsClean(s[1..]);
    }
  }

  /** Unicode's control characters: the first 32 code points, delete, and the 32 after it. */
  ghost predicate Cc(c: char) {
    c as int / 32 == 0 || c as int / 32 == 4 || c as int == 127
  }

  ghost predicate Rising(at: seq<int>, bound: int) {
    && (forall i | 0 <= i < |at| :: 0 <= at[i] < bound)
    && (forall i, j | 0 <= i < j < |at| :: at[i] < at[j])
  }

  /** The places whose characters are kept. */
  ghost predicate KeptAt(s: string, at: seq<int>, kept: string) {
    && Rising(at, |s|) && |kept| == |at| && (forall i | 0 <= i < |at| :: kept[i] == s[at[i]] && !Cc(s[at[i]]))
  }

  /** Every place with another character is among them. */
  ghost predicate KeepsAll(s: string, at: seq<int>) {
    forall p | 0 <= p < |s| && !Cc(s[p]) :: p in at
  }

  lemma {:induction false} WithoutControlsKeeps(s: string) returns (at: seq<int>)
    ensures KeptAt(s, at, WithoutControls(s)) && KeepsAll(s, at)
  {
    if s == "" {
      at := [];
    } else {
      var rest := WithoutControlsKeeps(s[1..]);
      var kept := WithoutControls(s[1..]);
      OneMoreKept(s, rest);
      ShiftedKept(s, rest, kept);
      hide KeptAt, KeepsAll;
      at := (if Cc(s[0]) then [] else [0]) + Shifted(rest);
      if Cc(s[0]) {
        assert at == Shifted(rest) && WithoutControls(s) == kept;
      } else {
        assert WithoutControls(s) == [s[0]] + kept;
      }
    }
  }

  lemma OneMoreKept(s: string, at: seq<int>)
    requires s != "" && KeepsAll(s[1..], at)
    ensures KeepsAll(s, (if Cc(s[0]) then [] else [0]) + Shifted(at))
  {
    hide Cc;
    var all := (if Cc(s[0]) then [] else [0]) + Shifted(at);
    forall p | 0 <= p < |s| && !Cc(s[p]) ensures p in all {
      if p > 0 {
        assert s[1..][p - 1] == s[p];
        var i :| 0 <= i < |at| && at[i] == p - 1;
        assert Shifted(at)[i] == p && Shifted(at)[i] in all;
      } else {
        assert all[0] == 0;
      }
    }
  }

  ghost function Shifted(at: seq<int>): seq<int> {
    seq(|at|, i requires 0 <= i < |at| => at[i] + 1)
  }

  lemma ShiftedKept(s: string, at: seq<int>, kept: string)
    requires s != "" && KeptAt(s[1..], at, kept)
    ensures KeptAt(s, Shifted(at), kept)
    ensures !Cc(s[0]) ==> KeptAt(s, [0] + Shifted(at), [s[0]] + kept)
  {
    hide Cc;
    assert forall i | 0 <= i < |at| :: s[1..][at[i]] == s[at[i] + 1];
    assert KeptAt(s, Shifted(at), kept);
  }

  /** The compared form is the first 64 of the characters that are not control characters, in order. */
  lemma ClampedKeeps(reason: string) returns (at: seq<int>)
    ensures |at| <= 64 && KeptAt(reason, at, Clamped(reason))
    ensures forall p | 0 <= p < |reason| && !Cc(reason[p]) && p !in at :: |at| == 64 && at[63] < p
  {
    hide WithoutControls, Cc;
    var all := WithoutControlsKeeps(reason);
    at := if |all| <= 64 then all else all[..64];
    assert forall k | 0 <= k < |at| :: at[k] == all[k];
    forall p | 0 <= p < |reason| && !Cc(reason[p]) && p !in at ensures |at| == 64 && at[63] < p {
      var i :| 0 <= i < |all| && all[i] == p;
    }
  }

  ghost predicate ShortAndClean(reason: string) {
    |reason| <= 64 && forall i | 0 <= i < |reason| :: !Cc(reason[i])
  }

  /** A short clean reason is compared as it stands. */
  lemma ShortCleanIsKept(reason: string)
    requires ShortAndClean(reason)
    ensures Clamped(reason) == reason
  {
    WithoutControlsFixed(reason);
  }

  /** The comparable form is clean and bounded, and comparing it again changes nothing. */
  lemma ClampedIsComparable(reason: string)
    ensures |Clamped(reason)| <= CLAMP_MAX
    ensures forall i | 0 <= i < |Clamped(reason)| :: !IsControl(Clamped(reason)[i])
    ensures Clamped(Clamped(reason)) == Clamped(reason)
  {
    WithoutControlsClean(reason);
    WithoutControlsFixed(Clamped(reason));
  }

  datatype PurgeFilter = PurgeFilter(
    olderThan: Option<int>, newerThan: Option<int>, emptyReason: seq<string>,
    model: Option<string>, kind: Option<string>)

  predicate IsDefault(f: PurgeFilter) {
    f.olderThan.None? && f.newerThan.None? && f.emptyReason == [] && f.model.None? && f.kind.None?
  }

  predicate IsAgeOnly(f: PurgeFilter) {
    f.emptyReason == [] && f.model.None? && f.kind.None?
  }

  predicate MatchesEntry(f: PurgeFilter, e: CacheEntry) {
    && (f.emptyReason == [] ||
        (e.emptyReason.Some? &&
         exists i :: 0 <= i < |f.emptyReason| && Clamped(f.emptyReason[i]) == Clamped(e.emptyReason.value)))
    && (f.model.None? || e.model == f.model)
    && (f.kind.None? || InferredKind(e) == f.kind)
  }

  /** A file as the walk meets it; `body` is absent when it cannot be read or does not parse. */
  datatype File = File(size: nat, modified: Option<int>, statOk: bool, body: Option<CacheEntry>, removable: bool)

  function MTime(file: File): Option<int> {
    if file.statOk then file.modified else None
  }

  predicate MatchesAge(f: PurgeFilter, now: int, file: File) {
    var mtime := MTime(file);
    && (f.olderThan.None? || (mtime.Some? && mtime.value < now - f.olderThan.value))
    && (f.newerThan.None? || (mtime.Some? && mtime.value >= now - f.newerThan.value))
  }

  predicate ShouldRemove(f: PurgeFilter, now: int, file: File) {
    if IsDefault(f) then true
    else if !MatchesAge(f, now, file) then false
    else if IsAgeOnly(f) then true
    else file.body.Some? && MatchesEntry(f, file.body.value)
  }

  /**
   * What the filter asks for, predicate by predicate: each one that is set must be answerable
   * from the file and answered yes.
   */
  ghost predicate Asked(f: PurgeFilter, now: int, file: File) {
    && (f.olderThan.Some? ==>
          file.statOk && file.modified.Some? && file.modified.value + f.olderThan.value < now)
    && (f.newerThan.Some? ==>
          file.statOk && file.modified.Some? && file.modified.value + f.newerThan.value >= now)
    && (f.emptyReason != [] ==>
          file.body.Some? && file.body.value.emptyReason.Some? &&
          exists r :: r in f.emptyReason && Clamped(r) == Clamped(file.body.value.emptyReason.value))
    && (f.model.Some? ==> file.body.Some? && file.body.value.model == f.model)
    && (f.kind.Some? ==> file.body.Some? && InferredKind(file.body.value) == f.kind)
  }

  /** The branching decision is the conjunction of the predicates that are set. */
  lemma ShouldRemoveIsTheConjunction(f: PurgeFilter, now: int, file: File)
    ensures ShouldRemove(f, now, file) <==> Asked(f, now, file)
  {
    hide InferredKind, Clamped;
    if f.emptyReason != [] && Asked(f, now, file) {
      var r :| r in f.emptyReason && Clamped(r) == Clamped(file.body.value.emptyReason.value);
      var i :| 0 <= i < |f.emptyReason| && f.emptyReason[i] == r;
    }
  }

  /** A filter on one reason selects the entries with that reason and no others. */
  lemma ReasonFilterIsEquality(want: string, now: int, file: File, e: CacheEntry, have: string)
    requires ShortAndClean(want) && ShortAndClean(have)
    requires file.body == Some(e) && e.emptyReason == Some(have)
    ensures ShouldRemove(PurgeFilter(None, None, [want], None, None), now, file) <==> want == have
  {
    hide Clamped;
    ShortCleanIsKept(want);
    ShortCleanIsKept(have);
    assert [want][0] == want;
  }

  /** And never an entry without a reason, or one that cannot be read. */
  lemma ReasonFilterNeedsAReason(f: PurgeFilter, now: int, file: File)
    requires f.emptyReason != [] && ShouldRemove(f, now, file)
    ensures file.body.Some? && file.body.value.emptyReason.Some?
  {
  }

  /** `g` names everything `f` names, at least as tightly. */
  ghost predicate Tightens(g: PurgeFilter, f: PurgeFilter) {
    && (f.olderThan.Some? ==> g.olderThan.Some? && g.olderThan.value >= f.olderThan.value)
    && (f.newerThan.Some? ==> g.newerThan.Some? && g.newerThan.value <= f.newerThan.value)
    && (f.emptyReason != [] ==> g.emptyReason != [] && forall r | r in g.emptyReason :: r in f.emptyReason)
    && (f.model.Some? ==> g.model == f.model)
    && (f.kind.Some? ==> g.kind == f.kind)
  }

  /** Adding or tightening a predicate never selects a file that was spared before. */
  lemma TighteningOnlyNarrows(g: PurgeFilter, f: PurgeFilter, now: int, file: File)
    requires Tightens(g, f) && ShouldRemove(g, now, file)
    ensures ShouldRemove(f, now, file)
  {
    hide InferredKind, Clamped;
    ShouldRemoveIsTheConjunction(g, now, file);
    ShouldRemoveIsTheConjunction(f, now, file);
  }

  /** "Everything regardless" is the default filter and no other. */
  lemma OnlyDefaultSelectsEverything(f: PurgeFilter, now: int)
    ensures IsDefault(f) <==> forall file :: ShouldRemove(f, now, file)
  {
    if !IsDefault(f) {
      assert !ShouldRemove(f, now, File(0, None, false, None, true));
    }
  }
}
