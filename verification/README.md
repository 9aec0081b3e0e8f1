# domarinn, modelled and proved in Dafny

domarinn evaluates LLM prompts and caches every call it pays for. This project models the four
places where that promise is decided, and proves what they promise for every input, every
interleaving and every run. `dafny verify dfyconfig.toml` checks all of it.

**Canonical JSON and the cache keys** (`json.dfy`, `json_round_trip.dfy`, `json_prefix.dfy`,
`json_normal_form.dfy`, `canonical.dfy`, `embedded_json.dfy`, `cache_keys.dfy`). A JSON value is what serde_json holds with
insertion-ordered maps: an object is a sequence of members with distinct names, a number is the
literal that prints it. The printer is modelled character by character with its escapes, and
beside it stands a complete reader for the grammar of sections 2 to 7 of RFC 8259. Everything about
keys rests on the two being inverse, and on the printed text being a shortest one that reads as its
value. The canonical text is the one text of an equal value with its keys in code point order; two
values print the same canonical text exactly when they differ in member order only; the live key text determines the call; the three key spaces never
meet. `extract_json` is proved to return an embedded value exactly when no proper prefix of its
text balances the outer brackets.

**Two vendor wire shapes of one transcript** (`transcript.dfy`, `wire_shapes.dfy`, `wire_messages.dfy`). `plan` walks
the messages once with the ids of the open round in hand. Its reference is a definition without a
walk: what the id of message `k` is, from the positions around it. The two are equal, and the
emitted Anthropic and OpenAI bodies both read back as the story the positions dictate. Beside that,
every message of either body is stated name by name.

**The store as a protocol** (`put_protocol.dfy`, `overlapping_reads.dfy`, `purge_filter.dfy`,
`disk_store.dfy`, `tiers.dfy`, `probe.dfy`). Concurrent `put`s are a state machine with one
filesystem operation per step and any step free to fail. The walks are methods over a directory
listed in any order. The tier stack runs against a remote that answers whatever it likes, twice: once
with any nesting of tiers and one operation after another, once with a disk in front and every read
and write broken into steps that interleave with all others. The migration probe is a state machine
over its atomic accesses.

**Translating and judging assertions** (`regex.dfy`, `importer.dfy`, `verdict.dfy`). A small regex
syntax with a reader and a matching relation shows what an escaped alternation means. The
`tool-call` verdict is characterised without reference to the order of the calls.

## Where the code does not do what its words say

- *First write wins* (`crates/domarinn-cache/src/disk.rs:141-144`). A `put` that passed its existence
  check before another one renamed will overwrite it: `RaceIsReachable` gets there from any store
  without the entry. `EntryIsFinalIffNobodyRaces` says exactly when an entry can no longer change:
  when no call with other bytes for its key sits between its check and its rename. A call that
  checks later never renames, whoever is racing (`LateCheckNeverRenames`).
- *Populate local so the next read is served locally* (`crates/domarinn-cache/src/layered.rs:4-5`). A
  populate may fail and is then only logged: `FailedPopulateBreaksStability` has two reads that
  answer differently, and `ReadIsFinalIffPopulated` the exact condition. Two reads that overlap can
  also be answered differently by the remote: `OverlappingReadIsNotFinal` and
  `LateReadDisagreesWithTheDisk` are the two ways this shows, each from any store without the entry,
  and `LaterReadsAgreeIffSettled` is the exact condition.
- *A regex alternation is the exact equivalent of `contains-any`*
  (`crates/domarinn-cli/src/import.rs:639-640`). For an empty list the pattern is empty and matches
  every text. `ContainsAnyKeepsItsMeaning` has the exact condition: the list is not empty.
- *The first balanced JSON object or array* (`crates/domarinn-core/src/asserts.rs:455`). The scan
  counts brackets inside strings. `EmbeddedRecovery` has the exact condition, `CleanRecovery` a
  simple sufficient one, and `BracketInStringIsLost` an input that fails.
- *At most `PROBE_BUDGET` probes* (`crates/domarinn-core/src/cache_adopt.rs:19-27`). The 64-bit counter
  wraps after 2^63 + 9 decrements and grants again. `BudgetHoldsUntilTheCounterWraps` is an
  if-and-only-if on that number, and `BudgetIsOverspent` has a run for every count beyond it.

## Model

| member | source | states |
|---|---|---|
| `JsonRoundTrip.ReadPrinted` | crates/domarinn-core/src/cache.rs:68-102 | reading a printed value followed by any text yields that value and leaves exactly that text |
| `JsonRoundTrip.ParsePrinted` | crates/domarinn-core/src/chat_wire.rs:272-278 | parsing a value's own compact text gives the value back, members in the order held |
| `JsonNormalForm.PrintedIsShortest` | crates/domarinn-core/src/cache.rs:60-102 | whatever text parses, its value is valid, prints to a text that parses to it again, and no text of that value is shorter than the printed one |
| `JsonNormalForm.EscapesAreLowercase` | crates/domarinn-core/src/cache.rs:73-76 | only a control character has a long escape, and its digits are lowercase |
| `JsonPrefix.ReadValueExtends` | crates/domarinn-core/src/asserts.rs:456-475 | reading never looks past the end of a value: appended text is left over untouched, unless a number can grow |
| `Canonical.WriteCanonical` | crates/domarinn-core/src/cache.rs:68-102 | the appending recursion with sorted keys appends the text of an equal value whose keys ascend at every depth in the order of their first differing code point |
| `Canonical.WriteArray` | crates/domarinn-core/src/cache.rs:77-86 | the array loop appends the items in order, separated by commas |
| `Canonical.WriteObject` | crates/domarinn-core/src/cache.rs:87-100 | sorting the keys and looking each one up prints the members of the sorted object in turn |
| `Canonical.CanonicalRoundTrip` | crates/domarinn-core/src/cache.rs:60-66 | the canonical text parses, whole, to the value with keys sorted at every depth |
| `Canonical.CanonicalKeysAscend` | crates/domarinn-core/src/cache.rs:60-102 | the canonical text parses to an equal value in which, at every depth, each key ends before the next or has the smaller code point where they first differ |
| `Canonical.CanonicalTextUnique` | crates/domarinn-core/src/cache.rs:60-102 | any equal value with keys in that order prints exactly the canonical text |
| `Text.LessIsFirstDifference` | crates/domarinn-core/src/cache.rs:87-90 | the order that sorts keys is decided by the first differing code point, a proper prefix first |
| `Canonical.CanonicalTextDecidesEquiv` | crates/domarinn-core/src/cache.rs:20-30 | two values have one canonical text if and only if they are equal up to member order at every depth |
| `Canonical.EquivIsSortedEquality` | crates/domarinn-core/src/cache.rs:60-102 | equality up to member order is equality of the key-sorted forms |
| `EmbeddedJson.ExtractJson` | crates/domarinn-core/src/asserts.rs:455-475 | a text that is JSON stands for itself; otherwise the result is the reading of the shortest balanced slice from the first bracket, or nothing |
| `Text.TrimCuts` | crates/domarinn-core/src/asserts.rs:456-457 | trimming cuts off whitespace only, and what is left neither starts nor ends with it |
| `EmbeddedJson.EmbeddedRecovery` | crates/domarinn-core/src/asserts.rs:456-475 | a canonical object or array inside prose is recovered if and only if no proper prefix of its text balances its outer brackets |
| `EmbeddedJson.CleanRecovery` | crates/domarinn-core/src/asserts.rs:456-475 | it is recovered, up to member order, whenever its strings and keys hold neither outer bracket |
| `EmbeddedJson.BracketInStringIsLost` | crates/domarinn-core/src/asserts.rs:464-473 | an array holding a closing bracket in a string is not recovered |
| `CacheKeys.HexLower` | crates/domarinn-core/src/cache.rs:51-58 | each byte is two digits, high half first and lowercase, that a hex reader turns back into the byte |
| `CacheKeys.HexOfInjective` | crates/domarinn-core/src/cache.rs:51-58 | different digests have different hex texts |
| `CacheKeys.ValidKeysAreDigests` | crates/domarinn-core/src/cache.rs:33-42 | a text is a well-formed key if and only if it is the prefix and the hex of some 32 bytes |
| `CacheKeys.KeyIsDigest` | crates/domarinn-core/src/cache.rs:24-42 | a computed key is well formed, and two agree exactly when the digests of the canonical texts agree |
| `CacheKeys.RequestCacheKey` | crates/domarinn-core/src/cache_key.rs:82-100 | the object built in place, salts inserted only when set, is the one the key is defined over |
| `CacheKeys.LiveLookups` | crates/domarinn-core/src/cache_key.rs:88-98 | request, repeat and each salt sit under their own names, an unset salt under none |
| `CacheKeys.LiveHasNoOtherMember` | crates/domarinn-core/src/cache_key.rs:88-98 | the hashed object has no member beside those four |
| `CacheKeys.LiveTextDecidesCall` | crates/domarinn-core/src/cache_key.rs:60-100 | two live texts are equal if and only if the requests agree up to member order and repeat and both salts agree, unset, empty and split salts all kept apart |
| `CacheKeys.LegacyProviderKey` | crates/domarinn-core/src/cache_migrate.rs:103-134 | the legacy object built in place, tools and salt inserted only when set |
| `CacheKeys.ProviderMembers` | crates/domarinn-core/src/cache_migrate.rs:103-134 | each part of the call sits under its own name; empty tools and an unset salt leave no member |
| `CacheKeys.ProviderHasNoOtherMember` | crates/domarinn-core/src/cache_migrate.rs:103-134 | the hashed object has no member beside those seven |
| `CacheKeys.LegacyProviderTextDecidesCall` | crates/domarinn-core/src/cache_migrate.rs:103-134 | two legacy provider texts are equal if and only if all seven parts agree, an absent prompt counting as null |
| `CacheKeys.LegacyVerdictTextDecidesCall` | crates/domarinn-core/src/cache_migrate.rs:150-157 | two legacy verdict texts are equal if and only if judge, graded document and repeat agree |
| `CacheKeys.VerdictMembers` | crates/domarinn-core/src/cache_migrate.rs:150-157 | the kind is `grader-verdict`, judge, document and repeat sit under their own names, and there is no other member |
| `CacheKeys.KeySpacesDisjoint` | crates/domarinn-core/src/cache_key.rs:76-100 | no text is in two of the live, legacy provider and legacy verdict spaces |
| `CacheKeys.LegacyExecFingerprints` | crates/domarinn-core/src/cache_migrate.rs:368-409 | newest first, with the program by content and then by stat; the two shapes without an environment only when none is declared; each is of type `exec` with the command word by word and the salt, and stands for the declared environment |
| `CacheKeys.EnvironmentsNeverShareAProbe` | crates/domarinn-core/src/cache_migrate.rs:374-409 | probes under different declared environments, or one declared and one not, never have one hashed text, whatever the requests |
| `Transcript.Plan` | crates/domarinn-core/src/chat_wire.rs:53-100 | one pass in maximal groups; every call keeps its own id or gets `domarinn_call_<message>_<nth>`; a result keeps its own id, else has the id of the call at its place in the turn that called last, else gets one invented for its place |
| `Transcript.PlanResolvesEveryMessage` | crates/domarinn-core/src/chat_wire.rs:46-100 | flattened, the plan is the transcript message by message, each call and result with the id its position dictates |
| `Transcript.PlanWellGrouped` | crates/domarinn-core/src/chat_wire.rs:53-100 | results runs are non-empty, hold tool turns only and are never adjacent; call turns name every call |
| `Transcript.SyntheticInjective` | crates/domarinn-core/src/chat_wire.rs:42-44 | invented ids of different positions differ |
| `Transcript.CallIdsDistinct` | crates/domarinn-core/src/chat_wire.rs:85-97 | with distinct explicit ids none of which looks invented, all call ids differ |
| `Transcript.ResultIdsDistinct` | crates/domarinn-core/src/chat_wire.rs:62-84 | with no explicit result ids, all result ids differ |
| `Transcript.ResultSharesIdWithItsCallOnly` | crates/domarinn-core/src/chat_wire.rs:62-84 | a result carries a call's id if and only if that call has its position in the latest call turn no earlier run consumed |
| `WireMessages.AnthropicMessages` | crates/domarinn-core/src/chat_wire.rs:107-162 | every message in the body, name by name: roles in words, prose as a string or as blocks, calls with id, name and input, each run of results in one user message at its place; plain system texts hoisted in order and joined by a blank line, and nothing else |
| `WireMessages.OpenaiMessages` | crates/domarinn-core/src/chat_wire.rs:211-250 | message `k` of the body says what message `k` of the transcript says, name by name: its role in words, its text or null, its calls as functions with id, name and argument string, its result id, and nothing else |
| `WireShapes.ContentTextOfBlocks` | crates/domarinn-types/src/types.rs:179-199 | the texts of the text blocks in order with a line break between two, and nothing for anything else |
| `WireShapes.EmittedBlocksReadBack` | crates/domarinn-core/src/anthropic.rs:350-365 | the inbound parser on emitted blocks returns the calls in order with ids and arguments, null as an empty object, whatever text or thinking is beside them |
| `WireShapes.EmittedBlocksKeepProse` | crates/domarinn-core/src/chat_wire.rs:177-204 | text and thinking survive in order beside the calls; only blank prose is dropped |
| `WireShapes.FunctionCallReadsBack` | crates/domarinn-core/src/openai.rs:288-310 | the inbound OpenAI parser returns the same call, arguments decoded from their string |
| `WireShapes.CallMessageReadsBack` | crates/domarinn-core/src/chat_wire.rs:218-237 | an OpenAI call turn reads back as its calls, with its prose as content, null when there is none |
| `WireShapes.VendorsAgree` | crates/domarinn-core/src/chat_wire.rs:107-250 | both vendors read back the same calls and results, with the same ids, names, decoded arguments and texts, in the same order |
| `WireShapes.VendorsTellThePositionalStory` | crates/domarinn-core/src/chat_wire.rs:46-250 | that common story is the one the positions in the transcript dictate |
| `WireShapes.OpenaiOnePerMessage` | crates/domarinn-core/src/chat_wire.rs:211-250 | one OpenAI message per input message, each fixed by its own position |
| `WireShapes.AnthropicMessagesShape` | crates/domarinn-core/src/chat_wire.rs:107-162 | every turn is one message or one hoisted system text, and roles are user or assistant only |
| `WireShapes.PlainTranscriptUnchanged` | crates/domarinn-core/src/chat_wire.rs:107-217 | a transcript without tools or blocks maps message by message, system turns hoisted for Anthropic |
| `PutProtocol.TempPathUnique` | crates/domarinn-cache/src/disk.rs:311-320 | temp names coincide only for one key, process and counter value, and never with an entry |
| `PutProtocol.PathForInjective` | crates/domarinn-cache/src/disk.rs:35-40 | different valid keys have different paths |
| `PutProtocol.StepKeepsInv` | crates/domarinn-cache/src/disk.rs:139-170 | no step of any call, failing or not, breaks the protocol's invariant |
| `PutProtocol.ConcurrentPutsAreSafe` | crates/domarinn-cache/src/disk.rs:139-170 | in every interleaving each entry is the complete bytes of one put for its key, and a put that returned Ok left its key present |
| `PutProtocol.CallCanFinish` | crates/domarinn-cache/src/disk.rs:139-170 | from every state every put can be run to its return, whether its steps work or fail: none waits for another |
| `PutProtocol.PresentMeansOk` | crates/domarinn-cache/src/disk.rs:158-169 | a put whose entry is on disk returns Ok in every run in which its own directory, write and recheck work, even if its rename fails |
| `PutProtocol.ErrorsHaveACause` | crates/domarinn-cache/src/disk.rs:139-170 | a put returns an error exactly at a failed directory, write or recheck, or at a lost rename with nothing in its place |
| `PutProtocol.EntryIsFinalIffNobodyRaces` | crates/domarinn-cache/src/disk.rs:141-170 | with working checks an entry can never change again if and only if no put with other bytes for its key is between its check and its rename |
| `PutProtocol.LateCheckNeverRenames` | crates/domarinn-cache/src/disk.rs:141-170 | once an entry is on disk, a put that has not checked yet, or has not even been called, never renames over it in any run with working checks, whoever else is racing |
| `PutProtocol.OnlyRacersReplace` | crates/domarinn-cache/src/disk.rs:141-170 | whatever replaces an entry in any run with working checks was carried by a put already past its check when the entry was there |
| `PutProtocol.RaceIsReachable` | crates/domarinn-cache/src/disk.rs:141-170 | from any store without the entry, two puts with different bytes reach a state in which the entry is there and can still be replaced |
| `PutProtocol.RunsStayLaidOut` | crates/domarinn-cache/src/disk.rs:139-170 | every run leaves entries at their own paths and temp files, nothing else |
| `OverlappingReads.StepKeepsInv` | crates/domarinn-cache/src/layered.rs:37-58 | no event of any read or write, failing or not, breaks the invariant of the store and of the reads in flight |
| `OverlappingReads.AnswersAreWhole` | crates/domarinn-cache/src/layered.rs:37-58 | however reads and writes overlap, an answer is all the bytes of one put or populate for its key, or what the store started with, never part of an entry |
| `OverlappingReads.LaterReadsAgreeIffSettled` | crates/domarinn-cache/src/layered.rs:37-68 | in every interleaving with working checks all reads asked from now on answer these bytes, if and only if the disk holds them and no put or populate with others is between its check and its rename |
| `OverlappingReads.OverlappingReadIsNotFinal` | crates/domarinn-core/src/runner.rs:4-6 | two overlapping reads that the remote answers differently: the first answers what the disk holds and a later read can answer something else |
| `OverlappingReads.LateReadDisagreesWithTheDisk` | crates/domarinn-cache/src/layered.rs:44-52 | the second of two such reads can answer one entry while the disk holds the other, which every later read answers |
| `PurgeFilters.InferredKind` | crates/domarinn-core/src/cache.rs:411-474 | a stated kind is never overruled, a stored verdict names its judge, and there is no kind only without verdict, attempt count and latency |
| `PurgeFilters.FirstRungWins` | crates/domarinn-core/src/cache.rs:411-474 | of the five sources of a kind, from the stated one to the attempt count, the first that says anything decides, and there is no kind if and only if all are silent |
| `PurgeFilters.ClampedIsComparable` | crates/domarinn-types/src/empty.rs:75-90 | the compared form of a reason is free of control characters, bounded, and its own compared form |
| `PurgeFilters.ClampedKeeps` | crates/domarinn-types/src/empty.rs:75-90 | the compared form is the first 64 of the characters that are not control characters, in order, position by position |
| `PurgeFilters.ReasonFilterIsEquality` | crates/domarinn-core/src/cache.rs:575-592 | a filter on one short clean reason selects an entry with a short clean reason if and only if the two are equal |
| `PurgeFilters.ShouldRemoveIsTheConjunction` | crates/domarinn-cache/src/disk.rs:257-300 | a file is selected if and only if every predicate that is set can be answered from it and holds |
| `PurgeFilters.TighteningOnlyNarrows` | crates/domarinn-core/src/cache.rs:538-608 | adding or tightening a predicate never selects a file spared before |
| `PurgeFilters.OnlyDefaultSelectsEverything` | crates/domarinn-core/src/cache.rs:546-552 | a filter selects every possible file if and only if it is the default one |
| `DiskStore.LocalDiskCache.Purge` | crates/domarinn-cache/src/disk.rs:224-308 | in any walk order exactly the doomed files go, and the count returned is theirs |
| `DiskStore.LocalDiskCache.Stats` | crates/domarinn-cache/src/disk.rs:172-206 | the number and total size of the counted files, in any walk order |
| `DiskStore.LocalDiskCache.Enumerate` | crates/domarinn-cache/src/disk.rs:56-120 | for any store and any walk order: the first `limit` listable files, each line the key, size and time of a file, later times first, unknown times last and equal times by key; a line for each file and none invented, nothing left out that comes before a line kept, truncation exactly when there are more; in a store laid out by put, its one listing; and how many names were scanned |
| `DiskStore.WindowIsListing` | crates/domarinn-cache/src/disk.rs:56-120 | in a store laid out by put what enumerate returns is the strictly ordered listing of the set of entries |
| `DiskStore.ListingUnique` | crates/domarinn-cache/src/disk.rs:107-120 | a set of entries has one listing for a limit, so the walk order cannot show |
| `DiskStore.FullListingNamesTheStore` | crates/domarinn-cache/src/disk.rs:74-105 | with room for all, the listing is not truncated and names exactly the stored keys |
| `DiskStore.PurgeIsExact` | crates/domarinn-cache/src/disk.rs:224-308 | with removals succeeding an entry is gone if and only if every predicate set holds of it |
| `DiskStore.PurgeSparesTempFiles` | crates/domarinn-cache/src/disk.rs:252-256 | temp files of writers in flight survive every purge |
| `DiskStore.TighterPurgeRemovesLess` | crates/domarinn-core/src/cache.rs:538-608 | a tighter filter removes a subset |
| `DiskStore.PurgeConservesStats` | crates/domarinn-cache/src/disk.rs:172-308 | entries and bytes lost by stats are those purge took |
| `DiskStore.LaidOutNames` | crates/domarinn-cache/src/disk.rs:35-40 | in a laid-out store the three name tests of the three walks agree and a name is its key |
| `DiskStore.NameTests` | crates/domarinn-cache/src/disk.rs:74-95 | what each walk takes for an entry: any name ending in `.json`, one with something before it, and one that is a key |
| `Tiers.CacheStack.Get` | crates/domarinn-cache/src/layered.rs:37-58 | the read-through of every nesting of tiers, remote errors as misses, populate errors ignored; nothing stored changes where existence checks work, and a healthy stack holds what it answered |
| `Tiers.CacheStack.Put` | crates/domarinn-cache/src/layered.rs:60-68 | local first and authoritative, remote best-effort, read-only tiers untouched; a failing existence check overwrites; on a healthy stack the key is there afterwards |
| `Tiers.CacheStack.Stats` | crates/domarinn-cache/src/layered.rs:70-72 | the local tier's count |
| `Tiers.CacheStack.Purge` | crates/domarinn-cache/src/layered.rs:74-76 | the local tier only; a read-only tier refuses and reports zero; a removal that fails leaves its entry, and a walk that fails keeps what it removed; what is reported is what the primary disk lost |
| `Tiers.GetSettles` | crates/domarinn-cache/src/layered.rs:37-58 | a healthy stack answers what its primary disk holds, and what it answers is held there afterwards |
| `Tiers.PutLands` | crates/domarinn-cache/src/layered.rs:60-68 | a write to a healthy stack succeeds and the key is on the primary disk, an earlier entry kept |
| `Tiers.PutIsSent` | crates/domarinn-cache/src/layered.rs:60-68 | a write goes to every remote once, unless the local write failed: then it fails and goes to none |
| `Tiers.ReadsSendNothing` | crates/domarinn-cache/src/layered.rs:37-58 | in the stacks `build_cache` makes, a read sends nothing to a remote |
| `Tiers.ReadOnlyTier` | crates/domarinn-cache/src/readonly.rs:28-53 | a read-only tier reads as the tier inside it, takes a write for done and a purge for nothing done |
| `Tiers.ReadsAreStable` | crates/domarinn-cache/src/layered.rs:37-68 | one operation after another on a healthy stack: once a read has answered an entry every later read answers it, whatever operations run between and whatever the remote does, until a purge takes the key |
| `Tiers.WritesAreStable` | crates/domarinn-cache/src/layered.rs:37-68 | one operation after another on a healthy stack: once a write has returned, all later reads answer the first entry stored |
| `Tiers.AnswerIsFinalIffHeld` | crates/domarinn-cache/src/layered.rs:37-68 | every later read answers an entry, under every remote and every run with a healthy primary disk, if and only if that disk holds it now |
| `Tiers.ReadIsFinalIffPopulated` | crates/domarinn-cache/src/layered.rs:37-58 | under any faults at all, what a read answered is what every later read answers if and only if the key was there already or populating did not fail |
| `Tiers.FailedPopulateBreaksStability` | crates/domarinn-cache/src/layered.rs:45-50 | when populating fails two reads of one key can answer differently |
| `Tiers.BuildCache` | crates/domarinn-cli/src/cachecfg.rs:72-108 | the nesting: the new root is primary and the only disk written, the legacy store is read-only directly behind it, the remote outermost when selected and reachable; which remote is selected |
| `Tiers.LegacyStoreIsNeverWritten` | crates/domarinn-cache/src/readonly.rs:28-53 | over every run of get, put, stats and purge the legacy store stays as found |
| `Tiers.LegacyHitMovesToTheRoot` | crates/domarinn-cli/src/cachecfg.rs:84-91 | an entry the legacy store has and the new root lacks is answered from the legacy store, and from then on by the new root alone, through every run that does not purge it |
| `Tiers.StatsChangesNothing` | crates/domarinn-cache/src/layered.rs:70-72 | counting changes no disk and counts the primary one |
| `Tiers.PurgeReachesPrimaryOnly` | crates/domarinn-cache/src/layered.rs:74-76 | a purge changes no other disk and takes only what is doomed |
| `Tiers.PurgeReportsWhatItTook` | crates/domarinn-cache/src/layered.rs:74-76 | an entry goes from the primary disk if and only if it is doomed and can be removed, and the count reported is what that disk lost |
| `Probe.StepKeepsInv` | crates/domarinn-core/src/cache_adopt.rs:62-77 | every atomic access keeps the relation between counter, calls and grants |
| `Probe.BudgetHoldsUntilTheCounterWraps` | crates/domarinn-core/src/cache_adopt.rs:60-72 | in every interleaving the counter grants at most eight if and only if at most 2^63 + 9 calls reached it |
| `Probe.BudgetIsOverspent` | crates/domarinn-core/src/cache_adopt.rs:60-72 | for every count beyond 2^63 + 9 some run has that many counted calls and grants more than eight |
| `Probe.UnadoptedRunSpendsTheBudget` | crates/domarinn-core/src/cache_adopt.rs:60-72 | with nothing adopted, N returned calls got exactly min(N, 8) grants |
| `Probe.AdoptionGrantsLaterCalls` | crates/domarinn-core/src/cache_adopt.rs:66-70 | a call that starts after an adoption is granted in every interleaving |
| `Probe.DisabledNeverGrants` | crates/domarinn-core/src/cache_adopt.rs:50-65 | a disabled probe grants nothing |
| `Probe.MigrationProbe.ShouldProbe` | crates/domarinn-core/src/cache_adopt.rs:62-72 | one uninterrupted call is its steps in a row, with the same answer and the same state |
| `Regexes.LiteralAlternation` | crates/domarinn-core/src/asserts.rs:275-282 | an alternation of literals matches a text if and only if the text contains one of them |
| `Importer.RegexEscape` | crates/domarinn-cli/src/import.rs:526-535 | the loop escapes character by character |
| `Importer.PatternCompiles` | crates/domarinn-cli/src/import.rs:641-648 | the joined escaped alternation reads as the alternation of exactly those literals, metacharacters and empty values included |
| `Importer.ContainsAnyKeepsItsMeaning` | crates/domarinn-cli/src/import.rs:639-648 | the regex means "contains one of the values" if and only if there is a value |
| `Importer.SplitCommasInverse` | crates/domarinn-cli/src/import.rs:548 | the pieces of a comma-separated list join back to it and hold no comma |
| `Importer.StringListIs` | crates/domarinn-cli/src/import.rs:538-551 | an array of strings and numbers is the list of their texts, a string that of its trimmed pieces, and nothing else is a list |
| `Importer.ConvertAssert` | crates/domarinn-cli/src/import.rs:556-598 | what each `contains-any` or `contains-all` becomes, with a weight of any kind, exactly when it is skipped, and which list its value stands for |
| `Importer.ConversionPreservesMeaning` | crates/domarinn-cli/src/import.rs:639-671 | the converted assertions all pass exactly when promptfoo's would, negated or not, for every list but an empty `contains-any` |
| `Importer.SplitSharesTheWeight` | crates/domarinn-cli/src/import.rs:579-597 | splitting a `contains-all` gives every part the same weight and neither creates nor loses any, and a weight that is no number is carried over unchanged |
| `Verdicts.EvaluateToolCall` | crates/domarinn-core/src/asserts.rs:322-367 | with its early exits it passes if and only if some named call satisfies the constraints, and is unevaluable if and only if some named call meets a broken one |
| `Verdicts.MatchDecides` | crates/domarinn-core/src/asserts.rs:178-226 | the checks on one call decide "satisfied" and "cannot be judged" |
| `Verdicts.NegateAndGuard` | crates/domarinn-core/src/asserts.rs:135-148 | a broken assertion never passes under either polarity; otherwise verdict and score are flipped exactly by negation, less the pass of a negated assertion on an answer with no calls, a reason and no visible character |
| `Verdicts.EvaluateLocal` | crates/domarinn-core/src/asserts.rs:230-245 | a negated tool-call is judged on the calls made whatever was said; with no calls, a reason and an output of whitespace, `null`, `[]` or `{}` no negated assertion on the output passes; with a visible character the guard changes nothing; metric assertions are exempt |
| `Verdicts.VerdictIgnoresCallOrder` | crates/domarinn-core/src/asserts.rs:322-367 | permuting the reported calls changes neither pass nor unevaluable under either polarity |

## Left out

- Number values: a number is the literal that prints it, so float formatting, range errors and `-0.0 == 0.0` are not captured.
- The JSON parser's recursion limit of 128: the reader has no depth bound.
- `extract_json` scans bytes with a 32-bit depth; here it scans characters with an unbounded one, which agrees because brackets are ASCII.
- SHA-256 is a parameter; statements about keys are about the text that is hashed.
- The `program` arrays of `legacy_programs`, and the judge fingerprint and graded payload builders, are parameters.
- Directory errors (an unreadable root or shard) in the walks; an unreadable file, a failed stat and a failed removal are modelled.
- A second process with the same process id on a shared filesystem, and the 64-bit wrap of the temp-name counter.
- Tiers.ReadsAreStable: each operation on the stack is one step; reads and writes that overlap are in `overlapping_reads.dfy`, for a disk with anything behind it.
- OverlappingReads.LaterReadsAgreeIffSettled: no purge runs among the reads and writes, and the tiers behind the disk are one arbitrary answer.
- The remote tiers' own clients (HTTP, S3, server): a remote is an arbitrary answer at every access; its stats and purge are never reached through the stack and only reported as errors here.
- Tiers.PurgeReachesPrimaryOnly: the filter is the set of keys it selects; what a filter selects is in `purge_filter.dfy`.
- Weak-memory effects of `Relaxed` atomics: accesses are sequentially consistent steps.
- Regex classes, counted repetition and flags read as failure, and the crate's size limits are not modelled; the importer emits none of them.
- The other assertion kinds of `evaluate_kind` enter as their raw outcome; `details` and the wording of reasons are not modelled.
- Importer.ConvertAssert: the `contains-any` and `contains-all` arms only, and a skipped assertion's note is not modelled.
- The template engine and the JSON Schema validator: rendering gives a value or an error independent of the call, a schema compiles or not independent of the call.
- The runner, LLM grading, statistics, diffing, rendering, server, web UI and CLI parsing.
