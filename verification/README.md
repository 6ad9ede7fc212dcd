# Proofs about the Fugle market data SDK

A Dafny model of the parts of this repository whose behaviour is hard to see from one
function, with proofs of what they are for:

- **Failed connects** (`js/main.js`): promises, reactions and the microtask queue as a state
  machine over ECMA-262's PerformPromiseThen and TriggerPromiseReactions; for every run, a
  connect failure is silent exactly where the four rules in that file say it is.
- **CI coverage** (`scripts/check-ci-coverage.py`): the text the glob-to-regex translator emits is
  read by Python as it was meant and means the glob, the last matching pattern decides, the
  pull-request gate is the least call-closed set, and the crate traversal returns the files of
  exactly the reachable crates.
- **UniFFI wire format and handle table** (`bindings/cpp`): round trips with any suffix, exact
  sizes, host byte order, and callbacks that reach the listener they were registered for.
- **Release versions** (`scripts/release-versions.py`): SemVer and PEP 440 spellings, version
  slots as a lens on texts, several of them composed in one file, and a bump that is all or
  nothing wherever it fails.
- **Request framing** (`core/benches/rest_decode.rs`): a fixed buffer compacted in place
  answers as if the whole stream had been split at once, however it is cut.
- **Migration** (`migration/migrate-python.py`): the rewrite keeps meaning under an exact
  condition, is idempotent, and reports truthfully whether it changed anything.
- **Mock server** (`benchmarks/ws/ws-mock-server.js`): every connection's trace is a prefix of
  one fixed trace, and the timer refines the burst.

Where the source keeps state, the model does: promises, `seen`, streams and their buffers, the
handle table, repository files, the transformer and a connection are classes whose methods
follow the source's loops and assignments. Each method is proved against a function or a
transition relation, and the theorems are lemmas about those.

The properties that turned out not to hold on all inputs are stated with the condition under
which they do, and shown to fail without it:

- an error that `f` throws in `connect().then(f).then(g)` surfaces unless it is itself swallowed
  when the marking reaction runs (`ConnectChains.ThrownThroughChain`, `ConnectLostError.ThrownErrorLost`);
- a translated glob means the glob if its bracketed parts are classes (`CiGlob.SupportedExactly`,
  `CiGlob.BracketsRunTogether`, `CiGlob.SingleBracket`), up to newlines (`CiGlob.NewlinesMean`);
- a value comes back from Rust if and only if its lengths fit an int32 (`WireProofs.RoundTripExactly`,
  `WireConverters.LowerThenLift`, `WireErrors.LongErrorsCollide`), and a handle reaches its listener
  if and only if it was free or already that listener's (`HandleMap.RoutesUntilFreed`,
  `HandleMap.WrappedHandleMisroutes`);
- SEMVER takes a final newline, which its translation loses (`Semver.NewlineIsLost`);
- a version slot reads back what was written, in every text, if and only if the value does not break
  it (`SlotBreaks.HoldsExactly`, `SlotBreaks.CommaBreaks`), which no value does to a row of the tool's
  tables (`SlotTable.NoRowBreaks`);
- a rewrite of a capture made of version characters keeps another slot's match if and only if it has
  no character there (`SlotKept.KeptExactly`, `SlotOverlap.OverlapDestroys`), and other captures may
  hide one (`SlotKept.DirtyCaptureHides`);
- a request longer than the buffer ends its connection (`Framing.SizeShows`);
- the migration keeps a program's meaning if and only if no argument it takes is starred or bare and
  no word leans on parentheses it drops (`Migration.PreservesMeaning`, `Migration.StarIsLost`,
  `Migration.BareArgumentBreaks`, `Migration.TightWordBreaks`);
- a connection can finish if and only if the rate is not negative or there is nothing to send
  (`MockServer.CanFinish`).

Files: `PromiseMachine`, `PromiseInvariant`, `ConnectPromises`, `ConnectChains`, `ConnectRules`,
`ConnectLostError`, `ConnectRuntime`; `PyRegex`, `CiGlob`, `CiGate`, `CiCrates`; `Bytes`, `Wire`, `WireProofs`,
`WireErrors`, `WireBytes`, `WireStream`, `WireConverters`, `HandleMap`; `Semver`, `Slots`, `SlotReading`, `SlotBreaks`, `SlotRegions`,
`SlotLaws`, `SlotTable`, `SlotLayout`, `SlotFits`, `SlotSites`, `SlotOverlap`, `SlotKept`, `SlotRows`,
`SlotLines`, `Bump`, `BumpRun`, `BumpSlots`; `Framing`; `Migration`; `MockServer`; `Wrappers`.
`dafny verify dfyconfig.toml` checks them all.

## Model

| member | source | states |
|---|---|---|
| ConnectRules.ConnectReportedExactly | js/main.js:33-48 | In every run that ends with an empty queue, a connect() that failed with r is reported if and only if nobody called `then` on it and not: r is an Error, its code is not 2011, and the client had a listener when connect() was called or when the rejection arrived, both counts as last set by the run's own actions |
| ConnectRules.ChainIsSilent | js/main.js:33-48 | If that holds of the failure, it has reached, unreported, every promise chained to the connect(): returned by calls of `then` without a rejection handler alone, any number of them |
| ConnectRules.OnlyFailuresAreSilent | js/main.js:50-63 | And nothing else is silent: with an empty queue, a rejection that is not reported although nobody called `then` on its promise is on a promise chained to a connect(), and its reason is a connect failure of which rules 3 and 4 hold |
| ConnectRules.CalledExactly | js/main.js:82-96 | At every moment, user code has called `then` on a promise if and only if a step of the run did |
| ConnectRules.LinksExactly | js/main.js:82-96 | A promise is recorded as returned by a call of `then`, with its parent and its handlers, if and only if a step made that call |
| ConnectRules.HandlerDecides | js/main.js:84 | When the reaction that `then` registered runs, the handler for the settlement decides what becomes of the derived promise: fulfilled if it returns, rejected with what it throws, open if it returns a promise; without one the settlement passes on unchanged |
| ConnectPromises.Completeness | js/main.js:82-123 | In every run, once the queue is empty, each promise reached from a connect() through handler-less `.then` alone, however many and whenever called, is rejected with that very failure and not reported, if the failure is an Error other than 2011 and there was a listener at the call or at the rejection |
| ConnectPromises.Soundness | js/main.js:82-96 | At every moment of every run, a promise that was marked handled is connect()'s own or derived from it by handler-less `.then` alone, and the rejection that reached it is a swallowed reason |
| ConnectPromises.SwallowedReasons | js/main.js:111-119 | A swallowed reason is the failure of some connect(), an Error, not 2011, with a listener at call or rejection |
| ConnectPromises.MarkedIsPropagated | js/main.js:87-92 | When the queue drains, a marked promise is rejected with a swallowed reason, the one its parent was rejected with |
| ConnectPromises.ThrownErrorsSurface | js/main.js:51-53 | A promise whose parent was fulfilled is never marked: an error thrown by `f` is reported unless user code called `then` on it |
| ConnectChains.ThrownThroughChain | js/main.js:51-53 | Once the queue is empty, an error that `f` threw has reached the end of every handler-less chain below; if nobody called `then` there, it is reported if and only if it was not swallowed when the marking reaction of that promise ran, and every chained promise below has had its run |
| ConnectChains.RejectionReported | js/main.js:82-96 | The same for any rejection, wherever in a chain it starts: it reaches every promise below, and each is reported if and only if user code did not call `then` on it and no marking reaction ran on it with the reason swallowed |
| ConnectChains.MarkerRan | js/main.js:87-92 | Once the queue is empty, the marking reaction of every chained promise with a settled parent has run, on the parent's settlement |
| ConnectChains.MarkedBySilencing | js/main.js:87-92 | At every moment of every run, a promise that `then` returned is marked if and only if some step ran its marking reaction on a reason that was swallowed then |
| ConnectChains.StepOnward | js/main.js:82-125 | No step loses a job or a reaction, except the job it runs |
| ConnectLostError.ThrownErrorLost | js/main.js:51-53 | A run of two connects in which `f` throws the first one's swallowed failure, nobody calls `then` on the last promise, and nothing is reported |
| ConnectPromises.ReportedExactly | js/main.js:50-63 | A rejected promise is reported if and only if nobody called `then` on it and it was not marked; outside the chains of rule 2 marking plays no part |
| ConnectPromises.OtherFailuresSurface | js/main.js:54-55 | A failed connect() without a listener, with 2011 or with something that is not an Error is reported unless user code called `then` on it |
| ConnectPromises.ChainedExactly | js/main.js:33-38 | `chained` holds exactly connect() promises and those reached from one by handler-less `.then` alone |
| ConnectPromises.SwallowedReaches | js/main.js:82-96 | With an empty queue a swallowed failure has reached, and marked, every promise of its chain |
| ConnectPromises.ReadmePattern | js/main.js:16-24 | `connect().then(f)` on a failing connection: both promises are silent if and only if rules 3 and 4 hold |
| PromiseInvariant.StepKeeps | js/main.js:82-125 | Every step of user code, environment or microtask keeps the invariant that ties promises, reactions and queued jobs to chains and failures |
| PromiseInvariant.RunKeeps | js/main.js:82-125 | So does every run |
| ConnectRuntime.Runtime.CallThen | js/main.js:83-95 | `ConnectPromise.then` takes exactly the machine's step |
| ConnectRuntime.Runtime.CallConnect | js/main.js:103-124 | The wrapped connect() takes exactly the machine's step |
| ConnectRuntime.Runtime.OnNative | js/main.js:109-120 | The reaction on the native promise settles, then swallows and marks under rules 3 and 4, as the machine does |
| ConnectRuntime.Runtime.OnMarker | js/main.js:90-92 | The marking reaction marks the derived promise if the reason is swallowed |
| ConnectRuntime.Runtime.Mark | js/main.js:75 | Marking registers a rejection handler that bypasses `ConnectPromise.then` |
| ConnectRuntime.Runtime.RunMicrotask | js/main.js:87-92 | Running the head of the queue takes exactly the machine's step |
| CiGlob.ExtglobExactly | scripts/check-ci-coverage.py:91-96 | A pattern is an extglob if and only if one of ?, *, +, @ and ! stands directly before an opening parenthesis |
| CiGlob.PlainClass | scripts/check-ci-coverage.py:112-119 | `[abc]` admits exactly the characters between its brackets, `[^abc]` exactly the others |
| CiGlob.RangeClass | scripts/check-ci-coverage.py:112-119 | `[a-z]` admits exactly the characters from one end to the other, and is no class if they are the wrong way round |
| CiGlob.EscapedClass | scripts/check-ci-coverage.py:112-119 | `[\d]` admits what the category does, `[\xhh]` the character of that number, and an escaped sign itself |
| CiGlob.Translate | scripts/check-ci-coverage.py:97-122 | The index loop emits the texts of the recursive translation, for every pattern |
| CiGlob.GlobToRegex | scripts/check-ci-coverage.py:94-123 | It raises exactly for extglobs and where Python refuses the joined text; if every bracketed part is a class, only for extglobs, and otherwise the regex accepts a newline-free path if and only if the glob does |
| CiGlob.SupportedExactly | scripts/check-ci-coverage.py:114-119 | Python reads the joined text part by part if and only if every bracketed part is a class by itself |
| CiGlob.ReadAsMeant | scripts/check-ci-coverage.py:97-123 | For such patterns what Python reads is the expression each part was meant to be |
| CiGlob.SingleBracket | scripts/check-ci-coverage.py:114-119 | A pattern that is one bracketed part raises if and only if it is an extglob or no class |
| CiGlob.BracketsRefused | scripts/check-ci-coverage.py:114-119 | Reversed ranges, `[]`, `[^]` and a class that ends in a backslash raise without being extglobs |
| CiGlob.BracketsRunTogether | scripts/check-ci-coverage.py:114-123 | `[][a]` does not raise and accepts exactly the single characters `]`, `[` and `a`, which no glob means |
| CiGlob.CompilePreservesMeaning | scripts/check-ci-coverage.py:94-123 | For such patterns the expression accepts a newline-free path if and only if the direct glob semantics does |
| CiGlob.FragmentsMean | scripts/check-ci-coverage.py:97-122 | On every path, newlines included, the expressions mean the glob whose `**` stays within lines |
| CiGlob.NewlinesMean | scripts/check-ci-coverage.py:123 | On every path: the regex accepts it if and only if that glob accepts it, or it ends in a newline and that glob accepts it without |
| CiGlob.FinalNewline | scripts/check-ci-coverage.py:123 | For every newline-free x, x and a newline are accepted if and only if the glob accepts x or, within lines, x and the newline |
| CiGlob.LeadingDirs | scripts/check-ci-coverage.py:100-102 | `**/` before p accepts x if and only if p accepts x or what follows some slash of x |
| CiGlob.DepthIsFixed | scripts/check-ci-coverage.py:98-122 | Without `**` and with classes free of slashes, every accepted path has as many slashes as the pattern |
| CiGlob.Covered | scripts/check-ci-coverage.py:126-133 | A pattern is any number of bangs before a glob that does not start with one. It raises exactly if some pattern's glob is refused; otherwise the last pattern whose glob accepts the path decides, true without bangs and false with one or more, and it is false if none does |
| CiGlob.GlobsDecide | scripts/check-ci-coverage.py:126-133 | If every bracketed part of the globs is a class, the globs themselves, bangs aside, decide a newline-free path so, and only extglobs are refused |
| CiGlob.BangsStripped | scripts/check-ci-coverage.py:130-131 | Of n bangs and a glob that does not start with one, stripping leaves exactly the glob, and the pattern negates if and only if n is at least 1 |
| CiGlob.EachIsWritten | scripts/check-ci-coverage.py:130-131 | Every string is such a pattern in exactly one way |
| CiGate.PullRequestGate | scripts/check-ci-coverage.py:193-200 | The loop ends on every call graph, cyclic or dangling; the result is the workflows at exactly the positions whose path is reachable by calls from a pull_request workflow, in input order |
| CiGate.GatesStep | scripts/check-ci-coverage.py:196-200 | What a gating workflow calls gates |
| CiGate.ChainInClosedSet | scripts/check-ci-coverage.py:193-200 | The gating paths lie in every call-closed set that holds the pull_request workflows: they are the least one |
| CiGate.SelectMembers | scripts/check-ci-coverage.py:199 | The final comprehension keeps exactly the workflows whose path is gating |
| CiCrates.CrateInputs | scripts/check-ci-coverage.py:250-271 | With a shared `seen`: every crate the call adds is reachable and finished, the result is exactly the own files of the crates it added, and it fails only on a reachable crate without a manifest or with a path outside the root |
| CiCrates.TableInputs | scripts/check-ci-coverage.py:263-270 | The inner loop adds exactly what the entries of one table lead to |
| CiCrates.FreshCrateInputs | scripts/check-ci-coverage.py:250-271 | Over that relation, a fresh call ends on every graph, cycles included, and returns exactly the files of all reachable crates; it fails exactly if one of them has no manifest or a path outside the root |
| CiCrates.TargetPoints | scripts/check-ci-coverage.py:262-270 | An entry of a dependency table without `workspace` and with a path leads to what that path names from the crate's directory; one with `workspace` to what the path of the root manifest's entry of that name names from the root; a version string, a missing entry and a table without a path lead nowhere |
| CiCrates.EdgeInTables | scripts/check-ci-coverage.py:262-270 | One crate depends on another if and only if an entry of any of its three dependency tables leads there |
| CiCrates.ClosedContainsPath | scripts/check-ci-coverage.py:256-270 | A path from a finished set never leaves it |
| WireProofs.RoundTrip | bindings/cpp/marketdata_uniffi.cpp:3567-3733 | For every type, reading what was written gives the value back and leaves exactly the bytes that follow, if every length and count is below 2^31 |
| WireProofs.RoundTripExactly | bindings/cpp/marketdata_uniffi.cpp:3567-3733 | For every type, a value comes back with what follows it if and only if all its lengths and counts are below 2^31 |
| WireProofs.ReadFits | bindings/cpp/marketdata_uniffi.cpp:541-551 | Whatever the bytes, no value that is read has a length or count of 2^31 or more |
| WireProofs.TextRoundTripExactly | bindings/cpp/marketdata_uniffi.cpp:541-556 | A string comes back if and only if it is shorter than 2^31 bytes |
| WireErrors.ErrorRoundTrip | bindings/cpp/marketdata_uniffi.cpp:3567-3733 | Each variant of MarketDataError, with its ErrorInfo, comes back if and only if its texts and headers fit |
| WireErrors.ErrorsDiffer | bindings/cpp/marketdata_uniffi.cpp:3567-3733 | If their texts and headers fit, two different errors have different bytes, whatever follows them and in whatever order their headers are enumerated |
| WireErrors.LongErrorsCollide | bindings/cpp/marketdata_uniffi.cpp:553-556 | Without that they may not: a family of pairs with messages of 2^32 bytes and the same bytes |
| WireErrors.ErrorSize | bindings/cpp/marketdata_uniffi.cpp:3735-3816 | The bytes an error takes: tag, message and each field of its info, in any order of its headers |
| WireBytes.InfoLowered | bindings/cpp/marketdata_uniffi.cpp:2310-2340 | What `lower` sends for an ErrorInfo, byte by byte: code and kind, counted from 1, as four big-endian bytes, texts after their four-byte length, 1 and the value or 0 for the three optional fields, the status in two bytes, and the counted headers |
| WireBytes.ErrorOnWire | bindings/cpp/marketdata_uniffi.cpp:3653-3733 | The bytes of an error: its number from 1 to 11 in four bytes, its message unless it is ClientClosed, number 8, and its info |
| WireBytes.OptionBytes | bindings/cpp/marketdata_uniffi.cpp:3959-3965 | An optional value is the byte 1 and the value, or the byte 0 |
| WireBytes.BoolBytes | bindings/cpp/marketdata_uniffi.cpp:519-521 | A bool is the byte 1 or 0 |
| WireBytes.NumberBytes | bindings/cpp/marketdata_uniffi.hpp:60-70 | The k-th byte from the end is the k-th digit of the number in base 256 |
| WireBytes.FlagsRead | bindings/cpp/marketdata_uniffi.cpp:3946-3957 | Any byte but 0 is read as a set flag |
| WireBytes.TextRead | bindings/cpp/marketdata_uniffi.cpp:541-551 | Reading gives a text and what follows it if and only if the bytes are the text's four-byte length, below 2^31, the text and what follows it |
| WireBytes.TagsRead | bindings/cpp/marketdata_uniffi.cpp:3567-3650 | Tags are read from 1 to the number of variants, and no other |
| WireBytes.FirstKeyWins | bindings/cpp/marketdata_uniffi.cpp:5551-5563 | A key that is read twice keeps its first value |
| WireProofs.HeadersRoundTrip | bindings/cpp/marketdata_uniffi.cpp:5551-5572 | A string map whose count and lengths are below 2^31 comes back in whatever order its entries were enumerated |
| WireProofs.EntriesRoundTrip | bindings/cpp/marketdata_uniffi.cpp:5551-5572 | The read loop collects exactly the written entries, with texts shorter than 2^31 bytes, onto what it has |
| WireProofs.AllRoundTrip | bindings/cpp/marketdata_uniffi.cpp:5500-5520 | The elements of a sequence, with lengths below 2^31, come back in order, with the rest of the stream untouched |
| WireProofs.PrefixFree | bindings/cpp/marketdata_uniffi.cpp:2320-2340 | Among values whose lengths and counts are below 2^31 no value's bytes begin another's: equal streams hold equal values and equal remainders, whatever the map orders |
| WireProofs.SizeIsExact | bindings/cpp/marketdata_uniffi.cpp:3735-3816 | `write` emits exactly `allocation_size` bytes for every type and value, even with different map orders |
| WireProofs.SizeOfAnyOrder | bindings/cpp/marketdata_uniffi.cpp:5574-5583 | A map's size does not depend on the order its entries are visited in |
| WireConverters.PutString | bindings/cpp/marketdata_uniffi.cpp:553-556 | Appends exactly the specified bytes to the stream |
| WireConverters.PutBlob | bindings/cpp/marketdata_uniffi.cpp:595-601 | The element loop appends exactly the specified bytes |
| WireConverters.PutHeaders | bindings/cpp/marketdata_uniffi.cpp:5565-5572 | The entry loop appends exactly the specified bytes |
| WireConverters.PutSequence | bindings/cpp/marketdata_uniffi.cpp:5514-5520 | The element loop appends exactly the specified bytes |
| WireConverters.PutValue | bindings/cpp/marketdata_uniffi.cpp:3653-3733 | So does `write` of every type, tagged errors included |
| WireConverters.GetString | bindings/cpp/marketdata_uniffi.cpp:541-551 | Reads the string the specification reads and leaves the same remainder |
| WireConverters.GetBlob | bindings/cpp/marketdata_uniffi.cpp:579-593 | The element loop reads what the specification reads |
| WireConverters.GetHeaders | bindings/cpp/marketdata_uniffi.cpp:5551-5563 | The insert loop reads the map the specification reads |
| WireConverters.GetSequence | bindings/cpp/marketdata_uniffi.cpp:5500-5512 | The push loop reads the sequence the specification reads |
| WireConverters.GetOptional | bindings/cpp/marketdata_uniffi.cpp:3948-3957 | Reads a flag and, if it is set, the value |
| WireConverters.GetTagged | bindings/cpp/marketdata_uniffi.cpp:3567-3651 | Reads a tag and the fields of its variant; no other tag is accepted |
| WireConverters.GetValue | bindings/cpp/marketdata_uniffi.cpp:2320-2330 | `read` of every type reads what the specification reads |
| WireConverters.AllocationSize | bindings/cpp/marketdata_uniffi.cpp:3735-3816 | The size loops add up to the specified size |
| WireConverters.Lower | bindings/cpp/marketdata_uniffi.cpp:531-581 | `lower` copies a string's bytes, cut at an int32 length; for any other type it fills the buffer it allocated completely and never writes past its end |
| WireConverters.Lift | bindings/cpp/marketdata_uniffi.cpp:523-566 | `lift` returns what the buffer's bytes mean: for a string, themselves |
| WireConverters.LowerThenLift | bindings/cpp/marketdata_uniffi.cpp:3549-3565 | A value lowered on one host and lifted on another comes back, whatever byte order either has, if and only if its lengths and counts fit |
| WireConverters.LiftedIsLowered | bindings/cpp/marketdata_uniffi.cpp:523-539 | Strings without a header included, what was lowered is what is lifted if and only if every length fits |
| WireStream.ReversedIsBigEndian | bindings/cpp/marketdata_uniffi.hpp:60-65 | A little-endian host's bytes reversed are the big-endian ones |
| WireStream.ReverseInPlace | bindings/cpp/marketdata_uniffi.hpp:60-65 | Swapping from both ends reverses the bytes |
| WireStream.RustStream.PutNumber | bindings/cpp/marketdata_uniffi.hpp:59-70 | On either host the stream gets the big-endian bytes of the number |
| WireStream.RustStream.GetNumber | bindings/cpp/marketdata_uniffi.hpp:46-57 | On either host the number is the one the next big-endian bytes spell |
| HandleMap.Handles.CallInsert | bindings/cpp/marketdata_uniffi.hpp:2286-2295 | Registers under the current handle, returns it and advances the counter, in 64 bits |
| HandleMap.Handles.CallAt | bindings/cpp/marketdata_uniffi.hpp:2280-2284 | Returns what the table holds, or throws |
| HandleMap.Handles.CallErase | bindings/cpp/marketdata_uniffi.hpp:2297-2308 | Frees that handle and nothing else |
| HandleMap.TableIsRegistry | bindings/cpp/marketdata_uniffi.hpp:2277-2319 | Over every sequence of operations before the counter wraps, the table holds exactly what was registered and not freed |
| HandleMap.NeverReissued | bindings/cpp/marketdata_uniffi.hpp:2286-2295 | Before the counter wraps the handles issued strictly increase: none is issued twice |
| HandleMap.CallbackRouting | bindings/cpp/marketdata_uniffi.cpp:1449-1594 | Before the counter wraps a callback on a handle reaches exactly the listener that `lower` registered for it, as long as the handle was not freed, and none after |
| HandleMap.RoutesUntilFreed | bindings/cpp/marketdata_uniffi.hpp:2277-2319 | In every run, wrapped or not: until it is freed, a handle routes to the listener it was issued for if and only if it was free, or already that listener's, when issued |
| HandleMap.WrappedHandleMisroutes | bindings/cpp/marketdata_uniffi.hpp:2315-2318 | After 2^64 inserts a handle still in use is issued again and its callbacks go to the old listener |
| Semver.SemverLanguage | scripts/release-versions.py:73 | SEMVER accepts exactly X.Y.Z and X.Y.Z-{alpha,beta,rc}.N over unbounded digit strings, each also followed by one newline |
| Semver.PepInverse | scripts/release-versions.py:95-100 | The PEP 440 spelling of every version can be read back |
| Semver.PepInjective | scripts/release-versions.py:95-100 | Two supported versions share a PEP 440 spelling if and only if they are equal up to one final newline |
| Semver.NewlineIsLost | scripts/release-versions.py:95-100 | Every version with a newline after it is translated like the version |
| Semver.PepSpellings | scripts/release-versions.py:95-100 | X.Y.Z stays; X.Y.Z-alpha.N, -beta.N and -rc.N become X.Y.ZaN, bN and rcN |
| Semver.NextAfter | scripts/release-versions.py:412-426 | `rc` turns X.Y.Z-rc.N into X.Y.Z-rc. and the decimal of N + 1, and refuses X.Y.Z, X.Y.Z-alpha.N and X.Y.Z-beta.N |
| Semver.NumberOfParts | scripts/release-versions.py:418 | The number that digits spell is decimal: appending a digit multiplies by ten and adds its value |
| Semver.NextIsCandidate | scripts/release-versions.py:412-426 | Whatever is requested, a version is only ever resolved to a release candidate |
| Semver.ExplicitVersion | scripts/release-versions.py:419-426 | An explicit version is taken as it is if and only if it spells a release candidate |
| Semver.Bumps | scripts/release-versions.py:414-418 | k successive `rc` bumps of X.Y.Z-rc.N give X.Y.Z-rc.(N+k) |
| Slots.GapsAndValues | scripts/release-versions.py:210-212 | A region is its captures and the text between them in turn |
| Slots.MatchMeans | scripts/release-versions.py:184-185 | The matcher accepts exactly the slot's form: prefix, a capture of the class's characters, suffix, tied to line ends as the pattern says |
| Slots.FoundIfAnywhere | scripts/release-versions.py:210-212 | A text has no value for a slot if and only if the slot matches at no position |
| Slots.ReplaceKeepsGaps | scripts/release-versions.py:215-223 | Replacing keeps all text between captures and puts the value in place of each capture |
| SlotReading.GetPut | scripts/release-versions.py:210-223 | In a region, reading after a rewrite gives the new value at as many places as before, for every value that does not break the slot |
| SlotReading.NoNewMatch | scripts/release-versions.py:210-223 | Where the old text does not match, neither does the rewritten one |
| SlotReading.MatchStays | scripts/release-versions.py:210-223 | Where the old text matches, the rewritten one does, with the new value |
| SlotBreaks.HoldsExactly | scripts/release-versions.py:210-223 | Every text reads back a value after it is rewritten if and only if the value does not break the slot: it does if some opening would, with the suffix completed by the value, be read as a match of its own |
| SlotBreaks.CommaBreaks | scripts/release-versions.py:215-223 | A quoted slot followed by a comma is broken by every value that starts with one |
| SlotRegions.ReplaceIn | scripts/release-versions.py:217-222 | The loop over the matches, with `out` and `pos`, writes exactly the rewritten region |
| SlotRegions.SlotReplace | scripts/release-versions.py:215-223 | The whole text is the rewritten region in its old surroundings; it raises exactly if the table is missing |
| SlotLaws.TableRegionMeans | scripts/release-versions.py:192-199 | A table's region exists if and only if the text has its header; it goes from the end of the first header's line to the next line that opens a table, or to the end of the text |
| SlotLaws.FirstLineMeans | scripts/release-versions.py:203-204 | The first line's region goes up to the first newline, or to the end |
| SlotLaws.RegionStays | scripts/release-versions.py:192-207 | In the rewritten text the region is found at the same start and is exactly what it was rewritten to: the header stays the first one, no table opens inside, the next table still ends it |
| SlotLaws.PutThenGet | scripts/release-versions.py:210-223 | Reading a text after a rewrite gives the new value at as many places as before |
| SlotLaws.GetThenPut | scripts/release-versions.py:210-223 | Rewriting with the value every place already has changes nothing |
| SlotLaws.PutTwice | scripts/release-versions.py:215-223 | The last of two rewrites wins |
| SlotLaws.OnlyCapturesChange | scripts/release-versions.py:215-223 | The text before and after a rewrite share everything but the captures inside the slot's region |
| SlotTable.ManifestRowsMatch | scripts/release-versions.py:229-253 | Spelled out for each literal row of the manifests: at the head of which texts it matches, and what it captures there |
| SlotTable.DocRowsMatch | scripts/release-versions.py:266-269 | The same for the literal rows of the documents: after `fugle-marketdata==`, `fugle-marketdata-go@v`, and at the start of a line `VERSION=` and `TAG=v`, the longest run of digits, letters, points and hyphens |
| SlotTable.NoRowBreaks | scripts/release-versions.py:228-273 | No value breaks a literal row of the slot tables: its prefix cannot begin inside a match of its own |
| SlotTable.RowsAreTame | scripts/release-versions.py:228-273 | No literal row's prefix or suffix can start or end inside a version, as composing them needs |
| SlotTable.RowsAreGood | scripts/release-versions.py:228-273 | The literal rows of the slot tables meet the conditions of the laws |
| SlotTable.VersionIsWritable | scripts/release-versions.py:187-189 | Either spelling of every version may be written into every literal row |
| SlotTable.BumpedSlotReads | scripts/release-versions.py:442-450 | What a bump writes into a literal row it reads back: the next version, at every place the old one was |
| Bump.CheckMeans | scripts/release-versions.py:133-145 | `check` finds nothing if and only if every source spells its track's reference version, which is a SemVer version |
| Bump.DriftsMean | scripts/release-versions.py:303-309 | No documentation slot is reported if and only if each was found and spells its track's version everywhere |
| Bump.NoProblems | scripts/release-versions.py:521-527 | The check after the writes passes if and only if every manifest and every documentation slot spells the wanted version of its track |
| BumpRun.TargetsMean | scripts/release-versions.py:477-486 | The targets are exactly the requested versions that differ from the current ones |
| BumpRun.OnlyCandidates | scripts/release-versions.py:477-486 | Every target is a release candidate |
| BumpRun.PlanPerFile | scripts/release-versions.py:437-452 | The plan holds exactly the files with a slot of a bumped track, and what becomes of a file depends on its own text and its own slots in table order |
| SlotLayout.SurvivesExactly | scripts/release-versions.py:215-223 | When a capture made of version characters becomes a version, another slot's match at the head of a text survives if and only if neither its prefix nor its suffix lies over that capture; no match appears |
| SlotKept.KeptExactly | scripts/release-versions.py:215-223 | Anywhere in a text: another slot's match is kept, moved with the text and with its own capture, if and only if it has no character in the capture that was rewritten, which was made of version characters and is another version now |
| SlotKept.NoneAppears | scripts/release-versions.py:215-223 | Every match after such a rewrite was one before it |
| SlotKept.DirtyCaptureHides | scripts/release-versions.py:215-223 | A capture not made of version characters may hide a match that the version reveals, though no matches overlap |
| SlotFits.FitsMeans | scripts/release-versions.py:210-223 | A slot that fits a file's layout reads exactly its own holes, and rewriting fills exactly them |
| SlotFits.ChangeKeepsFit | scripts/release-versions.py:215-223 | Filling a hole, of this slot or another, with a version keeps the fit |
| SlotFits.FitsAnyVersions | scripts/release-versions.py:437-452 | A slot goes on fitting whatever versions the holes of all slots are filled with |
| SlotSites.CommonLayout | scripts/release-versions.py:210-212 | Slots whose matches in a text are pairwise disjoint, with captures made of version characters, all fit one layout of it |
| BumpSlots.RewriteKeepsOthers | scripts/release-versions.py:215-223 | Rewriting one slot keeps every capture of another whose matches are disjoint from its own, if the captures of both are made of version characters |
| BumpSlots.DocRewriteKeepsOthers | scripts/release-versions.py:261-270 | For the literal rows of docs/INSTALL.md disjoint matches are all that this needs |
| SlotOverlap.OverlapDestroys | scripts/release-versions.py:261-270 | In `fugle-marketdata-go@vfugle-marketdata==` and a version, where they overlap, rewriting the go row leaves the pip row without a match |
| SlotOverlap.ShadowTakesOver | scripts/release-versions.py:261-270 | Overlap need not show in what is read: a match that was hidden behind the destroyed one may capture the same |
| BumpSlots.FollowedFileSays | scripts/release-versions.py:437-452 | Every entry of a bumped track whose matches follow a layout of its file spells the track's new version in the planned text, at every place it had one |
| BumpSlots.PlannedFileSays | scripts/release-versions.py:437-452 | So does every literal row of a file, however many share it, if their matches in the original text are pairwise disjoint and all captures are made of version characters |
| SlotRows.LineMatches | scripts/release-versions.py:262-265 | A row of the INSTALL.md table matches a line of its form and captures what stands between `mid` and the suffix, with `[^|]*` or a greedy `.*` before |
| SlotRows.TableRowsMatch | scripts/release-versions.py:262-265 | Spelled out for the three rows with `[^|]*`: the lines of the table they match, and the version between backticks they capture |
| SlotRows.PepRowMatches | scripts/release-versions.py:263 | The same for the row of the PyPI spelling, behind anything on its line |
| SlotRows.RowReadsAny | scripts/release-versions.py:262-265 | A table row laid out in a file reads its own capture and writes into it, whatever versions are written over any captures of the file, its filler's included |
| SlotLines.RowsShareLine | scripts/release-versions.py:262-263 | Two rows are laid out in one line though the match of the second goes over the capture of the first |
| SlotLines.BindingsShareLine | scripts/release-versions.py:262-263 | The two Bindings rows share their line so |
| BumpSlots.LaidOutFileSays | scripts/release-versions.py:437-452 | Literal rows that fit a layout of a file and table rows laid out in it each spell their own track's new version in the planned text, at every place they spelled one |
| BumpSlots.LoneRowSays | scripts/release-versions.py:437-452 | So does a literal row, confined to a TOML table or not, that is the only one of a bumped track in its file |
| BumpRun.Repo.PlanEdits | scripts/release-versions.py:437-452 | The loop computes the plan, or fails where the first slot fails, and writes nothing |
| BumpRun.Repo.Prepare | scripts/release-versions.py:466-501 | Nothing is written before the plan is complete; a job has, of each track, its target or what its reference reads; without a plan there is no job these files and requests ask for, and the tool refuses if and only if the manifests disagree, a request does not resolve or a slot is not found or cannot be written |
| BumpRun.Repo.WriteAll | scripts/release-versions.py:519-520 | Writes exactly the planned texts, or stops at a fault having touched no file outside the plan |
| BumpRun.Repo.Restore | scripts/release-versions.py:533-534 | Puts every snapshot back |
| BumpRun.Repo.Attempt | scripts/release-versions.py:518-531 | Write and verify: succeeds unless a step fails or is interrupted |
| BumpRun.Repo.Commit | scripts/release-versions.py:516-542 | Whatever write, read, check or interrupt fails, every file ends as it was; it commits exactly when the written files are consistent and nothing failed |
| BumpRun.Repo.Run | scripts/release-versions.py:466-548 | The same for the whole bump, dry runs included: unless committed, every file is as before; if committed, exactly the planned texts were written, every requested track reads, in all manifests and document slots, the version its request resolves to, and every other track what it read before |
| BumpRun.CommittedMoves | scripts/release-versions.py:474-485 | After a commit every manifest and document slot of a requested track reads the version its request resolves to from what the reference read before, and every other track still reads what its reference read |
| BumpRun.EverySlotFound | scripts/release-versions.py:441-448 | A plan is made only if every slot of a bumped track is found in its file, as the slots before it have left it |
| BumpRun.CommittedFiles | scripts/release-versions.py:519-520 | A commit changes exactly the files with a slot of a bumped track |
| Framing.Serve | core/benches/rest_decode.rs:87-108 | However the stream is cut into reads, the responses are those to the whole stream split at its blank lines up to the first unroutable head; after a failed read those to what arrived, after a failed write a prefix |
| Framing.AnswerBuffered | core/benches/rest_decode.rs:96-106 | Answers every complete request in the buffer and keeps the unanswered residue at its start |
| Framing.FindTerminator | core/benches/rest_decode.rs:96 | Finds the first blank line in the filled part |
| Framing.CopyWithin | core/benches/rest_decode.rs:104 | The in-place copy moves the residue to the front unchanged, overlapping or not |
| Framing.FirstRouteWins | core/benches/rest_decode.rs:98 | The response is that of the first route whose pattern occurs in the head |
| Framing.NoRoute | core/benches/rest_decode.rs:98-100 | Without such a route there is none |
| Framing.FirstBlankLine | core/benches/rest_decode.rs:96 | A head ends at the first CR LF CR LF |
| Framing.FirstRequest | core/benches/rest_decode.rs:89-106 | A head and its blank line are answered, before whatever follows, by the route of the head, or of an empty one if it is not UTF-8, unless they take more than 16384 bytes; without a route nothing more is answered |
| Framing.SizeShows | core/benches/rest_decode.rs:89-95 | The buffer's size shows if and only if some routable request, blank line included, is longer than it |
| Framing.Pipelining | core/benches/rest_decode.rs:96-106 | Pipelined requests are answered one by one in order, and an incomplete last one not at all |
| Framing.AnswersFirst | core/benches/rest_decode.rs:96-106 | A complete request is answered the same whatever follows it |
| Migration.OldConstructor | migration/migrate-python.py:61-135 | `RestClient(x)` and `WebSocketClient(x)` with one positional string or name become `RestClient(api_key=x)` and `WebSocketClient(api_key=x)` |
| Migration.OldStatic | migration/migrate-python.py:86-170 | `with_bearer_token(t)` and `with_sdk_token(t)` on either client become the constructor with `bearer_token=t` and `sdk_token=t` |
| Migration.OtherCalls | migration/migrate-python.py:45-59 | Every other call stays a call of the same arguments, rewritten, under the same keywords and stars |
| Migration.PreservesMeaning | migration/migrate-python.py:45-134 | The rewrite of a program is a program with the same meaning if and only if no call it takes has a starred argument, or a `:=` or generator without parentheses, and no word needs the parentheses of a static call it takes |
| Migration.PlainKeepsMeaning | migration/migrate-python.py:75-83 | Programs without starred and bare arguments and with a space after every word stay programs and keep their meaning |
| Migration.BareArgumentBreaks | migration/migrate-python.py:137-170 | `RestClient.with_bearer_token(tok := load())`, and the same with a generator, become what is not Python |
| Migration.TightWordBreaks | migration/migrate-python.py:166-170 | `not(RestClient.with_bearer_token(token))` loses the parentheses that keep `not` apart |
| Migration.OpensAfterMeans | migration/migrate-python.py:166-170 | Whether the rewritten text still starts with a sign, read off the original |
| Migration.StarIsLost | migration/migrate-python.py:116-170 | `RestClient(*keys)` becomes `RestClient(api_key=keys)`, which means something else; so does a starred static call |
| Migration.Idempotent | migration/migrate-python.py:45-170 | A second pass changes nothing |
| Migration.NoneLeft | migration/migrate-python.py:45-170 | No old form is left anywhere in the result, and the trees left alone are exactly those without one |
| Migration.KeepsMatches | migration/migrate-python.py:61-114 | Rewriting the parts of a call does not change whether it is taken |
| Migration.RestClientTransformer.LeaveCall | migration/migrate-python.py:45-59 | Rewrites one call and sets `modified` if and only if it changed it |
| Migration.RestClientTransformer.Visit | migration/migrate-python.py:45-170 | Visiting computes the rewrite; `modified` stays false if and only if the tree is unchanged |
| MockServer.TraceIsPrefix | benchmarks/ws/ws-mock-server.js:86-164 | For every sequence of messages, deferred starts and ticks, at any rate, the trace is a prefix of: authenticated, subscribed, the warmup, the data, one bench_done; it is all of it if and only if the connection has finished |
| MockServer.StepKeeps | benchmarks/ws/ws-mock-server.js:86-164 | Every event keeps a connection in one of its phases |
| MockServer.ServesFirst | benchmarks/ws/ws-mock-server.js:94-106 | The subscription a connection serves is the first one after an auth message, whatever lies between, and no later one |
| MockServer.Confirms | benchmarks/ws/ws-mock-server.js:94-106 | The first subscribe after an auth is confirmed with its channel and symbol, "trades" and "2330" standing in for a missing one |
| MockServer.FinishedTrace | benchmarks/ws/ws-mock-server.js:86-164 | A finished connection has sent each frame in its place: the warmup from serial 0, then the data from serial 0, then the end mark with the count |
| MockServer.StartsWhenCalled | benchmarks/ws/ws-mock-server.js:108-131 | An accepted subscription starts exactly when the deferred call comes, and at rate zero is then complete |
| MockServer.TimerRefinesBurst | benchmarks/ws/ws-mock-server.js:124-146 | On the same events a throttled connection has sent a prefix of what an unthrottled one has, and all of it once finished |
| MockServer.TimerFinishes | benchmarks/ws/ws-mock-server.js:132-145 | At any rate, negative ones included, a started timer finishes at the very tick by which its batches reach the count |
| MockServer.BatchMeans | benchmarks/ws/ws-mock-server.js:135 | A tick sends at least one message if and only if the rate is positive |
| MockServer.BatchIsCeiling | benchmarks/ws/ws-mock-server.js:135 | A tick's batch is a hundredth of the rate, rounded up |
| MockServer.CanFinish | benchmarks/ws/ws-mock-server.js:115-146 | Some sequence of events finishes the connection if and only if the rate is not negative or the count is zero |
| MockServer.Connection.Receive | benchmarks/ws/ws-mock-server.js:90-112 | Answers the first auth, and the first subscribe after it, and nothing else |
| MockServer.Connection.StartSending | benchmarks/ws/ws-mock-server.js:115-131 | Sends the warmup, then everything or starts the timer |
| MockServer.Connection.TimerTick | benchmarks/ws/ws-mock-server.js:134-145 | Sends the next batch, and the end mark once the count is reached |

## Left out

- ConnectPromises: the promise that marking itself creates (never rejected, never seen) has no place in the model; fulfilment values are not modelled, and the native promise never fulfils with a promise.
- ConnectPromises: a `.then(f)` promise whose `f` returned a promise becomes one the environment settles in any way at any later time, which allows more runs than the source.
- ConnectPromises: loading the module twice (`WRAPPED`), garbage collection of the two WeakSets, and reasons that are not objects beyond "not an Error".
- CiGlob: `\d`, `\s`, `\w` in a class mean whatever the given predicate says, and a named escape `\N{...}` in one, which Python reads, is taken to be refused.
- CiGlob.SingleBracket: such an escape is taken to be refused.
- CiGlob.Covered: the same.
- CiGlob.GlobToRegex: the same; of patterns whose bracketed parts are not classes it says when they raise, not in general what they accept.
- CiGate, CiCrates: reading YAML and TOML, git's list of tracked files and path resolution are given inputs; the checks that compare commands with coverage are not modelled.
- WireConverters.GetString: a read past the end of the buffer, after which the source goes on with padded or unspecified values, is a failure here.
- WireConverters.GetBlob: a read past the end of the buffer, after which the source goes on with padded or unspecified values, is a failure here.
- WireConverters.GetHeaders: a read past the end of the buffer, after which the source goes on with padded or unspecified values, is a failure here.
- WireConverters.GetSequence: a read past the end of the buffer, after which the source goes on with padded or unspecified values, is a failure here.
- WireConverters.GetOptional: a read past the end of the buffer, after which the source goes on with padded or unspecified values, is a failure here.
- WireConverters.GetTagged: a read past the end of the buffer, after which the source goes on with padded or unspecified values, is a failure here.
- WireConverters.GetValue: a read past the end of the buffer, after which the source goes on with padded or unspecified values, is a failure here.
- WireConverters.Lift: a read past the end of the buffer, after which the source goes on with padded or unspecified values, is a failure here.
- WireStream.RustStream.GetNumber: a read past the end of the buffer, after which the source goes on with padded or unspecified values, is a failure here.
- WireConverters.Lower: a string whose cut length is negative is taken to be refused on the Rust side, which is not part of this model.
- WireProofs.SizeIsExact: sizes are unbounded, so a sum above 2^64 is not modelled; `rustbuffer_alloc(n)` is taken to return n bytes.
- Wire: doubles are their 64-bit patterns; object handles and pointers are not modelled; a base `MarketDataError` object that is no variant cannot be written.
- HandleMap.CallbackRouting: the mutex makes operations atomic; `lower`, the callbacks and `uniffi_free` are the operations of the table, and what a listener does is not modelled.
- Semver.SemverLanguage: digits are ASCII; Python's `\d` also takes other scripts' digits.
- Semver.ExplicitVersion: the same.
- Semver.Bumps: Python's limit of 4300 digits for `int` is not modelled.
- Slots: the lens laws are for the twelve rows whose prefix and suffix are literal. Of the others the four rows of the INSTALL.md table are modelled in `SlotRows`, with other captures in their fillers but without the laws for every text; the `marketdata-core` alias and the two titles of MIGRATION-0.9.md are not modelled. The bump is proved for any slots, these included.
- SlotTable.NoRowBreaks: seven of the nineteen rows are those.
- SlotTable.RowsAreTame: the same.
- SlotTable.RowsAreGood: the same.
- SlotTable.VersionIsWritable: the same.
- SlotTable.BumpedSlotReads: the same.
- SlotLaws.PutThenGet: stated for slots of the shape of the tables' literal rows: the capture ends where its class does and, in a TOML table, the prefix does not end in a space; a value may not start with a line end nor, where the region is a TOML table or the first line, hold one.
- SlotLaws.RegionStays: the same.
- SlotLaws.PutTwice: the same of the first value.
- SlotReading.GetPut: the same.
- SlotReading.NoNewMatch: the same.
- SlotReading.MatchStays: the same.
- BumpSlots.RewriteKeepsOthers: captures that are not made of version characters are excluded; `SlotKept.DirtyCaptureHides` shows why.
- SlotSites.CommonLayout: the same.
- SlotLayout.SurvivesExactly: the same.
- BumpSlots.FollowedFileSays: that each row's matches follow the layout is a hypothesis, met by the rows of `BumpSlots.PlannedFileSays` and `BumpSlots.LaidOutFileSays`.
- BumpSlots.PlannedFileSays: rows that are not literal take part if their matches follow the layout; for table rows `BumpSlots.LaidOutFileSays` proves it. A row confined to a TOML table is only treated alone in its file, in `BumpSlots.LoneRowSays` (Cargo.toml has a second row, the alias).
- BumpRun.Repo.Restore: restoring writes succeed and are not interrupted, as the source assumes; an interrupt after the check has passed leaves the committed files.
- BumpRun.Repo.Verify: reading JSON, TOML and the C# and Gradle files is a given function of the files, which may fail; output and exit codes are not modelled beyond which exit it is.
- Bump: generated files (`js/index.js`, lock files) are only checked by another command and not modelled.
- Framing: which bytes are UTF-8 is a given predicate; timing and socket options are not modelled.
- Migration: whitespace, comments, reading and writing files; of Python's syntax, the two rules the rewrite can break.
- Migration.TightWordBreaks: libcst checks a word and its operand when the node is built; there the source raises, and the file is left as it was, where the model gives a tree that is no program.
- Migration.RestClientTransformer.Visit: the same.
- MockServer.BatchMeans: rates are reals; a positive double so small that a hundredth of it rounds to zero is not modelled.
- MockServer: time stamps, rates and prices in the messages, sockets and their closing, several connections (each has its own state), and a message that is valid JSON but not an object.
- The Rust streaming engine (reconnect, liveness, message queue) is not part of this model.
- `migration/migrate-javascript.js`, the REST and WebSocket wrappers of the C++ binding, the generated platform loaders and the other benchmarks would only add easy members.
