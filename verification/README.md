# Kithara verification

A Dafny model of the parts of Kithara whose correctness spans many calls, and proofs of what those parts
are for. One module (or a few) stands for each component:

- `Names`, `TopoSort`, `PublishRun`, `PublishManifest`: the release publisher of `xtask`. Kahn's algorithm as a
  loop over counters, maps in any iteration order and a queue; runs against a registry that only grows, each
  stopped anywhere, repeated or overlapping; the pace for new crates; the manifest rewrite.
- `Octets`, `WireCodec`, `WireFormat`, `WireConverters`, `WireTypes`, `WireTables`, `HandleMap`: the byte format between
  Swift and Rust. A converter is a shape; what it writes is a relation (a dictionary may be walked in any order, a
  clone may get any handle), what it reads a function, and reader and writer are also the loops over an offset and a
  buffer. All results are about every shape, save where `WireFormat` names those it means; `WireTables` is data, the
  shapes of 47 generated record and enum converters.
- `Throughput`: the two exponentially weighted means of the throughput estimator, over the reals.
- `ModelCache`: the model cache of the beat crate's build script, as a step relation over any number of builders
  that may die at any step.
- `HeapCeiling`: the debug heap ceiling, one step to an atomic operation.
- `Blob`, `BeatResume`, `AnalysisResume`, `StoredFormat`: the analysis resume, its layered decoder, its encoder and its
  bytes.
- `DocumentMerge`, `DocumentBake`: document layering and the bake.
- `EqModes`, `Mix`, `Decks`: edits that touch every deck, and their rollback.
- `Wrappers`: optional values and results.

Where the source changes state step by step the model has methods, classes and loops, and each is proved equal to
a function or relation over values; the promises are lemmas about that function or relation.

In a few places the code and its own documentation, or what a caller would expect of it, part company; the model follows
the code.

- The comment on `publish_manifest` speaks of every dependency table; `build-dependencies` tables are left alone, and
  dev tables lose only the workspace's own names. `HackIsGoneExactly` gives the exact condition, `BuildHackStays` an
  instance.
- The comment on `strip_feature_references` says why a feature must not name a dependency that is gone. Entries naming
  the hack all go, but those naming a removed dev-dependency stay: `FeaturesStayListed` gives the exact condition,
  `TestFeatureDangles` every instance of one form.
- `DeckSet` says a rejected mix edit changes nothing. The stored mix and strips are kept, but decks that accepted
  before another refused keep their new levels: `RejectedEditIsUnheard` gives the exact condition,
  `RejectedEditCanBeHeard` an instance, `SendingLevelsRecovers` the way back.
- `set_eq_mode` says every deck or none. A queue that refuses its old layout back stays switched:
  `FailedSwitchRestores` gives the exact condition, `SwitchCanStopHalfway` an instance.
- The pace for new crates lives in one process: `RerunForgetsPace` says exactly when a rerun keeps it.
- A throughput too large for 64 bits reads as zero: `HugeRatesReadZero`, `EqualRatesRead`.

## Model

| member | source | states |
|---|---|---|
| `TopoSort.TopoSort` | xtask/src/publish.rs:767-828 | Whatever order the maps yield their entries in, the loop over counters and the queue computes the publish order, a function of the dependency sets alone; `GoesByRelease` says which order that is |
| `TopoSort.CountEdges` | xtask/src/publish.rs:768-781 | In any iteration order the counters hold the length of each list, and each name stands among a crate's dependents as often as it names it |
| `TopoSort.Decrement` | xtask/src/publish.rs:799-809 | No counter underflows, and a name listed several times becomes ready once, at the occurrence that brings it to zero |
| `TopoSort.Advance` | xtask/src/publish.rs:795-812 | After a pop the counters again equal the repeated edges from names not yet dequeued, and exactly the crates whose last missing dependency was popped become ready |
| `TopoSort.CollectRoots` | xtask/src/publish.rs:783-791 | The queue starts with the crates that depend on nothing, ascending |
| `TopoSort.DependenciesFirst` | xtask/src/publish.rs:767-828 | An accepted order lists every crate once, each strictly after everything it depends on |
| `TopoSort.GoesByRelease` | xtask/src/publish.rs:783-812 | Of an accepted order: what waits for nothing comes first, the rest by the place of the last thing it waited for, and crates released by the same one by name. This fixes the place of every pair |
| `Names.LeqExactly` | xtask/src/publish.rs:789-810 | By name means: the smaller character at the first difference decides, and without one the shorter name comes first |
| `TopoSort.RemainingIsDoomed` | xtask/src/publish.rs:815-826 | A crate is named by the cycle error exactly when dependencies lead from it back onto a passed crate or out of the graph |
| `TopoSort.RefusesExactlyCycles` | xtask/src/publish.rs:815-828 | The sort fails if and only if there is a dependency cycle or a name outside the graph; over lists that name only keys, exactly on a cycle |
| `TopoSort.OrderIgnoresLists` | xtask/src/publish.rs:783-812 | Permuting a dependency list or repeating a name in it changes no part of the outcome |
| `PublishRun.NewCratePace.Wait` | xtask/src/publish.rs:341-349 | Whoever waits that long after a full burst is an interval past the last new crate, and nobody waits longer than that |
| `PublishRun.PaceBound` | xtask/src/publish.rs:318-355 | Over any stretch of one process's new crates, every crate past the burst costs a whole interval |
| `PublishRun.PaceOfRun` | xtask/src/publish.rs:318-355 | `n` new crates take at least `n - max(burst, 1)` intervals |
| `PublishRun.RerunForgetsPace` | xtask/src/publish.rs:318-355 | For all runs: two runs at their pace keep it between them exactly when the second waits out the interval the first had begun, and has an interval before each crate past what the first left of the burst |
| `PublishRun.RerunBreaksPace` | xtask/src/publish.rs:318-355 | Whatever the burst and the interval, a full burst and one more crate at once are two paced runs that break the pace |
| `PublishRun.Consider` | xtask/src/publish.rs:201-247 | One crate: skipped if held, else uploaded once the pace allows, and the delay if a crate was published just before; a new crate that arrives keeps the pace, even when its upload reports failure |
| `PublishRun.RunPublish` | xtask/src/publish.rs:188-251 | Wherever a run ends the registry grew by a prefix of the order, closed under dependencies after every upload if it was at the start; a run that finishes leaves every crate present and counts what it published; new crates arrive at the pace, and between two crates published one after the other lies the delay |
| `PublishRun.PublishAgain` | xtask/src/publish.rs:188-251 | A run and its rerun on one registry: each at its pace, the two together exactly under that condition; after a run that finished the rerun uploads nothing |
| `PublishRun.OrderIsDependencyOrder` | xtask/src/publish.rs:723-764 | What the sort accepts is an order in which each crate follows all it depends on |
| `PublishRun.PrefixStaysClosed` | xtask/src/publish.rs:188-251 | Any prefix of the order added to a closed registry leaves it closed |
| `PublishRun.StepKeeps` | xtask/src/publish.rs:188-251 | With runs overlapping, each step of any of them keeps the registry closed and each run's position behind what is held |
| `PublishRun.ReleasesStayClosed` | xtask/src/publish.rs:188-251 | However many runs overlap and wherever each stops, the registry never holds a crate before its dependencies, loses none, and holds all once one run reaches its end |
| `PublishManifest.RemoveAll` | xtask/src/publish.rs:675-679 | The names are gone from the table, and removal is reported exactly when the table changed |
| `PublishManifest.StripDependencyTables` | xtask/src/publish.rs:665-682 | Both tables lose what they must, and removal is reported exactly when something changed |
| `PublishManifest.StripTargetTables` | xtask/src/publish.rs:647-653 | The same for every target, in any order of targets |
| `PublishManifest.StripFeatureReferences` | xtask/src/publish.rs:687-703 | Every list of every feature is filtered, and removal is reported exactly when some list got shorter |
| `PublishManifest.PublishManifest` | xtask/src/publish.rs:640-663 | Returns the rewritten manifest, or nothing exactly when the rewrite changes nothing |
| `PublishManifest.StrippedIsFixpoint` | xtask/src/publish.rs:640-663 | A rewritten manifest needs no second rewrite |
| `PublishManifest.FilterKeeps` | xtask/src/publish.rs:687-703 | Every entry that does not name the hack stays, as often as it stood |
| `PublishManifest.FilterSplits` | xtask/src/publish.rs:687-703 | Filtering keeps the order: filtering a list is filtering its parts in turn |
| `PublishManifest.NamedIsDropped` | xtask/src/publish.rs:688-693 | An entry that names a dependency, as cargo reads it, never passes the filter for it |
| `PublishManifest.DropsExactly` | xtask/src/publish.rs:688-693 | The filter drops exactly the entries that name the crate, its bare name, and a `dep:` form that means nothing |
| `PublishManifest.StandsAfter` | xtask/src/publish.rs:665-682 | At the root and under every target, in every section, exactly the hack among `dependencies` and the given names among `dev-dependencies` are gone |
| `PublishManifest.HackIsGoneExactly` | xtask/src/publish.rs:640-682 | The hack is left in no dependency table if and only if it stood in no `build-dependencies` table, and in no `dev-dependencies` table unless it is among the names given |
| `PublishManifest.BuildHackStays` | xtask/src/publish.rs:671-674 | An instance: a manifest with the hack under `build-dependencies` is reported as needing no rewrite |
| `PublishManifest.ListedAfter` | xtask/src/publish.rs:640-682 | A name is listed afterwards exactly when a build dependency has it, or a dependency and it is not the hack, or a dev-dependency and it is not among the names given |
| `PublishManifest.EntriesAfter` | xtask/src/publish.rs:654-703 | A feature entry is there afterwards exactly when it was and does not name the hack |
| `PublishManifest.FeatureAfter` | xtask/src/publish.rs:695-703 | Every feature stays, and has each item as often as before save those that name the hack; what is no list of items is as it was |
| `PublishManifest.RestStays` | xtask/src/publish.rs:640-663 | At the root no key comes or goes, and what is under any other key than the four looked into is as it was |
| `PublishManifest.TargetRestStays` | xtask/src/publish.rs:647-653 | The same for a target, beside its two dependency tables |
| `PublishManifest.SpecsStay` | xtask/src/publish.rs:665-682 | A dependency that is left is specified as it was |
| `PublishManifest.FeaturesListedAfter` | xtask/src/publish.rs:640-703 | For every manifest: afterwards each feature entry that names a dependency names a listed one if and only if each entry the filter leaves names one that stays |
| `PublishManifest.FeaturesStayListed` | xtask/src/publish.rs:640-703 | If that held before, counting all three kinds of dependency, it holds afterwards if and only if no entry that is left names a removed dev-dependency that is no other kind of dependency |
| `PublishManifest.TestFeatureDangles` | xtask/src/publish.rs:640-703 | For all names: a feature that turns on a feature of a removed test helper is left naming nothing |
| `HandleMap.UniffiHandleMap.Insert` | apple/Sources/KitharaFFI/KitharaFFI.swift:366-378 | The new handle is the next odd number and stands for the object |
| `HandleMap.UniffiHandleMap.Clone` | apple/Sources/KitharaFFI/KitharaFFI.swift:389-396 | A fresh handle of the same object, or the stale-handle error and no change |
| `HandleMap.UniffiHandleMap.Remove` | apple/Sources/KitharaFFI/KitharaFFI.swift:398-406 | The object leaves the map, or the stale-handle error and no change |
| `HandleMap.IssuedAscend` | apple/Sources/KitharaFFI/KitharaFFI.swift:355-413 | Over every sequence of operations the handles issued are consecutive odd numbers, the `i`th being the next one plus `2 i`, so none is ever reused |
| `HandleMap.StaleForever` | apple/Sources/KitharaFFI/KitharaFFI.swift:389-406 | A handle once issued and no longer live is never live again |
| `HandleMap.LiveUntilRemoved` | apple/Sources/KitharaFFI/KitharaFFI.swift:380-406 | A live handle keeps its object through any operations, up to its own removal and no further |
| `WireCodec.IntRoundTrip` | apple/Sources/KitharaFFI/KitharaFFI.swift:82-147 | A fixed-width integer reads back from its big-endian bytes |
| `WireCodec.PairsRead` | apple/Sources/KitharaFFI/KitharaFFI.swift:9234-9255 | A dictionary reads back from its pairs written in any order of its keys |
| `WireCodec.ReadUndoesWrite` | apple/Sources/KitharaFFI/KitharaFFI.swift:82-155 | For every shape, reading what was written anywhere in a buffer returns the value, stops right after it, and takes out of the table exactly the handles the writing put in |
| `WireCodec.LiftUndoesLower` | apple/Sources/KitharaFFI/KitharaFFI.swift:194-213 | Lifting what lowering gave returns the value and restores the live objects; any trailing byte is refused |
| `WireCodec.WriteIsInjective` | apple/Sources/KitharaFFI/KitharaFFI.swift:194-213 | The same bytes, written from one table and leaving the same objects live, stand for one value |
| `WireFormat.HighestFirst` | apple/Sources/KitharaFFI/KitharaFFI.swift:90-147 | Integers of one, two, four and eight bytes have their highest byte first |
| `WireFormat.ScalarsAre` | apple/Sources/KitharaFFI/KitharaFFI.swift:540-605 | The bytes of an integer, a flag, a string and a dictionary: the number itself, one or zero, the length in four bytes and the text, the count in four bytes and each key once with its value; the table stays as it is |
| `WireFormat.CompoundsAre` | apple/Sources/KitharaFFI/KitharaFFI.swift:8916-9104 | The bytes of an optional value, a sequence, a record, an enum and an object: a flag byte before the value, a count of four bytes before the items, the fields in turn, the number of the case counted from one before its fields, the handle in eight bytes |
| `WireFormat.LiftsExactlyWhatIsWritten` | apple/Sources/KitharaFFI/KitharaFFI.swift:194-213 | For shapes of integers, strings, optional values, sequences, records and enums: bytes are lifted to a value if and only if they are what is written of it |
| `WireFormat.TagsAreRefused` | apple/Sources/KitharaFFI/KitharaFFI.swift:8928-8932 | A flag of an optional value beyond one, and an enum tag that is zero or past the last case, are refused, each with its error |
| `WireFormat.HandlesAreSpent` | apple/Sources/KitharaFFI/KitharaFFI.swift:2253-2262 | An odd handle read is taken from the table with its object, or refused as stale |
| `WireFormat.FlagsAreLoose` | apple/Sources/KitharaFFI/KitharaFFI.swift:545-557 | Any byte but zero reads as true |
| `WireConverters.Reader.ReadInt` | apple/Sources/KitharaFFI/KitharaFFI.swift:82-97 | The loop over the bytes reads the big-endian integer and moves past it, or reports an overflow |
| `WireConverters.ReadString` | apple/Sources/KitharaFFI/KitharaFFI.swift:594-598 | Reads a length-prefixed string; a negative length or one past the end is not read |
| `WireConverters.ReadStringMap` | apple/Sources/KitharaFFI/KitharaFFI.swift:9244-9254 | The loop that fills the dictionary computes what the format says the bytes mean |
| `WireConverters.ReadObject` | apple/Sources/KitharaFFI/KitharaFFI.swift:2253-2261 | An odd handle leaves the table with its object or is stale; an even one is an object of Rust |
| `WireConverters.ReadValue` | apple/Sources/KitharaFFI/KitharaFFI.swift:8916-8935 | The recursive readers compute, for every shape, the value, the offset, the table and the error the format assigns |
| `WireConverters.ReadSequence` | apple/Sources/KitharaFFI/KitharaFFI.swift:9095-9104 | The loop over the items computes the sequence the format assigns |
| `WireConverters.ReadRecord` | apple/Sources/KitharaFFI/KitharaFFI.swift:4302-4311 | Reads the fields in declaration order |
| `WireConverters.LiftValue` | apple/Sources/KitharaFFI/KitharaFFI.swift:196-204 | Lifts exactly the buffers that hold one value and nothing more |
| `WireConverters.WriteString` | apple/Sources/KitharaFFI/KitharaFFI.swift:600-604 | Appends the length and the bytes, and traps exactly when the length does not fit 32 signed bits |
| `WireConverters.WriteStringMap` | apple/Sources/KitharaFFI/KitharaFFI.swift:9235-9242 | Appends one of the dictionary's encodings, in whatever order it is walked, and traps exactly when a count does not fit |
| `WireConverters.WriteObject` | apple/Sources/KitharaFFI/KitharaFFI.swift:2263-2272 | An object of Swift goes into the table under a new handle; one of Rust goes out by a clone of its handle |
| `WireConverters.WriteValue` | apple/Sources/KitharaFFI/KitharaFFI.swift:8916-8935 | What is appended is an encoding of the value; a trap means a count that does not fit or handles all spent |
| `WireConverters.WriteSequence` | apple/Sources/KitharaFFI/KitharaFFI.swift:9087-9093 | The same for sequences, item by item |
| `WireConverters.WriteRecord` | apple/Sources/KitharaFFI/KitharaFFI.swift:4313-4319 | The same for records, field by field |
| `WireConverters.LowerValue` | apple/Sources/KitharaFFI/KitharaFFI.swift:206-213 | Lowering gives an encoding of the value |
| `WireConverters.Cross` | apple/Sources/KitharaFFI/KitharaFFI.swift:194-213 | A value lowered and lifted again is the value, and the live objects are as before |
| `Throughput.Ewma.AddSample` | crates/kithara-abr/src/estimator.rs:29-33 | The incremental update keeps the running state equal to the weighted sum of all samples so far |
| `Throughput.SumSteps` | crates/kithara-abr/src/estimator.rs:29-33 | One incremental update is one more sample in the weighted sum |
| `Throughput.SharesSum` | crates/kithara-abr/src/estimator.rs:29-42 | The weights `(1 - a^w) a^(later weight)` of all samples sum to `1 - a^W` |
| `Throughput.ClampIdle` | crates/kithara-abr/src/estimator.rs:35-42 | A total weight of half a millisecond already puts `1 - a^W` past the clamp, for both half-lives |
| `Throughput.EstimateIsMean` | crates/kithara-abr/src/estimator.rs:35-42 | The bias-corrected estimate is the weighted mean of every accepted sample |
| `Throughput.MeanWithin` | crates/kithara-abr/src/estimator.rs:35-42 | It lies between the smallest and the largest sample rate |
| `Throughput.SampleOf` | crates/kithara-abr/src/estimator.rs:132-136 | A sample weighs its seconds, half a millisecond at least, and its rate times its weight is its bits |
| `Throughput.RoundIsNearest` | crates/kithara-abr/src/estimator.rs:106-120 | A reading is rounded to the nearest whole number |
| `Throughput.ThroughputEstimator.PushSample` | crates/kithara-abr/src/estimator.rs:122-141 | Only network samples of at least the minimum size are accepted, each into both means; a cache hit only moves the seed; the byte count saturates |
| `Throughput.ThroughputEstimator.EstimateBps` | crates/kithara-abr/src/estimator.rs:106-120 | With samples, the smaller of the two means, always positive, whatever was seeded; without, the seed if there is one |
| `Throughput.EstimateWithinSamples` | crates/kithara-abr/src/estimator.rs:106-120 | The reading, if not zero, lies between the slowest and the fastest sample, rounded; if the fastest fits 64 bits it always does |
| `Throughput.HugeRatesReadZero` | crates/kithara-abr/src/estimator.rs:106-120 | If even the slowest sample rounds past 64 bits, the reading is zero |
| `Throughput.EqualRatesRead` | crates/kithara-abr/src/estimator.rs:106-120 | Samples of one rate read as that rate rounded if and only if that fits 64 bits, and as zero if and only if it rounds to zero or does not fit |
| `Throughput.HugeRateReadsZero` | crates/kithara-abr/src/estimator.rs:106-120 | An instance: all the bytes 64 bits count, fetched at once |
| `ModelCache.StepKeeps` | crates/kithara-beat/build.rs:94-257 | Every step of every builder, a crash included, keeps the lock held by whoever is between validation and rename, and changes the cache path only from absent to accepted bytes |
| `ModelCache.CacheHoldsPinnedBytes` | crates/kithara-beat/build.rs:160-197 | A cache path that starts absent never holds bytes whose digest is not the pinned one |
| `ModelCache.PresentPathStays` | crates/kithara-beat/build.rs:160-197 | A cache path once present is never changed |
| `ModelCache.NamedIsValidated` | crates/kithara-beat/build.rs:94-128 | A builder names a snapshot to the compiler only when its output holds exactly the bytes it validated, which are those at the cache path and have the pinned digest if there is a pin |
| `ModelCache.NamesCached` | crates/kithara-beat/build.rs:94-128 | With the lock free, a builder that starts on an accepted cache can name exactly those bytes by steps of its own |
| `ModelCache.NamesDownloaded` | crates/kithara-beat/build.rs:157-197 | The same from an absent path with a pin: accepted bytes can be fetched, cached and named |
| `ModelCache.NamesExactly` | crates/kithara-beat/build.rs:94-257 | With the lock free, a builder that starts can name something by steps of its own if and only if the cache holds accepted bytes, or nothing while there is a pin and bytes that meet it |
| `ModelCache.CrashFreesLock` | crates/kithara-beat/build.rs:130-155 | A holder that dies, wherever it is, leaves the lock free and the files as they are |
| `ModelCache.LockExcludes` | crates/kithara-beat/build.rs:132-155 | At most one builder is between taking the lock and dropping it |
| `ModelCache.LockIsNeeded` | crates/kithara-beat/build.rs:130-155 | Under any rules without the lock there is a run in which a second download overwrites the published bytes with refused ones |
| `ModelCache.CurlMustDie` | crates/kithara-beat/build.rs:157-188 | Under any rules that let a download outlive its builder there is a run in which it writes on into the file it has open, renamed to the cache path meanwhile |
| `ModelCache.SafeExactly` | crates/kithara-beat/build.rs:94-257 | Given bytes that are accepted and bytes that are not, no run from an absent path ever has refused bytes there if and only if the lock excludes and a download dies with its builder |
| `HeapCeiling.ReportsOnce` | crates/kithara-app/src/memory.rs:58-66 | In every interleaving, with the limit moving, at most one thread ever reaches the abort |
| `HeapCeiling.NeverSilentlyOver` | crates/kithara-app/src/memory.rs:58-66 | With a fixed limit, whenever live bytes exceed it some thread is aborting or has seen a total past it and is about to decide |
| `HeapCeiling.ReportsWithCause` | crates/kithara-app/src/memory.rs:58-66 | A thread aborts only with a total the counter has stood at and a limit, not zero, which that total was past in an earlier state of the run |
| `HeapCeiling.QuietWithinLimit` | crates/kithara-app/src/memory.rs:58-66 | With a fixed limit that is zero or never passed, no thread ever aborts and the flag stays down |
| `HeapCeiling.CounterIsExact` | crates/kithara-app/src/memory.rs:68-107 | The counter is the outstanding block bytes plus what is charged in flight less what is released in flight, plus what failed system calls left behind |
| `HeapCeiling.NeverUnderflows` | crates/kithara-app/src/memory.rs:68-107 | With a system allocator that never fails it is exact and never below zero |
| `HeapCeiling.UnderflowsExactly` | crates/kithara-app/src/memory.rs:68-107 | From any reachable state in which nobody has to report, and with no further failure, a counter below zero can be reached if and only if failed calls have left the counter short |
| `HeapCeiling.FailedShrinkUnderflows` | crates/kithara-app/src/memory.rs:98-107 | An instance: one failed shrinking `realloc` from the start |
| `Blob.Reader.ReadInt` | crates/kithara-blob/src/read.rs:39-49 | The fixed-width little-endian integer at the cursor, or the corrupt error |
| `Blob.Reader.ReadCount` | crates/kithara-blob/src/read.rs:66-74 | A count whose items cannot fit in what remains is refused |
| `Blob.Reader.ReadOrdered` | crates/kithara-blob/src/read.rs:111-122 | A value not above the previous one is refused |
| `Blob.Reader.ReadSamples` | crates/kithara-blob/src/read.rs:125-131 | The loop over the samples reads as many as the count says |
| `Blob.Reader.ReadSection` | crates/kithara-blob/src/read.rs:133-146 | The length-prefixed bytes, if they are all there |
| `Blob.IntReadsBack` | crates/kithara-blob/src/write.rs:68-74 | An integer reads back from its little-endian bytes |
| `Blob.IntWritesBack` | crates/kithara-blob/src/read.rs:159-171 | Any bytes are the encoding of the integer they read as |
| `Blob.LowestFirst` | crates/kithara-blob/src/write.rs:68-74 | Integers of one, four and eight bytes have their lowest byte first |
| `BeatResume.ReadRuns` | crates/kithara-analysis/src/progress.rs:184-197 | The loop reads the runs the layered format says are there, or refuses for its reason |
| `BeatResume.ReadCoverage` | crates/kithara-signal/src/coverage/blob.rs:31-52 | The same for the covered ranges, with the saturating end |
| `BeatResume.ReadMarks` | crates/kithara-analysis/src/progress.rs:311-323 | The same for marks |
| `BeatResume.ReadWindows` | crates/kithara-analysis/src/progress.rs:199-217 | The same for windows |
| `BeatResume.ReadShort` | crates/kithara-analysis/src/progress.rs:219-230 | The same for the short set |
| `BeatResume.DecodeBeat` | crates/kithara-analysis/src/progress.rs:167-182 | Decodes what the format says, and a state that comes out is sane |
| `BeatResume.FoundIsMembership` | crates/kithara-analysis/src/progress.rs:232-253 | Over windows in order the binary search decides membership |
| `BeatResume.UnorderedSearchMisses` | crates/kithara-analysis/src/progress.rs:232-253 | Out of order it can miss a window that is there |
| `BeatResume.LayersMakeSane` | crates/kithara-analysis/src/progress.rs:184-253 | What the layers enforce one by one and the final validation are together exactly: runs non-empty, strictly separated, ascending and inside the coverage; window indices strictly ascending; short a subset of them; marks finite and not negative in time |
| `BeatResume.DecodedIsSane` | crates/kithara-analysis/src/progress.rs:167-182 | Every state decoded from any bytes is sane in that sense |
| `BeatResume.BeatReadsBack` | crates/kithara-analysis/src/beat/analyzer.rs:458-476 | Encoding any state and decoding it gives the state back if it is sane and the corrupt error if it is not |
| `BeatResume.CoversEveryFrame` | crates/kithara-analysis/src/progress.rs:232-253 | A run counts as covered exactly when every frame of it is in a covered range |
| `StoredFormat.FieldsDecide` | crates/kithara-analysis/src/progress.rs:311-323 | A bit pattern is finite exactly when its exponent is not 255, and a finite one is below zero exactly when its sign is set and it is not zero |
| `StoredFormat.MarksReadExactly` | crates/kithara-analysis/src/progress.rs:311-323 | Stored marks are read back if and only if each has, by the fields of its two patterns, a finite time not below zero and a finite confidence; else they are corrupt |
| `StoredFormat.BeatBytes` | crates/kithara-analysis/src/beat/analyzer.rs:458-476 | The beat section byte by byte: a flag and the origin, then runs, covered ranges, windows and the short set, each behind its count |
| `AnalysisResume.Capture` | crates/kithara-analysis/src/progress.rs:94-110 | The bytes are the header and both sections; the shape says which sections were given |
| `AnalysisResume.DecodeBytes` | crates/kithara-analysis/src/progress.rs:116-125 | The shape says which sections decoded to something; every error of the decoding is passed on |
| `AnalysisResume.ReadPayload` | crates/kithara-analysis/src/progress.rs:297-309 | An empty section is nothing; any other must be decoded and used up |
| `AnalysisResume.CaptureReadsBack` | crates/kithara-analysis/src/progress.rs:271-309 | Decoding a capture gives the chunk length and what each payload decodes to; a zero chunk length, a refused payload and trailing bytes are refused |
| `AnalysisResume.AcceptsExactlyCaptures` | crates/kithara-analysis/src/progress.rs:277-309 | Bytes are accepted exactly when they are what a capture writes of sections their decoders accept whole |
| `AnalysisResume.ShapesAgree` | crates/kithara-analysis/src/progress.rs:94-125 | The captured shape is the decoded one exactly when no section that is present is empty |
| `AnalysisResume.OtherVersionRefused` | crates/kithara-analysis/src/progress.rs:277-285 | Any other version is refused and named |
| `StoredFormat.CaptureBytes` | crates/kithara-analysis/src/progress.rs:94-110 | A capture byte by byte: version `0x4b415203`, chunk length and two sections behind their lengths, the waveform first |
| `DocumentMerge.Merge` | crates/kithara-app-document/src/merge.rs:6-20 | The loop that inserts into and overwrites the base computes the merged document, keys in the base's order and then the overlay's |
| `DocumentMerge.MergedAt` | crates/kithara-app-document/src/merge.rs:3-20 | At any path: what the overlay has there over what the base has; nothing below a plain value of the overlay; else what the base has |
| `DocumentMerge.NamedWins` | crates/kithara-app-document/src/merge.rs:3-20 | The overlay wins at every plain value it names |
| `DocumentMerge.MergedWf` | crates/kithara-app-document/src/merge.rs:6-20 | Every mapping of the result lists each of its keys once |
| `DocumentMerge.SwallowsWhatItCovers` | crates/kithara-app-document/src/merge.rs:6-20 | Merging gives the overlay itself exactly when the overlay settles everything the base does, in the base's order first |
| `DocumentMerge.MergedWithItself` | crates/kithara-app-document/src/merge.rs:6-20 | A document laid over itself is itself |
| `DocumentMerge.MergedTwice` | crates/kithara-app-document/src/merge.rs:6-20 | Laying an overlay a second time changes nothing |
| `DocumentMerge.AssociatesExactlyWithoutClash` | crates/kithara-app-document/src/merge.rs:6-20 | Three documents give the same whichever two are merged first, if and only if nowhere a plain value of the second stands between a mapping of the first and one of the third that does not cover it |
| `DocumentMerge.BlankIsLost` | crates/kithara-app-document/src/merge.rs:6-20 | An instance: a blanked section between two that set different keys |
| `DocumentBake.ScanText` | crates/kithara-app-document/src/bake.rs:73-79 | The loop over the shrinking rest collects the names between each mark and the next closing brace, in order |
| `DocumentBake.CollectRefs` | crates/kithara-app-document/src/bake.rs:66-99 | The recursion collects every reference of the document, in document order |
| `DocumentBake.NamesReadBack` | crates/kithara-app-document/src/bake.rs:68-80 | A text put together of literals and braced names has exactly those names, in order; without a mark, one that begins with a dollar has all the rest as its name |
| `DocumentBake.EveryTextIsRendered` | crates/kithara-app-document/src/bake.rs:73-79 | Every text is put together so, so the scan is settled for all texts |
| `DocumentBake.ListsWhatSits` | crates/kithara-app-document/src/bake.rs:66-99 | A pair is listed exactly when some text of the document contains the name and the path down to that text is the one listed |
| `DocumentBake.PathGoesOn` | crates/kithara-app-document/src/bake.rs:81-96 | One step further down a path goes on with an index in decimal in brackets, or with a key behind a dot, without the dot at the top; a key that is not text shows as a question mark |
| `DocumentBake.RefsInDocumentOrder` | crates/kithara-app-document/src/bake.rs:66-99 | The references are listed in the order of the document, each as often as it stands there and none left out |
| `DocumentBake.Dedup` | crates/kithara-app-document/src/bake.rs:49-50 | No neighbours are equal, nothing is lost, and sorted names come out distinct |
| `DocumentBake.BakeFor` | crates/kithara-app-document/src/bake.rs:29-64 | The text embedded, every reference of the document it stands for, each failure passed on; and outside the web, ascending and each once, exactly the referenced names with a non-empty answer; on the web none |
| `DocumentBake.BakedLayers` | crates/kithara-app-document/src/bake.rs:29-64 | What the baked document has at any path: for `wasm32` what the web overlay settles there, and what it leaves alone as the application has it; for any other target the application's own |
| `DocumentBake.ResolvedIsUnique` | crates/kithara-app-document/src/bake.rs:46-58 | References and environment leave one list of answers to embed |
| `EqModes.PlaceOf` | crates/kithara-app/src/deck.rs:37-39 | The place of the band with that name, or none if the mode has none |
| `EqModes.ThereAndBack` | crates/kithara-app/src/deck.rs:61-93 | Three bands to four and back is the identity; four to three and back exactly when the two mids agreed |
| `Decks.FoldsToThree` | crates/kithara-app/src/deck.rs:61-93 | After a switch from four bands to three every deck, and the layout its queue holds, has the outer gains and half the sum of the two mids |
| `Decks.SpreadsToFour` | crates/kithara-app/src/deck.rs:61-93 | After one from three to four, the outer gains and the mid in both places |
| `EqModes.Layout` | crates/kithara-app/src/deck.rs:50-58 | The loop over bands and gains gives the mode's bands with those gains |
| `EqModes.LayoutTells` | crates/kithara-app/src/deck.rs:50-58 | A layout tells its mode and its gains |
| `Mix.LevelExists` | crates/kithara-app/src/mix.rs:50-60 | A strip has a level, and one between zero and one, exactly when the crossfader stands inside its travel and no factor is undefined or infinite beside a silent one |
| `Mix.LevelIsProduct` | crates/kithara-app/src/mix.rs:50-60 | With ordinary numbers the level is trim times master times what the crossfader leaves the strip's bus (the first share for A, the second for B, everything for a bypass), kept within zero and one; muted it is zero |
| `Decks.DeckSet.Commit` | crates/kithara-app/src/deck.rs:363-382 | The three loops over the decks give exactly the result and the state of the edit as a function of the decks and of what their queues answer |
| `Decks.DeckSet.CheckLevels` | crates/kithara-app/src/deck.rs:368-370 | The first level that does not exist is reported before any deck is told anything |
| `Decks.DeckSet.SendLevels` | crates/kithara-app/src/deck.rs:354-356 | Commits the stored mix and strips |
| `Decks.DeckSet.SetCrossfader` | crates/kithara-app/src/deck.rs:446-454 | Commits the stored mix at another position |
| `Decks.DeckSet.SetTrim` | crates/kithara-app/src/deck.rs:460-471 | Commits the stored mix with one deck's trim changed |
| `Decks.DeckSet.SetEqGain` | crates/kithara-app/src/deck.rs:389-419 | A gain for a layout no longer in force is dropped; any other is stored and its deck's queue told |
| `Decks.DeckSet.Changes` | crates/kithara-app/src/deck.rs:475-482 | Changes for every deck, exactly when every deck's gains fit the current mode |
| `Decks.DeckSet.RollBack` | crates/kithara-app/src/deck.rs:487-489 | Last first, the decks that switched are given back the layout of their gains |
| `Decks.DeckSet.SetEqMode` | crates/kithara-app/src/deck.rs:474-499 | The loops give exactly the outcome and the state of the switch as a function of the decks and of what their queues answer, roll-back included |
| `Decks.DeckRecord.ChangeMode` | crates/kithara-app/src/deck.rs:241-258 | The moved gains and the layouts before and after, or none if the gains do not fit |
| `Decks.DeckRecord.SetEqBand` | crates/kithara-app/src/deck.rs:221-230 | The gain is stored whether or not the queue takes it; a band that is not there changes nothing |
| `Decks.Owner.SetEqMode` | crates/kithara-app/src/engine/owner.rs:152-156 | The mode in force changes only with a switch that succeeds, and one already in force is not asked for |
| `Decks.AcceptedEditIsHeard` | crates/kithara-app/src/deck.rs:358-382 | An accepted edit is stored, and every deck plays at the level the stored mix gives its strip |
| `Decks.TrimsOneDeck` | crates/kithara-app/src/deck.rs:460-471 | An accepted trim is stored for the deck named and no other, and leaves the mix, every bus and every mute as they were |
| `Decks.RejectedEditIsNotStored` | crates/kithara-app/src/deck.rs:358-382 | A rejected edit leaves the mix, the strips and the gains; one without a level for some deck changes nothing at all |
| `Decks.RejectedEditIsUnheard` | crates/kithara-app/src/deck.rs:358-382 | A rejected edit is heard nowhere exactly when every deck before the one that refused already played at its new level |
| `Decks.RejectedEditCanBeHeard` | crates/kithara-app/src/deck.rs:358-382 | An instance in which a rejected edit silences a deck |
| `Decks.SendingLevelsRecovers` | crates/kithara-app/src/deck.rs:350-356 | Sending the stored mix again, once accepted, restores every level a rejected edit moved |
| `Decks.SwitchesEveryDeck` | crates/kithara-app/src/deck.rs:473-499 | A switch that succeeds leaves every queue on the new mode's layout of its deck's moved gains |
| `Decks.RolledBackExactly` | crates/kithara-app/src/deck.rs:486-491 | A deck in step that took the new layout ends on its old one if and only if its queue takes the roll-back |
| `Decks.FailedSwitchRestores` | crates/kithara-app/src/deck.rs:486-491 | A failed switch leaves every layout of decks in step as it was if and only if every queue that took the new layout takes the roll-back |
| `Decks.SwitchesAllOrNone` | crates/kithara-app/src/deck.rs:473-499 | Decks in step whose queues take back the layout they hold are all in step with one mode afterwards, and on failure no layout has changed |
| `Decks.SwitchesExactlyWithRoom` | crates/kithara-app/src/deck.rs:473-499 | When queues refuse layouts only for want of room, a switch succeeds exactly when every queue has room for the new bands |
| `Decks.SwitchedThereAndBack` | crates/kithara-app/src/deck.rs:473-499 | To four bands and back leaves every gain as it was |
| `Decks.SwitchCanStopHalfway` | crates/kithara-app/src/deck.rs:486-491 | An instance in which a failed switch leaves decks in different modes |
| `Decks.GainKeepsStep` | crates/kithara-app/src/deck.rs:221-230 | A gain keeps its deck in step exactly when the queue takes it, there is no such band, or it was the gain already |
| `Decks.RunStaysInStep` | crates/kithara-app/src/deck.rs:363-499 | Over every sequence of gains, mode switches and mix edits, with queues that take every gain and refuse layouts only for want of room, and whatever levels are refused, every queue holds the gains its deck shows in the mode in force |
| `Decks.RunStaysInMix` | crates/kithara-app/src/deck.rs:363-499 | Over every such sequence in which levels are taken, what is heard is the mix that is stored |

## Left out

- Processes, `cargo`, curl, the network and the text of TOML and YAML: the registry is a set that grows, files are values, manifests and documents are trees, and the YAML reader and writer are parameters of the bake.
- Assumed of the system: rename is atomic, a lock is freed when its holder dies, a builder's download dies with it (`LockIsNeeded` and `CurlMustDie` show what goes wrong otherwise), blocks are owned by one caller at a time, and a queue's answer is final.
- Rounding: the throughput estimator, the equalizer and the mix are over the reals (the mix with infinities and not-a-number beside them); `powf` is any function that multiplies over sums, falls strictly and is one half at the half-life; the crossfader's curve is a parameter.
- Machine words: handles are counted without bound and their exhaustion is one trap; the heap counter is an integer that may fall below zero where the source would wrap; `usize` is 64 bits wide.
- UTF-8: strings on the wire are their bytes, and the decoder's replacement of invalid ones is not modelled; floats on the wire are their bit patterns.
- Objects implemented in Rust: any even handle Rust knows stands for one, and a type implemented in Rust alone is lifted whatever the handle's parity; their reference counts are Rust's.
- Converters of single objects, callbacks, optional values and sequences have no table of their own: they are the shapes the 47 tables are built of. That a table transcribes both the `read` and the `write` of its converter is not a theorem.
- Every foreign type has a handle map of its own; the model has one, which stands for the map of whichever type is crossing.
- A document handed over as `&mut` is a value in and a value out, and so are the tables the manifest rewrite edits; nothing else can see them meanwhile. Mapping keys that are not text are known up to the equality the library gives them.
- The waveform analyser's decoder is a parameter of the resume; padding a live run's samples with silence and dropping runs without frames happen before the encoder of the model starts.
- The queue, the host and the mixer behind a deck: a queue is any function from the commands it was given to yes or no, with the layout and the level it holds. Frequencies and qualities of bands follow from a band's place and are not computed.
- Feature entries are read as cargo reads them (`dep:x`, `x/f`, `x?/f`); what cargo makes of a manifest beyond that, renamed packages and the old spellings of the table names among it, is not modelled.
- Snapshots, seeking, tempo, synchronisation, quality and shutdown of a deck; dry runs of the publisher; how it finds its graph and restores its files after an upload.
- `resolve_publish_order` itself: it hands the sort a graph whose lists name only its keys, the case `RefusesExactlyCycles` singles out.
- The adaptive bitrate controller, the playback engine, the user interface and the other build scripts.
