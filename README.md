# Mindreader archiver selector and zap log plugin, in Dafny

This project models two pieces of a blockchain node manager.

**The mindreader's archiver selector** (`ArchiverSelector`, `archiver_selector.dfy`).
For every block the node produces, `StoreBlock` sends the block to one of two archivers:

- the one-block archiver, which writes one file per block;
- the merge archiver, which writes bundles of 100 blocks.

The choice depends on three flags: `firstBlockPassed`, `firstBoundaryPassed` and `currentlyMerging`.
It also depends on a policy: merge in batch mode, when the block is older than a threshold, or when it is at least 100 blocks behind the last irreversible block (LIB).
The mode can change only at a boundary block. A boundary block is a multiple of 100 or the protocol's first streamable block.
Once a boundary has passed while producing one-block files, the selector is pinned to the one-block archiver for good.
At a switch from one-block files to merging, the boundary block goes to both archivers, one-block archiver first.

If the very first block is not a boundary, the selector looks in its working directory for a partial merge file named `archiver_<10-digit start block>.partial`:

- it deletes the stale partial files its scan reaches;
- it decodes the matching file;
- it replays the recovered blocks, in order, before the live block;
- with nothing recovered, it falls back to one-block files.

The model has two layers:

- a pure specification: `Route`/`Step` for one call and `Run` for a sequence of calls;
- a `Selector` class whose methods mirror the Go code step by step and are proved equal to the specification.

The archivers are a single ghost log of calls, `calls`, plus the set `refused` of calls whose `StoreBlock` fails.
The working directory is a `WorkDir` value, and its `os.Open`/`os.Remove` calls go to a ghost log `fsOps`.
Go's `uint64` addition `blockNum+100` is modelled with its wrap-around modulo 2^64.

**The log plugin** (`LogPlugin`, `log_plugin.dfy`). `LogLine` classifies a line from the node's output:

- `DMLOG ` lines are logged at debug level only while deep-mind debugging is on;
- other lines get info, error, warn or debug from their prefix;
- configured regular expressions may then override that level, or hide the line with `NoDisplay` (fatal + 10).

`Classify` is the specification. The class `ToZapLogPlugin` has `LogLine`, the option handling of `NewToZapLogPlugin` and `DebugDeepMind`.
Regular-expression matching is a parameter `matches(pattern, line)`. Go's unspecified map iteration order is a parameter `order`.

`wrappers.dfy` holds the `Option` type. A Go `nil` result is `None`, or `[]` for a nil slice.

## Model

| member | source | states |
|---|---|---|
| ArchiverSelector.ShouldMerge | mindreader/archiver_selector.go:132-154 | Without overflow, the block is merged iff batch mode is on, or its age exceeds the threshold, or `num + 100 <= lastSeenLIB` |
| ArchiverSelector.ShouldMergeWrapsNearMax | mindreader/archiver_selector.go:147 | For block numbers within 100 of 2^64, the LIB test compares against the wrapped sum. Such a block merges whenever the last seen LIB is at least 99 |
| ArchiverSelector.AddUint64 | mindreader/archiver_selector.go:147 | Go's uint64 `+`: the sum, less 2^64 when it reaches 2^64 |
| ArchiverSelector.IsBoundary | mindreader/archiver_selector.go:230 | A boundary block is a multiple of 100 or the first streamable block |
| ArchiverSelector.Choose | mindreader/archiver_selector.go:217-222 | The merge archiver is chosen exactly when merging |
| ArchiverSelector.SendInOrder | mindreader/archiver_selector.go:246-251 | Archiver calls made one after another until one fails: the calls made and the error returned |
| ArchiverSelector.SendInOrderStopsAtFirstError | mindreader/archiver_selector.go:246-251 | Calls made are a prefix of those planned. With no error, all were made and none was refused. An error is the last call made, it was refused, and every earlier call succeeded |
| ArchiverSelector.ParseUint10 | mindreader/archiver_selector.go:168-172 | Parsing succeeds iff the string is non-empty, all digits and below 2^64, and then yields the decimal value |
| ArchiverSelector.PartialNumber | mindreader/archiver_selector.go:164-172 | A name passes iff it has length 27 and characters [9:19] are digits, and the number is their decimal value |
| ArchiverSelector.PartialNameRoundTrip | mindreader/archiver_selector.go:157-172 | `archiver_` + 10-digit zero-padded n + `.partial` matches the glob and parses back to n |
| ArchiverSelector.Present | mindreader/archiver_selector.go:193-198 | The non-nil blocks among the reader's results, in order |
| ArchiverSelector.ReadBlocks | mindreader/archiver_selector.go:193-208 | The read loop appends every non-nil block in order, including one that comes with the final error. It reports whether that error was EOF |
| ArchiverSelector.VisitPartial | mindreader/archiver_selector.go:163-211 | One globbed file: a bad name is skipped; a stale number is removed; an unopenable file is opened and removed; a reader-factory error stops with nil; a decoded file is removed and stops with its blocks at EOF, nil on a read error |
| ArchiverSelector.Scan | mindreader/archiver_selector.go:162-214 | The loop over the globbed files: the file operations up to and including the first file that returns, and that file's blocks, or nil when none returns |
| ArchiverSelector.Glob | mindreader/archiver_selector.go:157 | The directory entries named `archiver_*.partial`, in the directory's order |
| ArchiverSelector.PartialRecovery | mindreader/archiver_selector.go:156-161 | loadLastPartial: nil and no file operation when the glob fails, otherwise the scan of the globbed files |
| ArchiverSelector.GlobSelects | mindreader/archiver_selector.go:157 | The glob keeps exactly the entries named `archiver_*.partial` |
| ArchiverSelector.StopsIff | mindreader/archiver_selector.go:173-191 | The scan returns at a file iff its number is `next` and it can be opened |
| ArchiverSelector.NoStopScansAll | mindreader/archiver_selector.go:162-214 | When no file stops the scan, loadLastPartial returns nil |
| ArchiverSelector.FirstStopDecides | mindreader/archiver_selector.go:162-212 | The first stopping file decides the returned blocks. The file operations are those for the earlier files followed by its own |
| ArchiverSelector.ScanAppend | mindreader/archiver_selector.go:162-177 | After non-stopping files, one more file adds exactly its own file operations |
| ArchiverSelector.DecodeOutcomes | mindreader/archiver_selector.go:179-211 | At the matching file, a reader-factory error gives nil and only an open. A read error gives nil, open and remove. EOF gives the blocks read (nil if none), open and remove |
| ArchiverSelector.ScanTouchesOnlyWellNamed | mindreader/archiver_selector.go:162-184 | Only files with a valid name are opened or removed, and only a file numbered `next` is opened |
| ArchiverSelector.StaleFileRemoved | mindreader/archiver_selector.go:173-177 | A stale file reached by the scan is removed and never opened |
| ArchiverSelector.Route | mindreader/archiver_selector.go:224-278 | StoreBlock's branches: the new flags, the archiver calls planned in order and the file operations |
| ArchiverSelector.ReplayPlan | mindreader/archiver_selector.go:241-251 | A first non-boundary block: the recovery's blocks then the live block, all to the archiver chosen by the policy and a non-nil recovery |
| ArchiverSelector.Step | mindreader/archiver_selector.go:224-278 | One StoreBlock call: the planned calls made in order until one fails, with the new flags and file operations |
| ArchiverSelector.StepFlags | mindreader/archiver_selector.go:224-278 | A pinned selector keeps its flags. `firstBoundaryPassed` never goes back to false. After any call the first block has passed |
| ArchiverSelector.RoutePlan | mindreader/archiver_selector.go:224-278 | The live block is planned last. All planned calls go to one archiver, except at the handoff, which plans exactly one-block then merge |
| ArchiverSelector.StepCalls | mindreader/archiver_selector.go:224-278 | With no error the live block is the last call. An error is the last call and was refused. Calls go to one archiver, except at the handoff, where they are a prefix of one-block then merge |
| ArchiverSelector.PinnedFastPath | mindreader/archiver_selector.go:225-227 | When pinned, the call makes one delivery to the one-block archiver, leaves the flags unchanged and touches no file |
| ArchiverSelector.FirstBlockAtBoundary | mindreader/archiver_selector.go:230-239 | A first block at a boundary seeds the mode from the policy and passes the first boundary. It is delivered once to the chosen archiver, with no partial-file lookup |
| ArchiverSelector.FirstBlockRecovers | mindreader/archiver_selector.go:241-251 | A first non-boundary block runs the recovery. A nil recovery forces one-block mode. Recovered blocks then the live block go in order to the chosen archiver, stopping at and returning the first error |
| ArchiverSelector.BetweenBoundaries | mindreader/archiver_selector.go:254-256 | A later non-boundary block is delivered once to the current archiver, and the flags stay unchanged |
| ArchiverSelector.LaterBoundary | mindreader/archiver_selector.go:258-276 | A later boundary passes the first boundary and re-evaluates the policy. A switch to merging delivers to one-block, then to merge unless the first call failed. Every other case is a single delivery |
| ArchiverSelector.Run | mindreader/archiver_selector.go:224-278 | StoreBlock called on each input in turn: the final flags, every archiver call, and the number of handoffs |
| ArchiverSelector.PinnedForever | mindreader/archiver_selector.go:225-227 | From pinned flags, every block of a run goes only to the one-block archiver and the flags never change |
| ArchiverSelector.RunSplit | mindreader/archiver_selector.go:224-278 | A run over `xs + ys` is the run over `xs` followed by the run over `ys` from its final flags |
| ArchiverSelector.NeverBackToMerging | mindreader/archiver_selector.go:225-226 | Once pinned after k calls, all later blocks go to the one-block archiver and the selector stays pinned |
| ArchiverSelector.AtMostOneHandoff | mindreader/archiver_selector.go:261-274 | In any run from reachable flags, the double delivery happens at most once, and never after the first boundary has passed |
| ArchiverSelector.HandoffAtFirstBoundary | mindreader/archiver_selector.go:264-273 | Blocks 199 then 200, with 200 old enough to merge, give one-block 199, then one-block 200, then merge 200 |
| ArchiverSelector.Selector.constructor | mindreader/archiver_selector.go:49-74 | A new selector has all three flags false and empty logs |
| ArchiverSelector.Selector.Init | mindreader/archiver_selector.go:298-303 | The one-block archiver is initialised first. Its error is returned without initialising the merge archiver. Otherwise the merge archiver's result is returned |
| ArchiverSelector.Selector.Deliver | mindreader/archiver_selector.go:247 | One StoreBlock call on an archiver is logged, and fails exactly when it is refused |
| ArchiverSelector.Selector.VisitFile | mindreader/archiver_selector.go:163-211 | One loop iteration of loadLastPartial does what `VisitPartial` specifies |
| ArchiverSelector.Selector.LoadLastPartial | mindreader/archiver_selector.go:156-215 | Returns the recovered blocks of `PartialRecovery` and appends exactly its file operations |
| ArchiverSelector.Selector.Replay | mindreader/archiver_selector.go:246-251 | Delivers the recovered blocks then the live block to one archiver, as `SendInOrder` specifies, and returns the first error |
| ArchiverSelector.Selector.StoreBlock | mindreader/archiver_selector.go:224-278 | The new flags, archiver calls, file operations and returned error are exactly those of `Step` |
| LogPlugin.PrefixesExclusive | log_plugin/to_zap_log_plugin.go:88-94 | No line carries two of the info, error and warn prefixes, so the order of the tests does not matter |
| LogPlugin.PrefixLevel | log_plugin/to_zap_log_plugin.go:87-94 | Info iff an info prefix, error iff an error prefix, warn iff a warn prefix, debug iff none of them |
| LogPlugin.Adjusted | log_plugin/to_zap_log_plugin.go:96-105 | The adjustment loop over the patterns in visiting order: a matching NoDisplay pattern hides the line, any other matching pattern replaces the level |
| LogPlugin.HiddenIffNoDisplayMatches | log_plugin/to_zap_log_plugin.go:96-101 | The loop hides a line iff some visited matching pattern maps to NoDisplay, wherever it comes in the order |
| LogPlugin.NoMatchKeepsLevel | log_plugin/to_zap_log_plugin.go:96-105 | With no matching pattern, the prefix level stands |
| LogPlugin.LastMatchDecides | log_plugin/to_zap_log_plugin.go:96-105 | When no match hides the line, the level is that of the last matching pattern visited |
| LogPlugin.AgreeingMatchesDecide | log_plugin/to_zap_log_plugin.go:96-105 | When all matching patterns map to the same visible level, that level results in any visiting order |
| LogPlugin.DeepMindLines | log_plugin/to_zap_log_plugin.go:79-85 | A `DMLOG ` line is logged iff deep-mind debugging is on, then at debug level, and the adjustments do not matter |
| LogPlugin.Classify | log_plugin/to_zap_log_plugin.go:78-105 | LogLine's decision for an order that visits every adjustment once: deep-mind lines by the switch, other lines by prefix then adjustments |
| LogPlugin.ClassifyHides | log_plugin/to_zap_log_plugin.go:96-101 | A non-deep-mind line is hidden iff some adjustment of the table matches it with NoDisplay, whatever the order |
| LogPlugin.ClassifyUnmatched | log_plugin/to_zap_log_plugin.go:87-105 | A non-deep-mind line that no adjustment matches is logged at its prefix level |
| LogPlugin.ClassifyAgreeing | log_plugin/to_zap_log_plugin.go:96-105 | A non-deep-mind line whose matching adjustments all give one visible level is logged at that level, whatever the order |
| LogPlugin.ApplyOptions | log_plugin/to_zap_log_plugin.go:37-46 | The options applied in turn: a non-empty mapping replaces the adjustments, an empty one keeps them |
| LogPlugin.LastNonEmptyOptionWins | log_plugin/to_zap_log_plugin.go:37-46 | After the options are applied, the adjustments are the last non-empty mapping |
| LogPlugin.EmptyOptionsKeep | log_plugin/to_zap_log_plugin.go:39-44 | Options with empty mappings leave the adjustments unchanged |
| LogPlugin.ToZapLogPlugin.constructor | log_plugin/to_zap_log_plugin.go:58-69 | Sets the deep-mind flag, applies the options in order starting from no adjustments, and writes nothing |
| LogPlugin.ToZapLogPlugin.Apply | log_plugin/to_zap_log_plugin.go:37-46 | A non-empty mapping replaces the adjustments, and an empty one leaves them |
| LogPlugin.ToZapLogPlugin.DebugDeepMind | log_plugin/to_zap_log_plugin.go:71-73 | Sets only the deep-mind flag |
| LogPlugin.ToZapLogPlugin.LogLine | log_plugin/to_zap_log_plugin.go:78-108 | For a visiting order that lists every adjustment exactly once, writes to the logger exactly the entry `Classify` gives, or nothing when it gives None |

## Left out

- The background LIB poller (`launchLastLIBUpdater`, `updateLastLIB`, mindreader/archiver_selector.go:76-130) is a goroutine with sleeps, a timeout and a network call. `lastSeenLIB` is instead an input of each `StoreBlock` call.
- `Start` and `Terminate` (mindreader/archiver_selector.go:280-296) only launch goroutines and wait on channels.
- The file system and the block decoder are abstract inputs: a `WorkDir` value with a per-file outcome, and a log of opens and removes.
  - `f.Close()` is not recorded.
  - The directory is the one the first `StoreBlock` call sees; it is only read on that call.
  - The glob's order is the entries' order, left free. Go's `filepath.Glob` sorts the names, so in the program the stale files that sort before the matching file are always removed; those after it are kept only when the matching file opens, that is, when it decodes or its reader fails. The model does not capture that sorting.
- `Stream`: a block reader's output is a finite sequence ending in EOF or an error, so a reader that never returns an error, which would keep the read loop (mindreader/archiver_selector.go:194-208) running forever, is not represented.
- The wall clock is an integer parameter `now`, and block age is `now - b.time`. `time.Since` and the `time.Duration` type are not modelled.
- The archivers' own behaviour is not modelled. Only the calls to `StoreBlock` and `Init` on them are recorded, and the sets `refused`/`initRefused` decide which calls fail.
- Zap logging of the selector's messages is left out. The log plugin's logger is the list of entries handed to `Check(...).Write()`. The logger's own level filtering is left out, and so is the panic or exit that zap performs for entries at panic or fatal levels.
- Regular expressions are a `matches` parameter. The panic of `regexp.MustCompile` on an invalid pattern is left out.
- Go's map iteration order is a parameter `order` of `LogLine`. When several patterns match with different levels, the model's result depends on that order, as the program's does.
- `Close` of the log plugin does nothing and is not modelled.
- `bstream.GetProtocolFirstStreamableBlock` is the configuration value `firstStreamable`.
