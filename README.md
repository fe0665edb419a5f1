# cargoworker discovery and telemetry core, in Dafny

This project models the part of cargoworker that discovers a source tree and reports on the run:

- the `stats.Plan` accumulator and its `PlanSnapshot`;
- `Runner.Plan`, which walks the input tree, counts each entry into the plan, prunes ignored directories and measures each entry's depth;
- the run-level `RunStats`, built from functional options and updated by nil-safe helpers;
- the read-through language identity cache;
- the event bus, which fans events out to bounded subscriber channels;
- the selection, ordering and application of the embedded schema migrations;
- the logger's option handling and its `multiHandler`.

Each Go file of the core has its own module:

| module | file |
|---|---|
| `StatsPlan` | `stats_plan.dfy` |
| `PlanRunner` | `plan_runner.dfy` |
| `StatsRun` | `stats_run.dfy` |
| `Languages` | `language_cache.dfy` |
| `EventBus` | `event_bus.dfy` |
| `Migrations` | `migrations.dfy` |
| `Logx` | `logx.dfy` |

Two helper modules support them. `Wrappers` holds `Option` and `Result`. `GoStrings` holds the few `strings`/`strconv` functions the core calls.

State the Go code updates in place is a Dafny `class`. This covers the plan accumulator, the runner, `Stats`, the cache, the bus and the database connection. Each method's `modifies` clause bounds what it may change. Where the Go method touches a few fields of a larger object (the plan's setters and counters, the walk, the bus, the cache, the migration steps), it names those fields. Where it replaces a whole record (the `Stats` methods) or hands the object to other code (the database connection in `BuildDatabase` and `Runner.Plan`), it names the object, and the `ensures` clauses say what its fields become. Each method is proved against a pure function of the old state:

- a `Step`/`Run` fold for the walk callback;
- `Select`/`SortByVersion`/`FirstFailure` for the migrations;
- `ApplyAll` for the options;
- `Resolve` for the cache;
- `Offer` for the dispatcher;
- `FirstError` for the error aggregation.

The properties the code promises are contracts of those functions, or lemmas about them.

Modelling conventions:
- Timestamps are integers in milliseconds, and 0 stands for Go's zero `time.Time`.
- Each `time.Now()` reading is a parameter.
- Nil pointers are `null` references (`Stats?`, `Plan?`) or `None`.
- The file system is a `Node` tree. fs.WalkDir's pre-order traversal of it, starting at `"."`, is `TraceNode`/`TraceRoot`.
- The gitignore matcher is an abstract predicate on slash paths.
- The database is stood for by what it answers: a lookup function for the language tables, and failure oracles on the `Database` object for the migrations.
- slog handlers are values of an abstract type. What they do is passed in as functions.

On a tree holding `a.go`, `b.txt` and an ignored `vendor/` holding `x.go`, the walk selects three entries: the root `"."` is visited, is not ignored, and is counted as selected along with `a.go` and `b.txt` (`PlanRunner.VendorExample`).

## Model

| member | source | states |
|---|---|---|
| `StatsPlan.Plan.constructor` | internal/stats/plan.go:41-50 | a new plan starts at `now` with the given root and glob lists, every counter, the maximum depth, the largest size and the breakdown map at zero or empty, and no .gitignore found |
| `StatsPlan.Plan.End` | internal/stats/plan.go:52-54 | the end time becomes the clock reading; no other field changes |
| `StatsPlan.Plan.AddDBInit` | internal/stats/plan.go:56 | stores the database init time; no other field changes |
| `StatsPlan.Plan.SetLanguage` | internal/stats/plan.go:57 | stores the language; no other field changes |
| `StatsPlan.Plan.SetGitIgnoreFound` | internal/stats/plan.go:58 | stores the flag; no other field changes |
| `StatsPlan.Plan.SetLanguageSource` | internal/stats/plan.go:59 | stores the language source; no other field changes |
| `StatsPlan.Plan.IncDiscovered` | internal/stats/plan.go:60 | adds exactly n to the discovered count and changes nothing else |
| `StatsPlan.Plan.IncSelected` | internal/stats/plan.go:61 | adds exactly n to the selected count and changes nothing else |
| `StatsPlan.Plan.IncDirs` | internal/stats/plan.go:62 | adds exactly n to the directory count and changes nothing else |
| `StatsPlan.Plan.MaxDepthSeen` | internal/stats/plan.go:63-72 | a non-positive depth changes nothing; otherwise the maximum becomes the larger of itself and the depth, never decreasing |
| `StatsPlan.Plan.ConsiderLargest` | internal/stats/plan.go:73-83 | the largest size becomes the larger of itself and the size; a size not larger leaves it unchanged |
| `StatsPlan.Plan.Ignore` | internal/stats/plan.go:84-91 | n == 0 changes nothing; otherwise the reason's count grows by n (absent counts as 0), and every other reason's count and the key set apart from the reason are unchanged |
| `StatsPlan.Plan.Warn` | internal/stats/plan.go:92 | the warning count grows by one |
| `StatsPlan.Plan.Error` | internal/stats/plan.go:93 | the error count grows by one |
| `StatsPlan.Plan.Snapshot` | internal/stats/plan.go:95-132 | the snapshot copies every field and the whole breakdown map, has ignored = discovered − selected and a duration only when both timestamps are set, and the plan is not changed |
| `StatsPlan.FoldDepthIsMax` | internal/stats/plan.go:63-72 | after any run of MaxDepthSeen calls the maximum is at least the start value and every positive depth submitted, and equals one of them |
| `StatsPlan.FoldDepthOrderFree` | internal/stats/plan.go:63-72 | the maximum after two runs of MaxDepthSeen calls does not depend on which run comes first |
| `StatsPlan.FoldLargestIsMax` | internal/stats/plan.go:73-83 | after any run of ConsiderLargest calls the largest size is at least the start value and every size submitted, and equals one of them |
| `StatsPlan.FoldLargestOrderFree` | internal/stats/plan.go:73-83 | the largest size after two runs of calls does not depend on their order |
| `StatsPlan.FoldIgnoreCounts` | internal/stats/plan.go:84-91 | after any run of Ignore calls, a reason's count is its start count plus the sum submitted for it |
| `StatsPlan.FoldIgnoreKeys` | internal/stats/plan.go:84-91 | after any run of Ignore calls, a reason is a key exactly when it was one already or some call gave it a non-zero amount |
| `PlanRunner.DepthFrom` | internal/plan/plan.go:96-103 | depthFrom; it has no contract of its own: `DepthOfRoot`, `DepthOfJoined`, `ChildDepth` and `DepthAtMostSeparators` state what it computes |
| `PlanRunner.DepthAtMostSeparators` | internal/plan/plan.go:96-103 | an entry is never deeper than the number of separators in its full path |
| `PlanRunner.DepthOfRoot` | internal/plan/plan.go:96-103 | the input root is at depth 0 |
| `PlanRunner.DepthOfJoined` | internal/plan/plan.go:62-103 | an entry below the root, joined to the input path, has as depth the number of separators in its walk path |
| `PlanRunner.ChildDepth` | internal/plan/plan.go:62-103 | a root-level child is at depth 0, and every other child lies one level below its parent |
| `PlanRunner.TraceNode` | internal/plan/plan.go:46-72 | the walk of an entry starts with a visit of that entry, followed by its subtree in pre-order unless it is pruned or cannot be listed |
| `PlanRunner.TraceNodeBelow` | internal/plan/plan.go:46-72 | every visit of an entry's walk after the first lies strictly below the entry, and there is such a visit only for a directory that is not ignored and lists without error, so an ignored directory's walk is its own visit alone |
| `PlanRunner.TraceChildrenBelow` | internal/plan/plan.go:46-72 | every visit of the walk over a directory's children lies strictly below the directory |
| `PlanRunner.SameChild` | internal/plan/plan.go:46-72 | a walk path at or below one child lies below another child only when the two have the same name, so sibling subtrees are disjoint |
| `PlanRunner.OutsideSibling` | internal/plan/plan.go:46-72 | the walk over the later children of a directory visits nothing below an earlier child with a different name |
| `PlanRunner.TraceNodePrunes` | internal/plan/plan.go:52-56 | in the walk of any entry over a tree named as fs.ReadDir names it, no visit after an ignored directory's own lies below that directory |
| `PlanRunner.TraceChildrenPrune` | internal/plan/plan.go:52-56 | the same for the walk over a directory's children |
| `PlanRunner.WalkPrunesIgnored` | internal/plan/plan.go:52-56 | the whole walk from "." never visits anything below a directory the matcher ignores |
| `PlanRunner.Step` | internal/plan/plan.go:50-69 | one WalkDir callback call on the counters and the meta list; it has no contract of its own: `RunCounts`, `RunMetaOrigin` and `RunKeepsMetas` state what any run of it adds up to, and `VisitEntry` is proved to perform it |
| `PlanRunner.RunConcat` | internal/plan/plan.go:46-72 | counting two stretches of a walk one after the other equals counting the stretches joined |
| `PlanRunner.RunCounts` | internal/plan/plan.go:50-69 | the walk adds one discovery per visit, one directory per directory visit, and one selection and one meta per non-ignored visit; metas are only appended, and the maximum depth covers every new one without falling |
| `PlanRunner.RunMetaOrigin` | internal/plan/plan.go:59-67 | every meta the walk records is the full path, depth and kind of one of its non-ignored visits |
| `PlanRunner.RunKeepsMetas` | internal/plan/plan.go:63-67 | callback calls only append to the meta list |
| `PlanRunner.FreshWalkCounts` | internal/plan/plan.go:50-69 | on a fresh plan, 0 ≤ selected ≤ discovered, selected equals the number of metas, and discovered − selected is the number of ignored visits |
| `PlanRunner.SelectedAtMostAll` | internal/plan/plan.go:52-69 | no more visits are selected than made |
| `PlanRunner.VendorExample` | internal/plan/plan.go:46-72 | the example tree is visited as root, a.go, b.txt, vendor, with 4 discovered, 3 selected and 2 directories, without error |
| `PlanRunner.VisitEntry` | internal/plan/plan.go:47-71 | one callback call updates the plan's counters and the meta list exactly as one `Step`, and asks to skip exactly an ignored directory |
| `PlanRunner.WalkNode` | internal/plan/plan.go:46-72 | walking an entry leaves the counters and metas as the callback calls of its trace make them, and returns the trace's error |
| `PlanRunner.WalkChildren` | internal/plan/plan.go:46-72 | walking a directory's children in order does the same, stopping at the first child that fails |
| `PlanRunner.WalkDir` | internal/plan/plan.go:46-72 | the walk from the root "." leaves the counters as the trace's callback calls make them; an unreadable root is an error with no visit |
| `PlanRunner.Migrated` | internal/db/migrations.go:23-64 | what RunMigrations leaves behind: with no pending list nothing is applied and the error comes back; otherwise the sorted pending migrations are applied up to the first failure, the version is the last applied one, and the failure names its migration |
| `PlanRunner.BuildDatabase` | internal/plan/plan.go:80-94 | a missing context and a missing database give their errors; otherwise the database ends as `Migrated` says, and a failure comes back wrapped |
| `PlanRunner.WalkAndSnapshot` | internal/plan/plan.go:46-77 | the counters end as the walk's callback calls make them, the snapshot is taken after the walk, and a walk error comes back wrapped as "failed to walk input path" |
| `PlanRunner.Runner.constructor` | internal/plan/plan.go:21-25 | the runner holds the given plan |
| `PlanRunner.Runner.EnsurePlan` | internal/plan/plan.go:33-36 | a nil plan is replaced by a fresh NewPlan(input, [], []); an existing one is kept |
| `PlanRunner.Runner.Prepare` | internal/plan/plan.go:33-38 | the plan is kept when there is one and is otherwise a fresh NewPlan(input, [], []); the database ends as `Migrated` says, and the migration error is handed back |
| `PlanRunner.Runner.Plan` | internal/plan/plan.go:27-78 | without a run context: an empty snapshot and "run context unavailable", nothing walked or changed; otherwise a plan exists (the old one, or a fresh one rooted at the input with every time, text, flag and count other than the walk's at zero), the database ends as `Migrated` says for some discarded error, the counters end as the walk's callback calls make them, the snapshot reflects them, and a walk error comes back wrapped |
| `StatsRun.ApplyOption` | internal/stats/stats.go:28-61 | a zero start time is ignored, texts are stored trimmed, warning and error counts are stored only when positive, every field other than the option's own is left as it was (the end time and duration by every option), and trimmed fields stay trimmed |
| `StatsRun.NilOptionSkipped` | internal/stats/stats.go:69-73 | a nil option anywhere in the list changes nothing |
| `StatsRun.ApplyAllKeeps` | internal/stats/stats.go:28-73 | any option list leaves end time and duration alone, keeps a set start time set, takes any new start time from an option, keeps texts trimmed and counts non-negative |
| `StatsRun.NewDefaults` | internal/stats/stats.go:63-75 | New's result has no end time or duration, starts at now or at an option's time, has trimmed texts and non-negative counts |
| `StatsRun.ApplyOptions` | internal/stats/stats.go:69-73 | the option loop applies the options left to right, skipping nil ones |
| `StatsRun.New` | internal/stats/stats.go:67-75 | a fresh Stats whose run stats are the defaults with the options applied, and no plan |
| `StatsRun.End` | internal/stats/stats.go:77-85 | a nil receiver is left alone; otherwise the end time is set, and the duration only when the start time is set |
| `StatsRun.Bump` | internal/stats/stats.go:91-93 | the increment is at least 1, and n itself when n is positive |
| `StatsRun.IncWarnings` | internal/stats/stats.go:87-95 | a nil receiver is left alone; otherwise the warning count strictly grows, by n or by 1 when n ≤ 0 |
| `StatsRun.IncErrors` | internal/stats/stats.go:97-105 | a nil receiver is left alone; otherwise the error count strictly grows, by n or by 1 when n ≤ 0 |
| `StatsRun.SetPlanSnapshot` | internal/stats/stats.go:107-112 | with a receiver and a plan, a snapshot of the plan is stored; with a nil plan nothing changes |
| `StatsRun.SetPlan` | internal/stats/stats.go:114-119 | the stored snapshot is replaced, possibly by none |
| `Languages.Resolve` | internal/language/languagecache.go:55-73 | a hit answers from the cache; a miss answers with the lookup's result; only a success is cached, under the queried key; cached entries never change |
| `Languages.Replay` | internal/language/languagecache.go:55-73 | a sequence of reads gets one answer per read |
| `Languages.CachedStaysCached` | internal/language/languagecache.go:57-59 | a cached key is answered from the cache by every later read, whatever the database says |
| `Languages.SuccessIsSticky` | internal/language/languagecache.go:57-69 | once a read of a key returns a record, every later read of that key returns the same record |
| `Languages.ErrorsAreNotCached` | internal/language/languagecache.go:63-66 | after a failed lookup the next read of the same key consults the database again |
| `Languages.LanguageCache.constructor` | internal/language/languagecache.go:46-53 | all three maps start empty |
| `Languages.LanguageCache.GetExtensionInfo` | internal/language/languagecache.go:55-73 | follows the read-through rule on the extension map; no other map changes |
| `Languages.LanguageCache.GetBasenameInfo` | internal/language/languagecache.go:75-92 | follows the same rule on the basename map; no other map changes |
| `EventBus.Offer` | internal/project/event.go:53-56 | an event joins a queue with room and is dropped for a full one |
| `EventBus.OfferAllThenOffer` | internal/project/event.go:49-57 | offering one more event after a run is offering the longer run, so the Route calls of a run of events with no receive between them leave each subscriber's queue as OfferAll of the run |
| `EventBus.OfferAllKeepsOrder` | internal/project/event.go:49-57 | offering a run of events never overfills a queue, only appends, and appends an order-preserving selection of the run |
| `EventBus.RoomyQueueGetsAll` | internal/project/event.go:53-56 | a queue with room for the whole run receives all of it |
| `EventBus.FullQueueGetsNothing` | internal/project/event.go:53-56 | a full queue receives nothing |
| `EventBus.Bus.constructor` | internal/project/event.go:47-62 | a new bus is open and empty, with an ingress buffer of the given size and no subscribers |
| `EventBus.Bus.Subscribe` | internal/project/event.go:66-72 | a fresh empty channel of the given capacity joins at the end, other subscribers unchanged; its window starts at the number of events already dispatched and every other subscriber's window stays where it was, and the bus invariant (bounded queues, and each subscriber's deliveries are a subsequence of the events dispatched since it joined) holds |
| `EventBus.Bus.Route` | internal/project/event.go:50-58 | one dispatch offers the event to every subscriber in registration order and keeps the invariant |
| `EventBus.RouteKeepsInv` | internal/project/event.go:50-58 | offering a dispatched event to every subscriber keeps every channel within capacity and each subscriber's deliveries an order-preserving selection, without replays, of what was dispatched since it joined |
| `EventBus.Bus.DispatchNext` | internal/project/event.go:50-58 | the dispatcher takes the oldest ingress event and routes it |
| `EventBus.Bus.Publish` | internal/project/event.go:47-64 | a send joins the ingress queue in order; a full buffer first lets the dispatcher take the oldest event; an unbuffered bus has the dispatcher take the event itself; the invariant holds |
| `EventBus.Bus.Receive` | internal/project/event.go:66-72 | a subscriber reads its oldest event, or nothing when its channel is empty |
| `EventBus.Bus.Close` | internal/project/event.go:74 | the ingress is closed; subscriber channels are not |
| `Migrations.Database.constructor` | internal/db/db.go:56-62 | the connection holds the given user version and failure oracles, with nothing applied |
| `Migrations.CurrentUserVersion` | internal/db/db.go:56-62 | the user version, or the query's error |
| `Migrations.VersionOfNumbered` | internal/db/migrations.go:39-41 | a name whose text before the first "_" is a decimal number has that number as its version (e.g. "0002_fts.sql" is 2) |
| `Migrations.VersionOfBareNumber` | internal/db/migrations.go:39-41 | a name that is a decimal number followed by ".sql" has that number as its version (e.g. "7.sql" is 7) |
| `Migrations.VersionOfUnnumbered` | internal/db/migrations.go:39-44 | a name that does not start with a digit or a sign has no version, so the entry is skipped (e.g. "README.md") |
| `Migrations.VersionOf` | internal/db/migrations.go:39-41 | a version parsed from a name fits a 64-bit int and the name starts with a digit or a sign |
| `Migrations.Admit` | internal/db/migrations.go:35-47 | an entry is kept exactly when it is not a directory and its name parses to a version above the current one |
| `Migrations.SelectedFrom` | internal/db/migrations.go:34-54 | for any keep rule, the j-th selected migration is built from some entry the rule keeps, with its name, version and contents |
| `Migrations.KeptAt` | internal/db/migrations.go:34-54 | for any keep rule, an entry the rule keeps is selected, with its name, version and contents |
| `Migrations.SelectWithFailureCause` | internal/db/migrations.go:49-52 | for any keep rule, selection fails only with the read error of an entry the rule keeps |
| `Migrations.SelectOnlyKept` | internal/db/migrations.go:34-54 | every selected migration comes from a kept entry, with its name, version and contents |
| `Migrations.SelectKeepsAll` | internal/db/migrations.go:34-54 | every kept entry is selected |
| `Migrations.SelectFailureCause` | internal/db/migrations.go:49-52 | selection fails only with the read error of a kept entry |
| `Migrations.SelectFailureSticks` | internal/db/migrations.go:49-52 | a read error ends the selection: the whole directory fails with it |
| `Migrations.SelectPrefix` | internal/db/migrations.go:35-53 | selecting one more entry of the directory is one more turn of the loop |
| `Migrations.Insert` | internal/db/migrations.go:56 | inserting into a sorted list keeps it sorted, adds exactly the one migration, and keeps every common upper bound of the list and the migration |
| `Migrations.Pending` | internal/db/migrations.go:23-56 | a version-query or directory error leaves nothing pending; a pending list is sorted by version and is a permutation of what Select keeps |
| `Migrations.SortByVersion` | internal/db/migrations.go:56 | the result is sorted by ascending version and a permutation of the list |
| `Migrations.SortKeepsMembers` | internal/db/migrations.go:56 | sorting neither adds nor drops a migration |
| `Migrations.PendingIsOrderedSelection` | internal/db/migrations.go:34-58 | what is applied is in ascending version order, strictly newer than the current version, and exactly the kept entries |
| `Migrations.FirstFailure` | internal/db/migrations.go:58-62 | the index of the first failing migration: all before it succeed, it fails, or none fails |
| `Migrations.FirstFailureAt` | internal/db/migrations.go:58-62 | the application loop's stopping index is FirstFailure |
| `Migrations.ApplyOne` | internal/db/migrations.go:66-84 | success applies the migration and sets the version to it; failure leaves the database as it was |
| `Migrations.CollectPending` | internal/db/migrations.go:34-54 | the first loop builds exactly Select's list or error |
| `Migrations.ApplyInOrder` | internal/db/migrations.go:58-63 | migrations are applied in order up to the first failure, which is reported with its name and stops the run; the version is that of the last applied; no pending migrations means success with no change |
| `Migrations.RunMigrations` | internal/db/migrations.go:23-64 | a version-query or directory error is returned before anything changes; otherwise the sorted selection is applied up to the first failure |
| `GoStrings.TrimSpaceIdempotent` | internal/stats/stats.go:36-50 | a trimmed text stays as it is when trimmed again |
| `GoStrings.AtoiItoa` | internal/db/migrations.go:41 | the version parse reads back every 64-bit integer written in decimal |
| `GoStrings.BeforeFirstUpTo` | internal/db/migrations.go:40 | SplitN(s, "_", 2)[0] is the text before the first separator |
| `GoStrings.AtoiDigits` | internal/db/migrations.go:41 | Atoi reads a decimal number within the 64-bit range as its value |
| `Logx.Invalid` | internal/logx/logx.go:151-153 | the message is "logx: invalid ", then the option's kind, then ": ", then the value given |
| `Logx.InvalidNamesValue` | internal/logx/logx.go:151-153 | two values rejected as the same kind of option give the same message only when they are equal |
| `Logx.ToSlogLevel` | internal/logx/logx.go:136-153 | exactly "debug", "info", "", "warn" and "error" are levels, each mapping to its slog level ("" to info); anything else fails with "logx: invalid level: " followed by the input |
| `Logx.LevelNamesRoundTrip` | internal/logx/logx.go:136-149 | each slog level is reached from its own name |
| `Logx.ParsedNamesRoundTrip` | internal/logx/logx.go:136-149 | each non-empty name that parses is the name of its level |
| `Logx.New` | internal/logx/logx.go:28-88 | an enabled file sink without a path fails with "logx: invalid file: missing path" before any file is touched; directory and open errors are returned as they are; otherwise there is one console and one file handler as enabled, Quiet sets the console to the error level, level errors leave a nil level, and the file is the one closer |
| `Logx.FirstErrorIsFirst` | internal/logx/logx.go:78-86 | none exactly when no outcome is an error; otherwise the earliest error |
| `Logx.FirstErrorExtend` | internal/logx/logx.go:78-86 | one more outcome changes the first error only when there was none |
| `Logx.Cleanup` | internal/logx/logx.go:78-86 | calls every closer in order and returns the first error, or none |
| `Logx.MultiHandler.Enabled` | internal/logx/multihandler.go:12-19 | true exactly when some handler is enabled (false with none) |
| `Logx.MultiHandler.Handle` | internal/logx/multihandler.go:21-30 | every handler is invoked in order, even after one fails, and the first error is returned |
| `Logx.NoHandlersNoError` | internal/logx/multihandler.go:21-30 | with no handlers, Handle returns no error |
| `Logx.MultiHandler.Derive` | internal/logx/multihandler.go:32-46 | a fresh handler list of the same length whose element i is derived from handler i; the receiver is not changed |
| `Logx.MultiHandler.WithAttrs` | internal/logx/multihandler.go:32-38 | a fresh multiHandler of the same length, element i being handler i with the attributes |
| `Logx.MultiHandler.WithGroup` | internal/logx/multihandler.go:40-46 | a fresh multiHandler of the same length, element i being handler i with the group |

## Left out

- Concurrency is not modelled: atomics, the compare-and-swap loop of ConsiderLargest, the mutexes, the dispatcher goroutine and channel blocking all become sequential updates. ConsiderLargest keeps only its net effect, and Publish on a full buffer lets the dispatcher run first.
- `singleflight.Group` in the language cache is declared but never used, so it has no model.
- Integers are unbounded. The int64 counters and sums do not wrap around, and `time.Duration` saturation is not modelled. strconv.Atoi's 64-bit range is modelled.
- `filepath.Join` is a plain join with one separator. It does not clean the input path (no `..`, `.` or doubled-separator removal).
- fs.WalkDir's own internals are not modelled: symbolic links, partial ReadDir results, and a callback error for a non-directory entry after listing.
- Compiling `.gitignore` and logging its absence (internal/plan/plan.go:40-43) is left out, because the matcher comes from an external library.
- The meta list Runner.Plan builds is never returned by it. The model keeps it only as a walk result (`PlanRunner.WalkDir`).
- `RunMigrations`'s `sort.Slice` is not stable. The model sorts by stable insertion, so the order among equal versions is fixed here, while Go's is not.
- The SQL itself, `PRAGMA foreign_keys`, `BeginTx` and commit are one failure oracle per migration. The schema is stood for by the list of applied migrations.
- The language tables' queries (internal/language/languages.go) are the lookup function passed to each call.
- slog's handler construction, record formatting, `Record.Clone`, and the `With("run_id", …, "component", …)` wrapping are left out, because slog is an external library. The logger records only the two attribute values.
- logx_test.go's `TestInvalidOptions` expects New to reject an unknown format or level. New never does: it discards level errors and never checks formats. The model follows New.
- A nil Leveler is `None` in `HandlerSpec.level`. slog then treats it as the info level, which the model does not restate.
- `EventBus.Bus.Receive` returns `None` on an empty channel, where Go blocks.
- Sending on, or closing, a closed bus panics in Go, so it is excluded by precondition.
- `EventBus.Bus.constructor` and `EventBus.Bus.Subscribe` take a `nat` buffer size. In Go, `make(chan Event, buffer)` panics on a negative size (internal/project/event.go:48, 67), and that panic is not modelled.
- `PlanRunner.ChildDepth` and `PlanRunner.DepthOfJoined` give depths and meta paths as Go's do only for a clean input path, which the root command provides through `filepath.Abs` (internal/cli/root.go:49). Go's `depthFrom` compares the cleaned `filepath.Join` result with the raw input, so for an unclean input such as `./src` Go puts a root-level child at depth 1 where the model puts it at depth 0.
- The last-option-wins behaviour of repeated options in StatsRun is not stated as a lemma. Its proof exceeded the solver budget. `StatsRun.ApplyOption` states each option's effect and that every field other than the option's own is unchanged.
- `StatsRun.New`, `StatsRun.End` and the other methods read the clock through a `now` parameter.
- The CLI, root command and process wiring (internal/cli, cmd/cargoworker) are not part of this model; neither are the `ir` data structs, the `RunContext` value storage or database opening in internal/db/db.go.
