# Performance profiler core, modelled in Dafny

This project models the profiling engine of the Performance library
(`Performance.h`, `Performance.cpp`) and proves properties of it. Instrumented
code brackets a code section with the `ADD_PERFORMANCE_SECTION_BEGIN` and
`ADD_PERFORMANCE_SECTION_END` macros. On the first Begin at a call site,
`Performance::CreateSection` registers a `PerformanceSection` under the call
site's `PerformanceNode` key. Begin and End then keep per-thread call counts,
reference depths, begin times and cost times, with rules that survive recursion
and a stray End. A section may carry a `ResourceStatistics` monitor, which is
reference-counted and folds CPU and memory readings into running
peak/average `ResourceInfo`s. `Performance::OutPut` renders a report of all
sections: sorted as the `OptionManager` flags say, numbered from 1, and sent
to the console and/or a file. An `IPCMonitorServer` handles the online
commands `state`, `save`, `enable` and `disable`, which read and write those
flags.

Modules, one per concept of the source:

- `Options` (`options.dfy`): the `PP_CONFIG_OPTION` bits as a `bv32` word and
  the `OptionManager` class. `GetOptions` is a function reading the flag.
- `Resources` (`resources.dfy`): `ResourceInfo::Update` as a class method
  specified by the pure `Updated`. Also the `ResourceStatistics` class: its
  reference count, and one sampling step of its background loop.
- `CallSite` (`call_site.dfy`): `GetFileName`, the `PerformanceNode` value,
  its `operator<` and its `operator==`. Strings are byte sequences (`Char8`),
  compared as `std::string` compares them.
- `NodeHash` (`hash.dfy`): `BKDRHash` as a loop over the C string, proved
  equal to a fold with 32-bit wrap-around and the 31-bit mask. Also
  `PerformanceNodeHash`, whose key appends the line as a single `char`.
- `Sections` (`sections.dfy`): the `PerformanceSection` class. Its seven
  fields are specified by the pure `SectionState` and the transitions
  `AfterBegin`/`AfterEnd`. Lemmas cover single calls and whole runs of calls.
  `PerformanceSection::Serialize` is the function `Serialize`, which yields the
  report lines as a `SectionReport` value.
- `Registry` (`registry.dfy`): the `std::map<PerformanceNode,
  PerformanceSection*>`. It is a sequence of entries kept strictly sorted by
  `operator<` (the map's in-order traversal), with a pure `Find` and
  `Inserted`. The `Performance` class holds `CreateSection` and the report
  pipeline of `_OutPut`/`OutPut`: collect, sort, number, destinations. Its
  invariant is that the keys are strictly sorted and every entry owns its own
  section object.
- `Control` (`control.dfy`): the command table, the four handlers and one
  dispatch step of `OnMessage`. The pure `Dispatch` gives the reply and the
  new flags, and `ParseState` reads a state reply back.
- `Instrumentation` (`instrumentation.dfy`): the two macros, with the file,
  function, line, thread id and clock value as parameters.

The clock (`clock()`, `time()`), the process id and the thread id are
parameters of the operations that read them.

## Model

| member | source | states |
|---|---|---|
| Options.OptionsAreDistinctBits | Performance.h:182-190 | every configuration option is a single non-zero bit, and two different options share no bit |
| Options.SetOptionKeepsOthers | Performance.h:182-190 | OR-ing one option into a flag word sets it and leaves every other option's bit as it was |
| Options.OptionManager.constructor | Performance.h:207-209 | a new manager holds PPCO_NONE |
| Options.OptionManager.SetOptions | Performance.h:198-205 | the whole word is replaced, and GetOptions afterwards returns exactly the value set |
| Options.OptionManager.GetOptions | Performance.h:202-205 | reads the stored word and changes nothing; the value it reads back is stated by the constructor's and SetOptions' contracts |
| Resources.TruncDiv | Performance.cpp:28 | C++ integer division: Euclidean quotient for a non-negative dividend, quotient of the magnitude negated for a negative one |
| Resources.Updated | Performance.cpp:14-29 | a negative reading leaves the info as it was; any other counts one more sample, adds the reading to the total, and leaves a peak that is at least both the reading and the old peak and equals one of them |
| Resources.ResourceInfo.constructor | Performance.h:226-231 | peak, average, total and count all start at zero |
| Resources.ResourceInfo.Update | Performance.cpp:14-29 | the new fields are the pure update of the old ones: a negative reading changes nothing, any other raises the peak if larger, adds to the total and counts one more sample |
| Resources.UpdatedKeepsCoherent | Performance.cpp:14-29 | Update preserves the invariant: count >= 0, 0 <= peak <= total <= count * peak, and the average is total / count (0 with no samples) |
| Resources.AvgAtMostPeak | Performance.cpp:14-29 | in any such state the average is between 0 and the peak |
| Resources.Accepted | Performance.cpp:17-18 | the readings Update keeps are non-negative and no more than those offered |
| Resources.FoldSamples | Performance.cpp:14-29 | a fresh info updated with a reading sequence counts exactly the readings it keeps |
| Resources.FoldSummary | Performance.cpp:14-29 | after any reading sequence: the count is the number of non-negative readings, the total is their sum, the peak is their maximum and one of them (zeros when there are none), and the invariant holds |
| Resources.FoldExample | Performance.cpp:14-29 | readings 5, 10, -1, 15 give peak 15, average 10, total 30, count 3 |
| Resources.ResourceStatistics.constructor | Performance.cpp:31-37 | the monitor records its process id, starts with reference count 0 and two distinct zeroed infos |
| Resources.ResourceStatistics.StartStatistics | Performance.cpp:44-56 | the reference count grows by one; the sampling loop is woken exactly on the 0 to 1 transition; the monitor invariant is kept |
| Resources.AfterStop | Performance.cpp:58-66 | stopping lowers a positive count by one but never below zero, and leaves a non-positive count alone |
| Resources.ResourceStatistics.StopStatistics | Performance.cpp:58-66 | the reference count becomes its decrement-while-positive; the monitor invariant is kept |
| Resources.ResourceStatistics.Sample | Performance.cpp:104-124 | one sampling step folds the CPU reading into the CPU info and the resident-memory reading into the memory info, keeping both invariants |
| CallSite.StrLessIrreflexive | Performance.cpp:279-289 | no string is below itself under std::string's < |
| CallSite.StrLessTransitive | Performance.cpp:279-289 | std::string's < is transitive |
| CallSite.StrLessTotal | Performance.cpp:279-289 | any two strings are equal or ordered one way |
| CallSite.StrLessAsymmetric | Performance.cpp:279-289 | a < b excludes b < a |
| CallSite.RFind | Performance.cpp:251 | rfind yields the last position holding the character, or npos when it occurs nowhere |
| CallSite.GetFileName | Performance.cpp:248-260 | the result is a suffix of the path with no '/'; it is the whole path when the path has no '/', otherwise the path's character just before it is '/' |
| CallSite.MakeNode | Performance.cpp:263-269 | the node keeps the function, line and description and only the '/'-free base name of the path |
| CallSite.Less | Performance.cpp:271-292 | a lower line is always below, and a node below another never has a higher line |
| CallSite.Same | Performance.cpp:294-299 | nodes equal under operator== are below each other in neither direction |
| CallSite.LessIsLexicographic | Performance.cpp:271-292 | operator< is exactly the lexicographic order on (line, file name, function): the line dominates and the description plays no part |
| CallSite.LessIrreflexive | Performance.cpp:271-292 | no node is below itself |
| CallSite.LessTransitive | Performance.cpp:271-292 | the node order is transitive |
| CallSite.LessTrichotomy | Performance.cpp:271-299 | operator== holds exactly when neither node is below the other, and both cannot be below each other: the order is a strict total order whose equivalence is operator== |
| CallSite.LineDominatesFile | Performance.cpp:271-299 | a lower line sorts first whatever the file names, and nodes differing only in their description are equal |
| NodeHash.Widen | Performance.h:343 | a char added to the unsigned hash becomes a value below 2^32 (sign-extended on a signed-char platform) |
| NodeHash.CPrefix | Performance.h:341 | the bytes a `while (*str)` walk sees are NUL-free, form a prefix, and stop at the first NUL or the end |
| NodeHash.CPrefixAt | Performance.h:341 | a NUL-free prefix ending at a NUL or at the end is exactly what the walk sees |
| NodeHash.BKDRHash | Performance.h:336-347 | the loop returns the fold `hash * 131 + c` modulo 2^32 over the C string, masked to 31 bits, so at most 0x7FFFFFFF |
| NodeHash.PerformanceNodeHash | Performance.h:350-361 | the hash of function + file name + one char holding the line's low byte, at most 0x7FFFFFFF |
| NodeHash.SameNodesHashAlike | Performance.h:350-361 | nodes equal under operator== hash alike, as an unordered_map needs |
| NodeHash.CPrefixOfClean | Performance.h:341-344 | a NUL-free head passes through the C-string walk whole |
| NodeHash.LineMultipleOf256IsIgnored | Performance.h:355-359 | when the line is a multiple of 256 its char is NUL and ends the walk, so the line does not reach the hash |
| Sections.TotalRemove | Performance.h:386-394 | the sum of a per-thread map's values does not depend on the order threads are taken out |
| Sections.TotalUpdate | Performance.h:386-394 | overwriting one thread's value changes the sum by the difference |
| Sections.AfterBegin | Performance.cpp:367-391 | (no contract of its own) the state after one Begin; BeginCounters, BeginKeepsConsistent and the run lemmas state its effect |
| Sections.AfterEnd | Performance.cpp:393-425 | (no contract of its own) the state after one End; EndCostRule, EndKeepsConsistent and the run lemmas state its effect |
| Sections.BeginCounters | Performance.cpp:367-391 | a Begin adds one call and one level for its thread and to both totals, records the clock only on entry at depth 0, touches no cost and no other thread |
| Sections.EndCostRule | Performance.cpp:393-425 | an End drops the depth by one, changes no call count or begin time, and charges the elapsed time only when the depth reaches 0 (added) or below 0 (the thread's cost overwritten, the total still added to), and only with a recorded begin time |
| Sections.BeginKeepsSums | Performance.cpp:367-391 | Begin keeps the totals equal to the sums of their per-thread maps |
| Sections.BeginKeepsKeys | Performance.cpp:367-391 | Begin keeps the key nesting: cost, then begin time, then call count, then reference count |
| Sections.BeginKeepsConsistent | Performance.cpp:367-391 | Begin preserves the section invariant |
| Sections.EndKeepsSums | Performance.cpp:393-425 | End keeps the totals equal to the sums of their per-thread maps |
| Sections.EndKeepsKeys | Performance.cpp:393-425 | End keeps the key nesting |
| Sections.EndKeepsConsistent | Performance.cpp:393-425 | End preserves the section invariant |
| Sections.RunCounts | Performance.cpp:367-425 | over any interleaving of Begins and Ends from any threads the invariant holds, the total call count grows by the number of Begins and the total depth by Begins minus Ends |
| Sections.BalancedRunMatches | Performance.cpp:367-425 | from a fresh section, as many Ends as Begins leave no reference outstanding, and the total call count is the number of Begins |
| Sections.BeginsWhileInside | Performance.cpp:374-390 | re-entering a section the thread is inside never moves its begin time and charges nothing |
| Sections.EndsWhileNested | Performance.cpp:401-417 | leaving an inner level charges nothing and changes no call count |
| Sections.BeginsFromOutside | Performance.cpp:367-391 | N Begins from depth 0 leave depth N and a begin time that is the first Begin's clock |
| Sections.EndsToOutside | Performance.cpp:393-425 | N Ends from depth N charge exactly the last End's clock minus the begin time |
| Sections.NestedPairsChargeOneInterval | Performance.cpp:367-425 | recursion is measured once: N nested Begins then N Ends charge exactly the time from the first Begin to the last End, count N calls and return the depth to 0 |
| Sections.BeginKeepsCostBalanced | Performance.cpp:367-391 | Begin keeps the total cost equal to the sum of the per-thread costs |
| Sections.MatchedEndKeepsCostBalanced | Performance.cpp:405-417 | an End that finds its thread inside keeps the total cost equal to the sum of the per-thread costs |
| Sections.SurplusEndUnbalances | Performance.cpp:411-416 | an extra End overwrites the thread's cost but adds to the total: Begin at 0, End at 10, End at 30 leave the thread at 30, the total at 40 and the depth at -1 |
| Sections.BeginTracksActive | Performance.cpp:376-385 | while no thread ends more often than it begins, the monitor's reference count is the number of threads inside the section, and Begin keeps it so |
| Sections.MatchedEndTracksActive | Performance.cpp:405-424 | a matched End keeps the monitor's reference count equal to the number of threads inside |
| Sections.Serialized | Performance.cpp:309-338 | (no contract of its own) the report of a state: "Not Match" when the total depth is non-zero, one line per thread with a cost, the totals, and the monitor's CPU peak and average and its memory peak and average divided by 1024 with C++ truncation; the next three lemmas state what it reports |
| Sections.BalancedReportHasNoWarning | Performance.cpp:309-338 | the report of a balanced run has no "Not Match" line and reports the number of Begins as its total call count |
| Sections.UnbalancedReportWarns | Performance.cpp:309-313 | the report of a run with more Begins than Ends, or fewer, carries the "Not Match" line |
| Sections.SerializedThreadLines | Performance.cpp:316-324 | in a consistent section the report has one line per thread with a cost, each with that thread's recorded call count, so reading `_callCountMap[t]` inserts nothing |
| Sections.PerformanceSection.constructor | Performance.h:373-378 | a new section has zero totals, empty maps and the monitor the registry gives it |
| Sections.PerformanceSection.Begin | Performance.cpp:367-391 | the new state is AfterBegin of the old, the invariant is kept, and the monitor is started exactly on entry at depth 0 and stays valid |
| Sections.PerformanceSection.End | Performance.cpp:393-425 | the new state is AfterEnd of the old, the invariant is kept, and the monitor is stopped exactly when the depth drops to 0 or below and stays valid |
| Sections.PerformanceSection.Serialize | Performance.cpp:309-338 | (no contract of its own) the section's report is Serialized of its state and of its monitor's CPU and memory infos, or of no monitor |
| Registry.SortedKeysUnique | Performance.h:411 | in the map at most one key equals a given node under operator== |
| Registry.Find | Performance.cpp:349 | find yields an index whose key equals the node, and fails exactly when no key does |
| Registry.FindUnique | Performance.cpp:349 | in the sorted map find yields the one key equal to the node |
| Registry.Position | Performance.cpp:361 | a new key goes after exactly the keys below it |
| Registry.PositionAbove | Performance.cpp:361 | in a sorted map lacking the node, every key from that position on is above it |
| Registry.InsertedIsSorted | Performance.cpp:361 | inserting a missing key keeps the map strictly sorted |
| Registry.InsertedAddsEntry | Performance.cpp:361 | insertion adds exactly the new entry: one more element, the same multiset plus the new entry |
| Registry.InsertedIsFound | Performance.cpp:361 | after the insertion find yields the new entry |
| Registry.InsertKeepsSorted | Performance.cpp:361 | putting a key between the keys below it and the keys above it keeps the map strictly sorted |
| Registry.InsertKeepsDistinct | Performance.cpp:354-361 | a section held by no entry, inserted at its key's position, keeps every entry's section its own |
| Registry.FootprintInserted | Performance.cpp:354-361 | inserting an entry adds exactly the new section's objects to those the registry owns |
| Registry.CreatedMapsTo | Performance.cpp:342-365 | after CreateSection find yields the section it returned |
| Registry.CreatedKeepsEntries | Performance.cpp:342-365 | CreateSection drops no entry of the map |
| Registry.CreatedKeepsMapsTo | Performance.cpp:342-365 | CreateSection for one node leaves every other key mapped to the section it had |
| Registry.RowsOf | Performance.cpp:472-477 | the collected rows follow the map's keys one for one, in order |
| Registry.CompareByCallCount | Performance.cpp:453-457 | (no contract of its own) a strictly greater total call count goes first; ComparatorsAreStrictWeakOrders proves it a strict weak order |
| Registry.CompareByCostTime | Performance.cpp:459-463 | (no contract of its own) a strictly greater total cost time goes first; ComparatorsAreStrictWeakOrders proves it a strict weak order |
| Registry.ComparatorsAreStrictWeakOrders | Performance.cpp:453-463 | both comparators are irreflexive, transitive and have transitive incomparability, as std::sort requires |
| Registry.SortRows | Performance.cpp:481-484 | the rows come back sorted for the comparator (descending) and as a permutation of the input |
| Registry.OrderRows | Performance.cpp:479-484 | cost-time sort when its bit is set, otherwise call-count sort when its bit is set, otherwise the key order unchanged; always a permutation |
| Registry.Number | Performance.cpp:486-492 | the entries keep the order of the rows and the k-th is numbered k + 1 |
| Registry.OutputsConcat | Performance.cpp:437-451 | a console part and a file part, each present exactly when its bit is set, together give one report per selected destination, console first |
| Registry.Performance.constructor | Performance.cpp:427-435 | a new registry is empty and records the start time |
| Registry.NewSection | Performance.cpp:355-359 | a fresh, valid, zeroed section, with a fresh valid monitor at count 0 exactly when `isStatistics` |
| Registry.Performance.Insert | Performance.cpp:361 | `_ppMap[node] = section` for a missing key inserts the one entry at its sorted place and keeps the map and its sections valid |
| Registry.Performance.CreateSection | Performance.cpp:342-365 | on a hit the map is unchanged and the existing section is returned untouched; on a miss a fresh zeroed section, with a fresh valid monitor at count 0 exactly when asked, is inserted; either way find now yields it |
| Registry.Performance.AddSection | Performance.cpp:354-362 | the miss branch: a fresh zeroed section, with a valid monitor at count 0 exactly when asked, is inserted under the node and found there |
| Registry.Performance.Collect | Performance.cpp:472-477 | the iterators pushed into vInfos are the map's rows in key order |
| Registry.Performance.BuildReport | Performance.cpp:465-495 | the report carries the start time and numbers from 1 a permutation of the map's rows, ordered as the flags select |
| Registry.Performance.RenderIf | Performance.cpp:440-444 | one report for the destination when its bit is set, none otherwise |
| Registry.Performance.OutPut | Performance.cpp:437-451 | one report per destination the flags select, console before file |
| Control.Lookup | Performance.cpp:179-180 | a command is found exactly when it is one of the four names, and yields its handler from the table |
| Control.LookupNames | Performance.cpp:151-154 | the table maps state, save, disable and enable to their own handlers |
| Control.ParseBitsOf | Performance.cpp:205-218 | the profiler, console and file lines read back to the three bits that wrote them |
| Control.ParseLines | Performance.cpp:194-219 | a state reply reads back to the view of the flags it was written from |
| Control.StateTextInjective | Performance.cpp:194-219 | two flag words give the same state reply exactly when they report the same view |
| Control.SortBitsAreNotReported | Performance.cpp:194-219 | for non-zero flags the two sort bits never change the state reply |
| Control.Dispatch | Performance.cpp:177-188 | only save outputs a report, and an unknown command replies "Invalid Command" and leaves the flags alone |
| Control.OnlyWritersChangeFlags | Performance.cpp:194-242 | commands other than enable, disable and save leave the flags as they were |
| Control.SaveKeepsOtherBits | Performance.cpp:235-242 | save sets the file bit and keeps every other option bit |
| Control.SaveIsIdempotent | Performance.cpp:235-242 | a second save leaves the flags as the first left them |
| Control.EnableThenState | Performance.cpp:194-226 | after enable, state reports the profiler and the file |
| Control.DisableThenState | Performance.cpp:194-233 | after disable, state reports None |
| Control.IPCMonitorServer.constructor | Performance.cpp:146-155 | the command table holds the four handlers |
| Control.IPCMonitorServer.GetState | Performance.cpp:194-219 | the reply gets "State:" and then the state text of the current flags appended |
| Control.IPCMonitorServer.Enable | Performance.cpp:221-226 | the flags become profiler and file, and the reply gets "Enable Success" |
| Control.IPCMonitorServer.Disable | Performance.cpp:228-233 | the flags become none, and the reply gets "Disable Success" |
| Control.IPCMonitorServer.Save | Performance.cpp:235-242 | the file bit is added, a report is output for each destination of the new flags, and the reply gets "Save Success" |
| Control.IPCMonitorServer.OnCommand | Performance.cpp:177-188 | one dispatch step gives the reply, the new flags and the output that Dispatch describes |
| Instrumentation.SectionBegin | Performance.h:438-444 | with the profiler bit clear the pointer is null and nothing changes; with it set the call site's section is found or created as CreateSection does, is valid, and has had one Begin applied to its prior state (or to the zero state if new); its monitor's count is MonitorAfterBegin of its prior count (0 for a new monitor, which is valid); either way the registry and every section stay valid and the registry grows only by new objects |
| Instrumentation.CreateAndBegin | Performance.h:442-443 | CreateSection, then Begin on the section it returns: the map changes as CreateSection says, the section has had one Begin, its monitor's count is MonitorAfterBegin of its prior count (0 for a new, valid monitor, which is present exactly when asked), every section stays valid and the registry grows only by new objects |
| Instrumentation.BeginRegistered | Performance.h:443 | Begin on a section the registry holds changes only that section and its monitor, applies AfterBegin to it, sets the monitor's count to MonitorAfterBegin of the old one (started exactly on entry at depth 0), keeps a valid monitor valid, and leaves every section valid |
| Instrumentation.SectionEnd | Performance.h:447-451 | End is applied exactly when the pointer is non-null, and then changes only that section and its monitor; the section stays valid and its monitor is stopped exactly as End says |
| Instrumentation.SkippedBeginIsNeverEnded | Performance.h:438-451 | a Begin skipped while profiling is off leaves the registry and every section as they were, even if profiling is switched on before the End |
| Instrumentation.SameSiteTwice | Performance.cpp:342-365 | two registrations of one call site with different descriptions give one section, add at most one entry, and keep the first description |
| Instrumentation.BeginTwoSites | Performance.h:438-444 | two begins in a row: the registry stays valid, nothing is registered while profiling is off, and while it is on both sections are found under their own call sites |

## Left out

- Locking: the `mutex` members, `unique_lock` and the atomic reference count are not modelled. Each Begin, End, CreateSection and report step is one atomic step, which is what the locks give. Interleavings of whole calls are covered by `Sections.RunCounts`.
- Singleton: `Singleton<T>::GetInstance` and its double-checked locking are not modelled. The option manager and the registry are explicit parameters.
- The sampling thread: `ResourceStatistics::_Statistics` (condition-variable wait, 100 ms sleep) and `_UpdateStatistics` are not modelled, because they are threads, `ps`/`popen` I/O and `sscanf`. `Resources.ResourceStatistics.Sample` models one pass with the readings already as integers.
- Resources.ResourceStatistics.Sample: the CPU reading is a `double` in the source, truncated on its way into `Update(LongType)`. The model takes it as an integer.
- `_cpuCount` (Performance.h:260) is declared but never written or read. `_lastKernelTime` and `_lastSystemTime` are written (Performance.cpp:63-64) but never read. None of the three is modelled.
- Sections.PerformanceSection.Valid: the section invariant does not include the monitor's own invariant. Begin and End instead promise to keep the monitor valid when it was valid, so a section's frame stays one object plus its monitor.
- Instrumentation.SectionBegin and Instrumentation.CreateAndBegin do not state that every other section keeps its counters. That frame is stated by Instrumentation.BeginRegistered, whose modifies clause names only the section and its monitor. Carrying it through the callers' postconditions is too costly for the verifier.
- Instrumentation.SectionBegin and Instrumentation.CreateAndBegin do not state that a found section's existing monitor stays valid. Instrumentation.BeginRegistered states it; carrying it through CreateSection's frame is too costly for the verifier.
- Registry.Performance.Valid requires every entry to own its own section object, but not its own monitor. In the source each miss creates its own `ResourceStatistics` (Performance.cpp:356-359), so monitors are never shared; the model does not state this, and so no registry-level contract says that a Begin through one section leaves the other sections' monitors alone.
- Instrumentation.BeginTwoSites does not restate that the registry grows only by new objects. Each of its two SectionBegin calls promises it.
- CallSite.MakeNode takes the path, function and description as byte sequences and does not require them to be free of NUL bytes. The `const char*` arguments of the source cannot hold one. The hash walk (NodeHash.CPrefix) still models what a NUL would cut off.
- Output formatting: the `SaveAdapter`s, `%.2f` seconds (`/ CLOCKS_PER_SEC`), `ctime` and the report banners are not modelled, because they are I/O and floating point. A report is a value: the numbered rows, each the node and its `SectionReport`.
- Registry.Performance.BuildReport: `PerformanceNode::Serialize` (file, function, line) and the `NO%d. Description:%s` line are carried as the row's `Node`, not as text.
- Registry.SortRows: `std::sort` is not stable. The model is an insertion sort and promises only what `std::sort` promises: sorted for the comparator, and a permutation. The order of ties is not fixed.
- Registry: `std::map` is modelled as a strictly sorted sequence with a linear `Find`. The red-black tree and its complexity are not modelled; its in-order contents and lookup results are.
- Registry.Performance.OutPut: the report is built once per destination, as in the source. The file path `/tmp/performance_profiler/PerformanceReport.txt` is not modelled.
- The `Performance` constructor's `atexit(OutPut)` and `IPCMonitorServer::Start` are not modelled, because they are process hooks. `time(&_beginTime)` is the constructor's parameter.
- `OnMessage`'s IPC transport (`IPCServer`, the FIFO name, `ReceiverMsg`/`SendReplyMsg`, the 1024-byte buffer and the endless loop) is not modelled. `Control.IPCMonitorServer.OnCommand` models one pass of the loop, from command string to reply.
- 64-bit range: `LongType` counters and costs are unbounded integers. A `long long` overflow cannot happen in any realistic run and is not modelled.
- Sections.PerformanceSection: the monitor `rsStatistics` is a constant set by the constructor. The source sets it to null in the constructor and assigns it in CreateSection under the registry lock, before the section is visible to anyone.
- `PerformanceSection::Serialize` reads `_callCountMap[t]` with `operator[]`, which would insert a zero for a missing thread. `Sections.SerializedThreadLines` shows that in a consistent section every thread with a cost has a call count. So the read never inserts, and the report is a pure function (`Sections.PerformanceSection.Serialize`).
- NodeHash.Widen: assumes a signed `char`, as on x86 with gcc. With an unsigned `char`, bytes of 128 or more would enter the hash unchanged.
- `PerformanceNodeHash` only serves the commented-out `unordered_map`. The live registry is the ordered `std::map` (Performance.h:411).
- The `PERFORMANCE_EE_BEGIN`-style wrapper macros are not modelled separately. They expand to `ADD_PERFORMANCE_SECTION_BEGIN`/`_END` with a fixed `isStatistics`, which `Instrumentation.SectionBegin` takes as a parameter.
- `GetThreadId`, `GetProcessId` and `GetServerPipeName` are system calls. Their results are parameters.
- IPCManager.h, tool/PerformanceTool.cpp and test/Test.cpp are not part of this model.
