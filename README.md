# ETISS performance sweep, modelled in Dafny

`analyze_etiss_perf.py` measures the ETISS instruction-set simulator over a
grid of parameters. For every iteration count it compiles the example
program once. Then, for every translation block size and every JIT backend,
it does four things:

- writes an override configuration file (`populate_extra_ini`);
- runs the simulator `repeat` times and averages the reported MIPS and
  simulation time, taking the cycle count from the last run (`get_mips`);
- records a sampling profile of one more run (`run_perf_record`);
- reads the profiler's report, for the whole run or once per time slice
  (`get_perf_report`).

Each report is sorted by overhead, descending. Every module (DSO) in it is
mapped to a component name by `replace_dso_names`. Each row is tagged with
the leaf's parameters and metrics. All tables are concatenated at the end.
A failed assertion, a non-zero exit status or a missing pattern ends the
whole sweep.

The Dafny modules follow that structure:

| file | module | models |
|---|---|---|
| `results.dfy` | `Results` | `Option` and `Result` |
| `seqs.dfy` | `Seqs` | concatenation of a list of lists (`pd.concat`) |
| `text.dfy` | `Text` | prefix and substring tests, the regex `.*`, splitting on one character, decimal formatting and parsing |
| `dso_classifier.dfy` | `DsoClassifier` | `replace_dso_names`: normalisation and the rule chain, with the chain restated as a first-match rule table |
| `etiss_config.dfy` | `EtissConfig` | `populate_extra_ini` (imperative), `get_etiss_cmd`, and an INI reader that states what the simulator reads back |
| `run_metrics.dfy` | `RunMetrics` | `get_mips`: a method with a loop, proved against the function `Measure` |
| `perf_report.dfy` | `PerfReport` | `get_perf_report`: the slice loop as a method, proved against the function `Profile` |
| `sweep_driver.dfy` | `SweepDriver` | `main`'s three nested loops and `compile_prog`, as methods proved against the function `Sweep` |

The outside world is a parameter. Its parts are:

- `World.compileOk`: whether a compile command exits with status 0.
- `World.sim(leaf)(cmd, k)`: the exit status and standard output of the k-th
  simulator run.
- `World.num`: stands for `float(...)`, and is `None` where `float` raises.
- `World.recordOk(leaf)`: whether `perf record` succeeds.
- `World.report(leaf)(window)`: the rows the report pipeline printed for a
  window, or `None` when the pipeline exits with a non-zero status.

The sweep returns its observable steps as a trace of `Compile` and `Run`
events. A `Run` event carries the text of the override file written for the
leaf. It returns the final table or the error that stopped it.

Points where the script's behaviour is easy to misread:

- The category names are the script's own: `etiss_arch`, `boost`, `etiss`,
  `gcc`, `etiss_jitcode`, `llvm`, `tcc`, `dso`, `sh` and `libs`.
- The metric patterns are found anywhere in the output (`re.search`), not
  only at the start of a line.
- The time pattern `Simulation Time: (.*)s` captures up to the last `s` on
  its line.
- The cycle count comes from the last run only.
- `assert repeat > 0` is checked inside `get_mips`. So with `repeat <= 0`
  the program is still compiled and the override file is still written
  before the sweep stops.
- `read_csv` is given the column names, so a report with no rows reads as
  an empty table: that slice or leaf adds no rows, and the sweep goes on.
- A sweep with no leaf at all makes `pd.concat` raise
  (`NothingToConcatenate`).

## Model

| member | source | states |
|---|---|---|
| DsoClassifier.ReplaceDsoName | analyze_etiss_perf.py:95-123 | the component name never holds an upper-case letter, a bracket or a dash |
| DsoClassifier.CategoryOrName | analyze_etiss_perf.py:95-123 | the component name is one of the ten fixed categories or the normalised module name itself |
| DsoClassifier.Normalize | analyze_etiss_perf.py:96 | the normalised name holds no upper-case letter, bracket or dash |
| DsoClassifier.CutAtDash | analyze_etiss_perf.py:96 | `re.sub(r"-.*", "")` leaves no dash and never lengthens the name |
| DsoClassifier.StripSharedObject | analyze_etiss_perf.py:96 | `re.sub(r"\.so(\..*)?", "")` never lengthens the name; its value on every name is fixed by `StripWithoutSharedObject` (no `.so`) and `StripAtFirstMatch` (the first `.so`) |
| DsoClassifier.AfterSharedObject | analyze_etiss_perf.py:96 | after a removed `.so`, the optional group `(\..*)` takes a following `.` and the rest of its line, and nothing else |
| DsoClassifier.StripAtFirstMatch | analyze_etiss_perf.py:96 | leftmost match: the text before the first `.so` is kept unchanged, the `.so` and its optional group are removed, and the scan resumes after them |
| DsoClassifier.StripWithoutSharedObject | analyze_etiss_perf.py:96 | a name holding no `.so` is left unchanged by the substitution |
| DsoClassifier.RemoveAll | analyze_etiss_perf.py:96 | `.replace(c, "")` removes every `c` and keeps every other character with its multiplicity; `RemoveAllAppend` keeps them in order |
| DsoClassifier.RemoveAllAppend | analyze_etiss_perf.py:96 | removal works piece by piece: removing from `a + b` is removing from `a`, then from `b`, so the kept characters stay in their order |
| DsoClassifier.ToLower | analyze_etiss_perf.py:96 | `.lower()` keeps the length and lowers each ASCII letter in place |
| DsoClassifier.StripVersionedLibrary | analyze_etiss_perf.py:96 | `base.so` and `base.so.<version>` both become `base`, for every base holding no `.so` of its own, dotted bases included |
| DsoClassifier.DottedLibraryStripped | analyze_etiss_perf.py:96 | `libpython3.10.so.1.0` becomes `libpython3.10`: dots in the base are kept |
| DsoClassifier.DynamicLoaderNormalized | analyze_etiss_perf.py:96 | `ld-2.31.so` loses `.so`, then is cut at the dash, and normalises to `ld` |
| DsoClassifier.CutAtFirstDash | analyze_etiss_perf.py:96 | on a one-line name, everything from the first dash on is cut |
| DsoClassifier.NormalizeLibraryFile | analyze_etiss_perf.py:96 | a library name with `.so` and an optional dotted version normalises to the bare name whenever the bare name has no `.so`, dash, bracket or capital of its own (dots allowed) |
| DsoClassifier.NormalizeKeepsPlainPrefix | analyze_etiss_perf.py:96 | a raw name starting with a prefix free of `.`, `-`, brackets and capitals still starts with it once normalised |
| DsoClassifier.Categorize | analyze_etiss_perf.py:97-123 | the chain answers one of the fixed categories or the name it was given |
| DsoClassifier.CategoriesAreClean | analyze_etiss_perf.py:97-122 | no category holds an upper-case letter, a bracket or a dash |
| DsoClassifier.CategorizeIsRuleTable | analyze_etiss_perf.py:97-123 | the if-chain and first-match evaluation of the thirteen-row rule table agree on every name |
| DsoClassifier.FirstMatchWins | analyze_etiss_perf.py:97-122 | in a rule table, the first rule that holds decides, whatever later rules say |
| DsoClassifier.NoMatchKeepsName | analyze_etiss_perf.py:123 | when no rule holds, the name is its own category |
| DsoClassifier.FirstHoldingRuleDecides | analyze_etiss_perf.py:95-122 | on raw names: the first rule that holds for the normalised name gives the component name |
| DsoClassifier.UnmatchedNameIsKept | analyze_etiss_perf.py:96-123 | a module no rule matches keeps its normalised name |
| DsoClassifier.ArchLibraryRule | analyze_etiss_perf.py:97-98 | a module named `librv...` is `etiss_arch` |
| DsoClassifier.BoostRule | analyze_etiss_perf.py:99-100 | a module named `libboost...` is `boost`, not `libs` |
| DsoClassifier.SemihostRule | analyze_etiss_perf.py:101-102 | a module named `libsemihost...` is `etiss` |
| DsoClassifier.HostTripleRule | analyze_etiss_perf.py:103-104 | a module named `x86_64...` is `gcc` |
| DsoClassifier.JitCodeRule | analyze_etiss_perf.py:105-106 | a module named `libcode_...` is `etiss_jitcode`, although it starts with `lib` |
| DsoClassifier.BackendNameBeatsLaterRules | analyze_etiss_perf.py:107-122 | past the five prefix rules, a name containing `llvm` is `llvm` even if it also contains `tcc` or starts with `lib` |
| DsoClassifier.GenericLibrary | analyze_etiss_perf.py:121-122 | a `lib...` name that no earlier rule claims is `libs` |
| DsoClassifier.SharedLibraryExample | analyze_etiss_perf.py:95-123 | `libc.so.6` normalises to `libc` and is classified `libs` |
| DsoClassifier.LlvmLibraryTrimmed | analyze_etiss_perf.py:96 | `libLLVM-14.so.1` loses its `.so.1` suffix and is cut at the dash to `libLLVM` |
| DsoClassifier.KernelSymbolsExample | analyze_etiss_perf.py:95-123 | `[kernel.kallsyms]` loses its brackets and, matching no rule, is kept as `kernel.kallsyms` |
| DsoClassifier.LlvmLibraryExample | analyze_etiss_perf.py:95-123 | `libLLVM-14.so.1` is classified `llvm`, not `libs` |
| EtissConfig.StringSettings | analyze_etiss_perf.py:26-31 | the string section holds two settings exactly when a fast JIT is given, otherwise one |
| EtissConfig.PopulateExtraIni | analyze_etiss_perf.py:25-36 | builds the file text section by section; when the names hold no line break, its lines are exactly the blank line, the string section with the JIT (and the fast JIT), the blank line, and the integer section with the block size |
| EtissConfig.ExtraIniHasLines | analyze_etiss_perf.py:25-36 | the generated text splits into exactly those lines |
| EtissConfig.ExtraIni | analyze_etiss_perf.py:25-36 | the text `populate_extra_ini` writes; `ExtraIniHasLines` gives its lines, and `ReadJitType`, `ReadFastJitType` and `ReadBlockSize` read each setting back from it |
| EtissConfig.ReadJitType | analyze_etiss_perf.py:26-29 | a reader of the file finds `jit.type` = the JIT name plus `JIT` |
| EtissConfig.ReadFastJitType | analyze_etiss_perf.py:30-31 | `jit.fast_type` is the fast JIT plus `JIT` when a non-empty one is given, and absent otherwise |
| EtissConfig.ReadBlockSize | analyze_etiss_perf.py:33-36 | `etiss.max_block_size` is the formatted block size, and a given block size parses back to itself |
| EtissConfig.JitTypeIsNotInt | analyze_etiss_perf.py:26-36 | the integer section holds no `jit.type` |
| EtissConfig.BlockSizeIsNotString | analyze_etiss_perf.py:26-36 | the string section holds no `etiss.max_block_size` |
| EtissConfig.EtissCommand | analyze_etiss_perf.py:40-42 | the simulator command line of `get_etiss_cmd`; `CommandArguments` gives its words |
| EtissConfig.CommandArguments | analyze_etiss_perf.py:40-42 | split on blanks, the simulator command is the executable and exactly three arguments: `-i` with the program's configuration, `-i` with the extra file, and `--arch.cpu=` with the CPU model |
| RunMetrics.FindFromIsFirst | analyze_etiss_perf.py:55 | the search finds an occurrence, the first one, and finds none only when there is none |
| RunMetrics.SearchFailsIffAbsent | analyze_etiss_perf.py:55-56 | a `re.search` for a marker fails exactly when the marker does not occur |
| RunMetrics.SearchReadsFirstOccurrence | analyze_etiss_perf.py:55-57 | the capture is the rest of the line after the first occurrence |
| RunMetrics.SearchFindsLine | analyze_etiss_perf.py:55-57 | on the line `MIPS (estimated): v`, the capture is exactly `v` |
| RunMetrics.SearchBefore | analyze_etiss_perf.py:60-62 | the captured time never spans a line break |
| RunMetrics.SearchBeforeIsGreedy | analyze_etiss_perf.py:60-62 | on the line `Simulation Time: vs`, the capture is all of `v`, even when `v` itself holds an `s` |
| RunMetrics.Truncate | analyze_etiss_perf.py:66 | `int(x)` truncates toward zero on both signs |
| RunMetrics.SearchBeforeFailsIff | analyze_etiss_perf.py:60-61 | the time search fails exactly when no occurrence of the marker has an `s` later on its line |
| RunMetrics.SearchBeforeReadsLine | analyze_etiss_perf.py:60-62 | at the first occurrence whose line holds an `s`, the capture is that line up to its last `s`: it is followed by an `s`, and no `s` comes after that one |
| RunMetrics.SearchBeforeJumps | analyze_etiss_perf.py:60-61 | occurrences whose line has no `s` are passed over: the search started before them gives what the search started after them gives |
| RunMetrics.ReadOneRun | analyze_etiss_perf.py:52-64 | checks one run's exit status, then reads its MIPS and time, failing at the first missing pattern or unparsable number |
| RunMetrics.RunRepeatedly | analyze_etiss_perf.py:48-64 | the loop stops at the first rejected run and reports it; otherwise it collects every run's MIPS and time in order and keeps the last run's output |
| RunMetrics.Measure | analyze_etiss_perf.py:44-69 | the result of `get_mips` as a function of the runs; `AggregateSucceedsIff`, `AveragesOfRuns` and `CyclesFromLastRun` state when it succeeds and what it returns |
| RunMetrics.RunAndAverage | analyze_etiss_perf.py:50-69 | the loop and the averaging compute `Measure`: averages over `repeat` runs and the cycle count of the last run |
| RunMetrics.GetMips | analyze_etiss_perf.py:44-69 | measures the command built from the work directory's `extra.ini` |
| RunMetrics.ReadingsOk | analyze_etiss_perf.py:51-64 | the readings exist exactly when every run is accepted, and reading j is what run j reports |
| RunMetrics.ReadingsStopAtFirstFault | analyze_etiss_perf.py:51-64 | the first rejected run decides the error, with its run number and fault |
| RunMetrics.AggregateSucceedsIff | analyze_etiss_perf.py:50-69 | the measurement succeeds exactly when `repeat > 0`, every run is accepted and the last run gives a cycle count |
| RunMetrics.FirstFaultIsReported | analyze_etiss_perf.py:51-64 | the error reported is the first rejected run's |
| RunMetrics.AggregateStopsAt | analyze_etiss_perf.py:51-64 | once runs 0..k-1 are read, a rejected run k ends the measurement with its fault |
| RunMetrics.CyclesFromLastRun | analyze_etiss_perf.py:65-66 | the cycle count is the last run's, whatever the earlier runs print |
| RunMetrics.AllAccepted | analyze_etiss_perf.py:51-64 | when every run is accepted, the readings are exactly what the runs report |
| RunMetrics.AveragesOfRuns | analyze_etiss_perf.py:67-68 | the averages are the sums of the runs' MIPS and times divided by `repeat` |
| RunMetrics.MeanBounds | analyze_etiss_perf.py:67-68 | a mean lies between the bounds of the values it averages |
| RunMetrics.AveragesWithinRuns | analyze_etiss_perf.py:67-68 | the averaged MIPS and time lie between the smallest and largest values the runs report |
| RunMetrics.IdenticalRunsAverageToOne | analyze_etiss_perf.py:50-68 | repeating a run that always reports the same thing gives the metrics of one run |
| RunMetrics.ThreeRunsExample | analyze_etiss_perf.py:67-68 | runs of 100, 110 and 90 MIPS in 1.0, 1.1 and 0.9 s average to 100 MIPS in 1.0 s |
| RunMetrics.NonZeroExitFails | analyze_etiss_perf.py:52 | a run with a non-zero exit status fails the measurement |
| RunMetrics.MissingTimeFails | analyze_etiss_perf.py:60-61 | a run whose output has no `Simulation Time: ` with an `s` later on the same line fails the measurement |
| RunMetrics.MissingMipsFails | analyze_etiss_perf.py:55-56 | a run whose output lacks the MIPS pattern fails the measurement |
| RunMetrics.MissingCyclesFails | analyze_etiss_perf.py:65-66 | a last run whose output lacks the cycle pattern fails the measurement |
| PerfReport.SlicePercent | analyze_etiss_perf.py:127 | n windows of `100 / n` per cent cover exactly 100 per cent |
| PerfReport.WindowRange | analyze_etiss_perf.py:127-130 | `--time p%/k` covers the `k`-th window `p` per cent wide: a range within 0 to 100 per cent whose width is `SlicePercent(n)` |
| PerfReport.SliceWindowsTile | analyze_etiss_perf.py:127-130 | the windows `1 .. n` read in slice mode cover the run from 0 to 100 per cent, each starting where the one before it ends |
| PerfReport.InsertKeepsOrder | analyze_etiss_perf.py:137 | inserting into a descending list keeps it descending and adds exactly the new row |
| PerfReport.SortByOverhead | analyze_etiss_perf.py:137 | keeps the number of rows; `SortByOverheadSorts` shows it is a descending permutation |
| PerfReport.SortByOverheadSorts | analyze_etiss_perf.py:137 | sorting by overhead gives a descending permutation of the rows |
| PerfReport.Frame | analyze_etiss_perf.py:136-139 | one table row per report row, each tagged with its slice and with the component name of its module |
| PerfReport.FrameIsSortedReport | analyze_etiss_perf.py:136-138 | a table holds the report's rows, each under its line number, no more and no fewer, in descending order of overhead |
| PerfReport.Profile | analyze_etiss_perf.py:125-154 | the result of `get_perf_report`; `ProfileSucceedsIff`, `SlicedProfile` and `WholeRunProfile` state when it succeeds and which rows it holds |
| PerfReport.ReadRows | analyze_etiss_perf.py:133-136 | a report is read exactly when its pipeline succeeded, and then it is the rows printed, none if none were; otherwise the error names the report's slice |
| PerfReport.GetPerfReport | analyze_etiss_perf.py:125-154 | reads the profile of the recorded run: one report, or one per slice in window order, stopping at the first one whose pipeline failed; an empty report gives no rows |
| PerfReport.SliceRowsOk | analyze_etiss_perf.py:129-140 | the slice loop reads all its slices exactly when every slice's pipeline succeeded |
| PerfReport.SliceRowsValues | analyze_etiss_perf.py:129-140 | entry j of what the loop reads is exactly the rows printed for slice j |
| PerfReport.SliceRowsStop | analyze_etiss_perf.py:129-140 | the first slice whose pipeline failed decides the loop's error: `ReportFailed` with that slice's number |
| PerfReport.ProfileSucceedsIff | analyze_etiss_perf.py:125-154 | the profile exists exactly when recording succeeded and the pipeline of every report it reads succeeded |
| PerfReport.FirstUnreadableSlice | analyze_etiss_perf.py:129-141 | the first slice whose pipeline failed is the one reported, as `ReportFailed` of its number |
| PerfReport.EmptyReportAddsNoRows | analyze_etiss_perf.py:133-151 | a report with no rows is read as an empty table: the profile still exists, and it is empty (whole run) or holds no rows of that slice (slice mode) |
| PerfReport.WholeRunProfile | analyze_etiss_perf.py:142-154 | without slices the profile is the whole run's sorted, classified report, with no slice column |
| PerfReport.SelectSliceOfConcat | analyze_etiss_perf.py:139-141 | selecting slice i from the concatenated, position-tagged tables gives back table i |
| PerfReport.SlicedProfile | analyze_etiss_perf.py:126-141 | in slice mode, the rows tagged with slice i are exactly the sorted, classified report of window i+1 |
| PerfReport.SliceTagsInRange | analyze_etiss_perf.py:139-141 | in slice mode, every row carries a slice number below the slice count |
| SweepDriver.Tag | analyze_etiss_perf.py:211-218 | every profile row keeps its columns and gains the leaf's iteration count, block size, JIT, program, CPU model, averaged metrics and cycle count |
| SweepDriver.LeafOutcome | analyze_etiss_perf.py:208-219 | a leaf writes its override file once, and yields exactly one table when it succeeds and none when it fails |
| SweepDriver.RunLeaf | analyze_etiss_perf.py:208-219 | writes the override file, measures, profiles and tags one leaf |
| SweepDriver.SweepJits | analyze_etiss_perf.py:207-219 | the JIT loop runs the leaves in order and stops at the first failure |
| SweepDriver.SweepBlockSizes | analyze_etiss_perf.py:205-219 | the block-size loop rejects a non-positive block size and stops at the first failure |
| SweepDriver.SweepIterCount | analyze_etiss_perf.py:202-219 | rejects a zero iteration count, compiles once, and runs the block-size loop only if compilation succeeded |
| SweepDriver.CompileCommand | analyze_etiss_perf.py:71-72 | the `compile_example.sh` command of `compile_prog`; `CompileArguments` gives its words, `CompiledIter` runs it once per iteration count and `SweepPlan` orders the compilations |
| SweepDriver.CompileArguments | analyze_etiss_perf.py:71-72 | split on blanks, the compile command is the build script and exactly six arguments: program, toolchain, architecture, ABI, build type and the iteration count in decimal |
| SweepDriver.CompiledIter | analyze_etiss_perf.py:71-78 | a non-zero iteration count whose compile command (`compile_example.sh` with the program, toolchain, architecture, ABI, build type and count) exits with status 0 records that compilation, then runs the block-size loop and keeps its events, tables and error |
| SweepDriver.SweepIterCounts | analyze_etiss_perf.py:202-219 | the iteration-count loop stops at the first failure |
| SweepDriver.Sweep | analyze_etiss_perf.py:192-220 | the outcome of the sweep; `SweepSucceedsIff`, `SweepPlan` and `LeafTableIsTaggedProfile` state when it finishes and what it holds |
| SweepDriver.RunSweep | analyze_etiss_perf.py:192-220 | the sweep: the slicing check, the loops, and the concatenation, which fails when there is no table |
| SweepDriver.StepsStop | analyze_etiss_perf.py:202-219 | after a failed step, no later step is taken |
| SweepDriver.StepsOk | analyze_etiss_perf.py:202-219 | a loop succeeds exactly when each of its steps does |
| SweepDriver.StepsContents | analyze_etiss_perf.py:202-219 | a successful loop has its steps' effects and tables, in order |
| SweepDriver.StepsFail | analyze_etiss_perf.py:202-219 | a failed loop reports the error of its first failing step |
| SweepDriver.LeafCount | analyze_etiss_perf.py:202-207 | the number of leaves is the product of the numbers of iteration counts, block sizes and JITs |
| SweepDriver.JitsPlan | analyze_etiss_perf.py:207-219 | a successful JIT loop wrote one override file and produced one table per JIT, in order, each leaf succeeding |
| SweepDriver.BlockSizesPlan | analyze_etiss_perf.py:205-219 | a successful block-size loop had only positive block sizes and ran its leaves in nested order |
| SweepDriver.IterPlan | analyze_etiss_perf.py:202-219 | a successful iteration count is non-zero, compiled once, and then ran its leaves |
| SweepDriver.ItersChecks | analyze_etiss_perf.py:202-219 | a successful loop had no zero iteration count, every compilation succeeded, every block size was positive and every leaf succeeded |
| SweepDriver.ItersPlan | analyze_etiss_perf.py:202-219 | a successful loop's trace is the planned one, and its tables are the leaves' tables in order |
| SweepDriver.JitsOk | analyze_etiss_perf.py:207-219 | a JIT loop whose leaves all succeed succeeds |
| SweepDriver.BlockSizesOk | analyze_etiss_perf.py:205-219 | a block-size loop with positive sizes whose leaves all succeed succeeds |
| SweepDriver.ItersOk | analyze_etiss_perf.py:202-219 | non-zero iteration counts that all compile, positive block sizes and successful leaves make the loop succeed |
| SweepDriver.SlicingChecksIterCounts | analyze_etiss_perf.py:192-193 | slice mode with other than one iteration count stops before anything is compiled or run |
| SweepDriver.FinishedSweepWasAdmissible | analyze_etiss_perf.py:192-220 | a finished sweep had non-empty lists, the slicing rule met, no zero count, every compilation succeeding, positive block sizes, and every leaf measured and its profile read, where an empty report counts as read |
| SweepDriver.AdmissibleSweepFinishes | analyze_etiss_perf.py:192-220 | under those conditions the sweep finishes |
| SweepDriver.SweepSucceedsIff | analyze_etiss_perf.py:192-220 | the sweep finishes exactly when its inputs and the world admit it |
| SweepDriver.SweepPlan | analyze_etiss_perf.py:192-220 | a finished sweep compiled each iteration count once, in order, each followed by its leaves' runs (block sizes outside, JITs inside); its table is the leaves' tables one after another |
| SweepDriver.EmptyReportLeafSucceeds | analyze_etiss_perf.py:208-219 | a measured leaf whose whole-run report has no rows succeeds and adds an empty table, so the sweep goes on |
| SweepDriver.LeafTableIsTaggedProfile | analyze_etiss_perf.py:208-219 | in a finished sweep, each leaf's table is its profile, tagged with the leaf's parameters and its averaged metrics |
| SweepDriver.SweepStopsAtFirstFailure | analyze_etiss_perf.py:202-219 | a failed sweep reports the error of the first iteration count that failed |

## Left out

- The subprocess calls, the shell and the `perf`/`grep`/`tr`/`sed`/`awk` pipelines are parameters of the model, not modelled. The model assumes the pipeline printed well-formed `dso,overhead` rows. A malformed row, which would make `read_csv` produce a different table or raise, is not modelled.
- `awk` is the last command of each report pipeline, so a failure earlier in the pipeline does not show in its exit status. The model's `None` report stands for any non-zero status of the pipeline as a whole.
- `run_perf_record` (lines 80-89) is not modelled as a command: the `perf record` command line and `perf.data` are left out, and whether it exits with status 0 is the `recordOk` parameter, which `PerfReport.ProfileSucceedsIff` and `SweepDriver.LeafTableIsTaggedProfile` take into account.
- File writes are not modelled: the override file, the `out.csv` files and `to_csv`. The override file's content is the content of the `Run` event.
- Printing is not modelled.
- pandas I/O and the table's column layout are not modelled. A table is a sequence of records. The `index` column that `reset_index` writes out is the row's line number in its report.
- `float` parsing and IEEE arithmetic are not modelled: `float` is a parameter, and the averages are exact `real`s.
- The environment variables, the install paths, `TMP_PATH` and `argparse` are not modelled. The paths are parameters. The options are a `Config` value.
- `argparse` choices and `nargs="+"` are not modelled. The model accepts any JIT name and empty lists, and an empty sweep fails with `NothingToConcatenate`.
- `.lower()` is modelled on ASCII letters only. Unicode case mapping is left out.
- PerfReport.SortByOverhead: pandas' default sort is not stable. The model fixes one order for rows of equal overhead; all it promises is a descending order and a permutation.
- PerfReport.Window: a time window is named by the slice count and the window number, and `WindowRange` gives the range of the run it covers. The formatted percentage string given to `perf report --time` is not modelled.
- PerfReport.Profile: the specification function first reads every slice's rows and tabulates them afterwards. `GetPerfReport` builds each table inside the loop, as the script does, and is proved equal to it.
- SweepDriver.World: the world is indexed by a leaf's parameters, and `compileOk` by the command line. A repeated JIT, block size or iteration count therefore gets the same responses again. A run that gives different results when it is repeated with the same parameters cannot be expressed.
- SweepDriver.RunSweep: each of the three nested loops is a method of its own, called from the loop body above it.
- `plot_etiss_perf.py` is not part of this model.
