/** Metric extraction from the simulator's console output and averaging over
    repeated runs (`get_mips`). The simulator itself is a parameter: `run`
    gives the exit status and standard output of the k-th execution of a
    command line, and `num` stands for Python's `float(...)` (None when it
    raises). */
module RunMetrics {
  import opened Results
  import opened Text
  import opened EtissConfig

  // ---------------------------------------------------------------------
  // Searching the output
  // ---------------------------------------------------------------------

  /** The first index at or after `from` where `t` occurs in `s`. */
  function FindFrom(s: string, t: string, from: nat): (r: Option<nat>)
    decreases |s| - from
    ensures r.Some? ==> from <= r.value && r.value + |t| <= |s|
  {
    if from + |t| > |s| then None
    else if OccursAt(s, t, from) then Some(from)
    else FindFrom(s, t, from + 1)
  }

  /** `FindFrom` finds an occurrence, the first one from `from`, and finds
      none only when there is none. */
  lemma {:induction false} FindFromIsFirst(s: string, t: string, from: nat)
    decreases |s| - from
    ensures FindFrom(s, t, from).Some? ==> OccursAt(s, t, FindFrom(s, t, from).value)
    ensures FindFrom(s, t, from).Some? ==> forall j | from <= j < FindFrom(s, t, from).value :: !OccursAt(s, t, j)
    ensures FindFrom(s, t, from).None? ==> forall j | from <= j :: !OccursAt(s, t, j)
  {
    if from + |t| <= |s| && !OccursAt(s, t, from) {
      FindFromIsFirst(s, t, from + 1);
    }
  }

  /** `re.search(marker + "(.*)", s).group(1)`: the rest of the line after
      the first occurrence of `marker`. */
  function Search(s: string, marker: string): Option<string>
  {
    match FindFrom(s, marker, 0)
    case None => None
    case Some(i) => Some(LineRest(s[i + |marker|..]))
  }

  /** The index of the last `c` in `s`. */
  function LastIndex(s: string, c: char): (k: nat)
    requires c in s
    ensures k < |s| && s[k] == c
    ensures forall j | k < j < |s| :: s[j] != c
  {
    if s[|s| - 1] == c then |s| - 1 else LastIndex(s[..|s| - 1], c)
  }

  /** `re.search(marker + "(.*)" + [stop], s).group(1)`: at the first
      occurrence of `marker` whose line still holds a `stop` character, the
      text up to the last `stop` on that line (the `.*` is greedy);
      occurrences whose line has no `stop` are passed over. */
  function SearchBefore(s: string, marker: string, stop: char, from: nat): (r: Option<string>)
    requires marker != [] && stop != '\n'
    decreases |s| - from, 1
    ensures r.Some? ==> '\n' !in r.value
  {
    match FindFrom(s, marker, from)
    case None => None
    case Some(i) => SearchAt(s, marker, stop, i)
  }

  /** The search at an occurrence of `marker` at `i`: the capture on this
      line when it holds a `stop`, otherwise the search from `i + 1`. */
  function SearchAt(s: string, marker: string, stop: char, i: nat): (r: Option<string>)
    requires marker != [] && stop != '\n'
    requires i + |marker| <= |s|
    decreases |s| - i, 0
    ensures r.Some? ==> '\n' !in r.value
  {
    var rest := LineRest(s[i + |marker|..]);
    if stop in rest then Some(rest[..LastIndex(rest, stop)])
    else SearchBefore(s, marker, stop, i + 1)
  }

  /** `Search` fails exactly when the marker does not occur. */
  lemma SearchFailsIffAbsent(s: string, marker: string)
    ensures Search(s, marker).None? <==> !Contains(s, marker)
  {
    FindFromIsFirst(s, marker, 0);
  }

  /** The first occurrence found from `from` is the one at `i` when there is
      none between. */
  lemma FindsFirstOccurrence(s: string, marker: string, from: nat, i: nat)
    requires from <= i && OccursAt(s, marker, i)
    requires forall j | from <= j < i :: !OccursAt(s, marker, j)
    ensures FindFrom(s, marker, from) == Some(i)
  {
    FindFromIsFirst(s, marker, from);
    var f := FindFrom(s, marker, from);
    assert f.Some?;
    assert f.value == i;
  }

  /** `Search` is `None` exactly when the marker is absent, and otherwise
      reads the first occurrence. */
  lemma SearchReadsFirstOccurrence(s: string, marker: string, i: nat)
    requires OccursAt(s, marker, i)
    requires forall j | 0 <= j < i :: !OccursAt(s, marker, j)
    ensures Search(s, marker) == Some(LineRest(s[i + |marker|..]))
  {
    FindsFirstOccurrence(s, marker, 0, i);
  }

  lemma OccursAfter(pre: string, marker: string, tail: string)
    ensures OccursAt(pre + marker + tail, marker, |pre|)
    ensures (pre + marker + tail)[|pre| + |marker|..] == tail
  {
    var s := pre + marker + tail;
    assert s[|pre|..|pre| + |marker|] == marker;
  }

  lemma LastIndexOfEnd(v: string, c: char)
    ensures LastIndex(v + [c], c) == |v|
  {
  }

  /** A line `marker + v` with no earlier occurrence of `marker` is found,
      and `v` is the captured text. */
  lemma SearchFindsLine(s: string, pre: string, marker: string, v: string, post: string)
    requires s == pre + marker + (v + "\n" + post)
    requires '\n' !in v
    requires forall j | 0 <= j < |pre| :: !OccursAt(s, marker, j)
    ensures Search(s, marker) == Some(v)
  {
    var i := |pre|;
    OccursAfter(pre, marker, v + "\n" + post);
    FindsFirstOccurrence(s, marker, 0, i);
    assert v + "\n" + post == v + ("\n" + post);
    LineRestOfAppend(v, "\n" + post);
  }

  /** The greedy capture: on the line `marker + v + "s"`, the capture is all
      of `v`, even when `v` itself holds an `s`. */
  lemma SearchBeforeIsGreedy(s: string, pre: string, marker: string, v: string, post: string)
    requires marker != []
    requires s == pre + marker + (v + "s\n" + post)
    requires '\n' !in v
    requires forall j | 0 <= j < |pre| :: !OccursAt(s, marker, j)
    ensures SearchBefore(s, marker, 's', 0) == Some(v)
  {
    var i := |pre|;
    OccursAfter(pre, marker, v + "s\n" + post);
    FindsFirstOccurrence(s, marker, 0, i);
    var rest := v + "s";
    assert v + "s\n" + post == rest + ("\n" + post);
    LineRestOfAppend(rest, "\n" + post);
    LastIndexOfEnd(v, 's');
    assert rest[..|v|] == v;
  }

  /** `marker` occurs at `i`, and a `stop` follows on the same line. */
  predicate StopOnLineAt(s: string, marker: string, stop: char, i: int)
  {
    OccursAt(s, marker, i) && stop in LineRest(s[i + |marker|..])
  }

  /** `SearchBefore` fails exactly when no occurrence of `marker` from
      `from` on has a `stop` later on its line. */
  lemma {:induction false} SearchBeforeFailsIff(s: string, marker: string, stop: char, from: nat)
    requires marker != [] && stop != '\n'
    decreases |s| - from
    ensures SearchBefore(s, marker, stop, from).None? <==> forall i | from <= i :: !StopOnLineAt(s, marker, stop, i)
  {
    if from + |marker| > |s| {
      SearchBeforePastEnd(s, marker, stop, from);
    } else if StopOnLineAt(s, marker, stop, from) {
      SearchBeforeAtStop(s, marker, stop, from);
    } else {
      SearchBeforeStep(s, marker, stop, from);
      SearchBeforeFailsIff(s, marker, stop, from + 1);
    }
  }

  /** Too near the end for `marker` to fit, the search finds nothing. */
  lemma SearchBeforePastEnd(s: string, marker: string, stop: char, from: nat)
    requires marker != [] && stop != '\n'
    requires from + |marker| > |s|
    ensures SearchBefore(s, marker, stop, from) == None
    ensures forall i | from <= i :: !StopOnLineAt(s, marker, stop, i)
  {
  }

  /** At a position whose line holds a `stop` after a `marker`, the search
      succeeds. */
  lemma SearchBeforeAtStop(s: string, marker: string, stop: char, from: nat)
    requires marker != [] && stop != '\n'
    requires StopOnLineAt(s, marker, stop, from)
    ensures SearchBefore(s, marker, stop, from).Some?
  {
    FindsFirstOccurrence(s, marker, from, from);
  }

  /** A position whose line holds no `stop` after a `marker` there is
      passed over: the search from it is the search from the next one. */
  lemma SearchBeforeStep(s: string, marker: string, stop: char, k: nat)
    requires marker != [] && stop != '\n'
    requires !StopOnLineAt(s, marker, stop, k)
    ensures SearchBefore(s, marker, stop, k) == SearchBefore(s, marker, stop, k + 1)
  {
    if !OccursAt(s, marker, k) {
      assert FindFrom(s, marker, k) == FindFrom(s, marker, k + 1);
      SameFirstOccurrence(s, marker, stop, k, k + 1);
    }
  }

  /** The search depends on its start only through the first occurrence found. */
  lemma SameFirstOccurrence(s: string, marker: string, stop: char, a: nat, b: nat)
    requires marker != [] && stop != '\n'
    requires FindFrom(s, marker, a) == FindFrom(s, marker, b)
    ensures SearchBefore(s, marker, stop, a) == SearchBefore(s, marker, stop, b)
  {
  }

  /** No `c` follows the last `c`. */
  lemma NothingAfterLast(s: string, c: char)
    requires c in s
    ensures c !in s[LastIndex(s, c) + 1..]
  {
    var k := LastIndex(s, c);
    var tail := s[k + 1..];
    forall d | d in tail
      ensures d != c
    {
      var m :| 0 <= m < |tail| && tail[m] == d;
      assert tail[m] == s[k + 1 + m];
    }
  }

  /** `v` is `line` up to its last `stop`: `v` followed by `stop` starts
      the line, and no `stop` comes after that one. */
  predicate UpToLast(line: string, v: string, stop: char)
  {
    |v| < |line| && line[..|v|] == v && line[|v|] == stop && stop !in line[|v| + 1..]
  }

  /** The capture at an occurrence whose line holds a `stop`: the line up
      to its last `stop`. */
  lemma CaptureAt(s: string, marker: string, stop: char, from: nat)
    requires marker != [] && stop != '\n'
    requires FindFrom(s, marker, from).Some? && StopOnLineAt(s, marker, stop, FindFrom(s, marker, from).value)
    ensures SearchBefore(s, marker, stop, from).Some?
    ensures UpToLast(LineRest(s[FindFrom(s, marker, from).value + |marker|..]), SearchBefore(s, marker, stop, from).value, stop)
  {
    var line := LineRest(s[FindFrom(s, marker, from).value + |marker|..]);
    assert SearchBefore(s, marker, stop, from) == Some(line[..LastIndex(line, stop)]);
    NothingAfterLast(line, stop);
  }

  /** At the first occurrence of `marker` whose line holds a `stop`, the
      capture is that line up to its last `stop`. */
  lemma SearchBeforeReadsLine(s: string, marker: string, stop: char, from: nat, i: nat)
    requires marker != [] && stop != '\n'
    requires from <= i && StopOnLineAt(s, marker, stop, i)
    requires forall j | from <= j < i :: !StopOnLineAt(s, marker, stop, j)
    ensures SearchBefore(s, marker, stop, from).Some?
    ensures UpToLast(LineRest(s[i + |marker|..]), SearchBefore(s, marker, stop, from).value, stop)
  {
    SearchBeforeJumps(s, marker, stop, from, i);
    FindsFirstOccurrence(s, marker, i, i);
    CaptureAt(s, marker, stop, i);
  }

  /** Positions whose lines hold no `stop` after a `marker` are passed
      over: the search goes on as if it started after them. */
  lemma {:induction false} SearchBeforeJumps(s: string, marker: string, stop: char, from: nat, i: nat)
    requires marker != [] && stop != '\n'
    requires from <= i
    requires forall j | from <= j < i :: !StopOnLineAt(s, marker, stop, j)
    decreases i - from
    ensures SearchBefore(s, marker, stop, from) == SearchBefore(s, marker, stop, i)
  {
    if from < i {
      SearchBeforeStep(s, marker, stop, from);
      SearchBeforeJumps(s, marker, stop, from + 1, i);
    }
  }

  // ---------------------------------------------------------------------
  // Numbers
  // ---------------------------------------------------------------------

  /** Python's `int(x)` on a float: truncation toward zero. */
  function Truncate(x: real): (r: int)
    ensures 0.0 <= x ==> 0 <= r && r as real <= x < r as real + 1.0
    ensures x < 0.0 ==> r <= 0 && r as real - 1.0 < x <= r as real
  {
    if x >= 0.0 then x.Floor else -((-x).Floor)
  }

  /** Python's `sum(xs)`, accumulating from the left. */
  function Sum(xs: seq<real>): real
  {
    if xs == [] then 0.0 else Sum(xs[..|xs| - 1]) + xs[|xs| - 1]
  }

  lemma {:induction false} SumBounds(xs: seq<real>, lo: real, hi: real)
    requires forall i | 0 <= i < |xs| :: lo <= xs[i] <= hi
    ensures |xs| as real * lo <= Sum(xs) <= |xs| as real * hi
  {
    if xs != [] {
      SumBounds(xs[..|xs| - 1], lo, hi);
    }
  }

  lemma {:induction false} SumOfCopies(xs: seq<real>, v: real)
    requires forall i | 0 <= i < |xs| :: xs[i] == v
    ensures Sum(xs) == |xs| as real * v
  {
    if xs != [] {
      SumOfCopies(xs[..|xs| - 1], v);
    }
  }

  // ---------------------------------------------------------------------
  // One run, and the whole measurement
  // ---------------------------------------------------------------------

  datatype ProcessResult = ProcessResult(exitCode: int, stdout: string)

  /** What one execution of the simulator reports. */
  datatype Reading = Reading(mips: real, time: real)

  /** The averaged throughput and duration, and the cycle count of the last run. */
  datatype Metrics = Metrics(mips: real, time: real, cycles: int)

  /** Why one run was rejected. */
  datatype RunFault =
    | ExitStatus(code: int)   // `check=True` raises on a non-zero exit
    | NoMips                  // the MIPS pattern is absent
    | BadMips(text: string)   // `float` rejects the captured text
    | NoTime
    | BadTime(text: string)

  datatype MetricsError =
    | RepeatNotPositive
    | RunFailed(run: nat, fault: RunFault)
    | NoCycles
    | BadCycles(text: string)

  const MipsMarker := "MIPS (estimated): "
  const TimeMarker := "Simulation Time: "
  const CyclesMarker := "CPU Cycles (estimated): "

  /** The readings of one execution, or why it is rejected. */
  function ReadRun(res: ProcessResult, num: string -> Option<real>): Result<Reading, RunFault>
  {
    if res.exitCode != 0 then Fail(ExitStatus(res.exitCode))
    else match Search(res.stdout, MipsMarker)
      case None => Fail(NoMips)
      case Some(m) =>
        if num(m).None? then Fail(BadMips(m))
        else match SearchBefore(res.stdout, TimeMarker, 's', 0)
          case None => Fail(NoTime)
          case Some(t) =>
            if num(t).None? then Fail(BadTime(t))
            else Ok(Reading(num(m).value, num(t).value))
  }

  /** The cycle count printed by a run, truncated toward zero. */
  function ReadCycles(out: string, num: string -> Option<real>): Result<int, MetricsError>
  {
    match Search(out, CyclesMarker)
    case None => Fail(NoCycles)
    case Some(c) =>
      if num(c).None? then Fail(BadCycles(c)) else Ok(Truncate(num(c).value))
  }

  /** The outcome of each execution of `cmd`, by run number. */
  function Outcomes(cmd: string, run: (string, nat) -> ProcessResult, num: string -> Option<real>): nat -> Result<Reading, RunFault>
  {
    (k: nat) => ReadRun(run(cmd, k), num)
  }

  /** The cycle count each execution of `cmd` would give, by run number. */
  function CycleCounts(cmd: string, run: (string, nat) -> ProcessResult, num: string -> Option<real>): nat -> Result<int, MetricsError>
  {
    (k: nat) => ReadCycles(run(cmd, k).stdout, num)
  }

  /** The readings of the first `n` executions, stopping at the first one
      that is rejected. */
  function Readings(outcome: nat -> Result<Reading, RunFault>, n: nat): (r: Result<seq<Reading>, MetricsError>)
    ensures r.Ok? ==> |r.value| == n
  {
    if n == 0 then Ok([])
    else match Readings(outcome, n - 1)
      case Fail(e) => Fail(e)
      case Ok(rs) =>
        match outcome(n - 1)
        case Fail(f) => Fail(RunFailed(n - 1, f))
        case Ok(x) => Ok(rs + [x])
  }

  function MipsOf(rs: seq<Reading>): (r: seq<real>)
    ensures |r| == |rs| && forall i | 0 <= i < |rs| :: r[i] == rs[i].mips
  {
    seq(|rs|, i requires 0 <= i < |rs| => rs[i].mips)
  }

  function TimesOf(rs: seq<Reading>): (r: seq<real>)
    ensures |r| == |rs| && forall i | 0 <= i < |rs| :: r[i] == rs[i].time
  {
    seq(|rs|, i requires 0 <= i < |rs| => rs[i].time)
  }

  lemma ColumnsOfAppend(rs: seq<Reading>, x: Reading)
    ensures MipsOf(rs + [x]) == MipsOf(rs) + [x.mips]
    ensures TimesOf(rs + [x]) == TimesOf(rs) + [x.time]
  {
  }

  /** The metrics of `repeat` runs, given what each run reports and the
      cycle count each would give: averages of the runs' throughput and
      duration, and the cycles of the last run. */
  function Aggregate(outcome: nat -> Result<Reading, RunFault>, cycles: nat -> Result<int, MetricsError>, repeat: int): Result<Metrics, MetricsError>
  {
    if repeat <= 0 then Fail(RepeatNotPositive)
    else match Readings(outcome, repeat)
      case Fail(e) => Fail(e)
      case Ok(rs) =>
        match cycles(repeat - 1)
        case Fail(e) => Fail(e)
        case Ok(c) => Ok(Metrics(Sum(MipsOf(rs)) / repeat as real, Sum(TimesOf(rs)) / repeat as real, c))
  }

  /** The metrics of `repeat` executions of `cmd`. */
  function Measure(cmd: string, run: (string, nat) -> ProcessResult, num: string -> Option<real>, repeat: int): Result<Metrics, MetricsError>
  {
    Aggregate(Outcomes(cmd, run, num), CycleCounts(cmd, run, num), repeat)
  }

  /** Checks one execution's exit status and reads its throughput and
      duration, failing at the first missing pattern or unparsable number. */
  method ReadOneRun(proc: ProcessResult, num: string -> Option<real>) returns (r: Result<Reading, RunFault>)
    ensures r == ReadRun(proc, num)
  {
    if proc.exitCode != 0 {
      return Fail(ExitStatus(proc.exitCode));
    }
    var out := proc.stdout;
    var mipsMatch := Search(out, MipsMarker);
    if mipsMatch.None? {
      return Fail(NoMips);
    }
    var mips := num(mipsMatch.value);
    if mips.None? {
      return Fail(BadMips(mipsMatch.value));
    }
    var timeMatch := SearchBefore(out, TimeMarker, 's', 0);
    if timeMatch.None? {
      return Fail(NoTime);
    }
    var time := num(timeMatch.value);
    if time.None? {
      return Fail(BadTime(timeMatch.value));
    }
    r := Ok(Reading(mips.value, time.value));
  }

  /** Runs the simulator `repeat` times on the program's configuration plus
      the extra configuration in `workdir`, and averages what it reports. */
  method GetMips(etissExe: string, examplesDir: string, workdir: string, prog: string, etissArch: string, repeat: int,
                 run: (string, nat) -> ProcessResult, num: string -> Option<real>)
    returns (r: Result<Metrics, MetricsError>)
    ensures r == Measure(EtissCommand(etissExe, examplesDir, ExtraIniPath(workdir), prog, etissArch), run, num, repeat)
  {
    var extraIni := ExtraIniPath(workdir);
    var cmd := EtissCommand(etissExe, examplesDir, extraIni, prog, etissArch);
    r := RunAndAverage(cmd, repeat, run, num);
  }

  /** The loop of `get_mips`: runs `cmd` `repeat` times, collecting each
      run's throughput and duration, then reads the cycle count from the
      output of the last run. */
  method RunAndAverage(cmd: string, repeat: int, run: (string, nat) -> ProcessResult, num: string -> Option<real>)
    returns (r: Result<Metrics, MetricsError>)
    ensures r == Measure(cmd, run, num, repeat)
  {
    if repeat <= 0 {
      return Fail(RepeatNotPositive);
    }
    var fault, allMips, allTimes, out := RunRepeatedly(cmd, repeat, run, num);
    if fault.Some? {
      return Fail(fault.value);
    }
    ghost var rs := Readings(Outcomes(cmd, run, num), repeat).value;
    AggregateAfterReadings(Outcomes(cmd, run, num), CycleCounts(cmd, run, num), repeat, rs);
    assert CycleCounts(cmd, run, num)(repeat - 1) == ReadCycles(out, num);
    var cyclesMatch := Search(out, CyclesMarker);
    if cyclesMatch.None? {
      return Fail(NoCycles);
    }
    var cycles := num(cyclesMatch.value);
    if cycles.None? {
      return Fail(BadCycles(cyclesMatch.value));
    }
    r := Ok(Metrics(Sum(allMips) / repeat as real, Sum(allTimes) / repeat as real, Truncate(cycles.value)));
  }

  /** The loop of `get_mips`: runs `cmd` `repeat` times and collects each
      run's throughput and duration, stopping at the first run that fails;
      the output of the last run is kept for the cycle count. */
  method RunRepeatedly(cmd: string, repeat: nat, run: (string, nat) -> ProcessResult, num: string -> Option<real>)
    returns (fault: Option<MetricsError>, allMips: seq<real>, allTimes: seq<real>, out: string)
    requires repeat > 0
    ensures fault.Some? <==> Readings(Outcomes(cmd, run, num), repeat).Fail?
    ensures fault.Some? ==> Measure(cmd, run, num, repeat) == Fail(fault.value)
    ensures fault.None? ==>
      && allMips == MipsOf(Readings(Outcomes(cmd, run, num), repeat).value)
      && allTimes == TimesOf(Readings(Outcomes(cmd, run, num), repeat).value)
      && out == run(cmd, repeat - 1).stdout
  {
    ghost var outcome := Outcomes(cmd, run, num);
    allMips, allTimes, out := [], [], [];
    ghost var readings: seq<Reading> := [];
    var k := 0;
    while k < repeat
      invariant 0 <= k <= repeat
      invariant Readings(outcome, k) == Ok(readings)
      invariant allMips == MipsOf(readings) && allTimes == TimesOf(readings)
      invariant k > 0 ==> out == run(cmd, k - 1).stdout
    {
      var proc := run(cmd, k);
      var reading := ReadOneRun(proc, num);
      assert outcome(k) == reading;
      if reading.Fail? {
        fault := Some(RunFailed(k, reading.error));
        AggregateStopsAt(outcome, CycleCounts(cmd, run, num), repeat, k);
        return;
      }
      out := proc.stdout;
      ReadingsGrow(outcome, k, readings);
      ColumnsOfAppend(readings, reading.value);
      allMips := allMips + [reading.value.mips];
      allTimes := allTimes + [reading.value.time];
      readings := readings + [reading.value];
      k := k + 1;
    }
    fault := None;
  }


  // ---------------------------------------------------------------------
  // Properties of the measurement
  // ---------------------------------------------------------------------

  /** The first `n` readings exist exactly when none of the first `n` runs
      is rejected, and then reading `j` is what run `j` reports. */
  lemma {:induction false} ReadingsOk(outcome: nat -> Result<Reading, RunFault>, n: nat)
    ensures Readings(outcome, n).Ok? <==> forall j: nat | j < n :: outcome(j).Ok?
    ensures Readings(outcome, n).Ok? ==> forall j: nat | j < n :: Readings(outcome, n).value[j] == outcome(j).value
  {
    if n > 0 {
      ReadingsOk(outcome, n - 1);
    }
  }

  /** A rejected run `k` whose predecessors were all accepted decides the
      error of the first `n > k` readings. */
  lemma {:induction false} ReadingsStopAtFirstFault(outcome: nat -> Result<Reading, RunFault>, n: nat, k: nat)
    requires k < n
    requires outcome(k).Fail?
    requires forall j: nat | j < k :: outcome(j).Ok?
    ensures Readings(outcome, n) == Fail(RunFailed(k, outcome(k).error))
  {
    if n - 1 == k {
      ReadingsOk(outcome, k);
    } else {
      ReadingsStopAtFirstFault(outcome, n - 1, k);
    }
  }

  /** The measurement succeeds exactly when `repeat` is positive, every run
      is accepted and the last run gives a cycle count. */
  lemma AggregateSucceedsIff(outcome: nat -> Result<Reading, RunFault>, cycles: nat -> Result<int, MetricsError>, repeat: int)
    ensures Aggregate(outcome, cycles, repeat).Ok? <==>
      repeat > 0 && (forall j: nat | j < repeat :: outcome(j).Ok?) && cycles(repeat - 1).Ok?
  {
    if repeat > 0 {
      ReadingsOk(outcome, repeat);
    }
  }

  lemma ReadingsGrow(outcome: nat -> Result<Reading, RunFault>, k: nat, rs: seq<Reading>)
    requires Readings(outcome, k) == Ok(rs) && outcome(k).Ok?
    ensures Readings(outcome, k + 1) == Ok(rs + [outcome(k).value])
  {
  }

  /** Once all the readings are in, the cycle count of the last run decides. */
  lemma AggregateAfterReadings(outcome: nat -> Result<Reading, RunFault>, cycles: nat -> Result<int, MetricsError>, repeat: int, rs: seq<Reading>)
    requires repeat > 0 && Readings(outcome, repeat) == Ok(rs)
    ensures cycles(repeat - 1).Fail? ==> Aggregate(outcome, cycles, repeat) == Fail(cycles(repeat - 1).error)
    ensures cycles(repeat - 1).Ok? ==>
              Aggregate(outcome, cycles, repeat)
              == Ok(Metrics(Sum(MipsOf(rs)) / repeat as real, Sum(TimesOf(rs)) / repeat as real, cycles(repeat - 1).value))
  {
  }

  /** The first rejected run is the one reported, with its fault. */
  lemma FirstFaultIsReported(outcome: nat -> Result<Reading, RunFault>, cycles: nat -> Result<int, MetricsError>, repeat: int, k: nat)
    requires k < repeat
    requires outcome(k).Fail?
    requires forall j: nat | j < k :: outcome(j).Ok?
    ensures Aggregate(outcome, cycles, repeat) == Fail(RunFailed(k, outcome(k).error))
  {
    ReadingsStopAtFirstFault(outcome, repeat, k);
  }

  /** Once the first `k` runs are read, a rejected run `k` ends the measurement. */
  lemma AggregateStopsAt(outcome: nat -> Result<Reading, RunFault>, cycles: nat -> Result<int, MetricsError>, repeat: int, k: nat)
    requires k < repeat
    requires Readings(outcome, k).Ok?
    requires outcome(k).Fail?
    ensures Readings(outcome, repeat) == Fail(RunFailed(k, outcome(k).error))
    ensures Aggregate(outcome, cycles, repeat) == Fail(RunFailed(k, outcome(k).error))
  {
    ReadingsOk(outcome, k);
    assert forall j: nat | j < k :: outcome(j).Ok?;
    ReadingsStopAtFirstFault(outcome, repeat, k);
  }

  /** The cycle count comes from the last run alone. */
  lemma CyclesFromLastRun(outcome: nat -> Result<Reading, RunFault>, cycles: nat -> Result<int, MetricsError>, repeat: int)
    requires Aggregate(outcome, cycles, repeat).Ok?
    ensures repeat > 0
    ensures cycles(repeat - 1) == Ok(Aggregate(outcome, cycles, repeat).value.cycles)
  {
  }

  /** The first `n` readings, when every one of them is accepted. */
  function AcceptedReadings(outcome: nat -> Result<Reading, RunFault>, n: nat): seq<Reading>
    requires forall j: nat | j < n :: outcome(j).Ok?
  {
    seq(n, (j: int) requires 0 <= j < n => outcome(j).value)
  }

  /** When every run is accepted, the readings are those the runs report. */
  lemma AllAccepted(outcome: nat -> Result<Reading, RunFault>, n: nat)
    requires forall j: nat | j < n :: outcome(j).Ok?
    ensures Readings(outcome, n) == Ok(AcceptedReadings(outcome, n))
  {
    ReadingsOk(outcome, n);
    assert Readings(outcome, n).value == AcceptedReadings(outcome, n);
  }

  /** The averages are the sums of what the runs report, divided by `repeat`. */
  lemma AveragesOfRuns(outcome: nat -> Result<Reading, RunFault>, cycles: nat -> Result<int, MetricsError>, repeat: int)
    requires Aggregate(outcome, cycles, repeat).Ok?
    ensures repeat > 0 && forall j: nat | j < repeat :: outcome(j).Ok?
    ensures Aggregate(outcome, cycles, repeat).value.mips == Sum(MipsOf(AcceptedReadings(outcome, repeat))) / repeat as real
    ensures Aggregate(outcome, cycles, repeat).value.time == Sum(TimesOf(AcceptedReadings(outcome, repeat))) / repeat as real
  {
    ReadingsOk(outcome, repeat);
    AllAccepted(outcome, repeat);
  }

  /** A mean lies between the bounds of what it averages. */
  lemma MeanBounds(xs: seq<real>, lo: real, hi: real)
    requires |xs| > 0
    requires forall i | 0 <= i < |xs| :: lo <= xs[i] <= hi
    ensures lo <= Sum(xs) / |xs| as real <= hi
  {
    SumBounds(xs, lo, hi);
    var n := |xs| as real;
    DivideMonotone(n * lo, Sum(xs), n);
    DivideMonotone(Sum(xs), n * hi, n);
    CancelFactor(lo, n);
    CancelFactor(hi, n);
  }

  lemma CancelFactor(x: real, n: real)
    requires n > 0.0
    ensures (n * x) / n == x
  {
  }

  lemma DivideMonotone(a: real, b: real, n: real)
    requires n > 0.0 && a <= b
    ensures a / n <= b / n
  {
    assert b / n - a / n == (b - a) / n;
  }

  /** The averages lie between the smallest and the largest value reported. */
  lemma AveragesWithinRuns(outcome: nat -> Result<Reading, RunFault>, cycles: nat -> Result<int, MetricsError>, repeat: int,
                           loMips: real, hiMips: real, loTime: real, hiTime: real)
    requires Aggregate(outcome, cycles, repeat).Ok?
    requires forall j: nat | j < repeat && outcome(j).Ok? :: loMips <= outcome(j).value.mips <= hiMips
    requires forall j: nat | j < repeat && outcome(j).Ok? :: loTime <= outcome(j).value.time <= hiTime
    ensures loMips <= Aggregate(outcome, cycles, repeat).value.mips <= hiMips
    ensures loTime <= Aggregate(outcome, cycles, repeat).value.time <= hiTime
  {
    AveragesOfRuns(outcome, cycles, repeat);
    var rs := AcceptedReadings(outcome, repeat);
    assert forall i | 0 <= i < |rs| :: rs[i] == outcome(i).value;
    MeanBounds(MipsOf(rs), loMips, hiMips);
    MeanBounds(TimesOf(rs), loTime, hiTime);
  }

  /** The mean of copies of one value is that value. */
  lemma MeanOfCopies(xs: seq<real>, v: real)
    requires |xs| > 0
    requires forall i | 0 <= i < |xs| :: xs[i] == v
    ensures Sum(xs) / |xs| as real == v
  {
    SumOfCopies(xs, v);
  }

  /** Repeating a run that always reports the same thing gives the same
      metrics as running it once. */
  lemma IdenticalRunsAverageToOne(outcome: nat -> Result<Reading, RunFault>, cycles: nat -> Result<int, MetricsError>, repeat: int)
    requires repeat > 0
    requires forall j: nat | j < repeat :: outcome(j) == outcome(0) && cycles(j) == cycles(0)
    ensures Aggregate(outcome, cycles, repeat) == Aggregate(outcome, cycles, 1)
  {
    var x := outcome(0);
    if x.Fail? {
      FirstFaultIsReported(outcome, cycles, repeat, 0);
      FirstFaultIsReported(outcome, cycles, 1, 0);
    } else {
      AllAccepted(outcome, repeat);
      AllAccepted(outcome, 1);
      assert cycles(repeat - 1) == cycles(0);
      var rs := AcceptedReadings(outcome, repeat);
      var r1 := AcceptedReadings(outcome, 1);
      assert forall i | 0 <= i < |rs| :: rs[i] == x.value;
      MeanOfCopies(MipsOf(rs), x.value.mips);
      MeanOfCopies(TimesOf(rs), x.value.time);
      MeanOfCopies(MipsOf(r1), x.value.mips);
      MeanOfCopies(TimesOf(r1), x.value.time);
    }
  }

  /** Three runs reporting 100, 110 and 90 MIPS in 1.0, 1.1 and 0.9 seconds
      average to 100 MIPS in 1.0 second; the cycles are those of the third. */
  lemma ThreeRunsExample(outcome: nat -> Result<Reading, RunFault>, cycles: nat -> Result<int, MetricsError>, c: int)
    requires outcome(0) == Ok(Reading(100.0, 1.0))
    requires outcome(1) == Ok(Reading(110.0, 1.1))
    requires outcome(2) == Ok(Reading(90.0, 0.9))
    requires cycles(2) == Ok(c)
    ensures Aggregate(outcome, cycles, 3) == Ok(Metrics(100.0, 1.0, c))
  {
    AggregateSucceedsIff(outcome, cycles, 3);
    AveragesOfRuns(outcome, cycles, 3);
    var rs := AcceptedReadings(outcome, 3);
    assert MipsOf(rs) == [100.0, 110.0, 90.0];
    assert TimesOf(rs) == [1.0, 1.1, 0.9];
    assert Sum([100.0, 110.0, 90.0]) == 300.0 by {
      assert [100.0, 110.0, 90.0][..2] == [100.0, 110.0];
      assert [100.0, 110.0][..1] == [100.0];
      assert [100.0][..0] == [];
    }
    assert Sum([1.0, 1.1, 0.9]) == 3.0 by {
      assert [1.0, 1.1, 0.9][..2] == [1.0, 1.1];
      assert [1.0, 1.1][..1] == [1.0];
      assert [1.0][..0] == [];
    }
  }

  /** A run that exits with a non-zero status fails the measurement. */
  lemma NonZeroExitFails(cmd: string, run: (string, nat) -> ProcessResult, num: string -> Option<real>, repeat: int, k: nat)
    requires k < repeat
    requires run(cmd, k).exitCode != 0
    ensures Measure(cmd, run, num, repeat).Fail?
  {
    var outcome := Outcomes(cmd, run, num);
    assert outcome(k).Fail?;
    AggregateSucceedsIff(outcome, CycleCounts(cmd, run, num), repeat);
  }

  /** A run whose output lacks the throughput pattern fails the measurement. */
  lemma MissingMipsFails(cmd: string, run: (string, nat) -> ProcessResult, num: string -> Option<real>, repeat: int, k: nat)
    requires k < repeat
    requires !Contains(run(cmd, k).stdout, MipsMarker)
    ensures Measure(cmd, run, num, repeat).Fail?
  {
    SearchFailsIffAbsent(run(cmd, k).stdout, MipsMarker);
    var outcome := Outcomes(cmd, run, num);
    assert outcome(k).Fail?;
    AggregateSucceedsIff(outcome, CycleCounts(cmd, run, num), repeat);
  }

  /** A run whose output has no `Simulation Time: ` followed, on the same
      line, by an `s` fails the measurement. */
  lemma MissingTimeFails(cmd: string, run: (string, nat) -> ProcessResult, num: string -> Option<real>, repeat: int, k: nat)
    requires k < repeat
    requires forall i | 0 <= i :: !StopOnLineAt(run(cmd, k).stdout, TimeMarker, 's', i)
    ensures Measure(cmd, run, num, repeat).Fail?
  {
    SearchBeforeFailsIff(run(cmd, k).stdout, TimeMarker, 's', 0);
    var outcome := Outcomes(cmd, run, num);
    assert outcome(k).Fail?;
    AggregateSucceedsIff(outcome, CycleCounts(cmd, run, num), repeat);
  }

  /** A last run whose output lacks the cycle pattern fails the measurement. */
  lemma MissingCyclesFails(cmd: string, run: (string, nat) -> ProcessResult, num: string -> Option<real>, repeat: int)
    requires repeat > 0
    requires !Contains(run(cmd, repeat - 1).stdout, CyclesMarker)
    ensures Measure(cmd, run, num, repeat).Fail?
  {
    SearchFailsIffAbsent(run(cmd, repeat - 1).stdout, CyclesMarker);
    var cycles := CycleCounts(cmd, run, num);
    assert cycles(repeat - 1).Fail?;
    AggregateSucceedsIff(Outcomes(cmd, run, num), cycles, repeat);
  }
}
