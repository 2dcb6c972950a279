/** The parameter sweep of `main`: for every iteration count the example
    program is compiled once; then, for every block size and every JIT, the
    override file is written, the simulator is measured and profiled, and
    the profile rows are tagged with the leaf's parameters and metrics. All
    tables are concatenated at the end. The first failure ends the sweep.

    The outside world is a parameter: whether a compile command succeeds,
    and, per leaf (iteration count, block size, JIT), how the simulator
    runs, whether the profiler records, and what its reports hold. The
    sweep's observable steps are returned as a trace of events. */
module SweepDriver {
  import opened Results
  import opened Seqs
  import opened Text
  import opened EtissConfig
  import opened RunMetrics
  import opened PerfReport

  /** The command-line options of the sweep. */
  datatype Config = Config(
    prog: string, toolchain: string, etissArch: string, arch: string, abi: string, buildType: string,
    repeat: int, jits: seq<string>, fastJit: Option<string>,
    blockSizes: seq<int>, nIters: seq<int>, nSlices: Option<int>)

  /** Where the scripts, the simulator and its examples live, and the
      working directory the override file goes into. */
  datatype Paths = Paths(scriptDir: string, etissExe: string, examplesDir: string, workdir: string)

  /** One point of the sweep. */
  datatype Leaf = Leaf(nIter: int, blockSize: int, jit: string)

  /** What the sweep cannot see: the compile script's success per command
      line, and per leaf the simulator's runs, float parsing, the
      profiler's recording and its reports. */
  datatype World = World(
    compileOk: string -> bool,
    sim: Leaf -> (string, nat) -> ProcessResult,
    num: string -> Option<real>,
    recordOk: Leaf -> bool,
    report: Leaf -> Window -> Option<seq<RawRow>>)

  /** A step with an effect outside the sweep: a compile command, or the
      override file written for a leaf before it is measured and profiled. */
  datatype Event = Compile(command: string) | Run(leaf: Leaf, extraIni: string)

  /** A row of the final table: a profile row with the leaf's columns. */
  datatype Record = Record(
    index: nat, dso: string, overhead: real, dsoNew: string, slice: Option<nat>,
    nIter: int, mips: real, time: real, instrs: int,
    prog: string, etissArch: string, blockSize: int, jit: string)

  datatype SweepError =
    | SlicingNeedsOneIterCount                              // slice mode with several iteration counts
    | ZeroIterCount                                         // an iteration count of 0
    | CompileFailed(nIter: int)                             // the compile script exited with an error
    | BlockSizeNotPositive(blockSize: int)                  // a block size below 1
    | MetricsFailed(leaf: Leaf, metrics: MetricsError)      // `get_mips` failed for this leaf
    | ProfileFailed(leaf: Leaf, profile: ProfileError)      // `get_perf_report` failed for this leaf
    | NothingToConcatenate                                  // `pd.concat` of no tables

  /** The effects of a stretch of the sweep, the tables it produced and the
      failure that ended it, if any. */
  datatype Outcome = Outcome(trace: seq<Event>, frames: seq<seq<Record>>, error: Option<SweepError>)

  const Done := Outcome([], [], None)

  function Stopped(e: SweepError): Outcome
  {
    Outcome([], [], Some(e))
  }

  /** `a`, then `b` unless `a` failed. */
  function Then(a: Outcome, b: Outcome): Outcome
  {
    if a.error.Some? then a else Outcome(a.trace + b.trace, a.frames + b.frames, b.error)
  }

  /** A `for` loop over steps `0 .. k - 1` that stops at the first failure. */
  function Steps(step: nat -> Outcome, k: nat): Outcome
  {
    if k == 0 then Done else Then(Steps(step, k - 1), step(k - 1))
  }

  // ---------------------------------------------------------------------
  // One leaf
  // ---------------------------------------------------------------------

  /** The compile command for one iteration count. */
  function CompileCommand(p: Paths, c: Config, nIter: int): string
  {
    p.scriptDir + "/scripts/compile_example.sh " + c.prog + " " + c.toolchain + " " + c.arch + " "
      + c.abi + " " + c.buildType + " " + IntToDecimal(nIter)
  }

  /** Split on blanks, the compile command is the build script followed by
      exactly six arguments: program, toolchain, architecture, ABI, build
      type and iteration count. */
  lemma CompileArguments(p: Paths, c: Config, nIter: int)
    requires ' ' !in p.scriptDir && ' ' !in c.prog && ' ' !in c.toolchain
    requires ' ' !in c.arch && ' ' !in c.abi && ' ' !in c.buildType
    ensures Split(CompileCommand(p, c, nIter), ' ')
         == [p.scriptDir + "/scripts/compile_example.sh", c.prog, c.toolchain, c.arch, c.abi, c.buildType,
             IntToDecimal(nIter)]
  {
    var script := p.scriptDir + "/scripts/compile_example.sh";
    DecimalHasNoBlank(nIter);
    assert ' ' !in script;
    CompileIsWords(p, c, nIter);
    SplitSevenWords(script, c.prog, c.toolchain, c.arch, c.abi, c.buildType, IntToDecimal(nIter));
  }

  /** The compile command is its seven words joined by single blanks. */
  lemma CompileIsWords(p: Paths, c: Config, nIter: int)
    ensures CompileCommand(p, c, nIter)
         == (p.scriptDir + "/scripts/compile_example.sh") + [' '] + (c.prog + [' '] + (c.toolchain + [' ']
              + (c.arch + [' '] + (c.abi + [' '] + (c.buildType + [' '] + IntToDecimal(nIter))))))
  {
  }

  lemma SplitSevenWords(w0: string, w1: string, w2: string, w3: string, w4: string, w5: string, w6: string)
    requires ' ' !in w0 && ' ' !in w1 && ' ' !in w2 && ' ' !in w3 && ' ' !in w4 && ' ' !in w5 && ' ' !in w6
    ensures Split(w0 + [' '] + (w1 + [' '] + (w2 + [' '] + (w3 + [' '] + (w4 + [' '] + (w5 + [' '] + w6))))), ' ')
         == [w0, w1, w2, w3, w4, w5, w6]
  {
    var t5 := w5 + [' '] + w6;
    var t4 := w4 + [' '] + t5;
    var t3 := w3 + [' '] + t4;
    var t2 := w2 + [' '] + t3;
    var t1 := w1 + [' '] + t2;
    SingleWord(w6, ' ');
    SplitCons(w5, w6, ' ');
    SplitCons(w4, t5, ' ');
    SplitCons(w3, t4, ' ');
    SplitCons(w2, t3, ' ');
    SplitCons(w1, t2, ' ');
    SplitCons(w0, t1, ' ');
  }

  lemma DecimalHasNoBlank(n: int)
    ensures ' ' !in IntToDecimal(n)
  {
    var d := if n < 0 then NatToDecimal(-n) else NatToDecimal(n);
    assert ' ' !in d by {
      forall i | 0 <= i < |d| ensures d[i] != ' ' {
        assert IsDigit(d[i]);
      }
    }
  }

  /** The override file for a leaf. */
  function LeafIni(c: Config, leaf: Leaf): string
  {
    ExtraIni(leaf.jit, c.fastJit, Some(leaf.blockSize))
  }

  /** The simulator command `get_mips` runs. */
  function SimCommand(p: Paths, c: Config): string
  {
    EtissCommand(p.etissExe, p.examplesDir, ExtraIniPath(p.workdir), c.prog, c.etissArch)
  }

  /** The profile rows with the leaf's parameters and metrics as columns. */
  function Tag(rows: seq<ProfileRow>, leaf: Leaf, m: Metrics, c: Config): (r: seq<Record>)
    ensures |r| == |rows|
    ensures forall i | 0 <= i < |r| ::
      r[i].index == rows[i].index && r[i].dso == rows[i].dso && r[i].overhead == rows[i].overhead
      && r[i].dsoNew == rows[i].dsoNew && r[i].slice == rows[i].slice
    ensures forall i | 0 <= i < |r| ::
      r[i].nIter == leaf.nIter && r[i].blockSize == leaf.blockSize && r[i].jit == leaf.jit
      && r[i].mips == m.mips && r[i].time == m.time && r[i].instrs == m.cycles
      && r[i].prog == c.prog && r[i].etissArch == c.etissArch
  {
    seq(|rows|, i requires 0 <= i < |rows| =>
      Record(rows[i].index, rows[i].dso, rows[i].overhead, rows[i].dsoNew, rows[i].slice,
             leaf.nIter, m.mips, m.time, m.cycles, c.prog, c.etissArch, leaf.blockSize, leaf.jit))
  }

  /** Measuring and profiling one leaf. */
  function LeafOutcome(c: Config, p: Paths, w: World, leaf: Leaf): (o: Outcome)
    ensures o.trace == [Run(leaf, LeafIni(c, leaf))]
    ensures |o.frames| == if o.error.None? then 1 else 0
  {
    var trace := [Run(leaf, LeafIni(c, leaf))];
    var m := Measure(SimCommand(p, c), w.sim(leaf), w.num, c.repeat);
    if m.Fail? then Outcome(trace, [], Some(MetricsFailed(leaf, m.error)))
    else
      var prof := Profile(w.recordOk(leaf), w.report(leaf), c.nSlices);
      if prof.Fail? then Outcome(trace, [], Some(ProfileFailed(leaf, prof.error)))
      else Outcome(trace, [Tag(prof.value, leaf, m.value, c)], None)
  }

  // ---------------------------------------------------------------------
  // The three nested loops
  // ---------------------------------------------------------------------

  function JitStep(c: Config, p: Paths, w: World, nIter: int, blockSize: int): nat -> Outcome
  {
    (l: nat) => if l < |c.jits| then LeafOutcome(c, p, w, Leaf(nIter, blockSize, c.jits[l])) else Done
  }

  function BlockSizeOutcome(c: Config, p: Paths, w: World, nIter: int, blockSize: int): Outcome
  {
    if blockSize <= 0 then Stopped(BlockSizeNotPositive(blockSize))
    else Steps(JitStep(c, p, w, nIter, blockSize), |c.jits|)
  }

  function BlockSizeStep(c: Config, p: Paths, w: World, nIter: int): nat -> Outcome
  {
    (j: nat) => if j < |c.blockSizes| then BlockSizeOutcome(c, p, w, nIter, c.blockSizes[j]) else Done
  }

  function CompileOutcome(c: Config, p: Paths, w: World, nIter: int): Outcome
  {
    var command := CompileCommand(p, c, nIter);
    Outcome([Compile(command)], [], if w.compileOk(command) then None else Some(CompileFailed(nIter)))
  }

  function IterOutcome(c: Config, p: Paths, w: World, nIter: int): Outcome
  {
    if nIter == 0 then Stopped(ZeroIterCount)
    else Then(CompileOutcome(c, p, w, nIter), Steps(BlockSizeStep(c, p, w, nIter), |c.blockSizes|))
  }

  function IterStep(c: Config, p: Paths, w: World): nat -> Outcome
  {
    (i: nat) => if i < |c.nIters| then IterOutcome(c, p, w, c.nIters[i]) else Done
  }

  /** The whole sweep. */
  function Sweep(c: Config, p: Paths, w: World): Outcome
  {
    if Sliced(c.nSlices) && |c.nIters| != 1 then Stopped(SlicingNeedsOneIterCount)
    else
      var o := Steps(IterStep(c, p, w), |c.nIters|);
      if o.error.None? && o.frames == [] then Outcome(o.trace, [], Some(NothingToConcatenate)) else o
  }

  /** The final table, or the failure that ended the sweep. */
  function SweepTable(o: Outcome): Result<seq<Record>, SweepError>
  {
    if o.error.Some? then Fail(o.error.value) else Ok(Concat(o.frames))
  }

  // ---------------------------------------------------------------------
  // The loops as methods
  // ---------------------------------------------------------------------

  /** Once a step fails, the later ones are not taken. */
  lemma {:induction false} StepsStop(step: nat -> Outcome, i: nat, k: nat)
    requires i < k
    requires Steps(step, i + 1).error.Some?
    ensures Steps(step, k) == Steps(step, i + 1)
  {
    if k > i + 1 {
      StepsStop(step, i, k - 1);
    }
  }

  /** A step after steps that all succeeded adds its effects and tables;
      if it fails, the loop ends there. */
  lemma StepsExtend(step: nat -> Outcome, k: nat, n: nat, trace: seq<Event>, frames: seq<seq<Record>>)
    requires k < n
    requires Steps(step, k) == Outcome(trace, frames, None)
    ensures Steps(step, k + 1) == Outcome(trace + step(k).trace, frames + step(k).frames, step(k).error)
    ensures step(k).error.Some? ==> Steps(step, n) == Steps(step, k + 1)
  {
    if step(k).error.Some? {
      StepsStop(step, k, n);
    }
  }

  /** One turn of the JIT loop. */
  lemma JitTurn(c: Config, p: Paths, w: World, nIter: int, blockSize: int, l: nat,
                trace: seq<Event>, frames: seq<seq<Record>>, o: Outcome)
    requires l < |c.jits|
    requires Steps(JitStep(c, p, w, nIter, blockSize), l) == Outcome(trace, frames, None)
    requires o == LeafOutcome(c, p, w, Leaf(nIter, blockSize, c.jits[l]))
    ensures Steps(JitStep(c, p, w, nIter, blockSize), l + 1) == Outcome(trace + o.trace, frames + o.frames, o.error)
    ensures o.error.Some? ==>
      Steps(JitStep(c, p, w, nIter, blockSize), |c.jits|) == Outcome(trace + o.trace, frames + o.frames, o.error)
  {
    StepsExtend(JitStep(c, p, w, nIter, blockSize), l, |c.jits|, trace, frames);
  }

  /** One turn of the block-size loop. */
  lemma BlockSizeTurn(c: Config, p: Paths, w: World, nIter: int, j: nat,
                      trace: seq<Event>, frames: seq<seq<Record>>, o: Outcome)
    requires j < |c.blockSizes|
    requires Steps(BlockSizeStep(c, p, w, nIter), j) == Outcome(trace, frames, None)
    requires o == BlockSizeOutcome(c, p, w, nIter, c.blockSizes[j])
    ensures Steps(BlockSizeStep(c, p, w, nIter), j + 1) == Outcome(trace + o.trace, frames + o.frames, o.error)
    ensures o.error.Some? ==>
      Steps(BlockSizeStep(c, p, w, nIter), |c.blockSizes|) == Outcome(trace + o.trace, frames + o.frames, o.error)
  {
    StepsExtend(BlockSizeStep(c, p, w, nIter), j, |c.blockSizes|, trace, frames);
  }

  /** One turn of the iteration-count loop. */
  lemma IterTurn(c: Config, p: Paths, w: World, i: nat, trace: seq<Event>, frames: seq<seq<Record>>, o: Outcome)
    requires i < |c.nIters|
    requires Steps(IterStep(c, p, w), i) == Outcome(trace, frames, None)
    requires o == IterOutcome(c, p, w, c.nIters[i])
    ensures Steps(IterStep(c, p, w), i + 1) == Outcome(trace + o.trace, frames + o.frames, o.error)
    ensures o.error.Some? ==>
      Steps(IterStep(c, p, w), |c.nIters|) == Outcome(trace + o.trace, frames + o.frames, o.error)
  {
    StepsExtend(IterStep(c, p, w), i, |c.nIters|, trace, frames);
  }

  /** The body of the innermost loop: one leaf. */
  method RunLeaf(c: Config, p: Paths, w: World, leaf: Leaf) returns (o: Outcome)
    ensures o == LeafOutcome(c, p, w, leaf)
  {
    var content := PopulateExtraIni(leaf.jit, c.fastJit, Some(leaf.blockSize));
    var trace := [Run(leaf, content)];
    var m := GetMips(p.etissExe, p.examplesDir, p.workdir, c.prog, c.etissArch, c.repeat, w.sim(leaf), w.num);
    if m.Fail? {
      return Outcome(trace, [], Some(MetricsFailed(leaf, m.error)));
    }
    var prof := GetPerfReport(w.recordOk(leaf), w.report(leaf), c.nSlices);
    if prof.Fail? {
      return Outcome(trace, [], Some(ProfileFailed(leaf, prof.error)));
    }
    var reportDf := Tag(prof.value, leaf, m.value, c);
    o := Outcome(trace, [reportDf], None);
  }

  /** The loop over JITs for one iteration count and block size. */
  method SweepJits(c: Config, p: Paths, w: World, nIter: int, blockSize: int) returns (o: Outcome)
    ensures o == Steps(JitStep(c, p, w, nIter, blockSize), |c.jits|)
  {
    var trace: seq<Event> := [];
    var frames: seq<seq<Record>> := [];
    for l := 0 to |c.jits|
      invariant Steps(JitStep(c, p, w, nIter, blockSize), l) == Outcome(trace, frames, None)
    {
      var leaf := RunLeaf(c, p, w, Leaf(nIter, blockSize, c.jits[l]));
      JitTurn(c, p, w, nIter, blockSize, l, trace, frames, leaf);
      trace := trace + leaf.trace;
      frames := frames + leaf.frames;
      if leaf.error.Some? {
        return Outcome(trace, frames, leaf.error);
      }
    }
    o := Outcome(trace, frames, None);
  }

  /** The loop over block sizes for one iteration count. */
  method SweepBlockSizes(c: Config, p: Paths, w: World, nIter: int) returns (o: Outcome)
    ensures o == Steps(BlockSizeStep(c, p, w, nIter), |c.blockSizes|)
  {
    var trace: seq<Event> := [];
    var frames: seq<seq<Record>> := [];
    for j := 0 to |c.blockSizes|
      invariant Steps(BlockSizeStep(c, p, w, nIter), j) == Outcome(trace, frames, None)
    {
      var blockSize := c.blockSizes[j];
      var inner: Outcome;
      if blockSize <= 0 {
        inner := Stopped(BlockSizeNotPositive(blockSize));
      } else {
        inner := SweepJits(c, p, w, nIter, blockSize);
      }
      BlockSizeTurn(c, p, w, nIter, j, trace, frames, inner);
      trace := trace + inner.trace;
      frames := frames + inner.frames;
      if inner.error.Some? {
        return Outcome(trace, frames, inner.error);
      }
    }
    o := Outcome(trace, frames, None);
  }

  /** The body of the iteration-count loop: the check, the compilation and
      the block-size loop. */
  method SweepIterCount(c: Config, p: Paths, w: World, nIter: int) returns (o: Outcome)
    ensures o == IterOutcome(c, p, w, nIter)
  {
    if nIter == 0 {
      return Stopped(ZeroIterCount);
    }
    var command := CompileCommand(p, c, nIter);
    if !w.compileOk(command) {
      return Outcome([Compile(command)], [], Some(CompileFailed(nIter)));
    }
    var inner := SweepBlockSizes(c, p, w, nIter);
    CompiledIter(c, p, w, nIter, inner);
    o := Outcome([Compile(command)] + inner.trace, inner.frames, inner.error);
  }

  /** After a successful compilation, an iteration count does what its
      block-size loop does. */
  lemma CompiledIter(c: Config, p: Paths, w: World, nIter: int, inner: Outcome)
    requires nIter != 0 && w.compileOk(CompileCommand(p, c, nIter))
    requires inner == Steps(BlockSizeStep(c, p, w, nIter), |c.blockSizes|)
    ensures IterOutcome(c, p, w, nIter) == Outcome([Compile(CompileCommand(p, c, nIter))] + inner.trace, inner.frames, inner.error)
  {
    ThenAfterEffect([Compile(CompileCommand(p, c, nIter))], inner);
  }

  /** A step that only has effects, followed by `b`. */
  lemma ThenAfterEffect(trace: seq<Event>, b: Outcome)
    ensures Then(Outcome(trace, [], None), b) == Outcome(trace + b.trace, b.frames, b.error)
  {
    assert [] + b.frames == b.frames;
  }

  /** `main`'s sweep: the slicing check, the loop over iteration counts with
      one compilation each, and the final concatenation. */
  method RunSweep(c: Config, p: Paths, w: World) returns (trace: seq<Event>, table: Result<seq<Record>, SweepError>)
    ensures trace == Sweep(c, p, w).trace
    ensures table == SweepTable(Sweep(c, p, w))
  {
    if c.nSlices.Some? && c.nSlices.value > 1 && |c.nIters| != 1 {
      return [], Fail(SlicingNeedsOneIterCount);
    }
    var o := SweepIterCounts(c, p, w);
    SweepOfLoop(c, p, w, o);
    trace := o.trace;
    if o.error.Some? {
      return trace, Fail(o.error.value);
    }
    if o.frames == [] {
      return trace, Fail(NothingToConcatenate);
    }
    table := Ok(Concat(o.frames));
  }

  /** The loop over iteration counts. */
  method SweepIterCounts(c: Config, p: Paths, w: World) returns (o: Outcome)
    ensures o == Steps(IterStep(c, p, w), |c.nIters|)
  {
    var trace: seq<Event> := [];
    var frames: seq<seq<Record>> := [];
    for i := 0 to |c.nIters|
      invariant Steps(IterStep(c, p, w), i) == Outcome(trace, frames, None)
    {
      var inner := SweepIterCount(c, p, w, c.nIters[i]);
      IterTurn(c, p, w, i, trace, frames, inner);
      trace := trace + inner.trace;
      frames := frames + inner.frames;
      if inner.error.Some? {
        return Outcome(trace, frames, inner.error);
      }
    }
    o := Outcome(trace, frames, None);
  }

  /** Past the slicing check, the sweep is its loop over iteration counts,
      then the concatenation of what it produced. */
  lemma SweepOfLoop(c: Config, p: Paths, w: World, o: Outcome)
    requires !(Sliced(c.nSlices) && |c.nIters| != 1)
    requires Steps(IterStep(c, p, w), |c.nIters|) == o
    ensures Sweep(c, p, w).trace == o.trace
    ensures SweepTable(Sweep(c, p, w))
         == if o.error.Some? then Fail(o.error.value)
            else if o.frames == [] then Fail(NothingToConcatenate)
            else Ok(Concat(o.frames))
  {
  }

  // ---------------------------------------------------------------------
  // What a loop of steps does
  // ---------------------------------------------------------------------

  function Traces(step: nat -> Outcome, k: nat): (r: seq<seq<Event>>)
    ensures |r| == k
  {
    seq(k, i requires 0 <= i < k => step(i).trace)
  }

  function Tables(step: nat -> Outcome, k: nat): (r: seq<seq<seq<Record>>>)
    ensures |r| == k
  {
    seq(k, i requires 0 <= i < k => step(i).frames)
  }

  /** A loop of steps succeeds exactly when every step does. */
  lemma {:induction false} StepsOk(step: nat -> Outcome, k: nat)
    ensures Steps(step, k).error.None? <==> forall i | 0 <= i < k :: step(i).error.None?
  {
    if k > 0 {
      StepsOk(step, k - 1);
    }
  }

  /** A loop that succeeds has the effects and tables of its steps, in
      order. */
  lemma {:induction false} StepsContents(step: nat -> Outcome, k: nat)
    requires Steps(step, k).error.None?
    ensures Steps(step, k).trace == Concat(Traces(step, k))
    ensures Steps(step, k).frames == Concat(Tables(step, k))
  {
    if k > 0 {
      var prev := Steps(step, k - 1);
      assert prev.error.None?;
      assert Steps(step, k) == Outcome(prev.trace + step(k - 1).trace, prev.frames + step(k - 1).frames, step(k - 1).error);
      StepsContents(step, k - 1);
      PartsAppend(step, k);
      ConcatAppend(Traces(step, k - 1), step(k - 1).trace);
      ConcatAppend(Tables(step, k - 1), step(k - 1).frames);
    }
  }

  lemma PartsAppend(step: nat -> Outcome, k: nat)
    requires k > 0
    ensures Traces(step, k) == Traces(step, k - 1) + [step(k - 1).trace]
    ensures Tables(step, k) == Tables(step, k - 1) + [step(k - 1).frames]
  {
    assert Traces(step, k) == Traces(step, k - 1) + [step(k - 1).trace];
  }

  /** A failed loop reports the failure of its first failing step. */
  lemma {:induction false} StepsFail(step: nat -> Outcome, k: nat)
    requires Steps(step, k).error.Some?
    ensures exists i | 0 <= i < k ::
      (forall j | 0 <= j < i :: step(j).error.None?) && Steps(step, k).error == step(i).error
  {
    var prev := Steps(step, k - 1);
    if prev.error.Some? {
      assert Steps(step, k) == prev;
      StepsFail(step, k - 1);
      var i :| 0 <= i < k - 1 && (forall j | 0 <= j < i :: step(j).error.None?) && prev.error == step(i).error;
      assert Steps(step, k).error == step(i).error;
    } else {
      StepsOk(step, k - 1);
      assert Steps(step, k).error == step(k - 1).error;
      assert forall j | 0 <= j < k - 1 :: step(j).error.None?;
    }
  }

  // ---------------------------------------------------------------------
  // The plan of a successful sweep
  // ---------------------------------------------------------------------

  /** The leaves of one iteration count and block size: one per JIT. */
  function JitLeaves(c: Config, nIter: int, blockSize: int): (r: seq<Leaf>)
    ensures |r| == |c.jits|
  {
    seq(|c.jits|, l requires 0 <= l < |c.jits| => Leaf(nIter, blockSize, c.jits[l]))
  }

  function BlockSizeParts(c: Config, nIter: int): (r: seq<seq<Leaf>>)
    ensures |r| == |c.blockSizes|
    ensures forall j | 0 <= j < |r| :: r[j] == JitLeaves(c, nIter, c.blockSizes[j])
  {
    seq(|c.blockSizes|, j requires 0 <= j < |c.blockSizes| => JitLeaves(c, nIter, c.blockSizes[j]))
  }

  /** The leaves of one iteration count: block sizes outside, JITs inside. */
  function IterLeaves(c: Config, nIter: int): seq<Leaf>
  {
    Concat(BlockSizeParts(c, nIter))
  }

  function IterParts(c: Config): (r: seq<seq<Leaf>>)
    ensures |r| == |c.nIters|
    ensures forall i | 0 <= i < |r| :: r[i] == IterLeaves(c, c.nIters[i])
  {
    seq(|c.nIters|, i requires 0 <= i < |c.nIters| => IterLeaves(c, c.nIters[i]))
  }

  /** All leaves in the order the nested loops visit them. */
  function Leaves(c: Config): seq<Leaf>
  {
    Concat(IterParts(c))
  }

  function RunEvent(c: Config): Leaf -> Event
  {
    leaf => Run(leaf, LeafIni(c, leaf))
  }

  /** The tagged table of a leaf that was measured and profiled. */
  function LeafTable(c: Config, p: Paths, w: World): Leaf -> seq<Record>
  {
    leaf => var fs := LeafOutcome(c, p, w, leaf).frames; if fs == [] then [] else fs[0]
  }

  predicate LeafOk(c: Config, p: Paths, w: World, leaf: Leaf)
  {
    LeafOutcome(c, p, w, leaf).error.None?
  }

  /** One compilation, then one run per leaf of the iteration count. */
  function IterTrace(c: Config, p: Paths, nIter: int): seq<Event>
  {
    [Compile(CompileCommand(p, c, nIter))] + MapOver(IterLeaves(c, nIter), RunEvent(c))
  }

  function TraceParts(c: Config, p: Paths): (r: seq<seq<Event>>)
    ensures |r| == |c.nIters|
    ensures forall i | 0 <= i < |r| :: r[i] == IterTrace(c, p, c.nIters[i])
  {
    seq(|c.nIters|, i requires 0 <= i < |c.nIters| => IterTrace(c, p, c.nIters[i]))
  }

  /** Per iteration count, one compilation and then one run per leaf. */
  function PlannedTrace(c: Config, p: Paths): seq<Event>
  {
    Concat(TraceParts(c, p))
  }

  /** There are as many leaves as the product of the three list lengths. */
  lemma LeafCount(c: Config)
    ensures |Leaves(c)| == |c.nIters| * (|c.blockSizes| * |c.jits|)
  {
    var m := |c.blockSizes| * |c.jits|;
    var yss := IterParts(c);
    forall i | 0 <= i < |yss|
      ensures |yss[i]| == m
    {
      IterLeafCount(c, c.nIters[i]);
    }
    ConcatUniform(yss, m);
  }

  lemma IterLeafCount(c: Config, nIter: int)
    ensures |IterLeaves(c, nIter)| == |c.blockSizes| * |c.jits|
  {
    ConcatUniform(BlockSizeParts(c, nIter), |c.jits|);
  }

  /** A successful JIT loop ran one leaf per JIT, each successfully. */
  lemma JitsPlan(c: Config, p: Paths, w: World, nIter: int, blockSize: int)
    requires Steps(JitStep(c, p, w, nIter, blockSize), |c.jits|).error.None?
    ensures Steps(JitStep(c, p, w, nIter, blockSize), |c.jits|).trace == MapOver(JitLeaves(c, nIter, blockSize), RunEvent(c))
    ensures Steps(JitStep(c, p, w, nIter, blockSize), |c.jits|).frames == MapOver(JitLeaves(c, nIter, blockSize), LeafTable(c, p, w))
    ensures forall leaf | leaf in JitLeaves(c, nIter, blockSize) :: LeafOk(c, p, w, leaf)
  {
    JitsTrace(c, p, w, nIter, blockSize);
    JitsTables(c, p, w, nIter, blockSize);
    JitsLeavesOk(c, p, w, nIter, blockSize);
  }

  lemma JitsTrace(c: Config, p: Paths, w: World, nIter: int, blockSize: int)
    requires Steps(JitStep(c, p, w, nIter, blockSize), |c.jits|).error.None?
    ensures Steps(JitStep(c, p, w, nIter, blockSize), |c.jits|).trace == MapOver(JitLeaves(c, nIter, blockSize), RunEvent(c))
  {
    var step := JitStep(c, p, w, nIter, blockSize);
    var k := |c.jits|;
    var leaves := JitLeaves(c, nIter, blockSize);
    StepsOk(step, k);
    StepsContents(step, k);
    forall l | 0 <= l < k
      ensures Traces(step, k)[l] == [RunEvent(c)(leaves[l])]
    {
      JitTurnPlan(c, p, w, nIter, blockSize, l);
    }
    ConcatSingletons(Traces(step, k), MapOver(leaves, RunEvent(c)));
  }

  lemma JitsTables(c: Config, p: Paths, w: World, nIter: int, blockSize: int)
    requires Steps(JitStep(c, p, w, nIter, blockSize), |c.jits|).error.None?
    ensures Steps(JitStep(c, p, w, nIter, blockSize), |c.jits|).frames == MapOver(JitLeaves(c, nIter, blockSize), LeafTable(c, p, w))
  {
    var step := JitStep(c, p, w, nIter, blockSize);
    var k := |c.jits|;
    var leaves := JitLeaves(c, nIter, blockSize);
    StepsOk(step, k);
    StepsContents(step, k);
    forall l | 0 <= l < k
      ensures Tables(step, k)[l] == [LeafTable(c, p, w)(leaves[l])]
    {
      JitTurnPlan(c, p, w, nIter, blockSize, l);
    }
    ConcatSingletons(Tables(step, k), MapOver(leaves, LeafTable(c, p, w)));
  }

  lemma JitsLeavesOk(c: Config, p: Paths, w: World, nIter: int, blockSize: int)
    requires Steps(JitStep(c, p, w, nIter, blockSize), |c.jits|).error.None?
    ensures forall leaf | leaf in JitLeaves(c, nIter, blockSize) :: LeafOk(c, p, w, leaf)
  {
    var step := JitStep(c, p, w, nIter, blockSize);
    var leaves := JitLeaves(c, nIter, blockSize);
    StepsOk(step, |c.jits|);
    forall l | 0 <= l < |c.jits|
      ensures LeafOk(c, p, w, leaves[l])
    {
      JitTurnPlan(c, p, w, nIter, blockSize, l);
    }
  }

  /** A successful turn of the JIT loop ran its leaf and kept its table. */
  lemma JitTurnPlan(c: Config, p: Paths, w: World, nIter: int, blockSize: int, l: nat)
    requires l < |c.jits|
    requires JitStep(c, p, w, nIter, blockSize)(l).error.None?
    ensures LeafOk(c, p, w, JitLeaves(c, nIter, blockSize)[l])
    ensures JitStep(c, p, w, nIter, blockSize)(l).trace == [RunEvent(c)(JitLeaves(c, nIter, blockSize)[l])]
    ensures JitStep(c, p, w, nIter, blockSize)(l).frames == [LeafTable(c, p, w)(JitLeaves(c, nIter, blockSize)[l])]
  {
    var leaf := JitLeaves(c, nIter, blockSize)[l];
    assert JitStep(c, p, w, nIter, blockSize)(l) == LeafOutcome(c, p, w, leaf);
  }

  /** A successful block-size loop had only positive block sizes and ran
      its leaves in order, each successfully. */
  lemma BlockSizesPlan(c: Config, p: Paths, w: World, nIter: int)
    requires Steps(BlockSizeStep(c, p, w, nIter), |c.blockSizes|).error.None?
    ensures forall j | 0 <= j < |c.blockSizes| :: c.blockSizes[j] > 0
    ensures Steps(BlockSizeStep(c, p, w, nIter), |c.blockSizes|).trace == MapOver(IterLeaves(c, nIter), RunEvent(c))
    ensures Steps(BlockSizeStep(c, p, w, nIter), |c.blockSizes|).frames == MapOver(IterLeaves(c, nIter), LeafTable(c, p, w))
    ensures forall leaf | leaf in IterLeaves(c, nIter) :: LeafOk(c, p, w, leaf)
  {
    var step := BlockSizeStep(c, p, w, nIter);
    var k := |c.blockSizes|;
    var xss := BlockSizeParts(c, nIter);
    StepsOk(step, k);
    StepsContents(step, k);
    forall j | 0 <= j < k
      ensures c.blockSizes[j] > 0
      ensures Traces(step, k)[j] == MapOver(xss[j], RunEvent(c))
      ensures Tables(step, k)[j] == MapOver(xss[j], LeafTable(c, p, w))
      ensures forall leaf | leaf in xss[j] :: LeafOk(c, p, w, leaf)
    {
      assert step(j) == BlockSizeOutcome(c, p, w, nIter, c.blockSizes[j]);
      JitsPlan(c, p, w, nIter, c.blockSizes[j]);
    }
    var traces := (xs: seq<Leaf>) => MapOver(xs, RunEvent(c));
    var tables := (xs: seq<Leaf>) => MapOver(xs, LeafTable(c, p, w));
    assert Traces(step, k) == MapOver(xss, traces);
    assert Tables(step, k) == MapOver(xss, tables);
    MapConcat(xss, RunEvent(c));
    MapConcat(xss, LeafTable(c, p, w));
    forall leaf | leaf in Concat(xss)
      ensures LeafOk(c, p, w, leaf)
    {
      ConcatMembers(xss, leaf);
    }
  }

  /** A successful iteration count is not zero, compiled, and ran its leaves
      in order, each successfully. */
  lemma IterPlan(c: Config, p: Paths, w: World, nIter: int)
    requires IterOutcome(c, p, w, nIter).error.None?
    ensures nIter != 0 && w.compileOk(CompileCommand(p, c, nIter))
    ensures forall j | 0 <= j < |c.blockSizes| :: c.blockSizes[j] > 0
    ensures IterOutcome(c, p, w, nIter).trace == IterTrace(c, p, nIter)
    ensures IterOutcome(c, p, w, nIter).frames == MapOver(IterLeaves(c, nIter), LeafTable(c, p, w))
    ensures forall leaf | leaf in IterLeaves(c, nIter) :: LeafOk(c, p, w, leaf)
  {
    var command := CompileCommand(p, c, nIter);
    assert nIter != 0;
    assert w.compileOk(command);
    var inner := Steps(BlockSizeStep(c, p, w, nIter), |c.blockSizes|);
    CompiledIter(c, p, w, nIter, inner);
    BlockSizesPlan(c, p, w, nIter);
  }

  /** A successful loop over iteration counts had no zero count, compiled
      each count, accepted every block size, and every leaf succeeded. */
  lemma ItersChecks(c: Config, p: Paths, w: World)
    requires Steps(IterStep(c, p, w), |c.nIters|).error.None?
    ensures forall i | 0 <= i < |c.nIters| :: c.nIters[i] != 0 && w.compileOk(CompileCommand(p, c, c.nIters[i]))
    ensures |c.nIters| > 0 ==> forall j | 0 <= j < |c.blockSizes| :: c.blockSizes[j] > 0
    ensures forall leaf | leaf in Leaves(c) :: LeafOk(c, p, w, leaf)
  {
    var step := IterStep(c, p, w);
    var yss := IterParts(c);
    StepsOk(step, |c.nIters|);
    forall i | 0 <= i < |c.nIters|
      ensures c.nIters[i] != 0 && w.compileOk(CompileCommand(p, c, c.nIters[i]))
      ensures forall j | 0 <= j < |c.blockSizes| :: c.blockSizes[j] > 0
      ensures forall leaf | leaf in yss[i] :: LeafOk(c, p, w, leaf)
    {
      assert step(i) == IterOutcome(c, p, w, c.nIters[i]);
      IterPlan(c, p, w, c.nIters[i]);
    }
    forall leaf | leaf in Concat(yss)
      ensures LeafOk(c, p, w, leaf)
    {
      ConcatMembers(yss, leaf);
    }
  }

  /** A successful loop over iteration counts compiled each count once, in
      order, each followed by the runs of its leaves, and produced one table
      per leaf. */
  lemma ItersPlan(c: Config, p: Paths, w: World)
    requires Steps(IterStep(c, p, w), |c.nIters|).error.None?
    ensures Steps(IterStep(c, p, w), |c.nIters|).trace == PlannedTrace(c, p)
    ensures Steps(IterStep(c, p, w), |c.nIters|).frames == MapOver(Leaves(c), LeafTable(c, p, w))
  {
    var step := IterStep(c, p, w);
    var k := |c.nIters|;
    var yss := IterParts(c);
    StepsOk(step, k);
    StepsContents(step, k);
    forall i | 0 <= i < k
      ensures Traces(step, k)[i] == IterTrace(c, p, c.nIters[i])
      ensures Tables(step, k)[i] == MapOver(yss[i], LeafTable(c, p, w))
    {
      IterTurnPlan(c, p, w, i);
    }
    var tables := (xs: seq<Leaf>) => MapOver(xs, LeafTable(c, p, w));
    assert Traces(step, k) == TraceParts(c, p);
    assert Tables(step, k) == MapOver(yss, tables);
    MapConcat(yss, LeafTable(c, p, w));
  }

  /** A successful turn of the iteration-count loop compiled once and ran
      its leaves. */
  lemma IterTurnPlan(c: Config, p: Paths, w: World, i: nat)
    requires i < |c.nIters|
    requires IterStep(c, p, w)(i).error.None?
    ensures IterStep(c, p, w)(i).trace == IterTrace(c, p, c.nIters[i])
    ensures IterStep(c, p, w)(i).frames == MapOver(IterParts(c)[i], LeafTable(c, p, w))
  {
    assert IterStep(c, p, w)(i) == IterOutcome(c, p, w, c.nIters[i]);
    IterPlan(c, p, w, c.nIters[i]);
  }

  /** A JIT loop whose leaves all succeed succeeds. */
  lemma JitsOk(c: Config, p: Paths, w: World, nIter: int, blockSize: int)
    requires forall leaf | leaf in JitLeaves(c, nIter, blockSize) :: LeafOk(c, p, w, leaf)
    ensures Steps(JitStep(c, p, w, nIter, blockSize), |c.jits|).error.None?
  {
    var step := JitStep(c, p, w, nIter, blockSize);
    var leaves := JitLeaves(c, nIter, blockSize);
    forall l | 0 <= l < |c.jits|
      ensures step(l).error.None?
    {
      assert leaves[l] in leaves;
    }
    StepsOk(step, |c.jits|);
  }

  /** A block-size loop with positive block sizes whose leaves all succeed
      succeeds. */
  lemma BlockSizesOk(c: Config, p: Paths, w: World, nIter: int)
    requires forall j | 0 <= j < |c.blockSizes| :: c.blockSizes[j] > 0
    requires forall leaf | leaf in IterLeaves(c, nIter) :: LeafOk(c, p, w, leaf)
    ensures Steps(BlockSizeStep(c, p, w, nIter), |c.blockSizes|).error.None?
  {
    var step := BlockSizeStep(c, p, w, nIter);
    var xss := BlockSizeParts(c, nIter);
    forall j | 0 <= j < |c.blockSizes|
      ensures step(j).error.None?
    {
      forall leaf | leaf in xss[j]
        ensures LeafOk(c, p, w, leaf)
      {
        ConcatContains(xss, j, leaf);
      }
      JitsOk(c, p, w, nIter, c.blockSizes[j]);
      assert step(j) == BlockSizeOutcome(c, p, w, nIter, c.blockSizes[j]);
    }
    StepsOk(step, |c.blockSizes|);
  }

  /** A loop over non-zero iteration counts that all compile, with positive
      block sizes and leaves that all succeed, succeeds. */
  lemma ItersOk(c: Config, p: Paths, w: World)
    requires forall i | 0 <= i < |c.nIters| :: c.nIters[i] != 0 && w.compileOk(CompileCommand(p, c, c.nIters[i]))
    requires forall j | 0 <= j < |c.blockSizes| :: c.blockSizes[j] > 0
    requires forall leaf | leaf in Leaves(c) :: LeafOk(c, p, w, leaf)
    ensures Steps(IterStep(c, p, w), |c.nIters|).error.None?
  {
    var step := IterStep(c, p, w);
    var yss := IterParts(c);
    forall i | 0 <= i < |c.nIters|
      ensures step(i).error.None?
    {
      forall leaf | leaf in yss[i]
        ensures LeafOk(c, p, w, leaf)
      {
        ConcatContains(yss, i, leaf);
      }
      BlockSizesOk(c, p, w, c.nIters[i]);
      assert step(i) == IterOutcome(c, p, w, c.nIters[i]);
    }
    StepsOk(step, |c.nIters|);
  }

  // ---------------------------------------------------------------------
  // Properties of the sweep
  // ---------------------------------------------------------------------

  /** What a sweep needs in order to finish: slicing with a single
      iteration count, no empty list, no zero iteration count, every
      compilation succeeding, positive block sizes, and every leaf measured
      and profiled. */
  predicate Admissible(c: Config, p: Paths, w: World)
  {
    (Sliced(c.nSlices) ==> |c.nIters| == 1)
    && |c.nIters| > 0 && |c.blockSizes| > 0 && |c.jits| > 0
    && (forall i | 0 <= i < |c.nIters| :: c.nIters[i] != 0 && w.compileOk(CompileCommand(p, c, c.nIters[i])))
    && (forall j | 0 <= j < |c.blockSizes| :: c.blockSizes[j] > 0)
    && (forall leaf | leaf in Leaves(c) :: LeafOk(c, p, w, leaf))
  }

  lemma ProductPositive(a: nat, b: nat, d: nat)
    ensures a * (b * d) > 0 <==> a > 0 && b > 0 && d > 0
  {
    if a > 0 && b > 0 && d > 0 {
      assert b * d > 0;
    }
  }

  /** Slice mode with other than one iteration count stops before anything
      is compiled or run. */
  lemma SlicingChecksIterCounts(c: Config, p: Paths, w: World)
    requires Sliced(c.nSlices) && |c.nIters| != 1
    ensures Sweep(c, p, w).trace == []
    ensures SweepTable(Sweep(c, p, w)) == Fail(SlicingNeedsOneIterCount)
  {
  }

  /** A sweep that finishes was admissible. */
  lemma FinishedSweepWasAdmissible(c: Config, p: Paths, w: World)
    requires SweepTable(Sweep(c, p, w)).Ok?
    ensures Admissible(c, p, w)
  {
    var o := Steps(IterStep(c, p, w), |c.nIters|);
    assert o.error.None? && o.frames != [];
    ItersChecks(c, p, w);
    ItersPlan(c, p, w);
    LeafCount(c);
    ProductPositive(|c.nIters|, |c.blockSizes|, |c.jits|);
  }

  /** An admissible sweep finishes. */
  lemma AdmissibleSweepFinishes(c: Config, p: Paths, w: World)
    requires Admissible(c, p, w)
    ensures SweepTable(Sweep(c, p, w)).Ok?
  {
    ItersOk(c, p, w);
    ItersPlan(c, p, w);
    LeafCount(c);
    ProductPositive(|c.nIters|, |c.blockSizes|, |c.jits|);
  }

  /** The sweep finishes exactly when its inputs and the world admit it. */
  lemma SweepSucceedsIff(c: Config, p: Paths, w: World)
    ensures SweepTable(Sweep(c, p, w)).Ok? <==> Admissible(c, p, w)
  {
    if SweepTable(Sweep(c, p, w)).Ok? {
      FinishedSweepWasAdmissible(c, p, w);
    }
    if Admissible(c, p, w) {
      AdmissibleSweepFinishes(c, p, w);
    }
  }

  /** A sweep that finishes compiled each iteration count once, in order,
      each followed by the runs of its leaves in nested order (block sizes
      outside, JITs inside), and its table is the leaves' tables one after
      another, one table for each of the `|nIters| * |blockSizes| * |jits|`
      leaves. */
  lemma SweepPlan(c: Config, p: Paths, w: World)
    requires SweepTable(Sweep(c, p, w)).Ok?
    ensures Sweep(c, p, w).trace == PlannedTrace(c, p)
    ensures SweepTable(Sweep(c, p, w)) == Ok(Concat(MapOver(Leaves(c), LeafTable(c, p, w))))
    ensures |Leaves(c)| == |c.nIters| * (|c.blockSizes| * |c.jits|)
  {
    ItersPlan(c, p, w);
    LeafCount(c);
  }

  /** A measured leaf whose whole-run report has no rows still succeeds,
      with an empty table. */
  lemma EmptyReportLeafSucceeds(c: Config, p: Paths, w: World, leaf: Leaf)
    requires !Sliced(c.nSlices)
    requires Measure(SimCommand(p, c), w.sim(leaf), w.num, c.repeat).Ok?
    requires w.recordOk(leaf) && w.report(leaf)(WholeRun) == Some([])
    ensures LeafOk(c, p, w, leaf)
    ensures LeafTable(c, p, w)(leaf) == []
  {
    EmptyReportAddsNoRows(w.recordOk(leaf), w.report(leaf), c.nSlices, 0);
  }

  /** In a sweep that finishes, the table of every leaf is its profile,
      tagged with the leaf's iteration count, block size and JIT and with
      its averaged metrics. */
  lemma LeafTableIsTaggedProfile(c: Config, p: Paths, w: World, f: nat)
    requires SweepTable(Sweep(c, p, w)).Ok?
    requires f < |Leaves(c)|
    ensures Measure(SimCommand(p, c), w.sim(Leaves(c)[f]), w.num, c.repeat).Ok?
    ensures Profile(w.recordOk(Leaves(c)[f]), w.report(Leaves(c)[f]), c.nSlices).Ok?
    ensures LeafTable(c, p, w)(Leaves(c)[f])
         == Tag(Profile(w.recordOk(Leaves(c)[f]), w.report(Leaves(c)[f]), c.nSlices).value, Leaves(c)[f],
                Measure(SimCommand(p, c), w.sim(Leaves(c)[f]), w.num, c.repeat).value, c)
  {
    FinishedSweepWasAdmissible(c, p, w);
    var leaf := Leaves(c)[f];
    assert leaf in Leaves(c);
    assert LeafOk(c, p, w, leaf);
  }

  /** A sweep that fails after the slicing check reports the failure of the
      first iteration count that failed, after the effects of those before
      it. */
  lemma SweepStopsAtFirstFailure(c: Config, p: Paths, w: World)
    requires !(Sliced(c.nSlices) && |c.nIters| != 1)
    requires Steps(IterStep(c, p, w), |c.nIters|).error.Some?
    ensures exists i | 0 <= i < |c.nIters| ::
      (forall j | 0 <= j < i :: IterOutcome(c, p, w, c.nIters[j]).error.None?)
      && Sweep(c, p, w).error == IterOutcome(c, p, w, c.nIters[i]).error
  {
    var step := IterStep(c, p, w);
    StepsFail(step, |c.nIters|);
    var i :| 0 <= i < |c.nIters| &&
      (forall j | 0 <= j < i :: step(j).error.None?) && Steps(step, |c.nIters|).error == step(i).error;
    assert step(i) == IterOutcome(c, p, w, c.nIters[i]);
    forall j | 0 <= j < i
      ensures IterOutcome(c, p, w, c.nIters[j]).error.None?
    {
      assert step(j) == IterOutcome(c, p, w, c.nIters[j]);
    }
  }
}
