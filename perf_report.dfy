/** The profile of one sweep leaf (`get_perf_report`): after the sampling
    profiler has recorded a run, its report is read either for the whole run
    or, in slice mode, once per time window; each report is sorted by
    overhead, descending, and every module gets its component name. The
    profiler and the text pipeline behind each report are parameters: a
    window's report is the rows the pipeline printed, or None when the
    pipeline's exit status was non-zero. */
module PerfReport {
  import opened Results
  import opened DsoClassifier
  import opened Seqs

  /** One line of the profiler report: a module and its share of samples. */
  datatype RawRow = RawRow(dso: string, overhead: real)

  /** A report row with the table label it is read under: its line number
      in the report. */
  datatype Entry = Entry(index: nat, dso: string, overhead: real)

  /** A table row: label, module, share, component name and, in slice
      mode, the slice it belongs to. */
  datatype ProfileRow = ProfileRow(index: nat, dso: string, overhead: real, dsoNew: string, slice: Option<nat>)

  /** The part of the recording a report covers: all of it, or window
      `index` (counted from 1) of `slices` equal windows, each
      `SlicePercent(slices)` per cent of the run wide. The width determines
      the count, so the count names the window. */
  datatype Window = WholeRun | TimeSlice(slices: nat, index: nat)

  /** The width of one of `n` equal windows, in per cent (`100 / n_slices`). */
  function SlicePercent(n: nat): (p: real)
    requires n > 0
    ensures p > 0.0
    ensures p * n as real == 100.0
  {
    100.0 / n as real
  }

  /** The share of the run a window covers, as a range of per cent:
      `perf report --time p%/k` selects the `k`-th of the windows `p` per
      cent wide. */
  function WindowRange(w: Window): (b: (real, real))
    requires w.TimeSlice? ==> 0 < w.index <= w.slices
    ensures 0.0 <= b.0 <= b.1 <= 100.0
    ensures w.TimeSlice? ==> b.1 - b.0 == SlicePercent(w.slices)
    ensures w.WholeRun? ==> b == (0.0, 100.0)
  {
    if w.WholeRun? then (0.0, 100.0)
    else
      var p := SlicePercent(w.slices);
      var k := w.index as real;
      NonNegativeProduct(k - 1.0, p);
      NonNegativeProduct(w.slices as real - k, p);
      assert k * p - (k - 1.0) * p == p;
      assert w.slices as real * p - k * p == (w.slices as real - k) * p;
      ((k - 1.0) * p, k * p)
  }

  lemma NonNegativeProduct(x: real, y: real)
    requires 0.0 <= x && 0.0 <= y
    ensures 0.0 <= x * y
  {
  }

  datatype ProfileError =
    | RecordFailed                       // `perf record` exited with an error
    | ReportFailed(slice: Option<nat>)   // the report pipeline exited with an error

  // ---------------------------------------------------------------------
  // Sorting by overhead
  // ---------------------------------------------------------------------

  /** `pd.read_csv`: the rows, labelled by their line numbers. */
  function Numbered(rows: seq<RawRow>): (r: seq<Entry>)
    ensures |r| == |rows|
    ensures forall i | 0 <= i < |r| :: r[i].index == i
  {
    seq(|rows|, i requires 0 <= i < |rows| => Entry(i, rows[i].dso, rows[i].overhead))
  }

  predicate Descending(rows: seq<Entry>)
  {
    forall i, j | 0 <= i < j < |rows| :: rows[i].overhead >= rows[j].overhead
  }

  /** A row no smaller than the head of a descending sequence can go in
      front of it. */
  lemma DescendingCons(h: Entry, t: seq<Entry>)
    requires Descending(t)
    requires t != [] ==> h.overhead >= t[0].overhead
    ensures Descending([h] + t)
  {
  }

  /** Inserts `x` ahead of the first row it is not smaller than. */
  function Insert(x: Entry, rows: seq<Entry>): (r: seq<Entry>)
    ensures |r| == |rows| + 1
  {
    if rows == [] then [x]
    else if rows[0].overhead <= x.overhead then [x] + rows
    else [rows[0]] + Insert(x, rows[1..])
  }

  /** Inserting into a descending sequence keeps it descending and adds
      exactly `x`. */
  lemma {:induction false} InsertKeepsOrder(x: Entry, rows: seq<Entry>)
    requires Descending(rows)
    ensures Insert(x, rows)[0] == x || (rows != [] && Insert(x, rows)[0] == rows[0])
    ensures Descending(Insert(x, rows))
    ensures multiset(Insert(x, rows)) == multiset(rows) + multiset{x}
  {
    if rows == [] {
    } else if rows[0].overhead <= x.overhead {
      DescendingCons(x, rows);
    } else {
      InsertKeepsOrder(x, rows[1..]);
      InsertBehind(x, rows, Insert(x, rows[1..]));
    }
  }

  /** A row smaller than the head goes behind it: the head stays in front
      of the insertion into the rest. */
  lemma InsertBehind(x: Entry, rows: seq<Entry>, rest: seq<Entry>)
    requires Descending(rows) && rows != [] && rows[0].overhead > x.overhead
    requires rest != [] && (rest[0] == x || (|rows| > 1 && rest[0] == rows[1]))
    requires Descending(rest)
    requires multiset(rest) == multiset(rows[1..]) + multiset{x}
    ensures Descending([rows[0]] + rest)
    ensures multiset([rows[0]] + rest) == multiset(rows) + multiset{x}
  {
    DescendingCons(rows[0], rest);
    assert rows == [rows[0]] + rows[1..];
  }

  /** `sort_values("overhead", ascending=False)`. */
  function SortByOverhead(rows: seq<Entry>): (r: seq<Entry>)
    ensures |r| == |rows|
  {
    if rows == [] then [] else Insert(rows[0], SortByOverhead(rows[1..]))
  }

  /** The sort orders the rows by descending overhead and keeps each row,
      no more and no fewer. */
  lemma {:induction false} SortByOverheadSorts(rows: seq<Entry>)
    ensures Descending(SortByOverhead(rows))
    ensures multiset(SortByOverhead(rows)) == multiset(rows)
  {
    if rows != [] {
      SortByOverheadSorts(rows[1..]);
      InsertKeepsOrder(rows[0], SortByOverhead(rows[1..]));
      assert rows == [rows[0]] + rows[1..];
    }
  }

  /** A report as a table: sorted by overhead, each module with its
      component name, and tagged with the slice it came from. */
  function Frame(rows: seq<RawRow>, slice: Option<nat>): (f: seq<ProfileRow>)
    ensures |f| == |rows|
    ensures forall i | 0 <= i < |f| :: f[i].slice == slice && f[i].dsoNew == ReplaceDsoName(f[i].dso)
  {
    var sorted := SortByOverhead(Numbered(rows));
    seq(|sorted|, i requires 0 <= i < |sorted| =>
      ProfileRow(sorted[i].index, sorted[i].dso, sorted[i].overhead, ReplaceDsoName(sorted[i].dso), slice))
  }

  /** The labelled report rows a table was made from. */
  function Entries(f: seq<ProfileRow>): (r: seq<Entry>)
    ensures |r| == |f|
  {
    seq(|f|, i requires 0 <= i < |f| => Entry(f[i].index, f[i].dso, f[i].overhead))
  }

  /** A table holds the report's rows, each under its line number, no more
      and no fewer, in descending order of overhead. */
  lemma FrameIsSortedReport(rows: seq<RawRow>, slice: Option<nat>)
    ensures Descending(Entries(Frame(rows, slice)))
    ensures multiset(Entries(Frame(rows, slice))) == multiset(Numbered(rows))
  {
    SortByOverheadSorts(Numbered(rows));
    assert Entries(Frame(rows, slice)) == SortByOverhead(Numbered(rows));
  }

  // ---------------------------------------------------------------------
  // Slice mode
  // ---------------------------------------------------------------------

  /** Slice mode is on when more than one slice is asked for. */
  predicate Sliced(nSlices: Option<int>)
  {
    nSlices.Some? && nSlices.value > 1
  }

  /** Window `i + 1` of `n`. */
  function SliceWindow(n: nat, i: nat): Window
  {
    TimeSlice(n, i + 1)
  }

  /** The windows read in slice mode cover the run from 0 to 100 per cent,
      each starting where the one before it ends. */
  lemma SliceWindowsTile(n: nat, i: nat)
    requires 0 < n && i < n
    ensures WindowRange(SliceWindow(n, 0)).0 == 0.0
    ensures WindowRange(SliceWindow(n, n - 1)).1 == 100.0
    ensures i + 1 < n ==> WindowRange(SliceWindow(n, i)).1 == WindowRange(SliceWindow(n, i + 1)).0
  {
  }

  /** The rows printed for window `i + 1` of `n`. */
  function SliceReport(report: Window -> Option<seq<RawRow>>, n: nat, i: nat): Option<seq<RawRow>>
  {
    report(SliceWindow(n, i))
  }

  /** The rows of one report, or why there is none: the pipeline failed.
      `read_csv` is given the column names, so a report with no rows reads
      as an empty table. */
  function ReadRows(rows: Option<seq<RawRow>>, slice: Option<nat>): (r: Result<seq<RawRow>, ProfileError>)
    ensures r.Ok? <==> Readable(rows)
    ensures r.Ok? ==> r.value == rows.value
    ensures r.Fail? ==> r.error == ReportFailed(slice)
  {
    if rows.None? then Fail(ReportFailed(slice))
    else Ok(rows.value)
  }

  /** The table for one report, or why there is none. */
  function ReadFrame(rows: Option<seq<RawRow>>, slice: Option<nat>): Result<seq<ProfileRow>, ProfileError>
  {
    match ReadRows(rows, slice)
    case Fail(e) => Fail(e)
    case Ok(r) => Ok(Frame(r, slice))
  }

  /** What the slice loop reads: the rows of slices `i .. k - 1` of `n`, in
      order, stopping at the first slice whose report cannot be read. */
  function SliceRows(report: Window -> Option<seq<RawRow>>, n: nat, i: nat, k: nat): (r: Result<seq<seq<RawRow>>, ProfileError>)
    requires i <= k
    ensures r.Ok? ==> |r.value| == k - i
    decreases k - i
  {
    if i == k then Ok([])
    else match ReadRows(SliceReport(report, n, i), Some(i))
      case Fail(e) => Fail(e)
      case Ok(t) =>
        match SliceRows(report, n, i + 1, k)
        case Fail(e) => Fail(e)
        case Ok(ts) => Ok([t] + ts)
  }

  /** The rows `raws` already read, followed by the outcome of the rest. */
  function After(raws: seq<seq<RawRow>>, rest: Result<seq<seq<RawRow>>, ProfileError>): Result<seq<seq<RawRow>>, ProfileError>
  {
    match rest
    case Fail(e) => Fail(e)
    case Ok(ts) => Ok(raws + ts)
  }

  /** The table of each slice read, tagged with its position. */
  function Tabulate(raws: seq<seq<RawRow>>): (dfs: seq<seq<ProfileRow>>)
    ensures |dfs| == |raws|
    ensures forall j | 0 <= j < |raws| :: dfs[j] == Frame(raws[j], Some(j))
  {
    seq(|raws|, j requires 0 <= j < |raws| => Frame(raws[j], Some(j)))
  }

  /** The profile of a recorded run. */
  function Profile(recordOk: bool, report: Window -> Option<seq<RawRow>>, nSlices: Option<int>): Result<seq<ProfileRow>, ProfileError>
  {
    if !recordOk then Fail(RecordFailed)
    else if Sliced(nSlices) then
      match SliceRows(report, nSlices.value, 0, nSlices.value)
      case Fail(e) => Fail(e)
      case Ok(raws) => Ok(Concat(Tabulate(raws)))
    else ReadFrame(report(WholeRun), None)
  }

  /** Reads the profile of the recorded run: one report, or one per slice. */
  method GetPerfReport(recordOk: bool, report: Window -> Option<seq<RawRow>>, nSlices: Option<int>)
    returns (r: Result<seq<ProfileRow>, ProfileError>)
    ensures r == Profile(recordOk, report, nSlices)
  {
    if !recordOk {
      return Fail(RecordFailed);
    }
    if nSlices.Some? && nSlices.value > 1 {
      var n: nat := nSlices.value;
      var dfs: seq<seq<ProfileRow>> := [];
      ghost var raws: seq<seq<RawRow>> := [];
      AfterNothing(SliceRows(report, n, 0, n));
      for i := 0 to n
        invariant |raws| == i
        invariant SliceRows(report, n, 0, n) == After(raws, SliceRows(report, n, i, n))
        invariant dfs == Tabulate(raws)
      {
        var rows := report(TimeSlice(n, i + 1));
        assert rows == SliceReport(report, n, i);
        if rows.None? {
          SliceRowsFail(report, n, i, n, raws);
          return Fail(ReportFailed(Some(i)));
        }
        var reportDf := Frame(rows.value, Some(i));
        SliceRowsNext(report, n, i, n, raws);
        TabulateAppend(raws, rows.value);
        dfs := dfs + [reportDf];
        raws := raws + [rows.value];
      }
      assert raws + [] == raws;
      r := Ok(Concat(dfs));
    } else {
      var rows := report(WholeRun);
      if rows.None? {
        return Fail(ReportFailed(None));
      }
      r := Ok(Frame(rows.value, None));
    }
  }

  // ---------------------------------------------------------------------
  // Properties of the profile
  // ---------------------------------------------------------------------

  /** A report can be read when its pipeline succeeded, whether or not it
      printed any rows. */
  predicate Readable(rows: Option<seq<RawRow>>)
  {
    rows.Some?
  }

  lemma AfterNothing(r: Result<seq<seq<RawRow>>, ProfileError>)
    ensures After([], r) == r
  {
    if r.Ok? {
      assert [] + r.value == r.value;
    }
  }

  /** A readable slice moves its rows from the rest to those already read. */
  lemma SliceRowsNext(report: Window -> Option<seq<RawRow>>, n: nat, i: nat, k: nat, raws: seq<seq<RawRow>>)
    requires i < k && Readable(SliceReport(report, n, i))
    ensures After(raws, SliceRows(report, n, i, k))
         == After(raws + [SliceReport(report, n, i).value], SliceRows(report, n, i + 1, k))
  {
    var rest := SliceRows(report, n, i + 1, k);
    if rest.Ok? {
      var t := SliceReport(report, n, i).value;
      assert raws + ([t] + rest.value) == raws + [t] + rest.value;
    }
  }

  /** An unreadable slice ends the loop with its error. */
  lemma SliceRowsFail(report: Window -> Option<seq<RawRow>>, n: nat, i: nat, k: nat, raws: seq<seq<RawRow>>)
    requires i < k && !Readable(SliceReport(report, n, i))
    ensures After(raws, SliceRows(report, n, i, k)) == Fail(ReadRows(SliceReport(report, n, i), Some(i)).error)
  {
  }

  /** One more table, for the next slice. */
  lemma TabulateAppend(raws: seq<seq<RawRow>>, rows: seq<RawRow>)
    ensures Tabulate(raws + [rows]) == Tabulate(raws) + [Frame(rows, Some(|raws|))]
  {
    var l, r := Tabulate(raws + [rows]), Tabulate(raws) + [Frame(rows, Some(|raws|))];
    forall j | 0 <= j < |l|
      ensures l[j] == r[j]
    {
      if j < |raws| {
        assert (raws + [rows])[j] == raws[j];
      }
    }
  }

  /** Slices `i .. k - 1` are all read exactly when each of their reports
      is readable. */
  lemma {:induction false} SliceRowsOk(report: Window -> Option<seq<RawRow>>, n: nat, i: nat, k: nat)
    requires i <= k
    ensures SliceRows(report, n, i, k).Ok? <==> forall j | i <= j < k :: Readable(SliceReport(report, n, j))
    decreases k - i
  {
    if i < k {
      SliceRowsOk(report, n, i + 1, k);
      assert SliceRows(report, n, i, k).Ok?
        <==> Readable(SliceReport(report, n, i)) && SliceRows(report, n, i + 1, k).Ok?;
    }
  }

  /** Entry `j - i` of the rows of slices `i .. k - 1` is the report of
      slice `j`. */
  lemma {:induction false} SliceRowsValues(report: Window -> Option<seq<RawRow>>, n: nat, i: nat, k: nat, j: nat)
    requires i <= j < k && SliceRows(report, n, i, k).Ok?
    ensures Readable(SliceReport(report, n, j))
    ensures SliceRows(report, n, i, k).value[j - i] == SliceReport(report, n, j).value
    decreases k - i
  {
    var rest := SliceRows(report, n, i + 1, k);
    assert Readable(SliceReport(report, n, i)) && rest.Ok?;
    assert SliceRows(report, n, i, k).value == [SliceReport(report, n, i).value] + rest.value;
    if i < j {
      SliceRowsValues(report, n, i + 1, k, j);
    }
  }

  /** The first slice whose report cannot be read decides the outcome of
      all the slices from `i` on. */
  lemma {:induction false} SliceRowsStop(report: Window -> Option<seq<RawRow>>, n: nat, i: nat, j: nat, k: nat)
    requires i <= j < k
    requires !Readable(SliceReport(report, n, j))
    requires forall l | i <= l < j :: Readable(SliceReport(report, n, l))
    ensures SliceRows(report, n, i, k) == Fail(ReportFailed(Some(j)))
    decreases j - i
  {
    if i < j {
      SliceRowsStop(report, n, i + 1, j, k);
      assert Readable(SliceReport(report, n, i));
    }
  }

  /** The profile exists exactly when the recording succeeded and every
      report it reads comes from a pipeline that succeeded. */
  lemma ProfileSucceedsIff(recordOk: bool, report: Window -> Option<seq<RawRow>>, nSlices: Option<int>)
    ensures Profile(recordOk, report, nSlices).Ok? <==>
      recordOk
      && (Sliced(nSlices) ==> forall i | 0 <= i < nSlices.value :: Readable(SliceReport(report, nSlices.value, i)))
      && (!Sliced(nSlices) ==> Readable(report(WholeRun)))
  {
    if Sliced(nSlices) {
      SliceRowsOk(report, nSlices.value, 0, nSlices.value);
    }
  }

  /** The first slice whose report cannot be read is the one reported. */
  lemma FirstUnreadableSlice(recordOk: bool, report: Window -> Option<seq<RawRow>>, nSlices: Option<int>, i: nat)
    requires recordOk && Sliced(nSlices) && i < nSlices.value
    requires !Readable(SliceReport(report, nSlices.value, i))
    requires forall j | 0 <= j < i :: Readable(SliceReport(report, nSlices.value, j))
    ensures Profile(recordOk, report, nSlices) == Fail(ReportFailed(Some(i)))
  {
    SliceRowsStop(report, nSlices.value, 0, i, nSlices.value);
  }

  /** A report with no rows is read as an empty table: without slices the
      profile is empty, and in slice mode that slice adds no rows. */
  lemma EmptyReportAddsNoRows(recordOk: bool, report: Window -> Option<seq<RawRow>>, nSlices: Option<int>, i: nat)
    requires recordOk
    requires !Sliced(nSlices) ==> report(WholeRun) == Some([])
    requires Sliced(nSlices) ==> i < nSlices.value && SliceReport(report, nSlices.value, i) == Some([])
    requires Sliced(nSlices) ==> forall j | 0 <= j < nSlices.value :: Readable(SliceReport(report, nSlices.value, j))
    ensures Profile(recordOk, report, nSlices).Ok?
    ensures !Sliced(nSlices) ==> Profile(recordOk, report, nSlices).value == []
    ensures Sliced(nSlices) ==> RowsOfSlice(Profile(recordOk, report, nSlices).value, i) == []
  {
    ProfileSucceedsIff(recordOk, report, nSlices);
    if Sliced(nSlices) {
      SlicedProfile(recordOk, report, nSlices, i);
    }
  }

  /** Without slices, the profile is the one sorted, classified report. */
  lemma WholeRunProfile(recordOk: bool, report: Window -> Option<seq<RawRow>>, nSlices: Option<int>)
    requires Profile(recordOk, report, nSlices).Ok? && !Sliced(nSlices)
    ensures Profile(recordOk, report, nSlices).value == Frame(report(WholeRun).value, None)
    ensures forall r | r in Profile(recordOk, report, nSlices).value :: r.slice == None
  {
  }

  /** The rows of slice `i`, in order. */
  function RowsOfSlice(rows: seq<ProfileRow>, i: nat): (r: seq<ProfileRow>)
    ensures forall x | x in r :: x.slice == Some(i)
  {
    if rows == [] then []
    else
      var rest := RowsOfSlice(rows[..|rows| - 1], i);
      if rows[|rows| - 1].slice == Some(i) then rest + [rows[|rows| - 1]] else rest
  }

  lemma RowsOfSliceAppend(a: seq<ProfileRow>, b: seq<ProfileRow>, i: nat)
    ensures RowsOfSlice(a + b, i) == RowsOfSlice(a, i) + RowsOfSlice(b, i)
    decreases |b|
  {
    if b == [] {
      assert a + b == a;
    } else {
      assert (a + b)[..|a + b| - 1] == a + b[..|b| - 1];
      RowsOfSliceAppend(a, b[..|b| - 1], i);
    }
  }

  lemma {:induction false} RowsOfUniformSlice(f: seq<ProfileRow>, j: nat, i: nat)
    requires forall x | x in f :: x.slice == Some(j)
    ensures RowsOfSlice(f, i) == if i == j then f else []
  {
    if f != [] {
      assert f[|f| - 1] in f;
      assert forall x | x in f[..|f| - 1] :: x in f;
      RowsOfUniformSlice(f[..|f| - 1], j, i);
      assert f[..|f| - 1] + [f[|f| - 1]] == f;
    }
  }

  /** Concatenated tables, each tagged with its own position, give back
      table `i` when the rows of slice `i` are selected. */
  lemma {:induction false} SelectSliceOfConcat(dfs: seq<seq<ProfileRow>>, i: nat)
    requires forall j, x | 0 <= j < |dfs| && x in dfs[j] :: x.slice == Some(j)
    ensures RowsOfSlice(Concat(dfs), i) == if i < |dfs| then dfs[i] else []
  {
    if dfs != [] {
      var k := |dfs| - 1;
      SelectSliceOfConcat(dfs[..k], i);
      RowsOfSliceAppend(Concat(dfs[..k]), dfs[k], i);
      RowsOfUniformSlice(dfs[k], k, i);
    }
  }

  /** Each table of `Tabulate` is tagged with its own position. */
  lemma TabulateTags(raws: seq<seq<RawRow>>, j: nat, x: ProfileRow)
    requires j < |raws| && x in Tabulate(raws)[j]
    ensures x.slice == Some(j)
  {
    var f := Tabulate(raws)[j];
    var k :| 0 <= k < |f| && f[k] == x;
  }

  /** In slice mode, the rows of slice `i` are exactly the sorted,
      classified report of window `i + 1`. */
  lemma SlicedProfile(recordOk: bool, report: Window -> Option<seq<RawRow>>, nSlices: Option<int>, i: nat)
    requires Profile(recordOk, report, nSlices).Ok? && Sliced(nSlices)
    requires i < nSlices.value
    ensures Readable(SliceReport(report, nSlices.value, i))
    ensures RowsOfSlice(Profile(recordOk, report, nSlices).value, i)
         == Frame(SliceReport(report, nSlices.value, i).value, Some(i))
  {
    var n := nSlices.value;
    var raws := SliceRows(report, n, 0, n).value;
    var dfs := Tabulate(raws);
    forall j: nat, x: ProfileRow | 0 <= j < |dfs| && x in dfs[j]
      ensures x.slice == Some(j)
    {
      TabulateTags(raws, j, x);
    }
    SelectSliceOfConcat(dfs, i);
    SliceRowsValues(report, n, 0, n, i);
  }

  /** In slice mode every row is tagged with one of the slices `0 .. n - 1`. */
  lemma SliceTagsInRange(recordOk: bool, report: Window -> Option<seq<RawRow>>, nSlices: Option<int>, x: ProfileRow)
    requires Profile(recordOk, report, nSlices).Ok? && Sliced(nSlices)
    requires x in Profile(recordOk, report, nSlices).value
    ensures x.slice.Some? && x.slice.value < nSlices.value
  {
    var n := nSlices.value;
    var raws := SliceRows(report, n, 0, n).value;
    var dfs := Tabulate(raws);
    ConcatMembers(dfs, x);
    var j :| 0 <= j < |dfs| && x in dfs[j];
    TabulateTags(raws, j, x);
  }
}
