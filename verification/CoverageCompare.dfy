/** The comparison of one codeowner's coverage between two branches
    (upstream/scripts/compare-coverage-by-codeowner.js).

    Percentages are rationals, rounded ones integer hundredths. The order localeCompare gives to
    paths is an input. */
module CoverageCompare {
  import opened Common

  // ---- rounding ---------------------------------------------------------------------------------

  function Floor(x: real): int {
    x.Floor
  }

  /** x.toFixed(2) of section 21.1.3.3 of ECMA-262, in hundredths: the sign is set aside, and of two
      equally near values the larger is taken. */
  function RoundPct(x: real): int {
    if x < 0.0 then -Floor(-x * 100.0 + 0.5) else Floor(x * 100.0 + 0.5)
  }

  function Pct(hundredths: int): real {
    hundredths as real / 100.0
  }

  function Abs(x: real): (r: real)
    ensures r >= 0.0 && (r == x || r == -x)
  {
    if x < 0.0 then -x else x
  }

  /** No value in hundredths is nearer, and an equally near one is not larger in magnitude. */
  lemma {:induction false} RoundPctIsNearest(x: real, n: int)
    ensures Abs(RoundPct(x) as real - x * 100.0) <= Abs(n as real - x * 100.0)
    ensures Abs(RoundPct(x) as real - x * 100.0) == Abs(n as real - x * 100.0) ==>
              Abs(n as real) <= Abs(RoundPct(x) as real)
  {
    var y, r := x * 100.0, RoundPct(x);
    assert r as real - y <= 0.5 && y - r as real <= 0.5;
    if n > r {
      assert n as real >= r as real + 1.0;
    } else if n < r {
      assert n as real <= r as real - 1.0;
    }
  }

  lemma {:induction false} RoundPctMonotone(x: real, y: real)
    requires x <= y
    ensures RoundPct(x) <= RoundPct(y)
  {
  }

  /** What is already rounded stays. */
  lemma {:induction false} RoundPctExact(n: int)
    ensures RoundPct(Pct(n)) == n
  {
    assert Pct(n) * 100.0 == n as real;
  }

  lemma {:induction false} RoundPctShift(x: real, n: nat)
    requires x >= 0.0
    ensures RoundPct(x + Pct(n)) == RoundPct(x) + n
  {
    assert (x + Pct(n)) * 100.0 + 0.5 == (x * 100.0 + 0.5) + n as real;
  }

  // ---- metrics ----------------------------------------------------------------------------------

  datatype Metric = Lines | Statements | Functions | Branches

  const METRICS := [Lines, Statements, Functions, Branches]

  datatype Summary = Summary(lines: real, statements: real, functions: real, branches: real)

  function Of(s: Summary, m: Metric): real {
    match m
    case Lines => s.lines
    case Statements => s.statements
    case Functions => s.functions
    case Branches => s.branches
  }

  datatype Change = Pass | Tolerated | Fail

  const DROP_TOLERANCE := 2 // hundredths

  function ClassifyChange(main: real, pr: real): Change {
    var drop := RoundPct(Pct(RoundPct(main)) - Pct(RoundPct(pr)));
    if drop <= 0 then Pass else if drop <= DROP_TOLERANCE then Tolerated else Fail
  }

  /** How far the rounded value has dropped, in hundredths. */
  function Drop(main: Summary, pr: Summary, m: Metric): int {
    RoundPct(Of(main, m)) - RoundPct(Of(pr, m))
  }

  lemma {:induction false} DifferenceIsExact(a: int, b: int)
    ensures RoundPct(Pct(a) - Pct(b)) == a - b
  {
    assert Pct(a) - Pct(b) == Pct(a - b);
    RoundPctExact(a - b);
  }

  /** A change is tolerated or fails by the drop of the rounded values. */
  lemma {:induction false} ClassifiedByDrop(main: real, pr: real)
    ensures ClassifyChange(main, pr) ==
            var drop := RoundPct(main) - RoundPct(pr);
            if drop <= 0 then Pass else if drop <= 2 then Tolerated else Fail
  {
    DifferenceIsExact(RoundPct(main), RoundPct(pr));
  }

  /** In terms of the raw values: no rise is a failure, a drop of at most 0.02 points never fails, one
      of 0.03 or more always does. In between rounding decides. */
  lemma {:induction false} RawDropBands(main: real, pr: real)
    requires main >= 0.0 && pr >= 0.0
    ensures pr >= main ==> ClassifyChange(main, pr) == Pass
    ensures main - pr <= 0.02 ==> ClassifyChange(main, pr) != Fail
    ensures main - pr >= 0.03 ==> ClassifyChange(main, pr) == Fail
  {
    ClassifiedByDrop(main, pr);
    RoundPctShift(pr, 2);
    RoundPctShift(pr, 3);
    if pr >= main {
      RoundPctMonotone(main, pr);
    }
    if main <= pr + Pct(2) {
      RoundPctMonotone(main, pr + Pct(2));
    }
    if main >= pr + Pct(3) {
      RoundPctMonotone(pr + Pct(3), main);
    }
  }

  // ---- files ------------------------------------------------------------------------------------

  datatype File = File(path: string, summary: Summary)

  datatype Entry = Entry(path: string, main: Summary, pr: Summary, totalIncrease: int)

  predicate AnyDecreased(main: Summary, pr: Summary) {
    exists m | m in METRICS :: RoundPct(Of(pr, m)) < RoundPct(Of(main, m))
  }

  predicate AnyIncreased(main: Summary, pr: Summary) {
    exists m | m in METRICS :: RoundPct(Of(pr, m)) > RoundPct(Of(main, m))
  }

  function Rise(main: Summary, pr: Summary, m: Metric): real {
    Pct(RoundPct(Of(pr, m))) - Pct(RoundPct(Of(main, m)))
  }

  function TotalIncrease(main: Summary, pr: Summary): int {
    RoundPct(0.0 + Rise(main, pr, Lines) + Rise(main, pr, Statements)
             + Rise(main, pr, Functions) + Rise(main, pr, Branches))
  }

  /** On which side of the comparison a file ends up. */
  datatype Side = New | Decreased | Increased | Unchanged

  function SideOf(mainFiles: map<string, Summary>, f: File): Side {
    if f.path !in mainFiles then New
    else if AnyDecreased(mainFiles[f.path], f.summary) then Decreased
    else if AnyIncreased(mainFiles[f.path], f.summary) then Increased
    else Unchanged
  }

  function EntryOf(mainFiles: map<string, Summary>, f: File, side: Side): Entry
    requires f.path in mainFiles
  {
    var main := mainFiles[f.path];
    Entry(f.path, main, f.summary, if side == Increased then TotalIncrease(main, f.summary) else 0)
  }

  /** The entries of the files of one side, in the order of the files. */
  function Selected(mainFiles: map<string, Summary>, prFiles: seq<File>, side: Side): seq<Entry>
    requires side != New
  {
    if prFiles == [] then []
    else
      var init, f := Selected(mainFiles, prFiles[..|prFiles| - 1], side), prFiles[|prFiles| - 1];
      if SideOf(mainFiles, f) == side then init + [EntryOf(mainFiles, f, side)] else init
  }

  // ---- sorting ----------------------------------------------------------------------------------

  /** Array.prototype.sort, which is stable, with a comparison of keys. */
  function SortedBy(xs: seq<Entry>, key: Entry -> int): seq<Entry> {
    if xs == [] then [] else Inserted(SortedBy(xs[..|xs| - 1], key), xs[|xs| - 1], key)
  }

  function Inserted(xs: seq<Entry>, x: Entry, key: Entry -> int): seq<Entry> {
    if xs == [] || key(xs[|xs| - 1]) <= key(x) then xs + [x]
    else Inserted(xs[..|xs| - 1], x, key) + [xs[|xs| - 1]]
  }

  predicate Ordered(xs: seq<Entry>, key: Entry -> int) {
    forall i, j | 0 <= i < j < |xs| :: key(xs[i]) <= key(xs[j])
  }

  /** The elements of one key, in order. */
  function WithKey(xs: seq<Entry>, key: Entry -> int, k: int): seq<Entry> {
    if xs == [] then []
    else
      var init := WithKey(xs[..|xs| - 1], key, k);
      if key(xs[|xs| - 1]) == k then init + [xs[|xs| - 1]] else init
  }

  lemma {:induction false} WithKeyAdded(xs: seq<Entry>, x: Entry, key: Entry -> int, k: int)
    ensures WithKey(xs + [x], key, k) ==
            if key(x) == k then WithKey(xs, key, k) + [x] else WithKey(xs, key, k)
  {
    assert (xs + [x])[..|xs|] == xs;
  }

  lemma {:induction false} InsertedIs(xs: seq<Entry>, x: Entry, key: Entry -> int)
    requires Ordered(xs, key)
    ensures Ordered(Inserted(xs, x, key), key)
    ensures multiset(Inserted(xs, x, key)) == multiset(xs) + multiset{x}
  {
    if xs != [] && key(xs[|xs| - 1]) > key(x) {
      var init, last := xs[..|xs| - 1], xs[|xs| - 1];
      InsertedIs(init, x, key);
      InitAndLast(xs);
      var r := Inserted(init, x, key);
      forall i | 0 <= i < |r| ensures key(r[i]) <= key(last) {
        assert r[i] in multiset(r);
        if r[i] != x {
          assert r[i] in init;
        }
      }
    }
  }

  lemma {:induction false} InsertedStable(xs: seq<Entry>, x: Entry, key: Entry -> int, k: int)
    requires Ordered(xs, key)
    ensures WithKey(Inserted(xs, x, key), key, k) == WithKey(xs + [x], key, k)
  {
    if xs != [] && key(xs[|xs| - 1]) > key(x) {
      var init, last := xs[..|xs| - 1], xs[|xs| - 1];
      InsertedStable(init, x, key, k);
      InitAndLast(xs);
      WithKeyAdded(Inserted(init, x, key), last, key, k);
      WithKeyAdded(init, x, key, k);
      WithKeyAdded(init, last, key, k);
      WithKeyAdded(xs, x, key, k);
    }
  }

  /** Sorting orders the entries, loses none, and keeps those of one key in order. */
  lemma {:induction false} SortedByIs(xs: seq<Entry>, key: Entry -> int)
    ensures Ordered(SortedBy(xs, key), key)
    ensures multiset(SortedBy(xs, key)) == multiset(xs)
    ensures forall k :: WithKey(SortedBy(xs, key), key, k) == WithKey(xs, key, k)
  {
    if xs != [] {
      var init, last := xs[..|xs| - 1], xs[|xs| - 1];
      SortedByIs(init, key);
      InsertedIs(SortedBy(init, key), last, key);
      InitAndLast(xs);
      forall k ensures WithKey(SortedBy(xs, key), key, k) == WithKey(xs, key, k) {
        InsertedStable(SortedBy(init, key), last, key, k);
        WithKeyAdded(SortedBy(init, key), last, key, k);
      }
    }
  }

  // ---- the comparison ---------------------------------------------------------------------------

  const MAX_DECREASED_FILES := 200
  const MAX_INCREASED_FILES_SHOWN := 5

  /** A row of the metrics table; delta is the shown change in hundredths. */
  datatype MetricRow = MetricRow(metric: Metric, main: int, pr: int, delta: int, status: Change)

  /** A cell of the file table, None where nothing changed. */
  datatype Cell = Cell(main: int, pr: int)

  /** The cells are in the order of METRICS. */
  datatype FileRow = FileRow(path: string, cells: seq<Option<Cell>>)

  function RowOf(main: Summary, pr: Summary, m: Metric): MetricRow {
    MetricRow(m, RoundPct(Of(main, m)), RoundPct(Of(pr, m)), RoundPct(Rise(main, pr, m)),
              ClassifyChange(Of(main, m), Of(pr, m)))
  }

  function MetricRows(main: Summary, pr: Summary): seq<MetricRow> {
    seq(|METRICS|, k requires 0 <= k < |METRICS| => RowOf(main, pr, METRICS[k]))
  }

  function CellOf(e: Entry, m: Metric): Option<Cell> {
    var main, pr := RoundPct(Of(e.main, m)), RoundPct(Of(e.pr, m));
    if pr != main then Some(Cell(main, pr)) else None
  }

  function ToFileRow(e: Entry): FileRow {
    FileRow(e.path, seq(|METRICS|, k requires 0 <= k < |METRICS| => CellOf(e, METRICS[k])))
  }

  function ToFileRows(es: seq<Entry>): seq<FileRow> {
    seq(|es|, k requires 0 <= k < |es| => ToFileRow(es[k]))
  }

  datatype Report = Report(
    status: Change,
    metrics: seq<MetricRow>,
    decreasedFiles: seq<FileRow>,
    decreasedFilesTotal: nat,
    increasedFilesTop: seq<Entry>,
    increasedFilesTotal: nat)

  function Descending(): Entry -> int {
    (e: Entry) => -e.totalIncrease
  }

  method GetFilesWithDecreasedCoverage(
    mainFiles: map<string, Summary>, prFiles: seq<File>, collation: Entry -> int)
    returns (decreased: seq<Entry>)
    ensures decreased == SortedBy(Selected(mainFiles, prFiles, Decreased), collation)
  {
    decreased := [];
    for k := 0 to |prFiles|
      invariant decreased == Selected(mainFiles, prFiles[..k], Decreased)
    {
      assert prFiles[..k + 1][..k] == prFiles[..k];
      var prFile := prFiles[k];
      if prFile.path !in mainFiles {
        continue;
      }
      var mainFile := mainFiles[prFile.path];
      if AnyDecreased(mainFile, prFile.summary) {
        decreased := decreased + [Entry(prFile.path, mainFile, prFile.summary, 0)];
      }
    }
    assert prFiles[..|prFiles|] == prFiles;
    decreased := SortedBy(decreased, collation);
  }

  method GetFilesWithIncreasedCoverage(mainFiles: map<string, Summary>, prFiles: seq<File>)
    returns (increased: seq<Entry>)
    ensures increased == SortedBy(Selected(mainFiles, prFiles, Increased), Descending())
  {
    increased := [];
    for k := 0 to |prFiles|
      invariant increased == Selected(mainFiles, prFiles[..k], Increased)
    {
      assert prFiles[..k + 1][..k] == prFiles[..k];
      var prFile := prFiles[k];
      if prFile.path !in mainFiles {
        continue;
      }
      var mainFile := mainFiles[prFile.path];
      if AnyDecreased(mainFile, prFile.summary) {
        continue;
      }
      if !AnyIncreased(mainFile, prFile.summary) {
        continue;
      }
      var totalIncrease := TotalIncrease(mainFile, prFile.summary);
      increased := increased + [Entry(prFile.path, mainFile, prFile.summary, totalIncrease)];
    }
    assert prFiles[..|prFiles|] == prFiles;
    increased := SortedBy(increased, Descending());
  }

  predicate OverallPass(main: Summary, pr: Summary) {
    forall m | m in METRICS :: ClassifyChange(Of(main, m), Of(pr, m)) != Fail
  }

  predicate ToleratedDrop(main: Summary, pr: Summary) {
    exists m | m in METRICS :: ClassifyChange(Of(main, m), Of(pr, m)) == Tolerated
  }

  function StatusOf(main: Summary, pr: Summary): Change {
    if !OverallPass(main, pr) then Fail else if ToleratedDrop(main, pr) then Tolerated else Pass
  }

  method BuildCoverageResult(
    mainSummary: Summary, prSummary: Summary, mainFiles: map<string, Summary>, prFiles: seq<File>,
    collation: Entry -> int)
    returns (r: Report)
    ensures r.status == StatusOf(mainSummary, prSummary)
    ensures r.metrics == MetricRows(mainSummary, prSummary)
    ensures r.decreasedFilesTotal == |Selected(mainFiles, prFiles, Decreased)|
    ensures r.increasedFilesTotal == |Selected(mainFiles, prFiles, Increased)|
    ensures var all := SortedBy(Selected(mainFiles, prFiles, Decreased), collation);
            r.decreasedFiles == ToFileRows(all[..Min(200, |all|)])
    ensures var all := SortedBy(Selected(mainFiles, prFiles, Increased), Descending());
            r.increasedFilesTop == all[..Min(5, |all|)]
  {
    var status := Pass;
    if !OverallPass(mainSummary, prSummary) {
      status := Fail;
    } else if ToleratedDrop(mainSummary, prSummary) {
      status := Tolerated;
    }
    var decreased := GetFilesWithDecreasedCoverage(mainFiles, prFiles, collation);
    var increased := GetFilesWithIncreasedCoverage(mainFiles, prFiles);
    SameLength(Selected(mainFiles, prFiles, Decreased), collation);
    SameLength(Selected(mainFiles, prFiles, Increased), Descending());
    return Report(status, MetricRows(mainSummary, prSummary),
                  ToFileRows(decreased[..Min(MAX_DECREASED_FILES, |decreased|)]), |decreased|,
                  increased[..Min(MAX_INCREASED_FILES_SHOWN, |increased|)], |increased|);
  }

  lemma {:induction false} SameLength(xs: seq<Entry>, key: Entry -> int)
    ensures |SortedBy(xs, key)| == |xs|
  {
    SortedByIs(xs, key);
    assert |multiset(SortedBy(xs, key))| == |multiset(xs)|;
  }

  // ---- what the report says ---------------------------------------------------------------------

  lemma {:induction false} EveryMetric(m: Metric)
    ensures m in METRICS
  {
    assert METRICS[0] == Lines && METRICS[1] == Statements;
    assert METRICS[2] == Functions && METRICS[3] == Branches;
  }

  /** By how much each of the four has dropped, after rounding, in hundredths. */
  function LinesDrop(main: Summary, pr: Summary): int {
    RoundPct(main.lines) - RoundPct(pr.lines)
  }

  function StatementsDrop(main: Summary, pr: Summary): int {
    RoundPct(main.statements) - RoundPct(pr.statements)
  }

  function FunctionsDrop(main: Summary, pr: Summary): int {
    RoundPct(main.functions) - RoundPct(pr.functions)
  }

  function BranchesDrop(main: Summary, pr: Summary): int {
    RoundPct(main.branches) - RoundPct(pr.branches)
  }

  lemma {:induction false} DropsAre(main: Summary, pr: Summary)
    ensures Drop(main, pr, Lines) == LinesDrop(main, pr)
    ensures Drop(main, pr, Statements) == StatementsDrop(main, pr)
    ensures Drop(main, pr, Functions) == FunctionsDrop(main, pr)
    ensures Drop(main, pr, Branches) == BranchesDrop(main, pr)
  {
  }

  /** The status, by the rounded drops of the four metrics. */
  lemma {:induction false} StatusByDrops(main: Summary, pr: Summary)
    ensures StatusOf(main, pr) == Fail <==>
              || LinesDrop(main, pr) > 2 || StatementsDrop(main, pr) > 2
              || FunctionsDrop(main, pr) > 2 || BranchesDrop(main, pr) > 2
    ensures StatusOf(main, pr) == Pass <==>
              && LinesDrop(main, pr) <= 0 && StatementsDrop(main, pr) <= 0
              && FunctionsDrop(main, pr) <= 0 && BranchesDrop(main, pr) <= 0
  {
    DropsAre(main, pr);
    forall m: Metric
      ensures m in METRICS && (m == Lines || m == Statements || m == Functions || m == Branches)
      ensures ClassifyChange(Of(main, m), Of(pr, m)) == Fail <==> Drop(main, pr, m) > 2
      ensures ClassifyChange(Of(main, m), Of(pr, m)) == Pass <==> Drop(main, pr, m) <= 0
    {
      EveryMetric(m);
      ClassifiedByDrop(Of(main, m), Of(pr, m));
    }
  }

  /** The four rows show the rounded values of the four metrics. */
  lemma {:induction false} RowsShowFields(main: Summary, pr: Summary)
    ensures var rows := MetricRows(main, pr);
            && |rows| == 4
            && rows[0].metric == Lines
            && rows[0].main == RoundPct(main.lines) && rows[0].pr == RoundPct(pr.lines)
            && rows[1].metric == Statements
            && rows[1].main == RoundPct(main.statements) && rows[1].pr == RoundPct(pr.statements)
            && rows[2].metric == Functions
            && rows[2].main == RoundPct(main.functions) && rows[2].pr == RoundPct(pr.functions)
            && rows[3].metric == Branches
            && rows[3].main == RoundPct(main.branches) && rows[3].pr == RoundPct(pr.branches)
  {
  }

  /** The shown change never disagrees with the shown values or the status: it is their exact
      difference, not negative exactly on a pass, and below the tolerance exactly on a failure. */
  lemma {:induction false} RowsAgree(main: Summary, pr: Summary, k: nat)
    requires k < |METRICS|
    ensures var row := MetricRows(main, pr)[k];
            && row.delta == row.pr - row.main
            && (row.status == Pass <==> row.delta >= 0)
            && (row.status == Fail <==> row.delta < -2)
  {
    var m := METRICS[k];
    DifferenceIsExact(RoundPct(Of(pr, m)), RoundPct(Of(main, m)));
    ClassifiedByDrop(Of(main, m), Of(pr, m));
  }

  /** A file's cells: the two rounded values of each metric where they differ. */
  lemma {:induction false} FileRowShows(e: Entry)
    ensures var row := ToFileRow(e);
            && row.path == e.path && |row.cells| == 4
            && row.cells[0] == CellFor(RoundPct(e.main.lines), RoundPct(e.pr.lines))
            && row.cells[1] == CellFor(RoundPct(e.main.statements), RoundPct(e.pr.statements))
            && row.cells[2] == CellFor(RoundPct(e.main.functions), RoundPct(e.pr.functions))
            && row.cells[3] == CellFor(RoundPct(e.main.branches), RoundPct(e.pr.branches))
  {
  }

  function CellFor(main: int, pr: int): Option<Cell> {
    if main == pr then None else Some(Cell(main, pr))
  }

  predicate SomeDrop(main: Summary, pr: Summary) {
    || LinesDrop(main, pr) > 0 || StatementsDrop(main, pr) > 0
    || FunctionsDrop(main, pr) > 0 || BranchesDrop(main, pr) > 0
  }

  predicate SomeRise(main: Summary, pr: Summary) {
    || LinesDrop(main, pr) < 0 || StatementsDrop(main, pr) < 0
    || FunctionsDrop(main, pr) < 0 || BranchesDrop(main, pr) < 0
  }

  lemma {:induction false} AnyIsSome(main: Summary, pr: Summary)
    ensures AnyDecreased(main, pr) <==> SomeDrop(main, pr)
    ensures AnyIncreased(main, pr) <==> SomeRise(main, pr)
  {
    DropsAre(main, pr);
    forall m: Metric
      ensures m in METRICS && (m == Lines || m == Statements || m == Functions || m == Branches)
    {
      EveryMetric(m);
    }
  }

  /** Every decreased file shows a cell with a drop. */
  lemma {:induction false} DecreasedRowShowsDrop(e: Entry) returns (k: nat)
    requires SomeDrop(e.main, e.pr)
    ensures k < 4 == |ToFileRow(e).cells| && ToFileRow(e).cells[k].Some?
    ensures ToFileRow(e).cells[k].value.pr < ToFileRow(e).cells[k].value.main
  {
    FileRowShows(e);
    k := if LinesDrop(e.main, e.pr) > 0 then 0
         else if StatementsDrop(e.main, e.pr) > 0 then 1
         else if FunctionsDrop(e.main, e.pr) > 0 then 2 else 3;
  }

  /** When no raw value has dropped the check passes outright. */
  lemma {:induction false} NoDropPasses(main: Summary, pr: Summary)
    requires pr.lines >= main.lines && pr.statements >= main.statements
    requires pr.functions >= main.functions && pr.branches >= main.branches
    ensures StatusOf(main, pr) == Pass
  {
    StatusByDrops(main, pr);
    RoundPctMonotone(main.lines, pr.lines);
    RoundPctMonotone(main.statements, pr.statements);
    RoundPctMonotone(main.functions, pr.functions);
    RoundPctMonotone(main.branches, pr.branches);
  }

  /** The total rise is exact, and of a file without a decrease it is positive exactly when some
      metric rose. */
  lemma {:induction false} TotalIncreaseIs(main: Summary, pr: Summary)
    ensures TotalIncrease(main, pr) ==
            -(LinesDrop(main, pr) + StatementsDrop(main, pr)
              + FunctionsDrop(main, pr) + BranchesDrop(main, pr))
    ensures !SomeDrop(main, pr) ==> (TotalIncrease(main, pr) > 0 <==> SomeRise(main, pr))
  {
    DropsAre(main, pr);
    var total := -(LinesDrop(main, pr) + StatementsDrop(main, pr)
                   + FunctionsDrop(main, pr) + BranchesDrop(main, pr));
    assert 0.0 + Rise(main, pr, Lines) + Rise(main, pr, Statements)
           + Rise(main, pr, Functions) + Rise(main, pr, Branches) == Pct(total);
    RoundPctExact(total);
  }

  /** A file on both branches is on exactly one of the three sides, by its rounded values. */
  lemma {:induction false} SidesAreDisjoint(mainFiles: map<string, Summary>, f: File)
    ensures SideOf(mainFiles, f) == New <==> f.path !in mainFiles
    ensures f.path in mainFiles ==>
              var main, side := mainFiles[f.path], SideOf(mainFiles, f);
              && (side == Decreased <==> SomeDrop(main, f.summary))
              && (side == Increased <==> !SomeDrop(main, f.summary) && SomeRise(main, f.summary))
              && (side == Unchanged <==> !SomeDrop(main, f.summary) && !SomeRise(main, f.summary))
              && (side == Increased <==>
                    !SomeDrop(main, f.summary) && TotalIncrease(main, f.summary) > 0)
  {
    if f.path in mainFiles {
      AnyIsSome(mainFiles[f.path], f.summary);
      TotalIncreaseIs(mainFiles[f.path], f.summary);
    }
  }

  function CountNew(mainFiles: map<string, Summary>, prFiles: seq<File>): nat {
    if prFiles == [] then 0
    else
      CountNew(mainFiles, prFiles[..|prFiles| - 1])
      + if prFiles[|prFiles| - 1].path in mainFiles then 0 else 1
  }

  /** No file is lost or listed twice. */
  lemma {:induction false} SidesAddUp(mainFiles: map<string, Summary>, prFiles: seq<File>)
    ensures |prFiles| ==
            |Selected(mainFiles, prFiles, Decreased)| + |Selected(mainFiles, prFiles, Increased)|
            + |Selected(mainFiles, prFiles, Unchanged)| + CountNew(mainFiles, prFiles)
  {
    if prFiles != [] {
      SidesAddUp(mainFiles, prFiles[..|prFiles| - 1]);
    }
  }

  lemma {:induction false} SelectedFrom(mainFiles: map<string, Summary>, prFiles: seq<File>, side: Side, e: Entry)
    requires side != New
    ensures e in Selected(mainFiles, prFiles, side) <==>
              exists f | f in prFiles ::
                && f.path in mainFiles && SideOf(mainFiles, f) == side
                && e.path == f.path && e.main == mainFiles[f.path] && e.pr == f.summary
                && e.totalIncrease ==
                   if side == Increased then TotalIncrease(mainFiles[f.path], f.summary) else 0
  {
    if prFiles != [] {
      SelectedFrom(mainFiles, prFiles[..|prFiles| - 1], side, e);
      InitAndLast(prFiles);
    }
  }

  /** Every improved file has a positive total and they are listed in falling order, so the ones shown
      are the ones that improved most. */
  lemma {:induction false} TopIncreases(mainFiles: map<string, Summary>, prFiles: seq<File>)
    ensures var all := SortedBy(Selected(mainFiles, prFiles, Increased), Descending());
            && |all| == |Selected(mainFiles, prFiles, Increased)|
            && (forall e | e in all :: e.totalIncrease > 0)
            && (forall i, j | 0 <= i < j < |all| :: all[i].totalIncrease >= all[j].totalIncrease)
  {
    var selected := Selected(mainFiles, prFiles, Increased);
    var all := SortedBy(selected, Descending());
    SortedByIs(selected, Descending());
    SameLength(selected, Descending());
    forall e | e in all ensures e.totalIncrease > 0 {
      assert e in multiset(all) && e in selected;
      SelectedFrom(mainFiles, prFiles, Increased, e);
      var f :| f in prFiles && f.path in mainFiles && SideOf(mainFiles, f) == Increased
               && e.totalIncrease == TotalIncrease(mainFiles[f.path], f.summary);
      SidesAreDisjoint(mainFiles, f);
      TotalIncreaseIs(mainFiles[f.path], f.summary);
    }
    assert forall i, j | 0 <= i < j < |all| :: Descending()(all[i]) <= Descending()(all[j]);
  }
}
