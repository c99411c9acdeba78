/**
 * The computations of `plot_pr_graph` in script.py: the 30-row rolling mean
 * of PR, the yearly-stepped budget curve, the colour of each point from its
 * GHI, the count of points above budget, and the trailing-window and
 * lifetime PR averages. Everything matplotlib draws is outside the model;
 * the result is the data handed to it.
 */
module Derive {
  import opened Opt
  import opened Stats
  import opened Ingest

  // ---------------------------------------------------------------------
  // Budget curve (get_budget)

  /** Nameplate PR in percent. */
  const BasePR: real := 73.9
  /** Yearly fall of the budget: the factor is 1 - 0.008. */
  const AnnualDegradation: real := 0.008
  /** 2019-07-01, in days since 1970-01-01. */
  const BudgetStart: int := 18078
  /** The budget steps once every 365 days (not calendar years). */
  const DaysPerStep: int := 365

  function Pow(b: real, n: nat): real
  {
    if n == 0 then 1.0 else b * Pow(b, n - 1)
  }

  lemma {:induction false} PowBetween(b: real, n: nat)
    requires 0.0 < b <= 1.0
    ensures 0.0 < Pow(b, n) <= 1.0
  {
    if n > 0 {
      PowBetween(b, n - 1);
      var p := Pow(b, n - 1);
      assert b * p <= 1.0 * p;
    }
  }

  lemma {:induction false} PowAntitone(b: real, m: nat, n: nat)
    requires 0.0 < b <= 1.0 && m <= n
    ensures Pow(b, n) <= Pow(b, m)
    decreases n
  {
    if m < n {
      PowAntitone(b, m, n - 1);
      PowBetween(b, n - 1);
    }
  }

  /**
   * `max(0, (date - start).days // 365)`. Python's `//` floors; Dafny's `/`
   * is Euclidean, which agrees with flooring for the positive divisor 365.
   */
  function Years(date: int): (y: nat)
    ensures date < BudgetStart + DaysPerStep ==> y == 0
    ensures date >= BudgetStart ==> BudgetStart + y * DaysPerStep <= date < BudgetStart + (y + 1) * DaysPerStep
  {
    var steps := (date - BudgetStart) / DaysPerStep;
    if steps < 0 then 0 else steps
  }

  /** `get_budget`: 73.9 * 0.992^years. */
  function Budget(date: int): (b: real)
    ensures 0.0 < b <= BasePR
  {
    PowBetween(1.0 - AnnualDegradation, Years(date));
    BasePR * Pow(1.0 - AnnualDegradation, Years(date))
  }

  /** Every date before the end of the first 365-day step has the nameplate budget. */
  lemma {:induction false} BudgetFirstStep(date: int)
    requires date < BudgetStart + DaysPerStep
    ensures Budget(date) == BasePR
  {
  }

  /** Within step n (days [365n, 365(n+1)) after 2019-07-01) the budget is 73.9 * 0.992^n. */
  lemma {:induction false} BudgetInStep(date: int, n: nat)
    requires BudgetStart + n * DaysPerStep <= date < BudgetStart + (n + 1) * DaysPerStep
    ensures Budget(date) == BasePR * Pow(1.0 - AnnualDegradation, n)
  {
  }

  /** The budget is constant within each 365-day step. */
  lemma {:induction false} BudgetConstantInStep(d1: int, d2: int, n: nat)
    requires BudgetStart + n * DaysPerStep <= d1 < BudgetStart + (n + 1) * DaysPerStep
    requires BudgetStart + n * DaysPerStep <= d2 < BudgetStart + (n + 1) * DaysPerStep
    ensures Budget(d1) == Budget(d2)
  {
    BudgetInStep(d1, n);
    BudgetInStep(d2, n);
  }

  /** The budget never rises as the date advances. */
  lemma {:induction false} BudgetNonIncreasing(d1: int, d2: int)
    requires d1 <= d2
    ensures Budget(d2) <= Budget(d1)
  {
    var y1, y2 := Years(d1), Years(d2);
    if d1 >= BudgetStart {
      assert y1 * DaysPerStep < (y2 + 1) * DaysPerStep;
    }
    PowAntitone(1.0 - AnnualDegradation, y1, y2);
  }

  /** Each new step lowers the budget by the factor 0.992. */
  lemma {:induction false} BudgetStepDown(n: nat)
    ensures Budget(BudgetStart + (n + 1) * DaysPerStep) == (1.0 - AnnualDegradation) * Budget(BudgetStart + n * DaysPerStep)
    ensures Budget(BudgetStart + (n + 1) * DaysPerStep) < Budget(BudgetStart + n * DaysPerStep)
  {
    BudgetInStep(BudgetStart + (n + 1) * DaysPerStep, n + 1);
    BudgetInStep(BudgetStart + n * DaysPerStep, n);
  }

  /**
   * The three legend milestones are the budget of the first three steps:
   * 73.9, 73.9 * 0.992 and 73.9 * 0.992^2 (before rounding to one decimal).
   */
  lemma {:induction false} BudgetMilestones()
    ensures Budget(BudgetStart) == BasePR
    ensures Budget(BudgetStart + DaysPerStep) == BasePR * (1.0 - AnnualDegradation)
    ensures Budget(BudgetStart + 2 * DaysPerStep) == BasePR * (1.0 - AnnualDegradation) * (1.0 - AnnualDegradation)
  {
    BudgetInStep(BudgetStart, 0);
    BudgetInStep(BudgetStart + DaysPerStep, 1);
    BudgetInStep(BudgetStart + 2 * DaysPerStep, 2);
  }

  // ---------------------------------------------------------------------
  // Point colour (get_color)

  datatype Colour = Gray | Navy | LightBlue | Orange | Brown

  /**
   * `get_color`: the buckets are tested in order, so each boundary value
   * belongs to the bucket above it; a missing GHI is gray.
   */
  function ColourOf(ghi: Option<real>): (c: Colour)
    ensures c == Gray <==> ghi.None?
    ensures c == Navy <==> ghi.Some? && ghi.value < 2.0
    ensures c == LightBlue <==> ghi.Some? && 2.0 <= ghi.value < 4.0
    ensures c == Orange <==> ghi.Some? && 4.0 <= ghi.value < 6.0
    ensures c == Brown <==> ghi.Some? && 6.0 <= ghi.value
  {
    match ghi
    case None => Gray
    case Some(x) =>
      if x < 2.0 then Navy
      else if x < 4.0 then LightBlue
      else if x < 6.0 then Orange
      else Brown
  }

  /** Position of a colour on the GHI scale. */
  function Rank(c: Colour): nat
  {
    match c
    case Gray => 0
    case Navy => 1
    case LightBlue => 2
    case Orange => 3
    case Brown => 4
  }

  /** A higher GHI never gets a lower bucket. */
  lemma {:induction false} ColourMonotone(x: real, y: real)
    requires x <= y
    ensures Rank(ColourOf(Some(x))) <= Rank(ColourOf(Some(y)))
  {
  }

  // ---------------------------------------------------------------------
  // 30-row rolling mean of PR

  const MaWindow: nat := 30

  /**
   * `df['PR'].rolling(window=30).mean()` at row i: pandas' default
   * min_periods equals the window, so the mean is defined only when the 30
   * rows ending at i all hold a PR value. Rows are counted by position, not
   * by calendar day.
   */
  function RollingMean(prs: seq<Option<real>>, i: nat): (r: Option<real>)
    requires i < |prs|
    ensures i + 1 < MaWindow ==> r.None?
    ensures r.Some? <==> MaWindow <= i + 1 && forall j :: i + 1 - MaWindow <= j <= i ==> prs[j].Some?
  {
    if i + 1 < MaWindow then None
    else
      var window := prs[i + 1 - MaWindow .. i + 1];
      var values := PresentValues(window);
      assert forall j :: i + 1 - MaWindow <= j <= i ==> prs[j] == window[j - (i + 1 - MaWindow)];
      if |values| < MaWindow then None else Mean(values)
  }

  /** A defined rolling mean lies between bounds that hold for the PR values of its window. */
  lemma {:induction false} RollingMeanBetween(prs: seq<Option<real>>, i: nat, lo: real, hi: real)
    requires i < |prs|
    requires forall j :: i + 1 - MaWindow <= j <= i && 0 <= j && prs[j].Some? ==> lo <= prs[j].value <= hi
    ensures RollingMean(prs, i).Some? ==> lo <= RollingMean(prs, i).value <= hi
  {
    if RollingMean(prs, i).Some? {
      var window := prs[i + 1 - MaWindow .. i + 1];
      assert window[0] == prs[i + 1 - MaWindow];
      PresentMeanBetween(window, lo, hi);
    }
  }

  /** When every PR equals c, the rolling mean is undefined on rows 0..28 and exactly c from row 29 on. */
  lemma {:induction false} RollingMeanOfConstant(prs: seq<Option<real>>, c: real, i: nat)
    requires i < |prs|
    requires forall j :: 0 <= j < |prs| ==> prs[j] == Some(c)
    ensures RollingMean(prs, i) == if i < MaWindow - 1 then None else Some(c)
  {
    RollingMeanBetween(prs, i, c, c);
  }

  /** The rolling mean at i reads only the PR values at positions i-29..i. */
  lemma {:induction false} RollingMeanLocal(prs: seq<Option<real>>, qrs: seq<Option<real>>, i: nat)
    requires i < |prs| && i < |qrs|
    requires forall j :: i + 1 - MaWindow <= j <= i && 0 <= j ==> prs[j] == qrs[j]
    ensures RollingMean(prs, i) == RollingMean(qrs, i)
  {
    if i + 1 >= MaWindow {
      assert prs[i + 1 - MaWindow .. i + 1] == qrs[i + 1 - MaWindow .. i + 1];
    }
  }

  // ---------------------------------------------------------------------
  // Derived columns

  /** A row with its derived columns PR_MA_30, Budget_PR and Color. */
  datatype DerivedPoint = DerivedPoint(
    date: int, ghi: Option<real>, pr: Option<real>,
    prMa30: Option<real>, budget: real, colour: Colour)

  function PrColumn(s: seq<Record>): (prs: seq<Option<real>>)
    ensures |prs| == |s|
    ensures forall i :: 0 <= i < |s| ==> prs[i] == s[i].pr
  {
    seq(|s|, i requires 0 <= i < |s| => s[i].pr)
  }

  function DerivePoints(s: seq<Record>): (points: seq<DerivedPoint>)
  {
    var prs := PrColumn(s);
    seq(|s|, i requires 0 <= i < |s| =>
      DerivedPoint(s[i].date, s[i].ghi, s[i].pr, RollingMean(prs, i), Budget(s[i].date), ColourOf(s[i].ghi)))
  }

  /** Point i carries row i, the rolling mean at position i, the budget of its date and the colour of its GHI. */
  lemma {:induction false} DerivePointsAt(s: seq<Record>)
    ensures |DerivePoints(s)| == |s|
    ensures forall i :: 0 <= i < |s| ==>
      && RowOf(DerivePoints(s)[i]) == s[i]
      && DerivePoints(s)[i].prMa30 == RollingMean(PrColumn(s), i)
      && DerivePoints(s)[i].budget == Budget(s[i].date)
      && DerivePoints(s)[i].colour == ColourOf(s[i].ghi)
  {
  }

  /** The Date, GHI and PR columns of a derived point. */
  function RowOf(p: DerivedPoint): Record
  {
    Record(p.date, p.ghi, p.pr)
  }

  /** The Date, GHI and PR columns of a sequence of points. */
  function PointRows(points: seq<DerivedPoint>): seq<Record>
  {
    seq(|points|, i requires 0 <= i < |points| => RowOf(points[i]))
  }

  /** Deriving the columns keeps the table's own columns as they are. */
  lemma {:induction false} PointRowsOfDerived(s: seq<Record>)
    ensures PointRows(DerivePoints(s)) == s
  {
    DerivePointsAt(s);
  }

  /**
   * Point i depends only on row i and the PR values of the 29 rows before it:
   * the rolling window counts positions, and the budget and colour read row i alone.
   */
  lemma {:induction false} DerivedPointLocal(s: seq<Record>, t: seq<Record>, i: nat)
    requires i < |s| && i < |t| && s[i] == t[i]
    requires forall j :: i + 1 - MaWindow <= j <= i && 0 <= j ==> s[j].pr == t[j].pr
    ensures DerivePoints(s)[i] == DerivePoints(t)[i]
  {
    DerivePointsAt(s);
    DerivePointsAt(t);
    RollingMeanLocal(PrColumn(s), PrColumn(t), i);
  }

  // ---------------------------------------------------------------------
  // Points above budget

  predicate HasPR(p: DerivedPoint)
  {
    p.pr.Some?
  }

  /** `valid_df['PR'] > valid_df['Budget_PR']`: strictly greater. */
  predicate IsAbove(p: DerivedPoint)
  {
    p.pr.Some? && p.pr.value > p.budget
  }

  /** The above-budget annotation: "N/A", or above_count out of total_count. */
  datatype Annotation = NotAvailable | AboveRatio(above: nat, total: nat)

  /**
   * `valid_df = df[df['PR'].notna()]`, `above_count`, `total_count` and the
   * choice between the ratio and "N/A".
   */
  function AboveBudget(points: seq<DerivedPoint>): (a: Annotation)
    ensures a.NotAvailable? <==> forall i :: 0 <= i < |points| ==> points[i].pr.None?
    ensures a.AboveRatio? ==> 0 < a.total && a.above <= a.total
    ensures a.AboveRatio? ==> a.total == CountWhere(points, HasPR) && a.above == CountWhere(points, IsAbove)
  {
    var valid := Filter(points, HasPR);
    CountWhereFilter(points, HasPR, IsAbove);
    var aboveCount := CountWhere(valid, IsAbove);
    var totalCount := |valid|;
    if totalCount > 0 then AboveRatio(aboveCount, totalCount) else NotAvailable
  }

  /** The share of valid points above budget, a fraction in [0, 1]. */
  function AboveShare(a: Annotation): (r: real)
    requires a.AboveRatio? && 0 < a.total && a.above <= a.total
    ensures 0.0 <= r <= 1.0
  {
    (a.above as real) / (a.total as real)
  }

  /** PR values 80, 70, 73.9 and 60 against a budget of 73.9: one point (80) is above, a share of 1/4. */
  lemma {:induction false} AboveBudgetExample(points: seq<DerivedPoint>)
    requires |points| == 4 && forall i :: 0 <= i < 4 ==> points[i].budget == 73.9
    requires points[0].pr == Some(80.0) && points[1].pr == Some(70.0)
    requires points[2].pr == Some(73.9) && points[3].pr == Some(60.0)
    ensures AboveBudget(points) == AboveRatio(1, 4)
    ensures AboveShare(AboveBudget(points)) == 0.25
  {
    assert IsAbove(points[0]) && !IsAbove(points[1]) && !IsAbove(points[2]) && !IsAbove(points[3]);
    var p1 := points[1..];
    var p2 := p1[1..];
    var p3 := p2[1..];
    assert p3[1..] == [];
    assert CountWhere(p3, IsAbove) == 0;
    assert CountWhere(p2, IsAbove) == 0;
    assert CountWhere(p1, IsAbove) == 0;
    assert CountWhere(points, IsAbove) == 1;
    assert CountWhere(points, HasPR) == 4;
  }

  // ---------------------------------------------------------------------
  // Trailing-window and lifetime averages

  const SummaryWindows: seq<int> := [7, 30, 60, 90, 365]

  /** `df['Date'].max()` */
  function MaxDate(s: seq<Record>): (m: int)
    requires s != []
    ensures exists i :: 0 <= i < |s| && s[i].date == m
    ensures forall i :: 0 <= i < |s| ==> s[i].date <= m
  {
    if |s| == 1 then s[0].date
    else
      var rest := MaxDate(s[1..]);
      assert forall i :: 1 <= i < |s| ==> s[i] == s[1..][i - 1];
      if s[0].date >= rest then s[0].date else rest
  }

  /** `df['Date'].min()` */
  function MinDate(s: seq<Record>): (m: int)
    requires s != []
    ensures exists i :: 0 <= i < |s| && s[i].date == m
    ensures forall i :: 0 <= i < |s| ==> m <= s[i].date
  {
    if |s| == 1 then s[0].date
    else
      var rest := MinDate(s[1..]);
      assert forall i :: 1 <= i < |s| ==> s[i] == s[1..][i - 1];
      if s[0].date <= rest then s[0].date else rest
  }

  /** `df['PR'].mean()`: the mean of the present PR values, undefined when there is none. */
  function MeanPR(rows: seq<Record>): (r: Option<real>)
    ensures r.None? <==> forall i :: 0 <= i < |rows| ==> rows[i].pr.None?
  {
    Mean(PresentValues(PrColumn(rows)))
  }

  /** `df[df['Date'] > today - pd.Timedelta(days=days)]` */
  function WindowRows(s: seq<Record>, anchor: int, days: int): seq<Record>
  {
    Filter(s, (r: Record) => r.date > anchor - days)
  }

  /** `avg(days)`, anchored at the latest date of the table. */
  function TrailingAverage(s: seq<Record>, days: int): Option<real>
    requires s != []
  {
    MeanPR(WindowRows(s, MaxDate(s), days))
  }

  /** A row lies in the window exactly when its date is after anchor - days. */
  lemma {:induction false} WindowRowsMembers(s: seq<Record>, anchor: int, days: int)
    ensures forall r :: r in WindowRows(s, anchor, days) <==> r in s && r.date > anchor - days
  {
    var w := WindowRows(s, anchor, days);
    forall r | r in w ensures r in s && r.date > anchor - days {
      var i :| 0 <= i < |w| && w[i] == r;
    }
    forall r | r in s && r.date > anchor - days ensures r in w {
      var i :| 0 <= i < |s| && s[i] == r;
    }
  }

  /** The windows are nested: a shorter window keeps a subset, and no more rows, than a longer one. */
  lemma {:induction false} WindowsNested(s: seq<Record>, anchor: int, d1: int, d2: int)
    requires d1 <= d2
    ensures forall r :: r in WindowRows(s, anchor, d1) ==> r in WindowRows(s, anchor, d2)
    ensures |WindowRows(s, anchor, d1)| <= |WindowRows(s, anchor, d2)|
  {
    WindowRowsMembers(s, anchor, d1);
    WindowRowsMembers(s, anchor, d2);
    CountWhereMonotone(s, (r: Record) => r.date > anchor - d1, (r: Record) => r.date > anchor - d2);
  }

  /** The row at the anchor date lies in every window of at least one day. */
  lemma {:induction false} AnchorInEveryWindow(s: seq<Record>, days: int)
    requires s != [] && days >= 1
    ensures exists r :: r in WindowRows(s, MaxDate(s), days) && r.date == MaxDate(s)
  {
    WindowRowsMembers(s, MaxDate(s), days);
    var i :| 0 <= i < |s| && s[i].date == MaxDate(s);
    assert s[i] in WindowRows(s, MaxDate(s), days);
  }

  /**
   * A trailing average is defined exactly when some row of its window has a
   * PR value, and it then lies between bounds that hold for every PR value.
   */
  lemma {:induction false} TrailingAverageBetween(s: seq<Record>, days: int, lo: real, hi: real)
    requires s != []
    requires forall i :: 0 <= i < |s| && s[i].pr.Some? ==> lo <= s[i].pr.value <= hi
    ensures TrailingAverage(s, days).Some? <==> exists r :: r in WindowRows(s, MaxDate(s), days) && r.pr.Some?
    ensures TrailingAverage(s, days).Some? ==> lo <= TrailingAverage(s, days).value <= hi
  {
    var w := WindowRows(s, MaxDate(s), days);
    var prs := PrColumn(w);
    WindowRowsMembers(s, MaxDate(s), days);
    if TrailingAverage(s, days).Some? {
      var i :| 0 <= i < |w| && w[i].pr.Some?;
      assert w[i] in w;
      forall j | 0 <= j < |prs| && prs[j].Some? ensures lo <= prs[j].value <= hi {
        assert w[j] in s;
      }
      PresentMeanBetween(prs, lo, hi);
    } else {
      forall r | r in w ensures r.pr.None? {
        var i :| 0 <= i < |w| && w[i] == r;
      }
    }
  }

  /** A window that reaches back past every row averages the whole history: it equals the lifetime average. */
  lemma {:induction false} WholeHistoryWindow(s: seq<Record>, days: int)
    requires s != []
    requires forall i :: 0 <= i < |s| ==> s[i].date > MaxDate(s) - days
    ensures TrailingAverage(s, days) == MeanPR(s)
  {
    FilterAll(s, (r: Record) => r.date > MaxDate(s) - days);
  }

  /** With a single row, every window of at least one day holds it, so its average is that row's PR. */
  lemma {:induction false} SingleRowWindow(r: Record, days: int)
    requires days >= 1
    ensures TrailingAverage([r], days) == r.pr
  {
    assert WindowRows([r], MaxDate([r]), days) == [r];
    assert PrColumn([r]) == [r.pr];
    match r.pr {
      case None =>
      case Some(v) =>
        assert PresentValues([r.pr]) == [v] + PresentValues([]);
        assert Sum([v]) == v + Sum([]);
    }
  }

  /** Some row dated after anchor - days has a PR value. */
  ghost predicate WindowHasPR(s: seq<Record>, anchor: int, days: int)
  {
    exists i :: 0 <= i < |s| && s[i].date > anchor - days && s[i].pr.Some?
  }

  /** A trailing average is defined exactly when a row of its window has a PR value. */
  lemma {:induction false} TrailingAverageDefined(s: seq<Record>, days: int)
    requires s != []
    ensures TrailingAverage(s, days).Some? <==> WindowHasPR(s, MaxDate(s), days)
  {
    var w := WindowRows(s, MaxDate(s), days);
    WindowRowsMembers(s, MaxDate(s), days);
    if WindowHasPR(s, MaxDate(s), days) {
      var i :| 0 <= i < |s| && s[i].date > MaxDate(s) - days && s[i].pr.Some?;
      assert s[i] in w;
      var j :| 0 <= j < |w| && w[j] == s[i];
      assert PrColumn(w)[j].Some?;
    } else {
      forall j | 0 <= j < |w| ensures w[j].pr.None? {
        assert w[j] in w;
        var i :| 0 <= i < |s| && s[i] == w[j];
      }
    }
  }

  // ---------------------------------------------------------------------
  // The whole derivation

  /** The summary box, the title dates and the above-budget annotation. */
  datatype Summary = Summary(
    firstDate: int, lastDate: int, aboveBudget: Annotation,
    pr7: Option<real>, pr30: Option<real>, pr60: Option<real>, pr90: Option<real>, pr365: Option<real>,
    prLifetime: Option<real>)

  /** What `plot_pr_graph` hands to matplotlib. */
  datatype Chart = Chart(points: seq<DerivedPoint>, summary: Summary)

  /** The title dates, the above-budget annotation and the summary box. */
  function Summarize(s: seq<Record>, points: seq<DerivedPoint>): Summary
    requires s != []
  {
    Summary(
      MinDate(s), MaxDate(s), AboveBudget(points),
      TrailingAverage(s, SummaryWindows[0]), TrailingAverage(s, SummaryWindows[1]),
      TrailingAverage(s, SummaryWindows[2]), TrailingAverage(s, SummaryWindows[3]),
      TrailingAverage(s, SummaryWindows[4]), MeanPR(s))
  }

  /**
   * `plot_pr_graph`: nothing when the table is empty (the early return);
   * otherwise the rows sorted by date with their derived columns, and the
   * summary.
   */
  function PlotPrGraph(df: seq<Record>): (chart: Option<Chart>)
    ensures chart.None? <==> df == []
  {
    if df == [] then None
    else
      var s := SortByDate(df);
      var points := DerivePoints(s);
      Some(Chart(points, Summarize(s, points)))
  }

  /** The sorted table's points: ascending by date, and carrying exactly the rows of df. */
  lemma {:induction false} SortedPoints(df: seq<Record>)
    ensures var points := DerivePoints(SortByDate(df));
      && |points| == |df|
      && (forall i, j :: 0 <= i < j < |points| ==> points[i].date <= points[j].date)
      && (forall i :: 0 <= i < |points| ==> RowOf(points[i]) in df)
      && (forall i :: 0 <= i < |df| ==> exists j :: 0 <= j < |points| && RowOf(points[j]) == df[i])
      && multiset(PointRows(points)) == multiset(df)
  {
    SortedPointsOrder(df);
    PointRowsOfDerived(SortByDate(df));
  }

  /** Order and membership half of SortedPoints. */
  lemma {:induction false} SortedPointsOrder(df: seq<Record>)
    ensures var points := DerivePoints(SortByDate(df));
      && |points| == |df|
      && (forall i, j :: 0 <= i < j < |points| ==> points[i].date <= points[j].date)
      && (forall i :: 0 <= i < |points| ==> RowOf(points[i]) in df)
      && (forall i :: 0 <= i < |df| ==> exists j :: 0 <= j < |points| && RowOf(points[j]) == df[i])
  {
    var s := SortByDate(df);
    SortByDateAscending(df);
    PointRowsOfDerived(s);
    PointsOfPermutation(DerivePoints(s), s, df);
  }

  /** Points whose rows are an ascending permutation of df ascend and carry exactly df's rows. */
  lemma {:induction false} PointsOfPermutation(points: seq<DerivedPoint>, s: seq<Record>, df: seq<Record>)
    requires PointRows(points) == s && Ascending(s) && multiset(s) == multiset(df)
    ensures |points| == |df|
    ensures forall i, j :: 0 <= i < j < |points| ==> points[i].date <= points[j].date
    ensures forall i :: 0 <= i < |points| ==> RowOf(points[i]) in df
    ensures forall i :: 0 <= i < |df| ==> exists j :: 0 <= j < |points| && RowOf(points[j]) == df[i]
  {
    assert |PointRows(points)| == |points|;
    assert forall i :: 0 <= i < |points| ==> RowOf(points[i]) == PointRows(points)[i];
    MultisetMembers(s, df);
    MultisetMembers(df, s);
    forall i | 0 <= i < |df| ensures exists j :: 0 <= j < |points| && RowOf(points[j]) == df[i] {
      var j :| 0 <= j < |s| && s[j] == df[i];
      assert RowOf(points[j]) == PointRows(points)[j];
      assert 0 <= j < |points| && RowOf(points[j]) == df[i];
    }
    assert forall i :: 0 <= i < |df| ==> exists j :: 0 <= j < |points| && RowOf(points[j]) == df[i];
  }

  /**
   * The points of the chart of a non-empty table: one per row, in ascending
   * date order, carrying exactly the table's rows.
   */
  lemma {:induction false} ChartPoints(df: seq<Record>)
    requires df != []
    ensures PlotPrGraph(df).Some?
    ensures var points := PlotPrGraph(df).value.points;
      && |points| == |df|
      && (forall i, j :: 0 <= i < j < |points| ==> points[i].date <= points[j].date)
      && (forall i :: 0 <= i < |points| ==> RowOf(points[i]) in df)
      && (forall i :: 0 <= i < |df| ==> exists j :: 0 <= j < |points| && RowOf(points[j]) == df[i])
      && multiset(PointRows(points)) == multiset(df)
  {
    SortedPoints(df);
    assert PlotPrGraph(df).value.points == DerivePoints(SortByDate(df));
  }

  /** Over the derived points of a table, "N/A" is chosen exactly when no row has a PR value. */
  lemma {:induction false} AboveBudgetOfRows(s: seq<Record>)
    ensures AboveBudget(DerivePoints(s)).NotAvailable? <==> forall i :: 0 <= i < |s| ==> s[i].pr.None?
  {
    DerivePointsAt(s);
  }

  /**
   * The title dates are dates of the table that bound every row. The
   * annotation is "N/A" exactly when no point has a PR value, and otherwise
   * counts the points with a PR and those above budget. The lifetime
   * average is undefined exactly when no row has a PR value.
   */
  lemma {:induction false} SummaryOfRows(s: seq<Record>, points: seq<DerivedPoint>)
    requires s != []
    ensures var sum := Summarize(s, points);
      && (exists i :: 0 <= i < |s| && s[i].date == sum.firstDate)
      && (exists i :: 0 <= i < |s| && s[i].date == sum.lastDate)
      && (forall i :: 0 <= i < |s| ==> sum.firstDate <= s[i].date <= sum.lastDate)
      && (sum.aboveBudget.NotAvailable? <==> forall i :: 0 <= i < |points| ==> points[i].pr.None?)
      && (sum.aboveBudget.AboveRatio? ==>
            sum.aboveBudget.total == CountWhere(points, HasPR) && sum.aboveBudget.above == CountWhere(points, IsAbove))
      && (sum.prLifetime.None? <==> forall i :: 0 <= i < |s| ==> s[i].pr.None?)
  {
    var sum := Summarize(s, points);
    assert sum.firstDate == MinDate(s) && sum.lastDate == MaxDate(s);
    assert sum.aboveBudget == AboveBudget(points) && sum.prLifetime == MeanPR(s);
  }

  /**
   * Each of the five windows of the summary box, anchored at the last date,
   * has an average exactly when one of its rows has a PR value.
   */
  lemma {:induction false} SummaryWindowsDefined(s: seq<Record>, points: seq<DerivedPoint>)
    requires s != []
    ensures var sum := Summarize(s, points);
      && (sum.pr7.Some? <==> WindowHasPR(s, sum.lastDate, 7))
      && (sum.pr30.Some? <==> WindowHasPR(s, sum.lastDate, 30))
      && (sum.pr60.Some? <==> WindowHasPR(s, sum.lastDate, 60))
      && (sum.pr90.Some? <==> WindowHasPR(s, sum.lastDate, 90))
      && (sum.pr365.Some? <==> WindowHasPR(s, sum.lastDate, 365))
  {
    var sum := Summarize(s, points);
    assert sum.lastDate == MaxDate(s);
    assert sum.pr7 == TrailingAverage(s, 7) && sum.pr30 == TrailingAverage(s, 30);
    assert sum.pr60 == TrailingAverage(s, 60) && sum.pr90 == TrailingAverage(s, 90);
    assert sum.pr365 == TrailingAverage(s, 365);
    TrailingAverageDefined(s, 7);
    TrailingAverageDefined(s, 30);
    TrailingAverageDefined(s, 60);
    TrailingAverageDefined(s, 90);
    TrailingAverageDefined(s, 365);
  }

  /** Every average of the summary box lies between bounds that hold for every PR value. */
  lemma {:induction false} SummaryBetween(s: seq<Record>, points: seq<DerivedPoint>, lo: real, hi: real)
    requires s != []
    requires forall i :: 0 <= i < |s| && s[i].pr.Some? ==> lo <= s[i].pr.value <= hi
    ensures var sum := Summarize(s, points);
      && (sum.pr7.Some? ==> lo <= sum.pr7.value <= hi)
      && (sum.pr30.Some? ==> lo <= sum.pr30.value <= hi)
      && (sum.pr60.Some? ==> lo <= sum.pr60.value <= hi)
      && (sum.pr90.Some? ==> lo <= sum.pr90.value <= hi)
      && (sum.pr365.Some? ==> lo <= sum.pr365.value <= hi)
      && (sum.prLifetime.Some? ==> lo <= sum.prLifetime.value <= hi)
  {
    var sum := Summarize(s, points);
    assert sum.pr7 == TrailingAverage(s, 7) && sum.pr30 == TrailingAverage(s, 30);
    assert sum.pr60 == TrailingAverage(s, 60) && sum.pr90 == TrailingAverage(s, 90);
    assert sum.pr365 == TrailingAverage(s, 365) && sum.prLifetime == MeanPR(s);
    AverageBounded(s, 7, lo, hi);
    AverageBounded(s, 30, lo, hi);
    AverageBounded(s, 60, lo, hi);
    AverageBounded(s, 90, lo, hi);
    AverageBounded(s, 365, lo, hi);
    LifetimeBounded(s, lo, hi);
  }

  /** The bound half of TrailingAverageBetween, on its own. */
  lemma {:induction false} AverageBounded(s: seq<Record>, days: int, lo: real, hi: real)
    requires s != []
    requires forall i :: 0 <= i < |s| && s[i].pr.Some? ==> lo <= s[i].pr.value <= hi
    ensures TrailingAverage(s, days).Some? ==> lo <= TrailingAverage(s, days).value <= hi
  {
    TrailingAverageBetween(s, days, lo, hi);
  }

  /** The lifetime average lies between bounds that hold for every PR value. */
  lemma {:induction false} LifetimeBounded(s: seq<Record>, lo: real, hi: real)
    requires forall i :: 0 <= i < |s| && s[i].pr.Some? ==> lo <= s[i].pr.value <= hi
    ensures MeanPR(s).Some? ==> lo <= MeanPR(s).value <= hi
  {
    if MeanPR(s).Some? {
      PresentMeanBetween(PrColumn(s), lo, hi);
    }
  }

  /** The summary of a table's own points: the title dates bound every point; "N/A" as in SummaryOfRows. */
  lemma {:induction false} SummaryOfPoints(s: seq<Record>)
    requires s != []
    ensures var sum := Summarize(s, DerivePoints(s));
      && (forall i :: 0 <= i < |s| ==> sum.firstDate <= DerivePoints(s)[i].date <= sum.lastDate)
      && (sum.aboveBudget.NotAvailable? <==> forall i :: 0 <= i < |s| ==> s[i].pr.None?)
      && (sum.prLifetime.None? <==> forall i :: 0 <= i < |s| ==> s[i].pr.None?)
  {
    DerivePointsAt(s);
    AboveBudgetOfRows(s);
    SummaryOfRows(s, DerivePoints(s));
  }

  /**
   * The summary of the chart of a non-empty table: the title dates bound
   * every point; the annotation is "N/A", and the lifetime average
   * undefined, exactly when no row has a PR value.
   */
  lemma {:induction false} ChartSummary(df: seq<Record>)
    requires df != []
    ensures PlotPrGraph(df).Some?
    ensures var c := PlotPrGraph(df).value;
      && (forall i :: 0 <= i < |c.points| ==> c.summary.firstDate <= c.points[i].date <= c.summary.lastDate)
      && (c.summary.aboveBudget.NotAvailable? <==> forall i :: 0 <= i < |df| ==> df[i].pr.None?)
      && (c.summary.prLifetime.None? <==> forall i :: 0 <= i < |df| ==> df[i].pr.None?)
    ensures var c := PlotPrGraph(df).value;
      && (exists i :: 0 <= i < |df| && df[i].date == c.summary.firstDate)
      && (exists i :: 0 <= i < |df| && df[i].date == c.summary.lastDate)
      && (c.summary.aboveBudget.AboveRatio? ==>
            c.summary.aboveBudget.total == CountWhere(c.points, HasPR) && c.summary.aboveBudget.above == CountWhere(c.points, IsAbove))
  {
    var s := SortByDate(df);
    MultisetMembers(s, df);
    SummaryOfPoints(s);
    SummaryOfRows(s, DerivePoints(s));
    NoPRIsOrderFree(df, s);
    var sum := Summarize(s, DerivePoints(s));
    assert PlotPrGraph(df).value == Chart(DerivePoints(s), sum);
    DateOfPermutation(s, df, sum.firstDate);
    DateOfPermutation(s, df, sum.lastDate);
  }

  /** A date some row of s carries is carried by a row of any permutation of s. */
  lemma {:induction false} DateOfPermutation(s: seq<Record>, df: seq<Record>, d: int)
    requires multiset(s) == multiset(df)
    requires exists i :: 0 <= i < |s| && s[i].date == d
    ensures exists j :: 0 <= j < |df| && df[j].date == d
  {
    var i :| 0 <= i < |s| && s[i].date == d;
    assert s[i] in multiset(df);
    var j :| 0 <= j < |df| && df[j] == s[i];
  }

  /** Whether any row has a PR does not depend on the order of the rows. */
  lemma {:induction false} NoPRIsOrderFree(df: seq<Record>, s: seq<Record>)
    requires multiset(s) == multiset(df)
    ensures (forall i :: 0 <= i < |df| ==> df[i].pr.None?) <==> (forall i :: 0 <= i < |s| ==> s[i].pr.None?)
  {
    MultisetMembers(s, df);
    MultisetMembers(df, s);
    if exists i :: 0 <= i < |df| && df[i].pr.Some? {
      var i :| 0 <= i < |df| && df[i].pr.Some?;
      var j :| 0 <= j < |s| && s[j] == df[i];
    }
    if exists i :: 0 <= i < |s| && s[i].pr.Some? {
      var i :| 0 <= i < |s| && s[i].pr.Some?;
      var j :| 0 <= j < |df| && df[j] == s[i];
    }
  }

  /**
   * On a table already strictly ascending by date (what the ingest step
   * produces) the re-sort is a no-op, so point i carries row i and its
   * derived columns: the rolling mean at position i, the budget of its date
   * and the colour of its GHI.
   */
  lemma {:induction false} PlotOfAscendingTable(df: seq<Record>)
    requires df != [] && StrictlyAscending(df)
    ensures PlotPrGraph(df).Some?
    ensures var c := PlotPrGraph(df).value;
      && |c.points| == |df|
      && forall i :: 0 <= i < |df| ==>
        && RowOf(c.points[i]) == df[i]
        && c.points[i].prMa30 == RollingMean(PrColumn(df), i)
        && c.points[i].budget == Budget(df[i].date)
        && c.points[i].colour == ColourOf(df[i].ghi)
    ensures PlotPrGraph(df).value.summary.firstDate == df[0].date
    ensures PlotPrGraph(df).value.summary.lastDate == df[|df| - 1].date
  {
    SortSortedIsIdentity(df);
    DerivePointsAt(df);
    AscendingEnds(df);
  }

  /** In a strictly ascending table the first row has the least date and the last row the greatest. */
  lemma {:induction false} AscendingEnds(df: seq<Record>)
    requires df != [] && StrictlyAscending(df)
    ensures MinDate(df) == df[0].date && MaxDate(df) == df[|df| - 1].date
  {
    var first := MinDate(df);
    var last := MaxDate(df);
    var i :| 0 <= i < |df| && df[i].date == first;
    var j :| 0 <= j < |df| && df[j].date == last;
    AscendingFromFirst(df, i);
    AscendingToLast(df, j);
  }

  /** No row of a strictly ascending table is dated before the first. */
  lemma {:induction false} AscendingFromFirst(df: seq<Record>, i: int)
    requires StrictlyAscending(df) && 0 <= i < |df|
    ensures df[0].date <= df[i].date
  {
    if i > 0 {
      assert df[0].date < df[i].date;
    }
  }

  /** No row of a strictly ascending table is dated after the last. */
  lemma {:induction false} AscendingToLast(df: seq<Record>, j: int)
    requires StrictlyAscending(df) && 0 <= j < |df|
    ensures df[j].date <= df[|df| - 1].date
  {
    if j < |df| - 1 {
      assert df[j].date < df[|df| - 1].date;
    }
  }
}
