/** The overview section: the sector bar chart with its multi-select bar
    state, and the timeline of disclosed incidents (a 30-day rolling average
    or a monthly cumulative count) per selected sector. */
module OverviewSection {
  import opened Frame
  import opened Utils

  // ------------------------------------------------------------ bar toggle

  /** `list.remove(x)`: the list without the first occurrence of x. */
  function RemoveFirst<T(==)>(s: seq<T>, x: T): (out: seq<T>)
    requires x in s
    ensures |out| == |s| - 1
    ensures multiset(out) == multiset(s) - multiset{x}
  {
    if s[0] == x then
      assert s == [s[0]] + s[1..];
      s[1..]
    else
      assert s == [s[0]] + s[1..];
      [s[0]] + RemoveFirst(s[1..], x)
  }

  /** A click on an element of the list removes it; on any other element
      appends it at the end. */
  function Toggle<T(==)>(s: seq<T>, x: T): (out: seq<T>)
    ensures x in s ==> multiset(out) == multiset(s) - multiset{x}
    ensures x !in s ==> multiset(out) == multiset(s) + multiset{x} && out[|out| - 1] == x
  {
    if x in s then RemoveFirst(s, x) else s + [x]
  }

  /** Removing the element just appended, when it was absent before, gives
      back the list. */
  lemma {:induction false} RemoveFirstAppended<T>(s: seq<T>, x: T)
    requires x !in s
    ensures RemoveFirst(s + [x], x) == s
  {
    if s != [] {
      assert (s + [x])[1..] == s[1..] + [x];
      RemoveFirstAppended(s[1..], x);
    }
  }

  /** Clicking an unselected bar twice restores the selection exactly. */
  lemma ToggleTwiceAbsent<T>(s: seq<T>, x: T)
    requires x !in s
    ensures Toggle(Toggle(s, x), x) == s
  {
    RemoveFirstAppended(s, x);
  }

  /** In a selection without repetitions, clicking any bar twice restores the
      selection as a multiset. (With a repeated bar it would not: [x, x]
      becomes [].) */
  lemma ToggleTwiceMultiset<T>(s: seq<T>, x: T)
    requires Unique(s)
    ensures multiset(Toggle(Toggle(s, x), x)) == multiset(s)
  {
    var once := Toggle(s, x);
    if x in s {
      UniqueMultiplicity(s, x);
      assert multiset(once)[x] == 0;
      assert x !in once;
    }
  }

  /** The list order is not always restored: deselecting and reselecting a
      bar moves it to the end. */
  lemma ToggleTwiceReorders()
    ensures Toggle(Toggle([0, 1], 0), 0) == [1, 0]
  {
    assert Toggle([0, 1], 0) == [1];
  }

  /** A list without repetitions stays so, and the clicked element ends up
      selected exactly when it was not selected before. */
  lemma ToggleUnique<T>(s: seq<T>, x: T)
    requires Unique(s)
    ensures Unique(Toggle(s, x))
    ensures x in Toggle(s, x) <==> x !in s
  {
    var out := Toggle(s, x);
    if x in s {
      assert multiset(s)[x] == 1 by {
        UniqueMultiplicity(s, x);
      }
      assert multiset(out)[x] == 0;
      forall i, j | 0 <= i < j < |out| ensures out[i] != out[j] {
        if out[i] == out[j] {
          DuplicateCount(out, i, j);
          assert multiset(out)[out[i]] <= multiset(s)[out[i]];
          UniqueMultiplicity(s, out[i]);
        }
      }
    } else {
      assert out == s + [x];
    }
  }

  /** The two stores of the bar chart: the positions and the sector labels of
      the selected bars. The callback mutates both lists in place. */
  class BarSelection {
    var indices: seq<int>
    var labels: seq<string>

    ghost predicate Valid()
      reads this
    {
      Unique(indices) && Unique(labels)
    }

    constructor ()
      ensures indices == [] && labels == [] && Valid()
    {
      indices := [];
      labels := [];
    }

    /** update_selected_bars. The trigger is the id of the component that
        fired (None before any input), the click the point index and the
        sector label of the clicked bar. */
    method Update(trigger: Option<string>, click: Option<(int, string)>, graphId: string, resetId: string)
      requires Valid()
      modifies this
      ensures Valid()
      ensures trigger.None? || trigger == Some(CountrySelectorId) || trigger == Some(resetId)
        ==> indices == [] && labels == []
      ensures trigger.Some? && trigger != Some(CountrySelectorId) && trigger != Some(resetId)
        && trigger == Some(graphId) && click.Some?
        ==> indices == Toggle(old(indices), click.value.0) && labels == Toggle(old(labels), click.value.1)
      ensures trigger.Some? && trigger != Some(CountrySelectorId) && trigger != Some(resetId)
        && !(trigger == Some(graphId) && click.Some?)
        ==> indices == old(indices) && labels == old(labels)
    {
      if trigger.None? || trigger == Some(CountrySelectorId) || trigger == Some(resetId) {
        indices := [];
        labels := [];
      } else if trigger == Some(graphId) && click.Some? {
        ToggleUnique(indices, click.value.0);
        ToggleUnique(labels, click.value.1);
        indices := Toggle(indices, click.value.0);
        labels := Toggle(labels, click.value.1);
      }
    }
  }

  // ------------------------------------------------------------ sector totals

  const ExcludedSectors: set<string> := {"Not available", "Other"}

  /** The rows both charts of the section start from: the known sectors of the
      selected receiver. */
  function SectorRows(df: seq<Row>, selector: string): (rows: seq<Row>)
    ensures forall r :: r in rows <==> r in df && r.receiverSubcategory !in ExcludedSectors && Selected(r, selector)
  {
    FilterData(Where(df, (r: Row) => r.receiverSubcategory !in ExcludedSectors), selector, None, None, DefaultRangeStart)
  }

  /** One bar of the sector chart. */
  datatype Bar = Bar(sector: string, incidents: nat, highlighted: bool)

  /** The bars of some groups, in their order, bar i highlighted exactly when
      i is a selected position. */
  function ToBars(gs: seq<Group<string>>, selected: seq<int>): (bars: seq<Bar>)
    ensures |bars| == |gs|
    ensures forall i :: 0 <= i < |gs| ==> bars[i] == Bar(gs[i].key, gs[i].incidents, i in selected)
  {
    seq(|gs|, i requires 0 <= i < |gs| => Bar(gs[i].key, gs[i].incidents, i in selected))
  }

  function BarSectors(bars: seq<Bar>): set<string> {
    set b | b in bars :: b.sector
  }

  lemma ToBarsSectors(gs: seq<Group<string>>, selected: seq<int>)
    ensures BarSectors(ToBars(gs, selected)) == GroupKeys(gs)
  {
    var bars := ToBars(gs, selected);
    forall k | k in GroupKeys(gs) ensures k in BarSectors(bars) {
      var g :| g in gs && g.key == k;
      var i :| 0 <= i < |gs| && gs[i] == g;
      assert bars[i] in bars;
    }
  }

  /** The bars of a set of rows: one for each sector present (and no other),
      each with its number of distinct incidents, in ascending order of that
      number, bar i highlighted exactly when i is a selected index. */
  function BarsOf(rows: seq<Row>, selected: seq<int>): (bars: seq<Bar>)
    ensures BarSectors(bars) == (set r | r in rows :: Sector(r))
    ensures |bars| == |set r | r in rows :: Sector(r)|
    ensures forall i :: 0 <= i < |bars| ==> bars[i].incidents == |IdsWith(rows, Sector, bars[i].sector)| >= 1
    ensures forall i, j :: 0 <= i < j < |bars| ==> bars[i].incidents <= bars[j].incidents
    ensures forall i :: 0 <= i < |bars| ==> (bars[i].highlighted <==> i in selected)
  {
    FewerTotal<string>();
    var gs := SortBy(CountBy(rows, Sector), Fewer);
    GroupingPermuted(CountBy(rows, Sector), gs, rows, Sector);
    ToBarsSectors(gs, selected);
    assert forall i :: 0 <= i < |gs| ==> gs[i] in gs;
    ToBars(gs, selected)
  }

  /** generate_graph: None for the empty figure, otherwise the bars of the
      selected rows of the known sectors. */
  function SectorBars(df: seq<Row>, selector: string, selected: seq<int>): (bars: Option<seq<Bar>>)
    ensures bars.None? <==> SectorRows(df, selector) == []
    ensures bars.Some? ==> bars.value == BarsOf(SectorRows(df, selector), selected)
  {
    var rows := SectorRows(df, selector);
    if rows == [] then None else Some(BarsOf(rows, selected))
  }

  /** No sector has more incidents than the selection as a whole. */
  lemma SectorBarsBounded(rows: seq<Row>, selected: seq<int>, i: nat)
    requires i < |BarsOf(rows, selected)|
    ensures BarsOf(rows, selected)[i].incidents <= |Ids(rows)|
  {
    var b := BarsOf(rows, selected)[i];
    assert IdsWith(rows, Sector, b.sector) <= Ids(rows);
    CardinalityMono(IdsWith(rows, Sector, b.sector), Ids(rows));
  }

  lemma CardinalityMono(a: set<int>, b: set<int>)
    requires a <= b
    ensures |a| <= |b|
  {
    assert b == a + (b - a);
  }

  // ------------------------------------------------------ cumulative monthly

  function MinOf(s: seq<int>): (m: int)
    requires s != []
    ensures m in s && forall x :: x in s ==> m <= x
  {
    if |s| == 1 then s[0]
    else
      var rest := MinOf(s[1..]);
      assert forall x :: x in s ==> x == s[0] || x in s[1..];
      if s[0] <= rest then s[0] else rest
  }

  function MaxOf(s: seq<int>): (m: int)
    requires s != []
    ensures m in s && forall x :: x in s ==> x <= m
  {
    if |s| == 1 then s[0]
    else
      var rest := MaxOf(s[1..]);
      assert forall x :: x in s ==> x == s[0] || x in s[1..];
      if s[0] >= rest then s[0] else rest
  }

  function AddedMonth(r: Row): int { MonthIndex(r.addedToDb) }

  function AddedMonths(rows: seq<Row>): (ms: seq<int>)
    ensures |ms| == |rows| && forall i :: 0 <= i < |rows| ==> ms[i] == AddedMonth(rows[i])
  {
    seq(|rows|, i requires 0 <= i < |rows| => AddedMonth(rows[i]))
  }

  /** One point of a timeline: its period (a month index or a day), the
      number of distinct incidents and the mean intensity in that period, and
      the plotted value (the cumulative count or the rolling average). */
  datatype Point = Point(period: int, incidents: nat, intensity: Option<real>, value: real)

  /** The intensities present among some rows. */
  function Intensities(rows: seq<Row>): (xs: seq<real>)
    ensures forall x :: x in xs <==> exists r :: r in rows && r.weightedIntensity == Some(x)
  {
    if rows == [] then []
    else
      var rest := Intensities(rows[1..]);
      assert rows == [rows[0]] + rows[1..];
      if rows[0].weightedIntensity.Some? then [rows[0].weightedIntensity.value] + rest else rest
  }

  /** `mean` of a column with missing values: None when no value is present. */
  function MeanOf(xs: seq<real>): (m: Option<real>)
    ensures m.None? <==> xs == []
    ensures m.Some? ==> m.value * |xs| as real == RealSum(xs)
  {
    if xs == [] then None else Some(RealSum(xs) / (|xs| as real))
  }

  lemma {:induction false} RealSumBounds(xs: seq<real>, lo: real, hi: real)
    requires forall x :: x in xs ==> lo <= x <= hi
    ensures |xs| as real * lo <= RealSum(xs) <= |xs| as real * hi
  {
    if xs != [] {
      var init := xs[..|xs| - 1];
      assert forall x :: x in init ==> x in xs;
      assert xs[|xs| - 1] in xs;
      RealSumBounds(init, lo, hi);
      assert |xs| as real * lo == |init| as real * lo + lo;
      assert |xs| as real * hi == |init| as real * hi + hi;
    }
  }

  /** A mean lies between the smallest and the largest value averaged. */
  lemma MeanOfBounds(xs: seq<real>, lo: real, hi: real)
    requires xs != []
    requires forall x :: x in xs ==> lo <= x <= hi
    ensures lo <= MeanOf(xs).value <= hi
  {
    RealSumBounds(xs, lo, hi);
    var n := |xs| as real;
    var m := MeanOf(xs).value;
    assert m * n == RealSum(xs);
  }

  /** The running sum (`cumsum`). */
  function CumSum(cs: seq<nat>): (out: seq<nat>)
    ensures |out| == |cs|
    ensures forall i :: 0 <= i < |cs| ==> out[i] == Sum(cs[..i + 1])
  {
    if cs == [] then []
    else
      var init := cs[..|cs| - 1];
      var prev := CumSum(init);
      var last := (if prev == [] then 0 else prev[|prev| - 1]) + cs[|cs| - 1];
      assert cs[..|cs|] == cs;
      assert init[..|init|] == init;
      forall i | 0 <= i < |init| ensures prev[i] == Sum(cs[..i + 1]) {
        assert init[..i + 1] == cs[..i + 1];
      }
      prev + [last]
  }

  lemma {:induction false} SumPrefixMono(s: seq<nat>, i: nat, j: nat)
    requires i <= j <= |s|
    ensures Sum(s[..i]) <= Sum(s[..j])
  {
    if i < j {
      SumPrefixMono(s, i, j - 1);
      assert s[..j][..j - 1] == s[..j - 1];
    }
  }

  /** The cumulative count never decreases and ends at the total. */
  lemma CumSumProperties(cs: seq<nat>)
    ensures forall i, j :: 0 <= i <= j < |cs| ==> CumSum(cs)[i] <= CumSum(cs)[j]
    ensures cs != [] ==> CumSum(cs)[|cs| - 1] == Sum(cs)
  {
    var out := CumSum(cs);
    forall i, j | 0 <= i <= j < |cs| ensures out[i] <= out[j] {
      CumSumStep(cs, i, j);
    }
    if cs != [] {
      CumSumLast(cs);
    }
  }

  lemma CumSumStep(cs: seq<nat>, i: nat, j: nat)
    requires i <= j < |cs|
    ensures CumSum(cs)[i] <= CumSum(cs)[j]
  {
    SumPrefixMono(cs, i + 1, j + 1);
  }

  lemma CumSumLast(cs: seq<nat>)
    requires cs != []
    ensures CumSum(cs)[|cs| - 1] == Sum(cs)
  {
    assert cs[..|cs|] == cs;
  }

  /** The number of distinct incidents added in month m. */
  function MonthCount(rows: seq<Row>, m: int): nat {
    |IdsWith(rows, AddedMonth, m)|
  }

  /** The month of any row has at least one incident. */
  lemma MonthCountPositive(rows: seq<Row>, r: Row)
    requires r in rows
    ensures MonthCount(rows, AddedMonth(r)) >= 1
  {
    assert r.id in IdsWith(rows, AddedMonth, AddedMonth(r));
  }

  /** Monthly bins (`pd.Grouper(freq="ME")`): every month from the first to
      the last month in which an incident was added, empty months included,
      with the number of distinct incidents of each. */
  function MonthlyCounts(rows: seq<Row>): (cs: seq<nat>)
    ensures rows == [] ==> cs == []
    ensures rows != [] ==>
      && |cs| == MaxOf(AddedMonths(rows)) - MinOf(AddedMonths(rows)) + 1
      && forall m :: MinOf(AddedMonths(rows)) <= m <= MaxOf(AddedMonths(rows)) ==>
           cs[m - MinOf(AddedMonths(rows))] == MonthCount(rows, m)
  {
    if rows == [] then []
    else
      var lo := MinOf(AddedMonths(rows));
      var hi := MaxOf(AddedMonths(rows));
      MonthRange(rows, lo, hi)
  }

  /** The counts of the months lo to hi, in order. */
  function MonthRange(rows: seq<Row>, lo: int, hi: int): (cs: seq<nat>)
    requires lo <= hi
    ensures |cs| == hi - lo + 1
    ensures forall m :: lo <= m <= hi ==> cs[m - lo] == MonthCount(rows, m)
  {
    var cs := seq<nat>(hi - lo + 1, k requires 0 <= k <= hi - lo => MonthCount(rows, lo + k));
    forall m | lo <= m <= hi ensures cs[m - lo] == MonthCount(rows, m) {
      assert cs[m - lo] == MonthCount(rows, lo + (m - lo));
    }
    cs
  }

  /** Every row falls in one of the monthly bins. */
  lemma MonthlyBinsCover(rows: seq<Row>, r: Row)
    requires r in rows
    ensures 0 <= AddedMonth(r) - MinOf(AddedMonths(rows)) < |MonthlyCounts(rows)|
    ensures MonthlyCounts(rows)[AddedMonth(r) - MinOf(AddedMonths(rows))] >= 1
  {
    MonthInRange(rows, r);
    MonthCountPositive(rows, r);
    var lo := MinOf(AddedMonths(rows));
    var hi := MaxOf(AddedMonths(rows));
    var cs := MonthlyCounts(rows);
    assert |cs| == hi - lo + 1;
    assert cs[AddedMonth(r) - lo] == MonthCount(rows, AddedMonth(r));
  }

  /** A row's month lies between the first and the last month. */
  lemma MonthInRange(rows: seq<Row>, r: Row)
    requires r in rows
    ensures MinOf(AddedMonths(rows)) <= AddedMonth(r) <= MaxOf(AddedMonths(rows))
  {
    var ms := AddedMonths(rows);
    var i :| 0 <= i < |rows| && rows[i] == r;
    assert ms[i] == AddedMonth(r);
    assert AddedMonth(r) in ms;
  }

  function MonthRows(rows: seq<Row>, m: int): seq<Row> {
    Where(rows, (r: Row) => AddedMonth(r) == m)
  }

  /** Points for consecutive periods from `first`, with the given counts,
      intensities and plotted values. */
  function Points(first: int, cs: seq<nat>, intensities: seq<Option<real>>, values: seq<real>): (ps: seq<Point>)
    requires |intensities| == |cs| == |values|
    ensures |ps| == |cs|
    ensures forall i :: 0 <= i < |cs| ==> ps[i] == Point(first + i, cs[i], intensities[i], values[i])
  {
    seq(|cs|, i requires 0 <= i < |cs| => Point(first + i, cs[i], intensities[i], values[i]))
  }

  function MonthlyIntensities(rows: seq<Row>, first: int, n: nat): (xs: seq<Option<real>>)
    ensures |xs| == n
  {
    seq(n, i requires 0 <= i < n => MeanOf(Intensities(MonthRows(rows, first + i))))
  }

  function AsReals(cs: seq<nat>): (xs: seq<real>)
    ensures |xs| == |cs| && forall i :: 0 <= i < |cs| ==> xs[i] == cs[i] as real
  {
    seq(|cs|, i requires 0 <= i < |cs| => cs[i] as real)
  }

  /** The non-moving-average branch of generate_plot_data: one point per
      month from the first to the last, whose value is the cumulative count,
      never decreasing and ending at the sum of the monthly counts. */
  function CumulativeSeries(rows: seq<Row>): (ps: seq<Point>)
    ensures |ps| == |MonthlyCounts(rows)|
    ensures forall i :: 0 <= i < |ps| ==> ps[i].incidents == MonthlyCounts(rows)[i]
    ensures forall i, j :: 0 <= i <= j < |ps| ==> ps[i].value <= ps[j].value
    ensures ps != [] ==> ps[|ps| - 1].value == Sum(MonthlyCounts(rows)) as real
  {
    var cs := MonthlyCounts(rows);
    var first := if rows == [] then 0 else MinOf(AddedMonths(rows));
    CumulativePoints(first, cs, MonthlyIntensities(rows, first, |cs|))
  }

  /** Consecutive points from `first` whose value is the running total of
      the counts: it never decreases and ends at the total. */
  function CumulativePoints(first: int, cs: seq<nat>, intensities: seq<Option<real>>): (ps: seq<Point>)
    requires |intensities| == |cs|
    ensures |ps| == |cs|
    ensures forall i :: 0 <= i < |ps| ==> ps[i].incidents == cs[i]
    ensures forall i, j :: 0 <= i <= j < |ps| ==> ps[i].value <= ps[j].value
    ensures ps != [] ==> ps[|ps| - 1].value == Sum(cs) as real
  {
    var cum := CumSum(cs);
    CumSumProperties(cs);
    Points(first, cs, intensities, AsReals(cum))
  }

  // ----------------------------------------------------------- rolling mean

  /** Only incidents added from 1 January 2023 on enter the rolling average. */
  const RollingStart: Date := Date(2023, 1, 1)

  const RollingWindow := 30

  /** The day on which an incident was added, as its yyyymmdd number. */
  function AddedDay(r: Row): int { Ordinal(r.addedToDb) }

  predicate IntLe(a: int, b: int) { a <= b }

  lemma IntLeTotal()
    ensures TotalPreorder(IntLe)
  {
  }

  function AddedDays(rows: seq<Row>): (ds: seq<int>)
    ensures forall d :: d in ds <==> exists r :: r in rows && AddedDay(r) == d
  {
    if rows == [] then []
    else
      assert rows == [rows[0]] + rows[1..];
      [AddedDay(rows[0])] + AddedDays(rows[1..])
  }

  /** A sorted sequence without repetitions is strictly increasing. */
  lemma SortedUniqueIncreasing(ds: seq<int>, distinct: seq<int>)
    requires Unique(distinct) && multiset(ds) == multiset(distinct) && SortedBy(ds, IntLe)
    ensures forall i, j :: 0 <= i < j < |ds| ==> ds[i] < ds[j]
  {
    forall i, j | 0 <= i < j < |ds| ensures ds[i] < ds[j] {
      if ds[i] == ds[j] {
        DuplicateCount(ds, i, j);
        UniqueMultiplicity(distinct, ds[i]);
      }
    }
  }

  /** The distinct days on which incidents were added, in increasing order. */
  function Days(rows: seq<Row>): (ds: seq<int>)
    ensures forall i, j :: 0 <= i < j < |ds| ==> ds[i] < ds[j]
    ensures forall d :: d in ds <==> exists r :: r in rows && AddedDay(r) == d
  {
    var distinct := Distinct(AddedDays(rows));
    IntLeTotal();
    var ds := SortBy(distinct, IntLe);
    assert forall d :: d in ds <==> d in multiset(ds);
    assert forall d :: d in distinct <==> d in multiset(distinct);
    SortedUniqueIncreasing(ds, distinct);
    ds
  }

  function DayRows(rows: seq<Row>, d: int): seq<Row> {
    Where(rows, (r: Row) => AddedDay(r) == d)
  }

  /** The first position of the window that ends at position i. */
  function WindowStart(i: nat): nat {
    if i + 1 >= RollingWindow then i + 1 - RollingWindow else 0
  }

  /** `rolling(window=30, min_periods=1).mean()` over the daily counts: the
      mean of the last (up to) 30 values. */
  function RollingMean(cs: seq<nat>): (out: seq<real>)
    ensures |out| == |cs|
    ensures forall i :: 0 <= i < |cs| ==>
      out[i] == Sum(cs[WindowStart(i)..i + 1]) as real / (i + 1 - WindowStart(i)) as real
  {
    seq(|cs|, i requires 0 <= i < |cs| => Sum(cs[WindowStart(i)..i + 1]) as real / (i + 1 - WindowStart(i)) as real)
  }

  lemma MulSucc(n: nat, k: nat)
    ensures (n + 1) * k == n * k + k
  {
  }

  lemma {:induction false} SumBounds(s: seq<nat>, lo: nat, hi: nat)
    requires forall x :: x in s ==> lo <= x <= hi
    ensures |s| * lo <= Sum(s) <= |s| * hi
  {
    if s != [] {
      var init := s[..|s| - 1];
      assert forall x :: x in init ==> x in s;
      SumBounds(init, lo, hi);
      assert s[|s| - 1] in s;
      MulSucc(|init|, lo);
      MulSucc(|init|, hi);
    }
  }

  /** Each rolling value lies between the smallest and the largest daily
      count; since a day is present only when it has an incident, it is at
      least 1. */
  lemma RollingMeanBounds(cs: seq<nat>, lo: nat, hi: nat, i: nat)
    requires forall x :: x in cs ==> lo <= x <= hi
    requires i < |cs|
    ensures lo as real <= RollingMean(cs)[i] <= hi as real
  {
    var w := cs[WindowStart(i)..i + 1];
    assert forall x :: x in w ==> x in cs;
    SumBounds(w, lo, hi);
    MeanBounds(Sum(w), |w|, lo, hi);
  }

  lemma MeanBounds(total: nat, n: nat, lo: nat, hi: nat)
    requires n > 0 && n * lo <= total <= n * hi
    ensures lo as real <= total as real / n as real <= hi as real
  {
    MeanAtLeast(total, n, lo);
    MeanAtMost(total, n, hi);
  }

  lemma MeanAtLeast(total: nat, n: nat, lo: nat)
    requires n > 0 && n * lo <= total
    ensures lo as real <= total as real / n as real
  {
    var q := total as real / n as real;
    assert q * n as real == total as real;
    assert (n * lo) as real == n as real * lo as real;
  }

  lemma MeanAtMost(total: nat, n: nat, hi: nat)
    requires n > 0 && total <= n * hi
    ensures total as real / n as real <= hi as real
  {
    var q := total as real / n as real;
    assert q * n as real == total as real;
    assert (n * hi) as real == n as real * hi as real;
  }

  /** The same window over intensities: the mean of the values present,
      None when the window holds none. */
  function RollingIntensity(xs: seq<Option<real>>): (out: seq<Option<real>>)
    ensures |out| == |xs|
    ensures forall i :: 0 <= i < |xs| ==> out[i] == MeanOf(PresentValues(xs[WindowStart(i)..i + 1]))
  {
    seq(|xs|, i requires 0 <= i < |xs| => MeanOf(PresentValues(xs[WindowStart(i)..i + 1])))
  }

  /** A rolling intensity is missing exactly when its window holds no
      intensity (min_periods=1), and otherwise lies between the smallest and
      the largest intensity of the series. */
  lemma RollingIntensityBounds(xs: seq<Option<real>>, lo: real, hi: real, i: nat)
    requires i < |xs|
    requires forall j :: 0 <= j < |xs| && xs[j].Some? ==> lo <= xs[j].value <= hi
    ensures RollingIntensity(xs)[i].None? <==> forall j :: WindowStart(i) <= j <= i ==> xs[j].None?
    ensures RollingIntensity(xs)[i].Some? ==> lo <= RollingIntensity(xs)[i].value <= hi
  {
    var w := xs[WindowStart(i)..i + 1];
    var vs := PresentValues(w);
    if vs != [] {
      assert Some(vs[0]) in w;
      forall v | v in vs ensures lo <= v <= hi {
        assert Some(v) in w;
        var k :| 0 <= k < |w| && w[k] == Some(v);
        assert xs[WindowStart(i) + k] == Some(v);
      }
      MeanOfBounds(vs, lo, hi);
    } else {
      forall j | WindowStart(i) <= j <= i ensures xs[j].None? {
        assert xs[j] == w[j - WindowStart(i)];
        assert w[j - WindowStart(i)] in w;
      }
    }
  }

  function PresentValues(xs: seq<Option<real>>): (vs: seq<real>)
    ensures forall v :: v in vs <==> Some(v) in xs
  {
    if xs == [] then []
    else
      var rest := PresentValues(xs[1..]);
      assert xs == [xs[0]] + xs[1..];
      if xs[0].Some? then [xs[0].value] + rest else rest
  }

  function RecentRows(rows: seq<Row>): seq<Row> {
    Where(rows, (r: Row) => AddedDay(r) >= Ordinal(RollingStart))
  }

  /** The number of distinct incidents added on each of the given days; at
      least 1 for a day on which something was added. */
  function DailyCounts(rows: seq<Row>, ds: seq<int>): (cs: seq<nat>)
    requires forall d :: d in ds ==> exists r :: r in rows && AddedDay(r) == d
    ensures |cs| == |ds|
    ensures forall i :: 0 <= i < |ds| ==> cs[i] == |IdsWith(rows, AddedDay, ds[i])| >= 1
  {
    var cs := seq(|ds|, i requires 0 <= i < |ds| => |IdsWith(rows, AddedDay, ds[i])|);
    forall i | 0 <= i < |ds| ensures cs[i] >= 1 {
      assert ds[i] in ds;
      assert exists r :: r in rows && AddedDay(r) == ds[i];
      var r :| r in rows && AddedDay(r) == ds[i];
      assert r.id in IdsWith(rows, AddedDay, ds[i]);
    }
    cs
  }

  /** Every rolling average of counts that are all at least 1 is at least 1. */
  lemma RollingMeanAtLeastOne(cs: seq<nat>)
    requires forall i :: 0 <= i < |cs| ==> cs[i] >= 1
    ensures forall i :: 0 <= i < |cs| ==> RollingMean(cs)[i] >= 1.0
  {
    var bound := MaxOrZero(cs);
    forall i | 0 <= i < |cs| ensures RollingMean(cs)[i] >= 1.0 {
      RollingMeanBounds(cs, 1, bound, i);
    }
  }

  /** The `weighted_intensity` mean of each given day: the mean over that
      day's rows with an intensity, None when none has one. */
  function DailyIntensities(rows: seq<Row>, ds: seq<int>): (xs: seq<Option<real>>)
    ensures |xs| == |ds|
    ensures forall i :: 0 <= i < |ds| ==> xs[i] == MeanOf(Intensities(DayRows(rows, ds[i])))
  {
    seq(|ds|, i requires 0 <= i < |ds| => MeanOf(Intensities(DayRows(rows, ds[i]))))
  }

  function DayPoints(ds: seq<int>, cs: seq<nat>, intensities: seq<Option<real>>, values: seq<real>): (ps: seq<Point>)
    requires |ds| == |intensities| == |cs| == |values|
    ensures |ps| == |cs|
    ensures forall i :: 0 <= i < |cs| ==> ps[i] == Point(ds[i], cs[i], intensities[i], values[i])
  {
    seq(|cs|, i requires 0 <= i < |cs| => Point(ds[i], cs[i], intensities[i], values[i]))
  }

  /** The moving-average branch of generate_plot_data: one point per day with
      additions since the rolling start, in date order, with that day's
      number of distinct incidents and a rolling average of at least 1. */
  function RollingSeries(rows: seq<Row>): (ps: seq<Point>)
    ensures |ps| == |Days(RecentRows(rows))|
    ensures forall i :: 0 <= i < |ps| ==> ps[i].period >= Ordinal(RollingStart)
    ensures forall i, j :: 0 <= i < j < |ps| ==> ps[i].period < ps[j].period
    ensures forall i :: 0 <= i < |ps| ==>
      ps[i].incidents == |IdsWith(RecentRows(rows), AddedDay, ps[i].period)| >= 1
    ensures forall i :: 0 <= i < |ps| ==> 1.0 <= ps[i].value
    ensures var ds := Days(RecentRows(rows));
      forall i :: 0 <= i < |ps| ==>
        && ps[i].period == ds[i]
        && ps[i].value == RollingMean(DailyCounts(RecentRows(rows), ds))[i]
        && ps[i].intensity == RollingIntensity(DailyIntensities(RecentRows(rows), ds))[i]
  {
    var recent := RecentRows(rows);
    var ds := Days(recent);
    var cs := DailyCounts(recent, ds);
    var values := RollingMean(cs);
    RollingMeanAtLeastOne(cs);
    RecentDays(rows);
    DayPoints(ds, cs, RollingIntensity(DailyIntensities(recent, ds)), values)
  }

  /** Every day with additions since the rolling start is on or after it. */
  lemma RecentDays(rows: seq<Row>)
    ensures forall i :: 0 <= i < |Days(RecentRows(rows))| ==> Days(RecentRows(rows))[i] >= Ordinal(RollingStart)
  {
    var ds := Days(RecentRows(rows));
    forall i | 0 <= i < |ds| ensures ds[i] >= Ordinal(RollingStart) {
      assert ds[i] in ds;
    }
  }

  function MaxOrZero(s: seq<nat>): (m: nat)
    ensures forall x :: x in s ==> x <= m
  {
    if s == [] then 0
    else
      var rest := MaxOrZero(s[1..]);
      assert forall x :: x in s ==> x == s[0] || x in s[1..];
      if s[0] >= rest then s[0] else rest
  }

  /** generate_plot_data. */
  function PlotData(rows: seq<Row>, movingAverage: bool): seq<Point> {
    if movingAverage then RollingSeries(rows) else CumulativeSeries(rows)
  }

  // ---------------------------------------------------------------- timeline

  /** One line of the timeline: the sector it shows (None for all sectors)
      and its points. */
  datatype Trace = Trace(sector: Option<string>, points: seq<Point>)

  /** The rows of one sector, in their order. */
  function OfSector(rows: seq<Row>, sector: string): (out: seq<Row>)
    ensures forall r :: r in out <==> r in rows && r.receiverSubcategory == sector
    ensures multiset(out) <= multiset(rows)
  {
    Where(rows, (r: Row) => r.receiverSubcategory == sector)
  }

  function SectorTrace(rows: seq<Row>, sector: string, toggle: bool): Trace {
    Trace(Some(sector), PlotData(OfSector(rows, sector), !toggle))
  }

  /** The loops of generate_timeline: one trace per selected sector, in
      selection order, each of that sector's rows only. */
  method SectorTraces(rows: seq<Row>, selected: seq<string>, toggle: bool) returns (fig: seq<Trace>)
    ensures |fig| == |selected|
    ensures forall i :: 0 <= i < |selected| ==> fig[i] == SectorTrace(rows, selected[i], toggle)
  {
    fig := MapEach(selected, (sector: string) => SectorTrace(rows, sector, toggle));
  }

  /** generate_timeline without titles and styling: None for the empty
      figure; otherwise the traces of the selected sectors, or a single trace
      of all rows when nothing is selected. The toggle chooses the cumulative
      view. */
  method GenerateTimeline(df: seq<Row>, selector: string, selected: seq<string>, toggle: bool)
    returns (traces: Option<seq<Trace>>)
    ensures SectorRows(df, selector) == [] <==> traces.None?
    ensures traces.Some? && selected == [] ==>
      traces.value == [Trace(None, PlotData(SectorRows(df, selector), !toggle))]
    ensures traces.Some? && selected != [] ==>
      && |traces.value| == |selected|
      && forall i :: 0 <= i < |selected| ==>
           traces.value[i] == SectorTrace(SectorRows(df, selector), selected[i], toggle)
  {
    var rows := SectorRows(df, selector);
    if rows == [] {
      traces := None;
    } else if selected == [] {
      traces := Some([Trace(None, PlotData(rows, !toggle))]);
    } else {
      var fig := SectorTraces(rows, selected, toggle);
      traces := Some(fig);
    }
  }
}
