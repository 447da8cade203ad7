/** The attack-types section: the stacked (sector, attack type) percentage
    chart with its single-selection state, the impact chart it drives, the
    intelligence and functional impact charts, and the initial-access
    techniques chart. */
module TypesSection {
  import opened Frame
  import opened Utils

  // ---------------------------------------------------------- hover text

  const TypePrefix := "Type: "
  const LineBreak := "<br>"

  /** Whether pat occurs in s starting at position i. */
  predicate OccursAt(s: string, pat: string, i: int) {
    0 <= i && i + |pat| <= |s| && s[i..i + |pat|] == pat
  }

  /** The first occurrence of pat in s at or after position i. */
  function FindFrom(s: string, pat: string, i: nat): (k: Option<nat>)
    ensures k.Some? ==> i <= k.value && OccursAt(s, pat, k.value)
    ensures k.Some? ==> forall j :: i <= j < k.value ==> !OccursAt(s, pat, j)
    ensures k.None? ==> forall j :: i <= j ==> !OccursAt(s, pat, j)
    decreases |s| - i
  {
    if i + |pat| > |s| then None
    else if s[i..i + |pat|] == pat then Some(i)
    else FindFrom(s, pat, i + 1)
  }

  /** The search finds an occurrence with none before it. */
  lemma {:induction false} FindFromFirst(s: string, pat: string, i: nat, k: nat)
    requires i <= k && OccursAt(s, pat, k)
    requires forall j :: i <= j < k ==> !OccursAt(s, pat, j)
    ensures FindFrom(s, pat, i) == Some(k)
    decreases k - i
  {
    if i < k {
      assert !OccursAt(s, pat, i);
      FindFromFirst(s, pat, i + 1, k);
    }
  }

  /** A window of a slice is the same window of the whole string. */
  lemma SliceOfSlice(s: string, a: nat, b: nat, j: nat, m: nat)
    requires a <= b <= |s| && j + m <= b - a
    ensures s[a..b][j..j + m] == s[a + j..a + j + m]
  {
    var w := s[a..b][j..j + m];
    assert forall x :: 0 <= x < m ==> w[x] == s[a + j + x];
  }

  /** The three parts of a concatenation are its slices. */
  lemma ConcatParts(p: string, x: string, q: string)
    ensures (p + x + q)[..|p|] == p
    ensures (p + x + q)[|p|..|p| + |x|] == x
    ensures (p + x + q)[|p| + |x|..] == q
  {
    var h := p + x + q;
    assert forall i :: 0 <= i < |p| ==> h[..|p|][i] == p[i];
    assert forall i :: 0 <= i < |x| ==> h[|p|..|p| + |x|][i] == x[i];
    assert forall i :: 0 <= i < |q| ==> h[|p| + |x|..][i] == q[i];
  }

  /** Whether the pattern `Type: (.*?)<br>` matches at position k: "Type: "
      occurs there and the first line break after it follows without a
      newline in between (`.` does not match a newline). */
  predicate MatchAt(hover: string, k: nat) {
    && OccursAt(hover, TypePrefix, k)
    && FindFrom(hover, LineBreak, k + |TypePrefix|).Some?
    && '\n' !in hover[k + |TypePrefix|..FindFrom(hover, LineBreak, k + |TypePrefix|).value]
  }

  /** The group of a match at k: the text between "Type: " and the first
      line break after it. It never contains a line break or a newline. */
  function GroupAt(hover: string, k: nat): (t: string)
    requires MatchAt(hover, k)
    ensures forall j :: !OccursAt(t, LineBreak, j)
    ensures '\n' !in t
    ensures FindFrom(hover, LineBreak, k + |TypePrefix|) == Some(k + |TypePrefix| + |t|)
    ensures t == hover[k + |TypePrefix|..k + |TypePrefix| + |t|]
  {
    var e := FindFrom(hover, LineBreak, k + |TypePrefix|).value;
    var t := hover[k + |TypePrefix|..e];
    forall j ensures !OccursAt(t, LineBreak, j) {
      if 0 <= j && j + |LineBreak| <= |t| {
        SliceOfSlice(hover, k + |TypePrefix|, e, j, |LineBreak|);
        assert !OccursAt(hover, LineBreak, k + |TypePrefix| + j);
      }
    }
    t
  }

  /** A search that finds nothing from i finds nothing from any later j. */
  lemma {:induction false} NotFoundLater(s: string, pat: string, i: nat, j: nat)
    requires i <= j && FindFrom(s, pat, i).None?
    ensures FindFrom(s, pat, j).None?
    decreases j - i
  {
    if i < j {
      assert FindFrom(s, pat, i + 1).None?;
      NotFoundLater(s, pat, i + 1, j);
    }
  }

  /** Without a line break at or after k + 6, nothing matches at or after k. */
  lemma NoBreakNoMatch(hover: string, k: nat)
    requires FindFrom(hover, LineBreak, k + |TypePrefix|).None?
    ensures forall j: nat :: k <= j ==> !MatchAt(hover, j)
  {
    forall j: nat | k <= j ensures !MatchAt(hover, j) {
      NotFoundLater(hover, LineBreak, k + |TypePrefix|, j + |TypePrefix|);
    }
  }

  /** The position of the leftmost match at or after i, trying each
      "Type: " in turn as `re.search` scans. */
  function MatchFrom(hover: string, i: nat): (k: Option<nat>)
    ensures k.Some? ==> i <= k.value && MatchAt(hover, k.value)
    decreases |hover| - i
  {
    match FindFrom(hover, TypePrefix, i)
    case None => None
    case Some(k) =>
      match FindFrom(hover, LineBreak, k + |TypePrefix|)
      case None => None
      case Some(e) =>
        if '\n' !in hover[k + |TypePrefix|..e] then Some(k)
        else MatchFrom(hover, k + 1)
  }

  /** No match starts before the first "Type: ". */
  lemma NoPrefixNoMatch(hover: string, i: nat, k: nat)
    requires forall j :: i <= j < k ==> !OccursAt(hover, TypePrefix, j)
    ensures forall j: nat :: i <= j < k ==> !MatchAt(hover, j)
  {
  }

  /** Joining the positions before the first "Type: ", the non-match at k
      and the positions the search from k + 1 skipped. */
  lemma SkipNonMatch(hover: string, i: nat, k: nat, m: Option<nat>)
    requires i <= k
    requires forall j: nat :: i <= j < k ==> !MatchAt(hover, j)
    requires !MatchAt(hover, k)
    requires m.Some? ==> forall j: nat :: k + 1 <= j < m.value ==> !MatchAt(hover, j)
    requires m.None? ==> forall j: nat :: k + 1 <= j ==> !MatchAt(hover, j)
    ensures m.Some? ==> forall j: nat :: i <= j < m.value ==> !MatchAt(hover, j)
    ensures m.None? ==> forall j: nat :: i <= j ==> !MatchAt(hover, j)
  {
  }

  /** The search finds the leftmost match at or after i, and None only when
      nothing matches there. */
  lemma {:induction false} MatchFromLeftmost(hover: string, i: nat)
    ensures MatchFrom(hover, i).Some? ==> forall j: nat :: i <= j < MatchFrom(hover, i).value ==> !MatchAt(hover, j)
    ensures MatchFrom(hover, i).None? ==> forall j: nat :: i <= j ==> !MatchAt(hover, j)
    decreases |hover| - i
  {
    match FindFrom(hover, TypePrefix, i)
    case None =>
      NoPrefixNoMatch(hover, i, |hover| + 1);
    case Some(k) =>
      NoPrefixNoMatch(hover, i, k);
      match FindFrom(hover, LineBreak, k + |TypePrefix|)
      case None =>
        NoBreakNoMatch(hover, k);
      case Some(e) =>
        if '\n' in hover[k + |TypePrefix|..e] {
          assert !MatchAt(hover, k);
          assert MatchFrom(hover, i) == MatchFrom(hover, k + 1);
          MatchFromLeftmost(hover, k + 1);
          SkipNonMatch(hover, i, k, MatchFrom(hover, k + 1));
        } else {
          assert MatchFrom(hover, i) == Some(k);
        }
  }

  /** `re.search(r"Type: (.*?)<br>", hover)`: the group of the leftmost
      match (the text between its "Type: " and the first line break after
      it), or None when nothing matches. */
  function TypeFromHover(hover: string): (t: Option<string>)
    ensures t.Some? ==> exists k: nat :: (MatchAt(hover, k) && t.value == GroupAt(hover, k)
      && forall j: nat :: j < k ==> !MatchAt(hover, j))
    ensures t.Some? ==> '\n' !in t.value && forall j :: !OccursAt(t.value, LineBreak, j)
    ensures t.None? <==> forall k: nat :: !MatchAt(hover, k)
    ensures FindFrom(hover, TypePrefix, 0).None? ==> t.None?
  {
    MatchFromLeftmost(hover, 0);
    var k := MatchFrom(hover, 0);
    if k.Some? then Some(GroupAt(hover, k.value)) else None
  }

  /** The hover text the stacked chart gives the segment of a type in a
      sector; the rest (percentage and count) is left abstract. */
  function HoverText(attackType: string, sector: string, rest: string): string {
    TypePrefix + attackType + (LineBreak + "Sector: " + sector + LineBreak + rest)
  }

  /** Reading the type back from a segment's hover text gives the segment's
      type, for any type name without a line break in it. */
  lemma HoverRoundTrip(attackType: string, sector: string, rest: string)
    requires forall j :: !OccursAt(attackType, LineBreak, j)
    requires '\n' !in attackType
    ensures TypeFromHover(HoverText(attackType, sector, rest)) == Some(attackType)
  {
    var tail := LineBreak + "Sector: " + sector + LineBreak + rest;
    var h := HoverText(attackType, sector, rest);
    var n := |TypePrefix| + |attackType|;
    ConcatParts(TypePrefix, attackType, tail);
    ConcatParts(LineBreak, "Sector: " + sector + LineBreak + rest, []);
    assert h[..|TypePrefix|] == TypePrefix;
    assert OccursAt(h, TypePrefix, 0);
    FindFromFirst(h, TypePrefix, 0, 0);
    assert h[n..] == tail;
    assert h[n..n + |LineBreak|] == tail[..|LineBreak|] == LineBreak;
    forall j | |TypePrefix| <= j < n
      ensures !OccursAt(h, LineBreak, j)
    {
      if j + |LineBreak| <= n {
        SliceOfSlice(h, |TypePrefix|, n, j - |TypePrefix|, |LineBreak|);
        assert !OccursAt(attackType, LineBreak, j - |TypePrefix|);
      } else {
        assert h[j..j + |LineBreak|][n - j] == h[n] == '<';
        assert LineBreak[n - j] != '<';
      }
    }
    FindFromFirst(h, LineBreak, |TypePrefix|, n);
    assert h[|TypePrefix|..n] == attackType;
    assert MatchAt(h, 0);
  }

  // ---------------------------------------------------------- click filter

  /** Python truthiness of an optional string. */
  predicate Truthy(s: Option<string>) {
    s.Some? && s.value != ""
  }

  /** filter_data_click_data: a stored stack selection (any store value but
      "null") keeps the clicked sector and type, a clicked impact keeps that
      impact; both, either, or neither of the two apply. */
  function FilterClickData(data: seq<Row>, category: Option<string>, attackType: Option<string>,
                           stackOn: bool, impact: Option<string>): (out: seq<Row>)
    ensures forall r :: r in out <==> (r in data
      && (stackOn ==> Some(r.receiverSubcategory) == category && Some(r.typeClean) == attackType)
      && (Truthy(impact) ==> r.impact == impact.value))
    ensures !stackOn && !Truthy(impact) ==> out == data
    ensures multiset(out) <= multiset(data)
  {
    if stackOn && Truthy(impact) then
      Where(data, (r: Row) => Some(r.receiverSubcategory) == category && Some(r.typeClean) == attackType
                              && r.impact == impact.value)
    else if !stackOn && Truthy(impact) then
      Where(data, (r: Row) => r.impact == impact.value)
    else if stackOn && !Truthy(impact) then
      Where(data, (r: Row) => Some(r.receiverSubcategory) == category && Some(r.typeClean) == attackType)
    else data
  }

  /** Applying the click filter a second time changes nothing. */
  lemma FilterClickDataIdempotent(data: seq<Row>, category: Option<string>, attackType: Option<string>,
                                  stackOn: bool, impact: Option<string>)
    ensures var once := FilterClickData(data, category, attackType, stackOn, impact);
      FilterClickData(once, category, attackType, stackOn, impact) == once
  {
    var once := FilterClickData(data, category, attackType, stackOn, impact);
    if stackOn && Truthy(impact) {
      WhereAll(once, (r: Row) => Some(r.receiverSubcategory) == category && Some(r.typeClean) == attackType
                                 && r.impact == impact.value);
    } else if !stackOn && Truthy(impact) {
      WhereAll(once, (r: Row) => r.impact == impact.value);
    } else if stackOn && !Truthy(impact) {
      WhereAll(once, (r: Row) => Some(r.receiverSubcategory) == category && Some(r.typeClean) == attackType);
    }
  }

  // ---------------------------------------------------------- stacked pivot

  function TypeOf(r: Row): string { r.typeClean }

  function SectorType(r: Row): (string, string) { (r.receiverSubcategory, r.typeClean) }

  /** The attack types present among some rows. */
  function TypesOf(rows: seq<Row>): set<string> {
    set r | r in rows :: TypeOf(r)
  }

  /** The sectors present among some rows. */
  function SectorsOf(rows: seq<Row>): set<string> {
    set r | r in rows :: Sector(r)
  }

  /** The distinct incidents of one (sector, type) cell; zero for a cell
      without rows (the pivot's `fillna(0)`). */
  function PairCount(rows: seq<Row>, sector: string, attackType: string): nat {
    |IdsWith(rows, SectorType, (sector, attackType))|
  }

  /** The cells of one sector, as a function of the type. */
  function Cells(rows: seq<Row>, sector: string): string -> nat {
    (t: string) => PairCount(rows, sector, t)
  }

  /** A sector's cells for the given types, in their order. */
  function PairCounts(rows: seq<Row>, sector: string, ts: seq<string>): (cs: seq<nat>)
    ensures |cs| == |ts|
    ensures forall j :: 0 <= j < |ts| ==> cs[j] == PairCount(rows, sector, ts[j])
  {
    Tally(ts, Cells(rows, sector))
  }

  /** The columns of the pivot: the chosen types present in the rows, in the
      order of the chosen types. */
  function PivotColumns(rows: seq<Row>): (cols: seq<string>)
    ensures IsSubsequence(cols, ChosenTypes)
    ensures forall t :: t in cols <==> t in ChosenTypes && t in TypesOf(rows)
  {
    Select(ChosenTypes, (t: string) => t in TypesOf(rows))
  }

  /** The pivot's columns never repeat a type. */
  lemma ColumnsUnique(rows: seq<Row>)
    ensures Unique(PivotColumns(rows))
  {
    ChosenTypesUnique();
    SubsequenceUnique(PivotColumns(rows), ChosenTypes);
  }

  /** `total_count_per_sector`: the sum of a sector's per-type incident
      counts over every type present, chosen or not. */
  function SectorTotal(rows: seq<Row>, sector: string): nat {
    Sum(PairCounts(rows, sector, KeysOf(rows, TypeOf)))
  }

  /** The grouping keys of the type column are the types present. */
  lemma TypeKeys(rows: seq<Row>)
    ensures forall t :: t in KeysOf(rows, TypeOf) <==> t in TypesOf(rows)
  {
    var ks := KeysOf(rows, TypeOf);
    forall t ensures t in ks <==> t in TypesOf(rows) {
      assert t in ks <==> t in (set k | k in ks);
    }
  }

  /** A cell's count is part of the sum over any list of types holding it. */
  lemma CellWithinSum(rows: seq<Row>, sector: string, ts: seq<string>, t: string)
    requires t in ts
    ensures Sum(PairCounts(rows, sector, ts)) >= PairCount(rows, sector, t)
  {
    var j :| 0 <= j < |ts| && ts[j] == t;
    SumAtLeast(PairCounts(rows, sector, ts), j);
  }

  /** A sector present has a positive total, at least any of its cells. */
  lemma SectorTotalPositive(rows: seq<Row>, r: Row)
    requires r in rows
    ensures SectorTotal(rows, Sector(r)) >= PairCount(rows, Sector(r), TypeOf(r)) >= 1
  {
    assert r.id in IdsWith(rows, SectorType, SectorType(r));
    assert TypeOf(r) in TypesOf(rows);
    TypeKeys(rows);
    CellWithinSum(rows, Sector(r), KeysOf(rows, TypeOf), TypeOf(r));
  }

  /** The grouping keys of the sector column are the sectors present. */
  lemma SectorKeys(rows: seq<Row>)
    ensures forall k :: k in KeysOf(rows, Sector) <==> k in SectorsOf(rows)
  {
    var ks := KeysOf(rows, Sector);
    forall k ensures k in ks <==> k in SectorsOf(rows) {
      assert k in ks <==> k in (set x | x in ks);
    }
  }

  /** Every sector present has a positive total. */
  lemma SectorTotalsPositive(rows: seq<Row>, ks: seq<string>)
    requires forall k :: k in ks ==> k in SectorsOf(rows)
    ensures forall k :: k in ks ==> SectorTotal(rows, k) >= 1
  {
    forall k | k in ks ensures SectorTotal(rows, k) >= 1 {
      var r :| r in rows && Sector(r) == k;
      SectorTotalPositive(rows, r);
    }
  }

  /** The sector totals, as a function of the sector. */
  function Totals(rows: seq<Row>): string -> nat {
    (s: string) => SectorTotal(rows, s)
  }

  /** The sectors of some rows with their totals. */
  function SectorTotals(rows: seq<Row>): (gs: seq<Group<string>>)
    ensures GroupKeys(gs) == SectorsOf(rows)
    ensures |gs| == |SectorsOf(rows)|
    ensures forall g :: g in gs ==> g.incidents == SectorTotal(rows, g.key) && g.incidents >= 1
  {
    var ks := KeysOf(rows, Sector);
    SectorKeys(rows);
    SectorTotalsPositive(rows, ks);
    UniqueCard(ks);
    GroupsOf(ks, Totals(rows))
  }

  /** One row of the pivot: a sector, its total, and the percentage of each
      column's type in it. */
  datatype PivotRow = PivotRow(sector: string, total: nat, percents: seq<real>)

  datatype Pivot = Pivot(columns: seq<string>, rows: seq<PivotRow>)

  /** A pivot row is the sector's total and, per column, the cell's
      incidents as a percentage of that total. */
  predicate PivotRowOf(rows: seq<Row>, cols: seq<string>, pr: PivotRow) {
    && pr.total == SectorTotal(rows, pr.sector) && pr.total >= 1
    && |pr.percents| == |cols|
    && forall j :: 0 <= j < |cols| ==> pr.percents[j] == Percent(PairCount(rows, pr.sector, cols[j]), pr.total)
  }

  /** The pivot rows of some sectors with their totals, in their order. */
  function RowsOf(rows: seq<Row>, cols: seq<string>, gs: seq<Group<string>>): (prs: seq<PivotRow>)
    requires forall i :: 0 <= i < |gs| ==> gs[i].incidents == SectorTotal(rows, gs[i].key) && gs[i].incidents >= 1
    ensures |prs| == |gs|
    ensures forall i :: 0 <= i < |gs| ==> prs[i].sector == gs[i].key && prs[i].total == gs[i].incidents
    ensures forall pr :: pr in prs ==> PivotRowOf(rows, cols, pr)
  {
    seq(|gs|, i requires 0 <= i < |gs| =>
      PivotRow(gs[i].key, gs[i].incidents, PercentsOf(PairCounts(rows, gs[i].key, cols), gs[i].incidents)))
  }

  /** Rows built from groups keep the groups' keys and order. */
  lemma RowsOfGroups(rows: seq<Row>, gs: seq<Group<string>>, prs: seq<PivotRow>)
    requires |prs| == |gs|
    requires forall i :: 0 <= i < |gs| ==> prs[i].sector == gs[i].key && prs[i].total == gs[i].incidents
    requires GroupKeys(gs) == SectorsOf(rows) && SortedBy(gs, Fewer)
    ensures (set pr | pr in prs :: pr.sector) == SectorsOf(rows)
    ensures forall i, j :: 0 <= i < j < |prs| ==> prs[i].total <= prs[j].total
  {
    forall g | g in gs ensures g.key in (set pr | pr in prs :: pr.sector) {
      var i :| 0 <= i < |gs| && gs[i] == g;
      assert prs[i] in prs;
    }
  }

  /** The percentage pivot of update_aggregate_graph: the chosen types
      present as columns, in their order; one row per sector, in ascending
      order of the sector's total; each cell the cell's incidents as a
      percentage of the sector total. */
  function PivotOf(rows: seq<Row>): (p: Pivot)
    ensures IsSubsequence(p.columns, ChosenTypes)
    ensures forall t :: t in p.columns <==> t in ChosenTypes && t in TypesOf(rows)
    ensures (set pr | pr in p.rows :: pr.sector) == SectorsOf(rows)
    ensures |p.rows| == |SectorsOf(rows)|
    ensures forall pr :: pr in p.rows ==> PivotRowOf(rows, p.columns, pr)
    ensures forall i, j :: 0 <= i < j < |p.rows| ==> p.rows[i].total <= p.rows[j].total
  {
    var cols := PivotColumns(rows);
    FewerTotal<string>();
    var totals := SectorTotals(rows);
    var sorted := SortBy(totals, Fewer);
    PivotRowsFacts(rows, totals, sorted);
    var prs := RowsOf(rows, cols, sorted);
    RowsOfGroups(rows, sorted, prs);
    Pivot(cols, prs)
  }

  /** The sorted totals are the totals: same keys, same number, each a
      sector's total. */
  lemma PivotRowsFacts(rows: seq<Row>, totals: seq<Group<string>>, sorted: seq<Group<string>>)
    requires totals == SectorTotals(rows)
    requires multiset(sorted) == multiset(totals)
    ensures GroupKeys(sorted) == SectorsOf(rows)
    ensures |sorted| == |SectorsOf(rows)|
    ensures forall i :: 0 <= i < |sorted| ==>
      sorted[i].incidents == SectorTotal(rows, sorted[i].key) && sorted[i].incidents >= 1
  {
    SameGroups(totals, sorted);
    assert |sorted| == |multiset(sorted)| == |multiset(totals)| == |totals|;
    assert forall i :: 0 <= i < |sorted| ==> sorted[i] in sorted;
  }

  /** A cell of a pivot row over types present lies between 0 and 100 percent. */
  lemma CellBounds(rows: seq<Row>, cols: seq<string>, pr: PivotRow, j: nat)
    requires PivotRowOf(rows, cols, pr) && j < |cols| && cols[j] in TypesOf(rows)
    ensures 0.0 <= pr.percents[j] <= 100.0
  {
    TypeKeys(rows);
    CellWithinSum(rows, pr.sector, KeysOf(rows, TypeOf), cols[j]);
    PercentMono(pr.total, PairCount(rows, pr.sector, cols[j]), pr.total);
    PercentWhole(pr.total);
  }

  /** Every cell of the pivot lies between 0 and 100 percent. */
  lemma PivotCellBounds(rows: seq<Row>, i: nat, j: nat)
    requires i < |PivotOf(rows).rows| && j < |PivotOf(rows).columns|
    ensures 0.0 <= PivotOf(rows).rows[i].percents[j] <= 100.0
  {
    var p := PivotOf(rows);
    assert p.rows[i] in p.rows;
    assert p.columns[j] in p.columns;
    CellBounds(rows, p.columns, p.rows[i], j);
  }

  /** When every row's type is a chosen type (as it is after the pipeline
      clamps the types), each sector's percentages add up to 100. */
  lemma PivotRowSumsTo100(rows: seq<Row>, i: nat)
    requires forall r :: r in rows ==> r.typeClean in ChosenTypes
    requires i < |PivotOf(rows).rows|
    ensures RealSum(PivotOf(rows).rows[i].percents) == 100.0
  {
    var p := PivotOf(rows);
    var pr := p.rows[i];
    assert pr in p.rows;
    TypeKeys(rows);
    ColumnsUnique(rows);
    assert forall t :: t in TypesOf(rows) ==> t in ChosenTypes;
    UniqueSameMultiset(KeysOf(rows, TypeOf), p.columns);
    TallySumPermutation(KeysOf(rows, TypeOf), p.columns, Cells(rows, pr.sector));
    var cs := PairCounts(rows, pr.sector, p.columns);
    assert pr.percents == PercentsOf(cs, pr.total);
    PercentsSum(cs, pr.total);
    PercentWhole(pr.total);
  }

  // ---------------------------------------------------------- impact graph

  function ImpactOf(r: Row): string { r.impact }

  /** A stacked-chart selection: the clicked type (None when the hover text
      has no type) and the clicked sector. */
  datatype Stack = Stack(attackType: Option<string>, sector: string)

  /** The rows of a selected stack: its sector and type. */
  function StackRows(rows: seq<Row>, sel: Option<Stack>): (out: seq<Row>)
    ensures forall r :: r in out <==> (r in rows
      && (sel.Some? ==> r.receiverSubcategory == sel.value.sector && Some(r.typeClean) == sel.value.attackType))
    ensures sel.None? ==> out == rows
  {
    if sel.Some? then
      Where(rows, (r: Row) => r.receiverSubcategory == sel.value.sector && Some(r.typeClean) == sel.value.attackType)
    else rows
  }

  /** generate_impact_graph: the distinct incidents per impact of the rows
      (of the clicked stack, when there is one), in descending order. */
  function ImpactGraph(rows: seq<Row>, sel: Option<Stack>): (gs: seq<Group<string>>)
    ensures IsGrouping(gs, StackRows(rows, sel), ImpactOf)
    ensures SortedBy(gs, Larger)
  {
    var data := StackRows(rows, sel);
    LargerTotal<string>();
    var gs := SortBy(CountBy(data, ImpactOf), Larger);
    GroupingPermuted(CountBy(data, ImpactOf), gs, data, ImpactOf);
    gs
  }

  // ---------------------------------------------------------- selection state

  /** A click on the stacked chart: the sector of the clicked segment and
      its hover text. */
  datatype AggregateClick = AggregateClick(category: string, hover: string)

  function ClickedStack(c: AggregateClick): Stack {
    Stack(TypeFromHover(c.hover), c.category)
  }

  /** Whether the colour map has a colour for a clicked type: it has one
      for each chosen type and for nothing else. */
  predicate HasColour(t: Option<string>) {
    t.Some? && t.value in ChosenTypes
  }

  /** A selection the chart can highlight: none, or a stack of a chosen type. */
  predicate Highlightable(sel: Option<Stack>) {
    sel.None? || HasColour(sel.value.attackType)
  }

  /** The selection once the reset test has run. The test compares the
      whole property id ("component.property") with the bare component id
      of the reset button. */
  function AfterReset(last: Option<Stack>, propId: string, resetId: string): Option<Stack> {
    if propId == resetId then None else last
  }

  /** Whether update_aggregate_graph raises: with rows to show, a click on a
      stack other than the selected one looks the clicked type up in the
      colour map before it records the selection. */
  predicate AggregateRaises(last: Option<Stack>, noData: bool, propId: string,
                            click: Option<AggregateClick>, resetId: string) {
    && !noData && click.Some?
    && Some(ClickedStack(click.value)) != AfterReset(last, propId, resetId)
    && !HasColour(ClickedStack(click.value).attackType)
  }

  /** The selection after update_aggregate_graph. With rows to show, a
      click on the selected stack clears the selection and a click on any
      other selects it; a raising call keeps what the reset test left. */
  function NextSelected(last: Option<Stack>, noData: bool, propId: string,
                        click: Option<AggregateClick>, resetId: string): (next: Option<Stack>)
    ensures noData || click.None? || AggregateRaises(last, noData, propId, click, resetId) ==>
      next == AfterReset(last, propId, resetId)
    ensures !noData && click.Some? && !AggregateRaises(last, noData, propId, click, resetId) ==>
      (next.None? <==> AfterReset(last, propId, resetId) == Some(ClickedStack(click.value)))
      && (next.Some? ==> next == Some(ClickedStack(click.value)))
    ensures Highlightable(last) ==> Highlightable(next)
  {
    var cleared := AfterReset(last, propId, resetId);
    if noData || click.None? then cleared
    else if Some(ClickedStack(click.value)) == cleared then None
    else if !HasColour(ClickedStack(click.value).attackType) then cleared
    else Some(ClickedStack(click.value))
  }

  /** Clicking the same stack twice (no reset in between) restores the
      selection when it was empty or that stack. */
  lemma ClickTwiceRestores(last: Option<Stack>, propId: string, click: AggregateClick, resetId: string)
    requires propId != resetId && HasColour(ClickedStack(click).attackType)
    requires last.None? || last == Some(ClickedStack(click))
    ensures NextSelected(NextSelected(last, false, propId, Some(click), resetId), false, propId, Some(click), resetId) == last
  {
  }

  /** No chosen type contains a line break. */
  lemma ChosenTypesPlain(t: string)
    requires t in ChosenTypes
    ensures forall j :: !OccursAt(t, LineBreak, j)
    ensures '\n' !in t
  {
    assert '<' !in t;
    forall j | 0 <= j && j + |LineBreak| <= |t|
      ensures !OccursAt(t, LineBreak, j)
    {
      assert t[j..j + |LineBreak|][0] == t[j];
    }
  }

  /** Clicking a segment of the stacked chart (whose hover text the chart
      itself wrote) selects exactly that segment's type and sector, unless
      it was the selection, which it clears. */
  lemma SegmentClickSelects(last: Option<Stack>, propId: string, resetId: string,
                            attackType: string, sector: string, rest: string)
    requires propId != resetId && attackType in ChosenTypes
    ensures var click := AggregateClick(sector, HoverText(attackType, sector, rest));
      && !AggregateRaises(last, false, propId, Some(click), resetId)
      && NextSelected(last, false, propId, Some(click), resetId)
         == (if last == Some(Stack(Some(attackType), sector)) then None else Some(Stack(Some(attackType), sector)))
  {
    ChosenTypesPlain(attackType);
    HoverRoundTrip(attackType, sector, rest);
  }

  /** A property id is never the bare id of the reset button, so the reset
      test never fires: clicking reset leaves the selection as any other
      trigger would. */
  lemma ResetPropIdNeverMatches(resetId: string, property: string, last: Option<Stack>,
                                noData: bool, click: Option<AggregateClick>, otherId: string)
    requires '.' !in resetId && '.' !in otherId
    ensures NextSelected(last, noData, resetId + "." + property, click, resetId)
         == NextSelected(last, noData, otherId + "." + property, click, resetId)
  {
    var p := resetId + "." + property;
    var q := otherId + "." + property;
    assert p[|resetId|] == '.';
    assert q[|otherId|] == '.';
  }

  /** Consequence: while the stacked chart still holds its last click, the
      reset button does not clear the selection, it toggles it again. */
  lemma ResetTogglesSelection(resetId: string, click: AggregateClick)
    requires '.' !in resetId && HasColour(ClickedStack(click).attackType)
    ensures NextSelected(Some(ClickedStack(click)), false, resetId + ".n_clicks", Some(click), resetId) == None
    ensures NextSelected(None, false, resetId + ".n_clicks", Some(click), resetId) == Some(ClickedStack(click))
  {
    var p := resetId + ".n_clicks";
    assert p[|resetId|] == '.';
  }

  /** What update_aggregate_graph returns: the two empty figures (the stack
      store then receives an empty list), a raised error (nothing is
      updated), or the stacked chart, the impact chart, and whether the
      stack store receives a selection rather than "null". */
  datatype AggregateOutcome =
    | EmptyCharts
    | Raised
    | Charts(pivot: Pivot, impact: seq<Group<string>>, stackStored: bool)

  /** The state behind the section's callbacks: the last selected stack. */
  class Types {
    var lastSelected: Option<Stack>

    /** The selection can always be highlighted. */
    predicate Valid()
      reads this
    {
      Highlightable(lastSelected)
    }

    constructor ()
      ensures Valid() && lastSelected.None?
    {
      lastSelected := None;
    }

    /** update_aggregate_graph. propId is the property id of the input that
        fired. */
    method UpdateAggregateGraph(df: seq<Row>, selector: string, propId: string,
                                click: Option<AggregateClick>, resetId: string)
      returns (outcome: AggregateOutcome)
      requires Valid()
      modifies this
      ensures Valid()
      ensures lastSelected == NextSelected(old(lastSelected), SelectedRows(df, selector) == [], propId, click, resetId)
      ensures outcome.EmptyCharts? <==> SelectedRows(df, selector) == []
      ensures outcome.Raised? <==> AggregateRaises(old(lastSelected), SelectedRows(df, selector) == [], propId, click, resetId)
      ensures outcome.Charts? ==> outcome.pivot == PivotOf(SelectedRows(df, selector))
      ensures outcome.Charts? ==> outcome.impact == ImpactGraph(SelectedRows(df, selector), if click.Some? then lastSelected else None)
      ensures outcome.Charts? ==> (outcome.stackStored <==> lastSelected.Some?)
    {
      var rows := SelectedRows(df, selector);
      if propId == resetId {
        lastSelected := None;
      }
      if rows == [] {
        return EmptyCharts;
      }
      var pivot := PivotOf(rows);
      var impact := ImpactGraph(rows, None);
      if click.Some? {
        var clicked := ClickedStack(click.value);
        if Some(clicked) == lastSelected {
          lastSelected := None;
          impact := ImpactGraph(rows, None);
        } else {
          if !HasColour(clicked.attackType) {
            return Raised;
          }
          lastSelected := Some(clicked);
          impact := ImpactGraph(rows, Some(clicked));
        }
      }
      outcome := Charts(pivot, impact, lastSelected.Some?);
    }
  }

  // ---------------------------------------------------------- impact types

  /** The clicks generate_impact_types_graph uses: a reset drops both, a
      click on the stacked chart drops the impact click. */
  function EffectiveClicks(trigger: Option<string>, aggregateClick: Option<AggregateClick>,
                           impactClick: Option<string>, resetId: string, aggregateId: string)
    : (clicks: (Option<AggregateClick>, Option<string>))
    ensures trigger == Some(resetId) ==> clicks.0.None? && clicks.1.None?
    ensures trigger == Some(aggregateId) ==> clicks.1.None?
    ensures trigger != Some(resetId) ==> clicks.0 == aggregateClick
    ensures trigger != Some(resetId) && trigger != Some(aggregateId) ==> clicks.1 == impactClick
  {
    var agg := if trigger == Some(resetId) then None else aggregateClick;
    var imp := if trigger == Some(resetId) || trigger == Some(aggregateId) then None else impactClick;
    (agg, imp)
  }

  /** The rows of the impact-type charts: the selected rows narrowed by the
      click filter, with the clicked segment's sector and type. */
  function ImpactTypesRows(df: seq<Row>, selector: string, trigger: Option<string>,
                           aggregateClick: Option<AggregateClick>, impactClick: Option<string>,
                           stackOn: bool, resetId: string, aggregateId: string): (rows: seq<Row>)
    ensures multiset(rows) <= multiset(SelectedRows(df, selector))
  {
    var clicks := EffectiveClicks(trigger, aggregateClick, impactClick, resetId, aggregateId);
    var category := if clicks.0.Some? then Some(clicks.0.value.category) else None;
    var attackType := if clicks.0.Some? then TypeFromHover(clicks.0.value.hover) else None;
    var rows := FilterClickData(SelectedRows(df, selector), category, attackType, stackOn, clicks.1);
    rows
  }

  /** After a reset with an empty stack store, the impact-type charts count
      every selected row. */
  lemma ResetShowsAllRows(df: seq<Row>, selector: string, aggregateClick: Option<AggregateClick>,
                          impactClick: Option<string>, resetId: string, aggregateId: string)
    ensures ImpactTypesRows(df, selector, Some(resetId), aggregateClick, impactClick, false, resetId, aggregateId)
         == SelectedRows(df, selector)
  {
  }

  /** A click on the stacked chart, with a stack stored, narrows the
      impact-type charts to the clicked sector and type, whatever impact was
      clicked before. */
  lemma AggregateClickNarrows(df: seq<Row>, selector: string, click: AggregateClick,
                              impactClick: Option<string>, resetId: string, aggregateId: string, r: Row)
    requires aggregateId != resetId
    requires r in ImpactTypesRows(df, selector, Some(aggregateId), Some(click), impactClick, true, resetId, aggregateId)
    ensures r in SelectedRows(df, selector)
    ensures r.receiverSubcategory == click.category && Some(r.typeClean) == TypeFromHover(click.hover)
  {
  }

  /** The columns the intelligence impact chart groups by. */
  datatype IntelligenceGroup = IntelligenceGroup(impact: string, text: Option<string>)

  function IntelligenceKey(r: Row): IntelligenceGroup { IntelligenceGroup(r.intelligenceImpact, r.intelligenceImpactText) }

  function FunctionalOf(r: Row): string { r.functionalImpact }

  /** The intelligence impact chart: distinct incidents per (label, text),
      over the rows whose text is set (a null key is dropped). */
  predicate HasImpactText(r: Row) { r.intelligenceImpactText.Some? }

  function IntelligenceCounts(rows: seq<Row>): (gs: seq<Group<IntelligenceGroup>>)
    ensures IsGrouping(gs, Where(rows, HasImpactText), IntelligenceKey)
    ensures forall g :: g in gs ==> g.key.text.Some?
  {
    var keyed := Where(rows, HasImpactText);
    var gs := CountBy(keyed, IntelligenceKey);
    KeysHaveText(gs, keyed);
    gs
  }

  /** Grouping rows whose text is set gives only keys with a text. */
  lemma KeysHaveText(gs: seq<Group<IntelligenceGroup>>, keyed: seq<Row>)
    requires forall r :: r in keyed ==> r.intelligenceImpactText.Some?
    requires IsGrouping(gs, keyed, IntelligenceKey)
    ensures forall g :: g in gs ==> g.key.text.Some?
  {
    forall g | g in gs ensures g.key.text.Some? {
      assert g.key in GroupKeys(gs);
    }
  }

  /** The functional impact chart: distinct incidents per functional impact. */
  function FunctionalCounts(rows: seq<Row>): (gs: seq<Group<string>>)
    ensures IsGrouping(gs, rows, FunctionalOf)
  {
    CountBy(rows, FunctionalOf)
  }

  // ---------------------------------------------------------- techniques

  const AllChoice := "all"

  predicate Matches(value: string, choice: string) {
    choice == AllChoice || value == choice
  }

  function AccessOf(r: Row): string { r.initialAccess }

  /** The dropdown filters of the techniques chart: "all" keeps every
      sector (type), any other choice only its own. */
  function TechniqueRows(rows: seq<Row>, sector: string, attackType: string): (out: seq<Row>)
    ensures forall r :: r in out <==> r in rows && Matches(r.receiverSubcategory, sector) && Matches(r.typeClean, attackType)
    ensures sector == AllChoice && attackType == AllChoice ==> out == rows
  {
    var bySector := if sector != AllChoice then Where(rows, (r: Row) => r.receiverSubcategory == sector) else rows;
    if attackType != AllChoice then Where(bySector, (r: Row) => r.typeClean == attackType) else bySector
  }

  /** generate_techniques_graph: None (the empty figure) when the selector
      keeps no row; otherwise the distinct incidents per initial-access
      technique of the rows matching the dropdowns, in descending order,
      without "Not available". */
  function Techniques(df: seq<Row>, selector: string, sector: string, attackType: string)
    : (out: Option<seq<Group<string>>>)
    ensures out.None? <==> SelectedRows(df, selector) == []
    ensures out.Some? ==> (
      var rows := TechniqueRows(SelectedRows(df, selector), sector, attackType);
      && GroupKeys(out.value) == (set r | r in rows && r.initialAccess != "Not available" :: r.initialAccess)
      && (forall g :: g in out.value ==> g.incidents == |IdsWith(rows, AccessOf, g.key)| && g.incidents >= 1)
      && SortedBy(out.value, Larger))
  {
    var selected := SelectedRows(df, selector);
    if selected == [] then None
    else Some(KnownTechniques(TechniqueRows(selected, sector, attackType)))
  }

  predicate KnownAccess(g: Group<string>) { g.key != "Not available" }

  /** The initial-access groups of some rows without "Not available", in
      descending order of incidents. */
  function KnownTechniques(rows: seq<Row>): (shown: seq<Group<string>>)
    ensures GroupKeys(shown) == (set r | r in rows && r.initialAccess != "Not available" :: r.initialAccess)
    ensures forall g :: g in shown ==> g.incidents == |IdsWith(rows, AccessOf, g.key)| && g.incidents >= 1
    ensures SortedBy(shown, Larger)
  {
    LargerTotal<string>();
    var gs := SortBy(CountBy(rows, AccessOf), Larger);
    GroupingPermuted(CountBy(rows, AccessOf), gs, rows, AccessOf);
    var shown := Select(gs, KnownAccess);
    SubsequenceSorted(shown, gs, Larger);
    KnownTechniqueKeys(gs, rows);
    shown
  }

  lemma KnownTechniqueKeys(gs: seq<Group<string>>, rows: seq<Row>)
    requires IsGrouping(gs, rows, AccessOf)
    ensures GroupKeys(Select(gs, KnownAccess))
         == (set r | r in rows && r.initialAccess != "Not available" :: r.initialAccess)
  {
    var shown := Select(gs, KnownAccess);
    forall r | r in rows && r.initialAccess != "Not available"
      ensures r.initialAccess in GroupKeys(shown)
    {
      assert AccessOf(r) in GroupKeys(gs);
      var g :| g in gs && g.key == AccessOf(r);
      assert g in shown;
    }
  }
}
