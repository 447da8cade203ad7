/** The filter every chart applies to the canonical table (receiver
    selector, year slider, date range) and the decoding of the component that
    fired a callback. */
module Utils {
  import opened Frame

  /** The regional selectors and the region code each one stands for; the
      global selector has none. */
  const StatesCodes: map<string, Option<string>> := map[
    "Asia (states)" := Some("ASIA"),
    "Central America (states)" := Some("CENTAM"),
    "Central Asia (states)" := Some("CENTAS"),
    "Collective Security Treaty Organization (states)" := Some("CSTO"),
    "EU (member states)" := Some("EU"),
    "Eastern Asia (states)" := Some("EASIA"),
    "Europe (states)" := Some("EUROPE"),
    "Gulf Countries (states)" := Some("GULFC"),
    "Mena Region (states)" := Some("MENA"),
    "Middle East (states)" := Some("MEA"),
    "NATO (member states)" := Some("NATO"),
    "North Africa (states)" := Some("NAF"),
    "Northeast Asia (states)" := Some("NEA"),
    "Oceania (states)" := Some("OC"),
    "Shanghai Cooperation Organisation (states)" := Some("SCO"),
    "South Asia (states)" := Some("SASIA"),
    "South China Sea (states)" := Some("SCS"),
    "Southeast Asia (states)" := Some("SEA"),
    "Sub-Saharan Africa (states)" := Some("SSA"),
    "Western Balkans (states)" := Some("WBALKANS"),
    "Africa (states)" := Some("AFRICA"),
    "Global (states)" := None
  ]

  const GlobalSelector := "Global (states)"

  /** The slider position that means "all years". */
  const AllYears := 2025

  /** The default date range runs from 1 January 2000 to today. */
  const DefaultRangeStart: Date := Date(2000, 1, 1)

  /** Whether the region code of a regional selector narrows the rows. */
  predicate RegionRestricts(code: Option<string>) {
    code.Some? && code.value != "" && code.value != GlobalSelector
  }

  /** The receiver selector: a regional selector keeps its region's rows (all
      rows for the global one); anything else is a receiver country. */
  predicate Selected(r: Row, selector: string) {
    if selector in StatesCodes then
      RegionRestricts(StatesCodes[selector]) ==> r.regionName == StatesCodes[selector].value
    else
      r.receiverCountry == selector
  }

  /** The year slider filters unless it is unset, zero or on "all years". */
  predicate YearActive(year: Option<int>) {
    year.Some? && year.value != 0 && year.value != AllYears
  }

  /** The date range filters unless it is unset or the default range. */
  predicate RangeActive(range: Option<(Date, Date)>, today: Date) {
    range.Some? && range.value != (DefaultRangeStart, today)
  }

  /** A date lies in a range when it is neither before its start nor after
      its end. */
  predicate InRange(d: Date, range: (Date, Date)) {
    Ordinal(range.0) <= Ordinal(d) <= Ordinal(range.1)
  }

  /** The receiver-selector step: a row is kept iff it matches the selector. */
  function SelectorFilter(df: seq<Row>, selector: string): (out: seq<Row>)
    ensures forall r :: r in out <==> r in df && Selected(r, selector)
    ensures multiset(out) <= multiset(df)
  {
    if selector in StatesCodes then
      var code := StatesCodes[selector];
      if RegionRestricts(code) then Where(df, (r: Row) => r.regionName == code.value) else df
    else
      Where(df, (r: Row) => r.receiverCountry == selector)
  }

  /** The year step: when the year filters, a row is kept iff it starts in
      that year; otherwise every row is kept. */
  function YearFilter(df: seq<Row>, year: Option<int>): (out: seq<Row>)
    ensures forall r :: r in out <==>
      r in df && (YearActive(year) ==> r.startDate.Some? && Year(r.startDate.value) == year.value)
    ensures !YearActive(year) ==> out == df
    ensures multiset(out) <= multiset(df)
  {
    if YearActive(year) then
      Where(df, (r: Row) => r.startDate.Some? && Year(r.startDate.value) == year.value)
    else df
  }

  /** The date-range step: when the range filters, a row is kept iff its
      start date lies in the range; otherwise every row is kept. */
  function RangeFilter(df: seq<Row>, range: Option<(Date, Date)>, today: Date): (out: seq<Row>)
    ensures forall r :: r in out <==>
      r in df && (RangeActive(range, today) ==> r.startDate.Some? && InRange(r.startDate.value, range.value))
    ensures !RangeActive(range, today) ==> out == df
    ensures multiset(out) <= multiset(df)
  {
    if RangeActive(range, today) then
      Where(df, (r: Row) => r.startDate.Some? && InRange(r.startDate.value, range.value))
    else df
  }

  /** filter_data, with today's date as a parameter. A row is kept exactly
      when it matches the selector, lies in the selected year when a year
      filters, and in the date range when the range filters (a row without a
      start date fails both); kept rows stay in order. */
  function FilterData(df: seq<Row>, selector: string, year: Option<int>,
                      range: Option<(Date, Date)>, today: Date): (out: seq<Row>)
    ensures forall r :: r in out <==>
      && r in df && Selected(r, selector)
      && (YearActive(year) ==> r.startDate.Some? && Year(r.startDate.value) == year.value)
      && (RangeActive(range, today) ==> r.startDate.Some? && InRange(r.startDate.value, range.value))
    ensures multiset(out) <= multiset(df)
  {
    RangeFilter(YearFilter(SelectorFilter(df, selector), year), range, today)
  }

  /** The global selector with every other filter off returns the table itself. */
  lemma FilterGlobalIsIdentity(df: seq<Row>, today: Date)
    ensures FilterData(df, GlobalSelector, None, None, today) == df
    ensures FilterData(df, GlobalSelector, Some(AllYears), Some((DefaultRangeStart, today)), today) == df
  {
    assert StatesCodes[GlobalSelector].None?;
    assert SelectorFilter(df, GlobalSelector) == df;
  }

  /** Filtering a filtered table again with the same settings changes nothing. */
  lemma FilterDataIdempotent(df: seq<Row>, selector: string, year: Option<int>,
                             range: Option<(Date, Date)>, today: Date)
    ensures var once := FilterData(df, selector, year, range, today);
      FilterData(once, selector, year, range, today) == once
  {
    var once := FilterData(df, selector, year, range, today);
    var a := SelectorFilter(once, selector);
    if selector in StatesCodes {
      if RegionRestricts(StatesCodes[selector]) {
        WhereAll(once, (r: Row) => r.regionName == StatesCodes[selector].value);
      }
    } else {
      WhereAll(once, (r: Row) => r.receiverCountry == selector);
    }
    assert a == once;
    if YearActive(year) {
      WhereAll(once, (r: Row) => r.startDate.Some? && Year(r.startDate.value) == year.value);
    }
    assert YearFilter(a, year) == once;
    if RangeActive(range, today) {
      WhereAll(once, (r: Row) => r.startDate.Some? && InRange(r.startDate.value, range.value));
    }
  }

  /** A range whose start is after its end keeps nothing, unless it is the
      default range (possible only when today is before 2000). */
  lemma FilterReversedRangeEmpty(df: seq<Row>, selector: string, year: Option<int>,
                                 lo: Date, hi: Date, today: Date)
    requires Ordinal(hi) < Ordinal(lo) && (lo, hi) != (DefaultRangeStart, today)
    ensures FilterData(df, selector, year, Some((lo, hi)), today) == []
  {
    var before := YearFilter(SelectorFilter(df, selector), year);
    WhereNone(before, (r: Row) => r.startDate.Some? && InRange(r.startDate.value, (lo, hi)));
  }

  /** The id of the receiver selector, one of the triggers that reset a
      selection. */
  const CountrySelectorId := "selected-country"

  /** The rows a callback starts from: filter_data with only the receiver
      selector set. */
  function SelectedRows(df: seq<Row>, selector: string): (rows: seq<Row>)
    ensures forall r :: r in rows <==> r in df && Selected(r, selector)
    ensures multiset(rows) <= multiset(df)
  {
    FilterData(df, selector, None, None, DefaultRangeStart)
  }

  /** The identifier of the component that fired a callback: the part of the
      Dash property id ("component.property") before its first dot. */
  function TriggerId(propId: string): (id: string)
    ensures id <= propId
    ensures '.' !in id
    ensures |id| < |propId| ==> propId[|id|] == '.'
  {
    if propId == [] || propId[0] == '.' then []
    else [propId[0]] + TriggerId(propId[1..])
  }

  /** The component id of "component.property" is the component. */
  lemma {:induction false} TriggerIdOfPropId(component: string, property: string)
    requires '.' !in component
    ensures TriggerId(component + "." + property) == component
  {
    if component != [] {
      assert (component + "." + property)[1..] == component[1..] + "." + property;
      TriggerIdOfPropId(component[1..], property);
    }
  }
}
