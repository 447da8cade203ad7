/** The initiators section: the stacked chart of initiator countries and the
    table of the most active actors (both narrowed by a sector button and the
    year slider), the mutually exclusive sector buttons, and the conflict pie
    that drives a conflict -> sector -> initiator-country chain of charts. */
module InitiatorsSection {
  import opened Frame
  import opened Utils

  // ---------------------------------------------------------- sector buttons

  const AllButton := "all-button"

  /** The sector buttons, in the order the page lists them. */
  const ButtonKeys: seq<string> := [
    "all-button", "health-button", "energy-button", "finance-button", "telecom-button",
    "transportation-button", "defence-industry-button", "research-button",
    "critical-manufacturing-button", "digital-provider-button", "food-button",
    "water-button", "chemicals-button", "space-button", "waste-water-management-button"
  ]

  /** The receiver sector each button stands for; the all-button has none. */
  const ButtonToSector: map<string, Option<string>> := map[
    "all-button" := None,
    "health-button" := Some("Health"),
    "energy-button" := Some("Energy"),
    "finance-button" := Some("Finance"),
    "telecom-button" := Some("Telecommunications"),
    "transportation-button" := Some("Transportation"),
    "defence-industry-button" := Some("Defence industry"),
    "research-button" := Some("Research"),
    "critical-manufacturing-button" := Some("Critical Manufacturing"),
    "digital-provider-button" := Some("Digital Provider"),
    "food-button" := Some("Food"),
    "water-button" := Some("Water"),
    "chemicals-button" := Some("Chemicals"),
    "space-button" := Some("Space"),
    "waste-water-management-button" := Some("Waste Water Management")
  ]

  /** A button the sector lookup accepts: no button at all (the empty id) or
      one of the page's buttons; any other id is a missing key. */
  predicate KnownButton(button: string) {
    button == "" || button in ButtonToSector
  }

  /** Whether the sector filter of a button keeps a row. */
  predicate ButtonKeeps(button: string, r: Row)
    requires KnownButton(button)
  {
    button == "" || button == AllButton || Some(r.receiverSubcategory) == ButtonToSector[button]
  }

  /** The sector filter of filter_data_initiators: no button or the
      all-button keeps everything, any other button exactly the rows of its
      sector. */
  function ButtonRows(df: seq<Row>, button: string): (rows: seq<Row>)
    requires KnownButton(button)
    ensures forall r :: r in rows <==> r in df && ButtonKeeps(button, r)
    ensures button == "" || button == AllButton ==> rows == df
    ensures multiset(rows) <= multiset(df)
  {
    if button == "" || button == AllButton then df
    else Where(df, (r: Row) => Some(r.receiverSubcategory) == ButtonToSector[button])
  }

  /** A slider position below 2025 is a single year. */
  predicate InYear(r: Row, year: int) {
    year < AllYears ==> r.startDate.Some? && Year(r.startDate.value) == year
  }

  /** The year restriction of the aggregates: below 2025 only the incidents
      that started in the selected year (an incident without a start date
      has no year bucket); otherwise every row. */
  function YearRows(rows: seq<Row>, year: int): (out: seq<Row>)
    ensures forall r :: r in out <==> r in rows && InYear(r, year)
    ensures year >= AllYears ==> out == rows
  {
    if year < AllYears then
      Where(rows, (r: Row) => r.startDate.Some? && Year(r.startDate.value) == year)
    else rows
  }

  /** The rows that update_aggregate_plot aggregates: a click on one of the
      page's buttons selects that button, anything else the all-button. */
  function AggregateButton(trigger: Option<string>): (button: string)
    ensures button in ButtonToSector
    ensures trigger.Some? && trigger.value in ButtonToSector ==> button == trigger.value
    ensures !(trigger.Some? && trigger.value in ButtonToSector) ==> ButtonToSector[button].None?
  {
    if trigger.Some? && trigger.value in ButtonToSector then trigger.value else AllButton
  }

  /** update_button_active_state: before any input the first button is
      active and the others not; afterwards exactly the button that fired is
      active (none, if the trigger was not a button). */
  function ActiveButtons(trigger: Option<string>): (active: seq<bool>)
    ensures |active| == |ButtonKeys|
    ensures trigger.None? ==> active[0] && forall i :: 1 <= i < |active| ==> !active[i]
    ensures trigger.Some? ==> forall i :: 0 <= i < |active| ==> (active[i] <==> ButtonKeys[i] == trigger.value)
    ensures AtMostOne(active)
    ensures trigger.Some? && trigger.value in ButtonKeys ==> exists i :: 0 <= i < |active| && active[i]
  {
    if trigger.None? then
      [true] + seq(|ButtonKeys| - 1, i => false)
    else
      var active := seq(|ButtonKeys|, i requires 0 <= i < |ButtonKeys| => ButtonKeys[i] == trigger.value);
      ButtonKeysUnique();
      assert trigger.value in ButtonKeys ==> exists i :: 0 <= i < |active| && active[i] by {
        if trigger.value in ButtonKeys {
          var i :| 0 <= i < |ButtonKeys| && ButtonKeys[i] == trigger.value;
          assert active[i];
        }
      }
      active
  }

  /** The button ids and the keys of the sector table are the same fifteen
      ids, each listed once, the all-button first. */
  lemma ButtonKeysAreKeys()
    ensures (set k | k in ButtonKeys) == ButtonToSector.Keys
    ensures Unique(ButtonKeys) && |ButtonKeys| == 15 && ButtonKeys[0] == AllButton
  {
    ButtonKeysUnique();
  }

  lemma ButtonKeysUnique()
    ensures Unique(ButtonKeys)
  {
  }

  // ---------------------------------------------------------- top-5 actors

  /** The grouping key of the actor table: name, alpha-2 code and the three
      most-common attributes of the initiator. */
  datatype ActorKey = ActorKey(
    name: Option<string>,
    code: Option<string>,
    category: Option<string>,
    attackType: Option<string>,
    access: Option<string>
  )

  function ActorKeyOf(r: Row): ActorKey {
    ActorKey(r.initiatorName, r.alpha2Code, r.initiatorCategoryMostCommon,
             r.typeCleanMostCommon, r.initialAccessMostCommon)
  }

  /** A groupby drops every row with a null key column. */
  predicate Complete(k: ActorKey) {
    k.name.Some? && k.code.Some? && k.category.Some? && k.attackType.Some? && k.access.Some?
  }

  const NonActors: set<string> := {"Not attributed", "Unknown", "Not available"}

  /** A row that can appear in the actor table: a complete key whose name is
      an actual actor. */
  predicate Listable(r: Row) {
    Complete(ActorKeyOf(r)) && ActorKeyOf(r).name.value !in NonActors
  }

  predicate NamedActor(g: Group<ActorKey>) {
    g.key.name.Some? && g.key.name.value !in NonActors
  }

  /** The groups of the actor table before ranking: one per complete key
      whose name is an actor, each with its distinct incidents. */
  function NamedGroups(rows: seq<Row>): (named: seq<Group<ActorKey>>)
    ensures forall g :: g in named ==> (Complete(g.key) && NamedActor(g)
      && g.incidents == |IdsWith(rows, ActorKeyOf, g.key)| && g.incidents >= 1)
    ensures forall r :: r in rows && Listable(r) ==>
      Group(ActorKeyOf(r), |IdsWith(rows, ActorKeyOf, ActorKeyOf(r))|) in named
  {
    var keyed := Where(rows, (r: Row) => Complete(ActorKeyOf(r)));
    var gs := CountBy(keyed, ActorKeyOf);
    var named := Select(gs, NamedActor);
    ActorCounts(rows, keyed, gs);
    ListableGrouped(rows, keyed, gs, named);
    named
  }

  /** The actor table of some rows (already narrowed by sector and year):
      at most five actors, each with its number of distinct incidents, in
      descending order, none of them a non-actor; no actor left out has more
      incidents than one listed, and with fewer than five listed no actor is
      left out. */
  function TopActorsOf(rows: seq<Row>): (top: seq<Group<ActorKey>>)
    ensures |top| <= 5
    ensures forall g :: g in top ==> (
      && Complete(g.key) && g.key.name.value !in NonActors
      && g.incidents == |IdsWith(rows, ActorKeyOf, g.key)| && g.incidents >= 1)
    ensures SortedBy(top, Larger)
    ensures forall r, g :: (r in rows && Listable(r) && ActorKeyOf(r) !in GroupKeys(top) && g in top
      ==> |IdsWith(rows, ActorKeyOf, ActorKeyOf(r))| <= g.incidents)
    ensures |top| < 5 ==> forall r :: r in rows && Listable(r) ==> ActorKeyOf(r) in GroupKeys(top)
  {
    var named := NamedGroups(rows);
    LargerTotal<ActorKey>();
    var top := TopBy(named, Larger, 5);
    GroupsIn(named, top);
    TopActorsLeftOut(rows, named, top);
    top
  }

  lemma TopActorsLeftOut(rows: seq<Row>, named: seq<Group<ActorKey>>, top: seq<Group<ActorKey>>)
    requires named == NamedGroups(rows)
    requires TotalPreorder(Larger<ActorKey>)
    requires top == TopBy(named, Larger, 5)
    ensures forall r, g :: (r in rows && Listable(r) && ActorKeyOf(r) !in GroupKeys(top) && g in top
      ==> |IdsWith(rows, ActorKeyOf, ActorKeyOf(r))| <= g.incidents)
    ensures |top| < 5 ==> forall r :: r in rows && Listable(r) ==> ActorKeyOf(r) in GroupKeys(top)
  {
    forall r, g | r in rows && Listable(r) && ActorKeyOf(r) !in GroupKeys(top) && g in top
      ensures |IdsWith(rows, ActorKeyOf, ActorKeyOf(r))| <= g.incidents
    {
      var y := Group(ActorKeyOf(r), |IdsWith(rows, ActorKeyOf, ActorKeyOf(r))|);
      assert y in named;
      assert y !in top;
      assert Larger(g, y);
    }
    if |top| < 5 {
      SameGroups(named, top);
      forall r | r in rows && Listable(r)
        ensures ActorKeyOf(r) in GroupKeys(top)
      {
        var y := Group(ActorKeyOf(r), |IdsWith(rows, ActorKeyOf, ActorKeyOf(r))|);
        assert y in top;
      }
    }
  }

  /** The incident count of a complete key is the same before and after
      dropping the rows with a null key. */
  lemma ActorCounts(rows: seq<Row>, keyed: seq<Row>, gs: seq<Group<ActorKey>>)
    requires forall r :: r in keyed <==> r in rows && Complete(ActorKeyOf(r))
    requires IsGrouping(gs, keyed, ActorKeyOf)
    ensures forall g :: g in gs ==> (Complete(g.key)
      && g.incidents == |IdsWith(rows, ActorKeyOf, g.key)| && g.incidents >= 1)
  {
    forall g | g in gs
      ensures Complete(g.key) && g.incidents == |IdsWith(rows, ActorKeyOf, g.key)|
    {
      assert g.key in GroupKeys(gs);
      var r :| r in keyed && ActorKeyOf(r) == g.key;
      assert IdsWith(rows, ActorKeyOf, g.key) == IdsWith(keyed, ActorKeyOf, g.key);
    }
  }

  /** Every listable row has its group among the named groups. */
  lemma ListableGrouped(rows: seq<Row>, keyed: seq<Row>, gs: seq<Group<ActorKey>>, named: seq<Group<ActorKey>>)
    requires forall r :: r in keyed <==> r in rows && Complete(ActorKeyOf(r))
    requires IsGrouping(gs, keyed, ActorKeyOf)
    requires forall g :: g in named <==> g in gs && NamedActor(g)
    requires forall g :: g in gs ==> g.incidents == |IdsWith(rows, ActorKeyOf, g.key)|
    ensures forall r :: r in rows && Listable(r) ==>
      Group(ActorKeyOf(r), |IdsWith(rows, ActorKeyOf, ActorKeyOf(r))|) in named
  {
    forall r | r in rows && Listable(r)
      ensures Group(ActorKeyOf(r), |IdsWith(rows, ActorKeyOf, ActorKeyOf(r))|) in named
    {
      assert r in keyed;
      assert ActorKeyOf(r) in GroupKeys(gs);
      var g :| g in gs && g.key == ActorKeyOf(r);
    }
  }

  /** filter_data_initiators with initiator_name set: the actor table of the
      button's sector in the selected year. */
  function ActorTable(df: seq<Row>, button: string, year: int): (top: seq<Group<ActorKey>>)
    requires KnownButton(button)
    ensures |top| <= 5
    ensures forall g :: g in top ==> exists r :: r in df && ButtonKeeps(button, r) && InYear(r, year) && ActorKeyOf(r) == g.key
  {
    var rows := YearRows(ButtonRows(df, button), year);
    var top := TopActorsOf(rows);
    forall g | g in top
      ensures exists r :: r in df && ButtonKeeps(button, r) && InYear(r, year) && ActorKeyOf(r) == g.key
    {
      var r :| r in rows && ActorKeyOf(r) == g.key && r.id in IdsWith(rows, ActorKeyOf, g.key);
    }
    top
  }

  // ---------------------------------------------------------- top-10 countries

  const TopCountryCount := 10

  /** The grouping key of the country chart. */
  datatype Origin = Origin(country: Option<string>, category: Option<string>)

  function OriginOf(r: Row): Origin {
    Origin(r.initiatorCountry, r.initiatorCategory)
  }

  predicate HasOrigin(r: Row) {
    r.initiatorCountry.Some? && r.initiatorCategory.Some?
  }

  function CountrySet(gs: seq<Group<Origin>>): set<Option<string>> {
    set g | g in gs :: g.key.country
  }

  /** `groupby('initiator_country')['total'].sum()`: the sum of a country's
      per-category incident counts. */
  function CountryTotal(gs: seq<Group<Origin>>, c: Option<string>): nat {
    if gs == [] then 0
    else
      CountryTotal(gs[..|gs| - 1], c)
        + (if gs[|gs| - 1].key.country == c then gs[|gs| - 1].incidents else 0)
  }

  /** A country's total is at least each of its category counts. */
  lemma {:induction false} CountryTotalAtLeast(gs: seq<Group<Origin>>, g: Group<Origin>)
    requires g in gs
    ensures g.incidents <= CountryTotal(gs, g.key.country)
  {
    var init := gs[..|gs| - 1];
    if g != gs[|gs| - 1] {
      assert gs == init + [gs[|gs| - 1]];
      assert g in init;
      CountryTotalAtLeast(init, g);
    }
  }

  /** One entry per country of the groups, with its total. */
  function CountryTotals(gs: seq<Group<Origin>>): (ts: seq<Group<Option<string>>>)
    ensures GroupKeys(ts) == CountrySet(gs)
    ensures |ts| == |CountrySet(gs)|
    ensures forall t :: t in ts ==> t.incidents == CountryTotal(gs, t.key)
  {
    var countries := seq(|gs|, i requires 0 <= i < |gs| => gs[i].key.country);
    var cs := Distinct(countries);
    var ts := seq(|cs|, i requires 0 <= i < |cs| => Group(cs[i], CountryTotal(gs, cs[i])));
    assert (set c | c in cs) == CountrySet(gs) by {
      forall g | g in gs ensures g.key.country in cs {
        var i :| 0 <= i < |gs| && gs[i] == g;
        assert countries[i] == g.key.country;
      }
    }
    assert GroupKeys(ts) == (set c | c in cs) by {
      forall c | c in cs ensures c in GroupKeys(ts) {
        var i :| 0 <= i < |cs| && cs[i] == c;
        assert ts[i] in ts;
      }
    }
    UniqueCard(cs);
    ts
  }

  /** `overall_totals.nlargest(10).index`: at most ten countries of the
      groups; none left out has a larger total than one kept, and with at
      most ten countries all are kept. */
  function TopCountries(gs: seq<Group<Origin>>): (top: set<Option<string>>)
    ensures top <= CountrySet(gs)
    ensures |top| <= TopCountryCount
    ensures forall c, k :: (c in CountrySet(gs) && c !in top && k in top
      ==> CountryTotal(gs, c) <= CountryTotal(gs, k))
    ensures |CountrySet(gs)| <= TopCountryCount ==> top == CountrySet(gs)
  {
    LargerTotal<Option<string>>();
    var ts := CountryTotals(gs);
    var best := TopBy(ts, Larger, TopCountryCount);
    KeysCard(best);
    GroupsIn(ts, best);
    TopCountriesLeftOut(gs, ts, best);
    GroupKeys(best)
  }

  lemma TopCountriesLeftOut(gs: seq<Group<Origin>>, ts: seq<Group<Option<string>>>, best: seq<Group<Option<string>>>)
    requires ts == CountryTotals(gs)
    requires TotalPreorder(Larger<Option<string>>)
    requires best == TopBy(ts, Larger, TopCountryCount)
    ensures forall c, k :: (c in CountrySet(gs) && c !in GroupKeys(best) && k in GroupKeys(best)
      ==> CountryTotal(gs, c) <= CountryTotal(gs, k))
    ensures |CountrySet(gs)| <= TopCountryCount ==> GroupKeys(best) == CountrySet(gs)
  {
    GroupsIn(ts, best);
    forall c, k | c in CountrySet(gs) && c !in GroupKeys(best) && k in GroupKeys(best)
      ensures CountryTotal(gs, c) <= CountryTotal(gs, k)
    {
      var y :| y in ts && y.key == c;
      var x :| x in best && x.key == k;
      assert y !in best;
      assert Larger(x, y);
    }
    if |CountrySet(gs)| <= TopCountryCount {
      SameGroups(ts, best);
    }
  }

  /** One bar of the country chart: a (country, category) pair, its incident
      count and the country's total. */
  datatype CountryBar = CountryBar(origin: Origin, total: nat, totalOverall: nat)

  /** Ascending by country total, then by category count. */
  predicate OverallThenTotal(a: CountryBar, b: CountryBar) {
    a.totalOverall < b.totalOverall || (a.totalOverall == b.totalOverall && a.total <= b.total)
  }

  lemma OverallThenTotalOrder()
    ensures TotalPreorder(OverallThenTotal)
  {
  }

  function BarCountries(bars: seq<CountryBar>): set<Option<string>> {
    set b | b in bars :: b.origin.country
  }

  /** The groups of the kept countries, each with its country's total
      (`isin(top_countries)` followed by the merge with the totals). */
  function KeptBars(gs: seq<Group<Origin>>, top: set<Option<string>>): (bars: seq<CountryBar>)
    ensures forall b :: b in bars <==> exists g :: (g in gs && g.key.country in top
      && b == CountryBar(g.key, g.incidents, CountryTotal(gs, g.key.country)))
  {
    var kept := Select(gs, (g: Group<Origin>) => g.key.country in top);
    var bars := seq(|kept|, i requires 0 <= i < |kept| =>
      CountryBar(kept[i].key, kept[i].incidents, CountryTotal(gs, kept[i].key.country)));
    forall b | b in bars
      ensures exists g :: (g in gs && g.key.country in top
        && b == CountryBar(g.key, g.incidents, CountryTotal(gs, g.key.country)))
    {
      var i :| 0 <= i < |bars| && bars[i] == b;
      assert kept[i] in kept;
    }
    forall g | g in gs && g.key.country in top
      ensures CountryBar(g.key, g.incidents, CountryTotal(gs, g.key.country)) in bars
    {
      var i :| 0 <= i < |kept| && kept[i] == g;
      assert bars[i] == CountryBar(g.key, g.incidents, CountryTotal(gs, g.key.country));
    }
    bars
  }

  /** The per-(country, category) groups of the rows with both columns set. */
  function OriginGroups(rows: seq<Row>): (gs: seq<Group<Origin>>)
    ensures CountrySet(gs) == (set r | r in rows && HasOrigin(r) :: r.initiatorCountry)
    ensures forall g :: g in gs ==> (g.key.country.Some? && g.key.category.Some?
      && g.incidents == |IdsWith(rows, OriginOf, g.key)| && g.incidents >= 1)
    ensures forall r :: r in rows && HasOrigin(r) ==>
      Group(OriginOf(r), |IdsWith(rows, OriginOf, OriginOf(r))|) in gs
  {
    var keyed := Where(rows, HasOrigin);
    var gs := CountBy(keyed, OriginOf);
    forall g | g in gs
      ensures g.key.country.Some? && g.key.category.Some?
        && g.incidents == |IdsWith(rows, OriginOf, g.key)|
    {
      assert g.key in GroupKeys(gs);
      var r :| r in keyed && OriginOf(r) == g.key;
      assert IdsWith(rows, OriginOf, g.key) == IdsWith(keyed, OriginOf, g.key);
    }
    forall r | r in rows && HasOrigin(r)
      ensures Group(OriginOf(r), |IdsWith(rows, OriginOf, OriginOf(r))|) in gs
        && r.initiatorCountry in CountrySet(gs)
    {
      assert r in keyed;
      assert OriginOf(r) in GroupKeys(gs);
      var g :| g in gs && g.key == OriginOf(r);
    }
    gs
  }

  /** The sum of a country's per-category counts among some rows. */
  function OverallTotal(rows: seq<Row>, c: Option<string>): nat {
    CountryTotal(OriginGroups(rows), c)
  }

  /** The country chart of some rows (already narrowed by sector and year):
      one bar per (country, category) pair of at most ten countries, with
      its distinct incidents and its country's total; every pair of a kept
      country is there; no country left out has a larger total than a kept
      one, and with at most ten countries none is left out; ascending by
      (country total, count). */
  function CountryChartOf(rows: seq<Row>): (bars: seq<CountryBar>)
    ensures forall b :: b in bars ==>
      && b.origin.country.Some? && b.origin.category.Some?
      && b.total == |IdsWith(rows, OriginOf, b.origin)| && b.total >= 1
      && b.totalOverall == OverallTotal(rows, b.origin.country)
      && b.total <= b.totalOverall
    ensures |BarCountries(bars)| <= TopCountryCount
    ensures forall r :: (r in rows && HasOrigin(r) && r.initiatorCountry in BarCountries(bars)
      ==> exists b :: b in bars && b.origin == OriginOf(r))
    ensures forall r, b :: (r in rows && HasOrigin(r) && r.initiatorCountry !in BarCountries(bars) && b in bars
      ==> OverallTotal(rows, r.initiatorCountry) <= b.totalOverall)
    ensures |set r | r in rows && HasOrigin(r) :: r.initiatorCountry| <= TopCountryCount
      ==> forall r :: r in rows && HasOrigin(r) ==> r.initiatorCountry in BarCountries(bars)
    ensures SortedBy(bars, OverallThenTotal)
  {
    var gs := OriginGroups(rows);
    var top := TopCountries(gs);
    var kept := KeptBars(gs, top);
    OverallThenTotalOrder();
    var bars := SortBy(kept, OverallThenTotal);
    BarsReordered(kept, bars, gs, top);
    BarsLeftOut(rows, gs, top, bars);
    BarsCounted(rows, gs, top, bars);
    BarsCountries(gs, top, bars);
    BarsComplete(rows, gs, top, bars);
    bars
  }

  /** The bars of the kept groups, in any order. */
  ghost predicate BarsOfGroups(bars: seq<CountryBar>, gs: seq<Group<Origin>>, top: set<Option<string>>) {
    forall b :: b in bars <==> exists g :: (g in gs && g.key.country in top
      && b == CountryBar(g.key, g.incidents, CountryTotal(gs, g.key.country)))
  }

  lemma BarsReordered(kept: seq<CountryBar>, bars: seq<CountryBar>, gs: seq<Group<Origin>>, top: set<Option<string>>)
    requires BarsOfGroups(kept, gs, top)
    requires multiset(bars) == multiset(kept)
    ensures BarsOfGroups(bars, gs, top)
  {
    forall b ensures b in bars <==> b in kept {
      assert b in bars <==> b in multiset(bars);
    }
  }

  lemma BarsLeftOut(rows: seq<Row>, gs: seq<Group<Origin>>, top: set<Option<string>>, bars: seq<CountryBar>)
    requires gs == OriginGroups(rows)
    requires top == TopCountries(gs)
    requires BarsOfGroups(bars, gs, top)
    ensures forall r, b :: (r in rows && HasOrigin(r) && r.initiatorCountry !in top && b in bars
      ==> OverallTotal(rows, r.initiatorCountry) <= b.totalOverall)
  {
    forall r, b | r in rows && HasOrigin(r) && r.initiatorCountry !in top && b in bars
      ensures OverallTotal(rows, r.initiatorCountry) <= b.totalOverall
    {
      var g :| g in gs && g.key.country in top
        && b == CountryBar(g.key, g.incidents, CountryTotal(gs, g.key.country));
      assert r.initiatorCountry in CountrySet(gs);
    }
  }

  lemma BarsCounted(rows: seq<Row>, gs: seq<Group<Origin>>, top: set<Option<string>>, bars: seq<CountryBar>)
    requires gs == OriginGroups(rows)
    requires BarsOfGroups(bars, gs, top)
    ensures forall b :: b in bars ==> (
      && b.origin.country.Some? && b.origin.category.Some?
      && b.total == |IdsWith(rows, OriginOf, b.origin)| && b.total >= 1
      && b.totalOverall == OverallTotal(rows, b.origin.country)
      && b.total <= b.totalOverall)
  {
    forall b | b in bars
      ensures b.total <= b.totalOverall
    {
      var g :| g in gs && g.key.country in top
        && b == CountryBar(g.key, g.incidents, CountryTotal(gs, g.key.country));
      CountryTotalAtLeast(gs, g);
    }
  }

  lemma BarsCountries(gs: seq<Group<Origin>>, top: set<Option<string>>, bars: seq<CountryBar>)
    requires top <= CountrySet(gs)
    requires BarsOfGroups(bars, gs, top)
    ensures BarCountries(bars) == top
  {
    forall c | c in top ensures c in BarCountries(bars) {
      var g :| g in gs && g.key.country == c;
      assert CountryBar(g.key, g.incidents, CountryTotal(gs, g.key.country)) in bars;
    }
  }

  lemma BarsComplete(rows: seq<Row>, gs: seq<Group<Origin>>, top: set<Option<string>>, bars: seq<CountryBar>)
    requires gs == OriginGroups(rows)
    requires BarsOfGroups(bars, gs, top)
    ensures forall r :: (r in rows && HasOrigin(r) && r.initiatorCountry in top
      ==> exists b :: b in bars && b.origin == OriginOf(r))
  {
    forall r | r in rows && HasOrigin(r) && r.initiatorCountry in top
      ensures exists b :: b in bars && b.origin == OriginOf(r)
    {
      var g := Group(OriginOf(r), |IdsWith(rows, OriginOf, OriginOf(r))|);
      assert g in gs;
      GroupHasBar(bars, gs, top, g);
    }
  }

  /** Every group of a top country has its bar. */
  lemma GroupHasBar(bars: seq<CountryBar>, gs: seq<Group<Origin>>, top: set<Option<string>>, g: Group<Origin>)
    requires BarsOfGroups(bars, gs, top)
    requires g in gs && g.key.country in top
    ensures CountryBar(g.key, g.incidents, CountryTotal(gs, g.key.country)) in bars
  {
  }

  /** filter_data_initiators without initiator_name: the country chart of
      the button's sector in the selected year. */
  function CountryChart(df: seq<Row>, button: string, year: int): (bars: seq<CountryBar>)
    requires KnownButton(button)
    ensures |BarCountries(bars)| <= TopCountryCount
    ensures forall b :: b in bars ==> exists r :: (r in df && ButtonKeeps(button, r) && InYear(r, year)
      && OriginOf(r) == b.origin)
  {
    var rows := YearRows(ButtonRows(df, button), year);
    var bars := CountryChartOf(rows);
    forall b | b in bars
      ensures exists r :: r in df && ButtonKeeps(button, r) && InYear(r, year) && OriginOf(r) == b.origin
    {
      var r :| r in rows && OriginOf(r) == b.origin && r.id in IdsWith(rows, OriginOf, b.origin);
    }
    bars
  }

  // ---------------------------------------------------------- conflicts

  const NotAvailable := "Not available"
  const AllConflicts := "All conflicts"
  const AllSectors := "All sectors"

  /** The rows linked to a known offline conflict. */
  function ConflictLinked(rows: seq<Row>): (out: seq<Row>)
    ensures forall r :: r in out <==> r in rows && r.conflictName != NotAvailable
  {
    Where(rows, (r: Row) => r.conflictName != NotAvailable)
  }

  function Conflict(r: Row): string { r.conflictName }

  /** One segment of the conflict sector bar: a sector, its incidents, its
      percentage of the chart and the conflict the chart shows. */
  datatype Share = Share(sector: string, incidents: nat, percent: real, conflict: string)

  function Counts<K>(gs: seq<Group<K>>): (cs: seq<nat>)
    ensures |cs| == |gs|
    ensures forall i :: 0 <= i < |gs| ==> cs[i] == gs[i].incidents
  {
    seq(|gs|, i requires 0 <= i < |gs| => gs[i].incidents)
  }

  function SharesOf(gs: seq<Group<string>>, total: nat, conflict: string): (shares: seq<Share>)
    requires total > 0
    ensures |shares| == |gs|
    ensures forall i :: 0 <= i < |gs| ==>
      shares[i] == Share(gs[i].key, gs[i].incidents, Percent(gs[i].incidents, total), conflict)
  {
    seq(|gs|, i requires 0 <= i < |gs| =>
      Share(gs[i].key, gs[i].incidents, Percent(gs[i].incidents, total), conflict))
  }

  function Percents(shares: seq<Share>): (ps: seq<real>)
    ensures |ps| == |shares|
    ensures forall i :: 0 <= i < |shares| ==> ps[i] == shares[i].percent
  {
    seq(|shares|, i requires 0 <= i < |shares| => shares[i].percent)
  }

  /** Whether the conflict sector chart counts a row: linked to a known
      conflict, and to the clicked one when a conflict was clicked. */
  predicate ConflictKeeps(r: Row, clicked: Option<string>) {
    r.conflictName != NotAvailable && (clicked.Some? ==> r.conflictName == clicked.value)
  }

  function ConflictRows(df: seq<Row>, clicked: Option<string>): (rows: seq<Row>)
    ensures forall r :: r in rows <==> r in df && ConflictKeeps(r, clicked)
  {
    var linked := ConflictLinked(df);
    if clicked.Some? then Where(linked, (r: Row) => r.conflictName == clicked.value) else linked
  }

  function ShownConflict(clicked: Option<string>): string {
    if clicked.Some? then clicked.value else AllConflicts
  }

  function SectorSet(shares: seq<Share>): set<string> {
    set s | s in shares :: s.sector
  }

  function ShareTotal(shares: seq<Share>): nat {
    if shares == [] then 0 else ShareTotal(shares[..|shares| - 1]) + shares[|shares| - 1].incidents
  }

  /** conflict_sectors_graph: None (the empty figure) when no row is left
      after dropping unknown conflicts and, on a click, other conflicts;
      otherwise one segment per sector of those rows with its distinct
      incidents and its share of their sum, the shares adding up to 100 and
      in descending order, each labelled with the conflict shown. */
  function ConflictSectors(df: seq<Row>, clicked: Option<string>): (out: Option<seq<Share>>)
    ensures out.None? <==> ConflictRows(df, clicked) == []
    ensures out.Some? ==> (
      var shares := out.value;
      && |shares| >= 1
      && SectorSet(shares) == (set r | r in ConflictRows(df, clicked) :: Sector(r))
      && |shares| == |SectorSet(shares)|
      && ShareTotal(shares) >= 1
      && (forall s :: s in shares ==>
            && s.incidents == |IdsWith(ConflictRows(df, clicked), Sector, s.sector)| && s.incidents >= 1
            && s.conflict == ShownConflict(clicked)
            && s.percent == Percent(s.incidents, ShareTotal(shares)))
      && RealSum(Percents(shares)) == 100.0
      && (forall i, j :: 0 <= i < j < |shares| ==> shares[i].percent >= shares[j].percent))
  {
    var rows := ConflictRows(df, clicked);
    if rows == [] then None
    else
      LargerTotal<string>();
      var gs := SortBy(CountBy(rows, Sector), Larger);
      GroupingPermuted(CountBy(rows, Sector), gs, rows, Sector);
      var shares := ConflictShares(rows, gs, clicked);
      Some(shares)
  }

  /** The segments of a non-empty grouping in descending order. */
  function ConflictShares(rows: seq<Row>, gs: seq<Group<string>>, clicked: Option<string>): (shares: seq<Share>)
    requires rows != []
    requires IsGrouping(gs, rows, Sector)
    requires SortedBy(gs, Larger)
    ensures |shares| >= 1
    ensures SectorSet(shares) == (set r | r in rows :: Sector(r))
    ensures |shares| == |SectorSet(shares)|
    ensures ShareTotal(shares) >= 1
    ensures forall s :: s in shares ==> (
      && s.incidents == |IdsWith(rows, Sector, s.sector)| && s.incidents >= 1
      && s.conflict == ShownConflict(clicked)
      && s.percent == Percent(s.incidents, ShareTotal(shares)))
    ensures RealSum(Percents(shares)) == 100.0
    ensures forall i, j :: 0 <= i < j < |shares| ==> shares[i].percent >= shares[j].percent
  {
    assert Sector(rows[0]) in GroupKeys(gs);
    var total := Sum(Counts(gs));
    SharesTotal(gs);
    var shares := SharesOf(gs, total, ShownConflict(clicked));
    ShareTotalCounts(gs, total, ShownConflict(clicked));
    assert Percents(shares) == PercentsOf(Counts(gs), total);
    PercentsSum(Counts(gs), total);
    PercentWhole(total);
    SharesSectors(rows, gs, total, ShownConflict(clicked));
    SharesSorted(gs, total, ShownConflict(clicked));
    shares
  }

  lemma SharesTotal(gs: seq<Group<string>>)
    requires |gs| >= 1
    requires forall g :: g in gs ==> g.incidents >= 1
    ensures Sum(Counts(gs)) >= 1
  {
    assert forall i :: 0 <= i < |gs| ==> gs[i] in gs;
    SumPositive(Counts(gs));
  }

  lemma SharesSectors(rows: seq<Row>, gs: seq<Group<string>>, total: nat, conflict: string)
    requires total > 0
    requires IsGrouping(gs, rows, Sector)
    ensures var shares := SharesOf(gs, total, conflict);
      && SectorSet(shares) == GroupKeys(gs)
      && forall s :: s in shares ==> (
        && s.incidents == |IdsWith(rows, Sector, s.sector)| && s.incidents >= 1
        && s.conflict == conflict && s.percent == Percent(s.incidents, total))
  {
    var shares := SharesOf(gs, total, conflict);
    forall g | g in gs ensures g.key in SectorSet(shares) {
      var i :| 0 <= i < |gs| && gs[i] == g;
      assert shares[i] in shares;
    }
    forall s | s in shares
      ensures s.incidents == |IdsWith(rows, Sector, s.sector)| && s.incidents >= 1
    {
      var i :| 0 <= i < |shares| && shares[i] == s;
      assert gs[i] in gs;
    }
  }

  lemma SharesSorted(gs: seq<Group<string>>, total: nat, conflict: string)
    requires total > 0
    requires SortedBy(gs, Larger)
    ensures var shares := SharesOf(gs, total, conflict);
      forall i, j :: 0 <= i < j < |shares| ==> shares[i].percent >= shares[j].percent
  {
    var shares := SharesOf(gs, total, conflict);
    forall i, j | 0 <= i < j < |shares|
      ensures shares[i].percent >= shares[j].percent
    {
      PercentMono(gs[i].incidents, gs[j].incidents, total);
    }
  }

  lemma {:induction false} ShareTotalCounts(gs: seq<Group<string>>, total: nat, conflict: string)
    requires total > 0
    ensures ShareTotal(SharesOf(gs, total, conflict)) == Sum(Counts(gs))
  {
    if gs != [] {
      var init := gs[..|gs| - 1];
      assert SharesOf(gs, total, conflict)[..|gs| - 1] == SharesOf(init, total, conflict);
      assert Counts(gs)[..|gs| - 1] == Counts(init);
      ShareTotalCounts(init, total, conflict);
    }
  }

  // ---------------------------------------------------------- conflict pie

  /** One segment of the conflict pie. */
  datatype Slice = Slice(conflict: string, incidents: nat, highlighted: bool)

  /** The order of a groupby's keys: by name. */
  predicate ByName(a: Group<string>, b: Group<string>) {
    StrLe(a.key, b.key)
  }

  lemma ByNameOrder()
    ensures TotalPreorder(ByName)
  {
    forall a: Group<string>, b: Group<string>
      ensures ByName(a, b) || ByName(b, a)
    {
      StrLeTotal(a.key, b.key);
    }
    forall a: Group<string>, b: Group<string>, c: Group<string> | ByName(a, b) && ByName(b, c)
      ensures ByName(a, c)
    {
      StrLeTrans(a.key, b.key, c.key);
    }
  }

  /** The pie segment to highlight: the clicked point, unless the reset
      button or the receiver selector fired. */
  function PieSegment(click: Option<int>, trigger: Option<string>, resetId: string): (segment: Option<int>)
    ensures trigger == Some(resetId) || trigger == Some(CountrySelectorId) ==> segment.None?
    ensures segment.Some? ==> segment == click
    ensures click.Some? && trigger != Some(resetId) && trigger != Some(CountrySelectorId) ==> segment == click
  {
    if trigger == Some(resetId) || trigger == Some(CountrySelectorId) then None else click
  }

  /** The pie of some rows: one segment per conflict with its distinct
      incidents, in order of name, the segment at the selected position (if
      any) highlighted and no other. */
  function PieOf(rows: seq<Row>, segment: Option<int>): (slices: seq<Slice>)
    ensures (set s | s in slices :: s.conflict) == (set r | r in rows :: Conflict(r))
    ensures |slices| == |set r | r in rows :: Conflict(r)|
    ensures forall s :: s in slices ==> s.incidents == |IdsWith(rows, Conflict, s.conflict)| && s.incidents >= 1
    ensures forall i, j :: 0 <= i < j < |slices| ==> StrLe(slices[i].conflict, slices[j].conflict)
    ensures forall i :: 0 <= i < |slices| ==> (slices[i].highlighted <==> segment == Some(i))
    ensures forall i, j :: 0 <= i < j < |slices| ==> !(slices[i].highlighted && slices[j].highlighted)
  {
    ByNameOrder();
    var gs := SortBy(CountBy(rows, Conflict), ByName);
    GroupingPermuted(CountBy(rows, Conflict), gs, rows, Conflict);
    SlicesCount(gs, rows, segment);
    Slices(gs, segment)
  }

  /** The slices of a grouping by conflict carry each conflict's incidents. */
  lemma SlicesCount(gs: seq<Group<string>>, rows: seq<Row>, segment: Option<int>)
    requires IsGrouping(gs, rows, Conflict)
    ensures forall s :: s in Slices(gs, segment) ==>
      s.incidents == |IdsWith(rows, Conflict, s.conflict)| && s.incidents >= 1
  {
    var slices := Slices(gs, segment);
    forall s | s in slices
      ensures s.incidents == |IdsWith(rows, Conflict, s.conflict)| && s.incidents >= 1
    {
      var i :| 0 <= i < |slices| && slices[i] == s;
      assert gs[i] in gs;
    }
  }

  /** update_main_conflict_graph: None (the empty figure) when the selected
      rows have no known conflict, otherwise their pie with the segment that
      PieSegment selects. */
  function PieSlices(df: seq<Row>, selector: string, click: Option<int>, trigger: Option<string>,
                     resetId: string): (out: Option<seq<Slice>>)
    ensures out.None? <==> ConflictLinked(SelectedRows(df, selector)) == []
    ensures out.Some? ==> out.value == PieOf(ConflictLinked(SelectedRows(df, selector)), PieSegment(click, trigger, resetId))
    ensures (trigger == Some(resetId) || trigger == Some(CountrySelectorId)) && out.Some?
      ==> forall s :: s in out.value ==> !s.highlighted
  {
    var rows := ConflictLinked(SelectedRows(df, selector));
    if rows == [] then None
    else Some(PieOf(rows, PieSegment(click, trigger, resetId)))
  }

  function Slices(gs: seq<Group<string>>, segment: Option<int>): (slices: seq<Slice>)
    ensures |slices| == |gs|
    ensures forall i :: 0 <= i < |gs| ==>
      slices[i] == Slice(gs[i].key, gs[i].incidents, segment == Some(i))
    ensures (set s | s in slices :: s.conflict) == GroupKeys(gs)
  {
    var slices := seq(|gs|, i requires 0 <= i < |gs| => Slice(gs[i].key, gs[i].incidents, segment == Some(i)));
    assert (set s | s in slices :: s.conflict) == GroupKeys(gs) by {
      forall g | g in gs ensures g.key in (set s | s in slices :: s.conflict) {
        var i :| 0 <= i < |gs| && gs[i] == g;
        assert slices[i] in slices;
      }
    }
    slices
  }

  // ---------------------------------------------------------- conflict chain

  /** The conflict the sector chart shows: the clicked pie label, unless the
      reset button or the receiver selector fired. */
  function ClickedConflict(trigger: Option<string>, click: Option<string>, resetId: string): (c: Option<string>)
    ensures trigger == Some(resetId) || trigger == Some(CountrySelectorId) ==> c.None?
    ensures trigger != Some(resetId) && trigger != Some(CountrySelectorId) ==> c == click
  {
    if trigger == Some(resetId) || trigger == Some(CountrySelectorId) then None else click
  }

  /** update_sectors_conflict_graph: the records of the sector chart, also
      written to the store the initiator chart reads; None for the empty
      figure. */
  function SectorsConflictGraph(df: seq<Row>, selector: string, trigger: Option<string>,
                                click: Option<string>, resetId: string): (store: Option<seq<Share>>)
    ensures store.Some? ==> |store.value| >= 1 && forall s :: s in store.value ==>
      s.conflict == ShownConflict(ClickedConflict(trigger, click, resetId))
    ensures store.None? <==> ConflictRows(SelectedRows(df, selector), ClickedConflict(trigger, click, resetId)) == []
    ensures store == ConflictSectors(SelectedRows(df, selector), ClickedConflict(trigger, click, resetId))
  {
    var rows := SelectedRows(df, selector);
    if rows == [] then None
    else ConflictSectors(rows, ClickedConflict(trigger, click, resetId))
  }

  /** The filters of the initiator chart: a sector and a conflict, None
      meaning all of them. */
  datatype Selection = Selection(sector: Option<string>, conflict: Option<string>)

  /** A stored conflict name, with "All conflicts" meaning no filter. */
  function StoredConflict(name: string): (c: Option<string>)
    ensures c.None? <==> name == AllConflicts
    ensures c.Some? ==> c.value == name
  {
    if name == AllConflicts then None else Some(name)
  }

  /** Whether a position of the stored records can be read. */
  predicate Readable(store: Option<seq<Share>>, i: int) {
    store.Some? && 0 <= i < |store.value|
  }

  /** The selection logic of update_initiators_conflict_graph. A click on a
      sector segment (not fired by the store) selects that segment's sector
      and the stored conflict; a store update keeps the stored conflict and
      resets the sector to all sectors; anything else selects everything.
      None when the source fails reading a record that is not there. */
  function ChainSelection(sectorClick: Option<int>, trigger: Option<string>, storeId: string,
                          store: Option<seq<Share>>): (sel: Option<Selection>)
    ensures sel.None? <==>
      || (sectorClick.Some? && trigger != Some(storeId) && !Readable(store, sectorClick.value))
      || (trigger == Some(storeId) && !Readable(store, 0))
    ensures sel.Some? && sectorClick.Some? && trigger != Some(storeId) ==>
      sel.value == Selection(Some(store.value[sectorClick.value].sector), StoredConflict(store.value[0].conflict))
    ensures sel.Some? && trigger == Some(storeId) ==>
      sel.value == Selection(None, StoredConflict(store.value[0].conflict))
    ensures sectorClick.None? && trigger != Some(storeId) ==> sel == Some(Selection(None, None))
  {
    if sectorClick.Some? && trigger != Some(storeId) then
      if Readable(store, sectorClick.value) then
        Some(Selection(Some(store.value[sectorClick.value].sector), StoredConflict(store.value[0].conflict)))
      else None
    else if trigger == Some(storeId) then
      if Readable(store, 0) then Some(Selection(None, StoredConflict(store.value[0].conflict))) else None
    else Some(Selection(None, None))
  }

  /** Whether a row matches a selection. */
  predicate Chosen(r: Row, sel: Selection) {
    && (sel.sector.Some? ==> r.receiverSubcategory == sel.sector.value)
    && (sel.conflict.Some? ==> r.conflictName == sel.conflict.value)
  }

  /** The rows that match a selection. */
  function ChosenRows(rows: seq<Row>, sel: Selection): (out: seq<Row>)
    ensures forall r :: r in out <==> r in rows && Chosen(r, sel)
  {
    Where(rows, (r: Row) => Chosen(r, sel))
  }

  /** The outcome of the initiator chart: the empty figure, a failure of the
      source, or the country chart of the selection with its labels. */
  datatype ChainOutcome =
    | NoConflictData
    | Fails
    | ChainChart(sector: string, conflict: string, bars: seq<CountryBar>)

  function Label(sel: Option<string>, all: string): string {
    if sel.Some? then sel.value else all
  }

  /** update_initiators_conflict_graph: the country chart of the selected
      rows linked to a known conflict that match the chain's selection. */
  function InitiatorsConflictGraph(df: seq<Row>, selector: string, sectorClick: Option<int>,
                                   trigger: Option<string>, storeId: string,
                                   store: Option<seq<Share>>): (out: ChainOutcome)
    ensures out.NoConflictData? <==> ConflictLinked(SelectedRows(df, selector)) == []
    ensures out.Fails? <==> (ConflictLinked(SelectedRows(df, selector)) != []
      && ChainSelection(sectorClick, trigger, storeId, store).None?)
    ensures out.ChainChart? ==> (
      var sel := ChainSelection(sectorClick, trigger, storeId, store).value;
      && out.sector == Label(sel.sector, AllSectors)
      && out.conflict == Label(sel.conflict, AllConflicts)
      && |BarCountries(out.bars)| <= TopCountryCount
      && forall b :: b in out.bars ==> exists r :: (r in df && Selected(r, selector)
           && r.conflictName != NotAvailable && Chosen(r, sel) && OriginOf(r) == b.origin))
    ensures out.ChainChart? ==>
      out.bars == CountryChartOf(ChosenRows(ConflictLinked(SelectedRows(df, selector)),
                                            ChainSelection(sectorClick, trigger, storeId, store).value))
  {
    var rows := ConflictLinked(SelectedRows(df, selector));
    if rows == [] then NoConflictData
    else
      var sel := ChainSelection(sectorClick, trigger, storeId, store);
      if sel.None? then Fails
      else
        var chosen := ChosenRows(rows, sel.value);
        var bars := CountryChartOf(chosen);
        ChainBarsSourced(df, selector, sel.value);
        ChainChart(Label(sel.value.sector, AllSectors), Label(sel.value.conflict, AllConflicts), bars)
  }

  /** Every bar of the chain's country chart comes from a selected row
      linked to a known conflict that matches the selection. */
  lemma ChainBarsSourced(df: seq<Row>, selector: string, sel: Selection)
    ensures var chosen := ChosenRows(ConflictLinked(SelectedRows(df, selector)), sel);
      forall b :: b in CountryChartOf(chosen) ==> exists r :: (r in df && Selected(r, selector)
        && r.conflictName != NotAvailable && Chosen(r, sel) && OriginOf(r) == b.origin)
  {
    var chosen := ChosenRows(ConflictLinked(SelectedRows(df, selector)), sel);
    forall b | b in CountryChartOf(chosen)
      ensures exists r :: (r in df && Selected(r, selector)
        && r.conflictName != NotAvailable && Chosen(r, sel) && OriginOf(r) == b.origin)
    {
      OriginWitness(chosen, b.origin);
      var r :| r in chosen && OriginOf(r) == b.origin;
      assert r in ConflictLinked(SelectedRows(df, selector));
    }
  }

  /** A row of an origin that has incidents. */
  lemma OriginWitness(rows: seq<Row>, origin: Origin)
    requires |IdsWith(rows, OriginOf, origin)| >= 1
    ensures exists r :: r in rows && OriginOf(r) == origin
  {
    var id :| id in IdsWith(rows, OriginOf, origin);
  }

  /** The chain end to end: after a click on a pie slice (any trigger but
      the reset button and the country selector) has made the sector chart
      store the segments of that conflict, the store update narrows the
      initiator chart to that conflict in every sector. */
  lemma StoreUpdateFollowsPie(df: seq<Row>, selector: string, click: string, resetId: string,
                              pieTrigger: string, storeId: string, sectorClick: Option<int>)
    requires click != AllConflicts
    requires pieTrigger != resetId && pieTrigger != CountrySelectorId
    requires SectorsConflictGraph(df, selector, Some(pieTrigger), Some(click), resetId).Some?
    ensures ChainSelection(sectorClick, Some(storeId), storeId,
      SectorsConflictGraph(df, selector, Some(pieTrigger), Some(click), resetId)) == Some(Selection(None, Some(click)))
  {
    var clicked := ClickedConflict(Some(pieTrigger), Some(click), resetId);
    assert ShownConflict(clicked) == click;
    StoreNarrowsToConflict(SectorsConflictGraph(df, selector, Some(pieTrigger), Some(click), resetId),
                           click, sectorClick, storeId);
  }

  /** A non-empty store whose records all name one conflict makes the store
      update select that conflict in every sector. */
  lemma StoreNarrowsToConflict(store: Option<seq<Share>>, conflict: string, sectorClick: Option<int>, storeId: string)
    requires conflict != AllConflicts
    requires store.Some? && |store.value| >= 1
    requires forall s :: s in store.value ==> s.conflict == conflict
    ensures ChainSelection(sectorClick, Some(storeId), storeId, store) == Some(Selection(None, Some(conflict)))
  {
    assert store.value[0] in store.value;
  }
}
