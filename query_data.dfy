/** The canonicalisation pipeline that turns the raw join of the incident
    database into the canonical table: settled-initiator resolution, impact
    relabelling, the post-Brexit carve-out, initiator cleaning and the
    per-initiator "most common" profile. */
module QueryData {
  import opened Frame

  // ================================================== preclean_data

  /** The set of settled-initiator values recorded for an incident. */
  function SettledValues(df: seq<Row>, id: int): set<Option<bool>> {
    set r | r in df && r.id == id :: r.settledInitiator
  }

  /** An incident is "No settled" when False is the only settled value it has. */
  predicate NoSettled(df: seq<Row>, id: int) {
    SettledValues(df, id) == {Some(false)}
  }

  /** The "No settled" incidents. */
  function NoSettledSet(df: seq<Row>): set<int> {
    set id | id in Ids(df) && NoSettled(df, id)
  }

  lemma SettledValuesSnoc(df: seq<Row>, i: nat, id: int)
    requires i < |df|
    ensures SettledValues(df[..i + 1], id)
         == SettledValues(df[..i], id) + (if df[i].id == id then {df[i].settledInitiator} else {})
  {
    assert df[..i + 1] == df[..i] + [df[i]];
  }

  /** The groupby of query_data.py: one pass over the rows collecting, per
      incident, the set of its settled values; then the incidents whose set is
      exactly {False}. */
  method NoSettledIds(df: seq<Row>) returns (ids: set<int>)
    ensures ids == NoSettledSet(df)
  {
    var values: map<int, set<Option<bool>>> := map[];
    for i := 0 to |df|
      invariant forall id :: id in values <==> id in Ids(df[..i])
      invariant forall id :: id in values ==> values[id] == SettledValues(df[..i], id)
      invariant forall id :: id !in values ==> SettledValues(df[..i], id) == {}
    {
      assert df[..i + 1] == df[..i] + [df[i]];
      forall id ensures SettledValues(df[..i + 1], id)
          == SettledValues(df[..i], id) + (if df[i].id == id then {df[i].settledInitiator} else {})
      {
        SettledValuesSnoc(df, i, id);
      }
      var seen := if df[i].id in values then values[df[i].id] else {};
      values := values[df[i].id := seen + {df[i].settledInitiator}];
    }
    assert df[..|df|] == df;
    ids := set id | id in values && values[id] == {Some(false)};
    forall id ensures id in ids <==> id in NoSettledSet(df) {
      if NoSettled(df, id) {
        assert Some(false) in SettledValues(df, id);
        assert id in values;
      }
    }
  }

  /** `settled_initiator` set to True for the "No settled" incidents. */
  function Promote(df: seq<Row>, noSettled: set<int>): seq<Row> {
    MapRows(df, (r: Row) => if r.id in noSettled then r.(settledInitiator := Some(true)) else r)
  }

  /** `drop_duplicates()`: the first occurrence of every distinct row. */
  function DropDuplicates(df: seq<Row>): (out: seq<Row>)
    ensures forall r :: r in out <==> r in df
    ensures Unique(out)
  {
    Distinct(df)
  }

  /** Lines 118-123: promotion, then only the rows whose settled flag is True,
      without duplicates. */
  function ResolveSettled(df: seq<Row>, noSettled: set<int>): (out: seq<Row>)
    ensures Unique(out)
    ensures forall r :: r in out ==> r.settledInitiator == Some(true)
  {
    DropDuplicates(Where(Promote(df, noSettled), (r: Row) => r.settledInitiator == Some(true)))
  }

  /** The rows kept by settled resolution, before de-duplication. */
  function SettledRows(df: seq<Row>): (out: seq<Row>)
    ensures forall r :: r in out <==> r in Promote(df, NoSettledSet(df)) && r.settledInitiator == Some(true)
  {
    Where(Promote(df, NoSettledSet(df)), (r: Row) => r.settledInitiator == Some(true))
  }

  /** A row kept by settled resolution comes from a row of the same incident
      that was promoted or already named a settled initiator. */
  lemma ResolvedRowSource(df: seq<Row>, noSettled: set<int>, id: int)
    requires id in Ids(ResolveSettled(df, noSettled))
    ensures exists i :: 0 <= i < |df| && df[i].id == id && (id in noSettled || df[i].settledInitiator == Some(true))
  {
    var promoted := Promote(df, noSettled);
    var rows := Where(promoted, (r: Row) => r.settledInitiator == Some(true));
    var r :| r in DropDuplicates(rows) && r.id == id;
    assert r in rows;
    var i :| 0 <= i < |promoted| && promoted[i] == r;
    assert df[i].id == id;
  }

  /** A row that is promoted or already names a settled initiator keeps its
      incident through settled resolution. */
  lemma RowSurvives(df: seq<Row>, noSettled: set<int>, i: nat)
    requires i < |df| && (df[i].id in noSettled || df[i].settledInitiator == Some(true))
    ensures df[i].id in Ids(ResolveSettled(df, noSettled))
  {
    var promoted := Promote(df, noSettled);
    assert promoted[i].id == df[i].id && promoted[i].settledInitiator == Some(true);
    assert promoted[i] in promoted;
    var rows := Where(promoted, (r: Row) => r.settledInitiator == Some(true));
    assert promoted[i] in rows;
    assert promoted[i] in DropDuplicates(rows);
  }

  lemma SurvivorsQualify(df: seq<Row>, id: int)
    requires id in Ids(ResolveSettled(df, NoSettledSet(df)))
    ensures id in Ids(df) && (NoSettled(df, id) || Some(true) in SettledValues(df, id))
  {
    ResolvedRowSource(df, NoSettledSet(df), id);
    var i :| 0 <= i < |df| && df[i].id == id && (id in NoSettledSet(df) || df[i].settledInitiator == Some(true));
    assert df[i] in df;
    assert df[i].settledInitiator in SettledValues(df, id);
  }

  lemma QualifiersSurvive(df: seq<Row>, id: int)
    requires id in Ids(df) && (NoSettled(df, id) || Some(true) in SettledValues(df, id))
    ensures id in Ids(ResolveSettled(df, NoSettledSet(df)))
  {
    if NoSettled(df, id) {
      var r :| r in df && r.id == id;
      var i :| 0 <= i < |df| && df[i] == r;
      assert id in NoSettledSet(df);
      RowSurvives(df, NoSettledSet(df), i);
    } else {
      var r :| r in df && r.id == id && r.settledInitiator == Some(true);
      var i :| 0 <= i < |df| && df[i] == r;
      RowSurvives(df, NoSettledSet(df), i);
    }
  }

  /** An incident survives settled resolution exactly when it is "No settled"
      or at least one of its rows names a settled initiator. Incidents whose
      flags mix False with a missing value, or are all missing, disappear. */
  lemma ResolveSettledIds(df: seq<Row>)
    ensures Ids(ResolveSettled(df, NoSettledSet(df)))
         == set id | id in Ids(df) && (NoSettled(df, id) || Some(true) in SettledValues(df, id))
  {
    forall id | id in Ids(ResolveSettled(df, NoSettledSet(df))) {
      SurvivorsQualify(df, id);
    }
    forall id | id in Ids(df) && (NoSettled(df, id) || Some(true) in SettledValues(df, id)) {
      QualifiersSurvive(df, id);
    }
  }

  /** Every row of a "No settled" incident is kept, with its flag set to True. */
  lemma NoSettledRowsKept(df: seq<Row>, r: Row)
    requires r in df && NoSettled(df, r.id)
    ensures r.(settledInitiator := Some(true)) in ResolveSettled(df, NoSettledSet(df))
  {
    var i :| 0 <= i < |df| && df[i] == r;
    assert r.id in NoSettledSet(df);
    assert Promote(df, NoSettledSet(df))[i] == r.(settledInitiator := Some(true));
  }

  // ---------------------------------------------------------- impact labels

  /** The long intelligence-impact labels of the database and their short
      dashboard labels (some database labels end in blanks). */
  const IntelligenceLabels: map<string, string> := map[
    "No data breach/exfiltration or data corruption (deletion/altering) and/or leaking of data"
      := "No data breach/corruption/leak",
    "Minor data breach/exfiltration (no critical/sensitive information), but no data corruption (deletion/altering) or leaking of data  "
      := "Minor data breach",
    "Minor data breach/exfiltration (no critical/sensitive information), data corruption (deletion/altering) and/or leaking of data  "
      := "Moderate data breach",
    "Data corruption (deletion/altering) but no leaking of data, no data breach/exfiltration OR major data breach / exfiltration, but no data corruption and/or leaking of data"
      := "Significant data breach",
    "Major data breach/exfiltration (critical/sensitive information) & data corruption (deletion/altering) and/or leaking of data "
      := "Major data breach",
    "Not available" := "Unknown"
  ]

  /** The hover description of each short label. */
  const IntelligenceTexts: map<string, string> := map[
    "No data breach/corruption/leak" := "No data breach/exfiltration, data corruption<br>nor leaking of data",
    "Minor data breach"
      := "Data breach/exfiltration of non-critical/sensitive information<br>but no data corruption nor leaking of data",
    "Moderate data breach"
      := "Data breach/exfiltration of non-critical/sensitive information<br>and data corruption or leaking of data",
    "Significant data breach"
      := "Data corruption but no leaking of data<br>nor data breach/exfiltration<br>OR major data breach/exfiltration<br>but no data corruption nor leaking of data",
    "Major data breach"
      := "Data breach/exfiltration of critical/sensitive information<br>& data corruption or leaking of data",
    "Unknown" := "Unknown intelligence impact"
  ]

  /** `Series.replace(from, to)` on a string column. */
  function ReplaceStr(s: string, from: string, to: string): string {
    if s == from then to else s
  }

  /** Lines 152-159: the intelligence impact gets its short label and its
      description (none for a label outside the table), and "Not available"
      functional and overall impacts become "Unknown". */
  function RelabelImpacts(r: Row): (out: Row)
    ensures out.intelligenceImpact !in IntelligenceLabels
    ensures r.intelligenceImpact in IntelligenceLabels ==> out.intelligenceImpact == IntelligenceLabels[r.intelligenceImpact]
    ensures r.intelligenceImpact !in IntelligenceLabels ==> out.intelligenceImpact == r.intelligenceImpact
    ensures out.intelligenceImpactText ==
      (if out.intelligenceImpact in IntelligenceTexts then Some(IntelligenceTexts[out.intelligenceImpact]) else None)
    ensures r.intelligenceImpact in IntelligenceLabels ==> out.intelligenceImpactText.Some?
    ensures out.intelligenceImpactText.Some? <==> out.intelligenceImpact in IntelligenceTexts
    ensures out.functionalImpact != "Not available" && out.impact != "Not available"
    ensures r.functionalImpact == "Not available" ==> out.functionalImpact == "Unknown"
    ensures r.functionalImpact != "Not available" ==> out.functionalImpact == r.functionalImpact
    ensures r.impact == "Not available" ==> out.impact == "Unknown"
    ensures r.impact != "Not available" ==> out.impact == r.impact
    ensures out == r.(intelligenceImpact := out.intelligenceImpact,
                      intelligenceImpactText := out.intelligenceImpactText,
                      functionalImpact := out.functionalImpact, impact := out.impact)
  {
    ShortLabels();
    var short := if r.intelligenceImpact in IntelligenceLabels
                 then IntelligenceLabels[r.intelligenceImpact] else r.intelligenceImpact;
    r.(intelligenceImpact := short,
       intelligenceImpactText := if short in IntelligenceTexts then Some(IntelligenceTexts[short]) else None,
       functionalImpact := ReplaceStr(r.functionalImpact, "Not available", "Unknown"),
       impact := ReplaceStr(r.impact, "Not available", "Unknown"))
  }

  /** Every short label has a description and is not itself a long label. */
  lemma ShortLabels()
    ensures forall k :: k in IntelligenceLabels ==>
      IntelligenceLabels[k] !in IntelligenceLabels && IntelligenceLabels[k] in IntelligenceTexts
  {
  }

  /** Relabelling a second time changes nothing. */
  lemma RelabelImpactsIdempotent(r: Row)
    ensures RelabelImpacts(RelabelImpacts(r)) == RelabelImpacts(r)
  {
    ShortLabels();
  }

  // ------------------------------------------------------ post-Brexit carve-out

  const BrexitCutoff: Date := Date(2020, 2, 1)

  /** A United Kingdom row still tagged with the EU region after 1 February
      2020. A row without a start date is never one. */
  predicate UkAsEuAfterBrexit(r: Row) {
    && r.startDate.Some? && Ordinal(r.startDate.value) > Ordinal(BrexitCutoff)
    && r.receiverCountry == "United Kingdom" && r.regionName == "EU"
  }

  function DropUkAsEu(df: seq<Row>): (out: seq<Row>)
    ensures forall r :: r in out <==> r in df && !UkAsEuAfterBrexit(r)
  {
    Where(df, (r: Row) => !UkAsEuAfterBrexit(r))
  }

  /** The whole of preclean_data. */
  function Precleaned(df: seq<Row>): (out: seq<Row>)
    ensures forall r :: r in out ==>
      && r.settledInitiator == Some(true) && !UkAsEuAfterBrexit(r)
      && r.functionalImpact != "Not available" && r.impact != "Not available"
      && r.intelligenceImpact !in IntelligenceLabels
  {
    var settled := ResolveSettled(df, NoSettledSet(df));
    RelabelDropKeepsSettled(settled);
    DropUkAsEu(MapRows(settled, RelabelImpacts))
  }

  /** Relabelling and the post-Brexit carve-out keep the settled flag and
      leave no raw impact label. */
  lemma RelabelDropKeepsSettled(settled: seq<Row>)
    requires forall r :: r in settled ==> r.settledInitiator == Some(true)
    ensures forall r :: r in DropUkAsEu(MapRows(settled, RelabelImpacts)) ==>
      && r.settledInitiator == Some(true) && !UkAsEuAfterBrexit(r)
      && r.functionalImpact != "Not available" && r.impact != "Not available"
      && r.intelligenceImpact !in IntelligenceLabels
  {
    var relabelled := MapRows(settled, RelabelImpacts);
    forall r | r in relabelled ensures r.settledInitiator == Some(true) {
      var i :| 0 <= i < |relabelled| && relabelled[i] == r;
      assert settled[i] in settled;
    }
  }

  method PrecleanData(df: seq<Row>) returns (out: seq<Row>)
    ensures out == Precleaned(df)
  {
    var noSettled := NoSettledIds(df);
    out := ResolveSettled(df, noSettled);
    out := MapRows(out, RelabelImpacts);
    out := DropUkAsEu(out);
  }

  /** Settled resolution keeps only incidents of the input. */
  lemma ResolvedIds(df: seq<Row>, noSettled: set<int>)
    ensures Ids(ResolveSettled(df, noSettled)) <= Ids(df)
  {
    forall id | id in Ids(ResolveSettled(df, noSettled)) ensures id in Ids(df) {
      ResolvedRowSource(df, noSettled, id);
      var i :| 0 <= i < |df| && df[i].id == id && (id in noSettled || df[i].settledInitiator == Some(true));
      assert df[i] in df;
    }
  }

  /** Relabelling keeps every row's incident. */
  lemma RelabelledIds(rows: seq<Row>)
    ensures Ids(MapRows(rows, RelabelImpacts)) == Ids(rows)
  {
    forall r ensures RelabelImpacts(r).id == r.id {
      var out := RelabelImpacts(r);
    }
    MapRowsIds(rows, RelabelImpacts);
  }

  /** Preclean never invents an incident. */
  lemma PrecleanedIds(df: seq<Row>)
    ensures Ids(Precleaned(df)) <= Ids(df)
  {
    var settled := ResolveSettled(df, NoSettledSet(df));
    ResolvedIds(df, NoSettledSet(df));
    RelabelledIds(settled);
    WhereIds(MapRows(settled, RelabelImpacts), (r: Row) => !UkAsEuAfterBrexit(r));
  }

  // ====================================================== clean_initiators

  const NotAttributed := "Not attributed"

  predicate UnknownName(n: Option<string>) {
    n.None? || n.value in {"", "None", "Not available", "Unknown"}
  }

  predicate UnknownCountry(c: Option<string>) {
    c.None? || c.value in {"Unknown", "Not available"}
  }

  predicate UnknownCategory(c: Option<string>) {
    c.None? || c.value in {"Unknown - not attributed", "Not available", "Unknown"}
  }

  /** `replace(from, to)` on a nullable column. */
  function Replace(v: Option<string>, from: string, to: string): Option<string> {
    if v == Some(from) then Some(to) else v
  }

  /** `fillna(value)`. */
  function FillNa(v: Option<string>, value: string): Option<string> {
    if v.None? then Some(value) else v
  }

  /** The nine steps of clean_initiators, each a whole-column pass. In them the
      field initiatorCountry plays the part of the working column
      `initiator_country_clean`, which starts as a copy of the country. */

  // a: an initiator with nothing known is "Not attributed"
  function MarkUnattributed(r: Row): Row {
    if UnknownName(r.initiatorName) && UnknownCountry(r.initiatorCountry) && UnknownCategory(r.initiatorCategory)
    then r.(initiatorCountry := Some(NotAttributed)) else r
  }

  // b: the category follows an unattributed country
  function CategoryFollowsCountry(r: Row): Row {
    if r.initiatorCountry == Some(NotAttributed) then r.(initiatorCategory := Some(NotAttributed)) else r
  }

  // c: unify the spellings of "unknown"
  function UnifyUnknowns(r: Row): Row {
    r.(initiatorCategory := Replace(r.initiatorCategory, "Unknown - not attributed", "Unknown"),
       initiatorCountry := Replace(r.initiatorCountry, "Not available", "Unknown"))
  }

  // d: the name follows an unattributed country; unknown names become "Unknown"
  function NameFollowsCountry(r: Row): Row {
    var name := if r.initiatorCountry == Some(NotAttributed) then Some(NotAttributed) else r.initiatorName;
    r.(initiatorName := FillNa(Replace(name, "Not available", "Unknown"), "Unknown"))
  }

  // e: suggested state affiliation counts as state affiliation
  function MergeStateAffiliation(r: Row): Row {
    r.(initiatorCategory := Replace(r.initiatorCategory, "Non-state actor, state-affiliation suggested", "State affiliated actor"))
  }

  // f: unknown country and name with no category: the category is unattributed
  function UnknownActorCategory(r: Row): Row {
    if r.initiatorCountry == Some("Unknown") && r.initiatorName == Some("Unknown")
       && r.initiatorCategory == Some("Not available")
    then r.(initiatorCategory := Some(NotAttributed)) else r
  }

  // g: remaining missing categories
  function FillCategory(r: Row): Row {
    r.(initiatorCategory := FillNa(Replace(r.initiatorCategory, "Not available", "Unknown"), NotAttributed))
  }

  // h: remaining missing countries
  function FillCountry(r: Row): Row {
    r.(initiatorCountry := FillNa(r.initiatorCountry, NotAttributed))
  }

  // i: unknown country and name with an unattributed category: the country is unattributed
  function UnknownActorCountry(r: Row): Row {
    if r.initiatorCountry == Some("Unknown") && r.initiatorName == Some("Unknown")
       && r.initiatorCategory == Some(NotAttributed)
    then r.(initiatorCountry := Some(NotAttributed)) else r
  }

  /** clean_initiators on one row. The three initiator fields come out
      present and free of the raw sentinels; nothing else changes. */
  function CleanInitiator(r: Row): (out: Row)
    ensures out.initiatorName.Some? && out.initiatorCountry.Some? && out.initiatorCategory.Some?
    ensures out.initiatorName.value != "Not available" && out.initiatorCountry.value != "Not available"
    ensures out.initiatorCategory.value !in
      {"Not available", "Unknown - not attributed", "Non-state actor, state-affiliation suggested"}
    ensures out == r.(initiatorName := out.initiatorName, initiatorCountry := out.initiatorCountry,
                      initiatorCategory := out.initiatorCategory)
  {
    CategoryStage(NameStage(r))
  }

  /** Steps a-d: the name comes out present and free of "Not available", as
      does a present country, and the category loses its long "unknown"
      spelling; only the three initiator fields change. */
  function NameStage(r: Row): (out: Row)
    ensures out.initiatorName.Some? && out.initiatorName.value != "Not available"
    ensures out.initiatorCountry != Some("Not available")
    ensures out.initiatorCategory != Some("Unknown - not attributed")
    ensures out == r.(initiatorName := out.initiatorName, initiatorCountry := out.initiatorCountry,
                      initiatorCategory := out.initiatorCategory)
  {
    NameFollowsCountry(UnifyUnknowns(CategoryFollowsCountry(MarkUnattributed(r))))
  }

  /** Steps e-i: the name is kept, country and category come out present,
      and neither picks up a raw sentinel. */
  function CategoryStage(r: Row): (out: Row)
    ensures out.initiatorName == r.initiatorName
    ensures out.initiatorCountry.Some? && out.initiatorCategory.Some?
    ensures r.initiatorCountry != Some("Not available") ==> out.initiatorCountry.value != "Not available"
    ensures r.initiatorCategory != Some("Unknown - not attributed") ==>
      out.initiatorCategory.value !in
        {"Not available", "Unknown - not attributed", "Non-state actor, state-affiliation suggested"}
    ensures out == r.(initiatorCountry := out.initiatorCountry, initiatorCategory := out.initiatorCategory)
  {
    UnknownActorCountry(FillCountry(FillCategory(UnknownActorCategory(MergeStateAffiliation(r)))))
  }

  /** An initiator with nothing known comes out "Not attributed" in all three
      fields, and no row is left as an unknown actor with an unattributed
      category. */
  lemma CleanInitiatorUnattributed(r: Row)
    ensures var out := CleanInitiator(r);
      UnknownName(r.initiatorName) && UnknownCountry(r.initiatorCountry) && UnknownCategory(r.initiatorCategory)
      ==> out.initiatorName == out.initiatorCountry == out.initiatorCategory == Some(NotAttributed)
    ensures var out := CleanInitiator(r);
      !(out.initiatorCountry == Some("Unknown") && out.initiatorName == Some("Unknown")
        && out.initiatorCategory == Some(NotAttributed))
  {
  }

  /** clean_initiators: nine column passes over the frame. */
  method CleanInitiators(df: seq<Row>) returns (out: seq<Row>)
    ensures |out| == |df|
    ensures forall i :: 0 <= i < |df| ==> out[i] == CleanInitiator(df[i])
  {
    out := MapRows(df, MarkUnattributed);
    out := MapRows(out, CategoryFollowsCountry);
    out := MapRows(out, UnifyUnknowns);
    out := MapRows(out, NameFollowsCountry);
    out := MapRows(out, MergeStateAffiliation);
    out := MapRows(out, UnknownActorCategory);
    out := MapRows(out, FillCategory);
    out := MapRows(out, FillCountry);
    out := MapRows(out, UnknownActorCountry);
  }

  /** Cleaning a cleaned row changes it exactly when its country came out
      "Not attributed" while its name or its category did not: the second pass
      then propagates the country to both. */
  lemma CleanInitiatorStable(r: Row)
    ensures var c := CleanInitiator(r);
      CleanInitiator(c) == c <==>
        !(c.initiatorCountry == Some(NotAttributed)
          && (c.initiatorName != Some(NotAttributed) || c.initiatorCategory != Some(NotAttributed)))
  {
  }

  /** A named actor with no recorded country: the first pass leaves the name,
      the second replaces it with "Not attributed". */
  lemma CleanInitiatorNotIdempotent(r: Row)
    requires r.initiatorName == Some("APT28") && r.initiatorCountry.None? && r.initiatorCategory == Some("State")
    ensures CleanInitiator(r).initiatorName == Some("APT28")
    ensures CleanInitiator(r).initiatorCountry == Some(NotAttributed)
    ensures CleanInitiator(CleanInitiator(r)).initiatorName == Some(NotAttributed)
  {
  }

  // ================================================= clean_initiator_names

  /** The columns that get a per-initiator most-common value. */
  datatype Feature = AttackType | InitialAccess | InitiatorCountry | InitiatorCategory

  const Features: seq<Feature> := [AttackType, InitialAccess, InitiatorCountry, InitiatorCategory]

  function FeatureValue(r: Row, f: Feature): Option<string> {
    match f
    case AttackType => Some(r.typeClean)
    case InitialAccess => Some(r.initialAccess)
    case InitiatorCountry => r.initiatorCountry
    case InitiatorCategory => r.initiatorCategory
  }

  /** The row with the `<feature>_most_common` column set to v. */
  function WithMostCommon(r: Row, f: Feature, v: Option<string>): Row {
    match f
    case AttackType => r.(typeCleanMostCommon := v)
    case InitialAccess => r.(initialAccessMostCommon := v)
    case InitiatorCountry => r.(initiatorCountryMostCommon := v)
    case InitiatorCategory => r.(initiatorCategoryMostCommon := v)
  }

  function MostCommonField(r: Row, f: Feature): Option<string> {
    match f
    case AttackType => r.typeCleanMostCommon
    case InitialAccess => r.initialAccessMostCommon
    case InitiatorCountry => r.initiatorCountryMostCommon
    case InitiatorCategory => r.initiatorCategoryMostCommon
  }

  /** One record of the (id, initiator, feature) projection. */
  datatype Entry = Entry(id: int, name: Option<string>, value: Option<string>)

  function Entries(df: seq<Row>, f: Feature): seq<Entry> {
    seq(|df|, i requires 0 <= i < |df| => Entry(df[i].id, df[i].initiatorName, FeatureValue(df[i], f)))
  }

  /** Whether an entry of the initiator takes part in its mode: a missing
      value never does, and for the initial access "Not available" is removed
      beforehand. */
  predicate Counted(e: Entry, name: string, f: Feature) {
    e.name == Some(name) && e.value.Some? && (f == InitialAccess ==> e.value.value != "Not available")
  }

  /** How many distinct incidents give the initiator the value v: the
      projection is de-duplicated before the mode is taken. */
  function Support(es: seq<Entry>, name: string, f: Feature, v: string): nat {
    |set e | e in es && Counted(e, name, f) && e.value == Some(v) :: e.id|
  }

  /** `Series.mode()[0]` over a non-empty list of candidates: a value of
      greatest score, the smallest in string order among those tied. */
  function Mode(vs: seq<string>, score: string -> nat): (m: string)
    requires |vs| > 0
    ensures m in vs
    ensures forall v :: v in vs ==> score(v) <= score(m)
    ensures forall v :: v in vs && score(v) == score(m) ==> StrLe(m, v)
  {
    StrLeRefl(vs[0]);
    if |vs| == 1 then vs[0]
    else
      var rest := Mode(vs[1..], score);
      StrLeTotal(vs[0], rest);
      assert forall v :: v in vs ==> v == vs[0] || v in vs[1..];
      if score(vs[0]) > score(rest) || (score(vs[0]) == score(rest) && StrLe(vs[0], rest)) then
        forall v | v in vs[1..] && score(v) == score(vs[0]) ensures StrLe(vs[0], v) {
          StrLeTrans(vs[0], rest, v);
        }
        vs[0]
      else
        rest
  }

  /** The most common value of feature f for the initiator `name`, as the
      left merge leaves it: None when the initiator has no counted entry. */
  function MostCommon(es: seq<Entry>, name: string, f: Feature): (m: Option<string>)
    ensures m.None? <==> forall e :: e in es ==> !Counted(e, name, f)
    ensures m.Some? ==> exists e :: e in es && Counted(e, name, f) && e.value == m
    ensures m.Some? ==> forall e :: e in es && Counted(e, name, f) ==>
      Support(es, name, f, e.value.value) <= Support(es, name, f, m.value)
    ensures m.Some? ==> forall e ::
      (e in es && Counted(e, name, f) && Support(es, name, f, e.value.value) == Support(es, name, f, m.value))
      ==> StrLe(m.value, e.value.value)
  {
    var cs := Distinct(Candidates(es, name, f));
    if cs == [] then None
    else Some(Mode(cs, v => Support(es, name, f, v)))
  }

  /** The values of the initiator's counted entries, in entry order. */
  function Candidates(es: seq<Entry>, name: string, f: Feature): (vs: seq<string>)
    ensures forall v :: v in vs <==> exists e :: e in es && Counted(e, name, f) && e.value == Some(v)
  {
    if es == [] then []
    else
      var rest := Candidates(es[1..], name, f);
      assert es == [es[0]] + es[1..];
      if Counted(es[0], name, f) then [es[0].value.value] + rest else rest
  }

  /** The most common value of f for the initiator of row r in frame df. */
  function MostCommonFor(df: seq<Row>, r: Row, f: Feature): Option<string> {
    if r.initiatorName.Some? then MostCommon(Entries(df, f), r.initiatorName.value, f) else None
  }

  /** The row after the merges for the features fs, in order. */
  function Profiled(df: seq<Row>, r: Row, fs: seq<Feature>): Row {
    if fs == [] then r
    else
      var f := fs[|fs| - 1];
      WithMostCommon(Profiled(df, r, fs[..|fs| - 1]), f, MostCommonFor(df, r, f))
  }

  /** The merge leaves the features and the initiator untouched, so every
      later projection sees the original values. */
  lemma WithMostCommonKeepsEntries(r: Row, f: Feature, v: Option<string>)
    ensures forall g :: FeatureValue(WithMostCommon(r, f, v), g) == FeatureValue(r, g)
    ensures WithMostCommon(r, f, v).initiatorName == r.initiatorName
    ensures MostCommonField(WithMostCommon(r, f, v), f) == v
    ensures forall g :: g != f ==> MostCommonField(WithMostCommon(r, f, v), g) == MostCommonField(r, g)
  {
  }

  /** Two rows of the same initiator get the same profile. */
  lemma SameInitiatorSameProfile(df: seq<Row>, r: Row, s: Row, fs: seq<Feature>)
    requires r.initiatorName == s.initiatorName
    ensures forall f :: f in fs ==> MostCommonField(Profiled(df, r, fs), f) == MostCommonField(Profiled(df, s, fs), f)
  {
    if fs != [] {
      var init := fs[..|fs| - 1];
      var f := fs[|fs| - 1];
      SameInitiatorSameProfile(df, r, s, init);
      forall g | g in fs
        ensures MostCommonField(Profiled(df, r, fs), g) == MostCommonField(Profiled(df, s, fs), g)
      {
        WithMostCommonKeepsEntries(Profiled(df, r, init), f, MostCommonFor(df, r, f));
        WithMostCommonKeepsEntries(Profiled(df, s, init), f, MostCommonFor(df, s, f));
        if g != f { assert g in init; }
      }
    }
  }

  /** One merge step: `df.merge(result, on="initiator_name", how="left")`. */
  function MergeMostCommon(df: seq<Row>, f: Feature): (out: seq<Row>)
    ensures |out| == |df|
    ensures forall i :: 0 <= i < |df| ==> out[i] == WithMostCommon(df[i], f, MostCommonFor(df, df[i], f))
  {
    MapRows(df, (r: Row) => WithMostCommon(r, f, MostCommonFor(df, r, f)))
  }

  /** The number of slashes in s. */
  function Slashes(s: string): nat {
    if s == [] then 0 else (if s[0] == '/' then 1 else 0) + Slashes(s[1..])
  }

  /** The text of s before its k-th slash; all of s when it has fewer. */
  function BeforeSlash(s: string, k: nat): (p: string)
    requires k >= 1
    ensures p <= s
    ensures Slashes(s) < k ==> p == s
    ensures Slashes(s) >= k ==> |p| < |s| && s[|p|] == '/' && Slashes(p) == k - 1
  {
    if s == [] then []
    else if s[0] == '/' && k == 1 then []
    else
      var rest := BeforeSlash(s[1..], if s[0] == '/' then k - 1 else k);
      assert Slashes(s) == (if s[0] == '/' then 1 else 0) + Slashes(s[1..]);
      assert s == [s[0]] + s[1..];
      assert Slashes([s[0]] + rest) == (if s[0] == '/' then 1 else 0) + Slashes(rest) by {
        assert ([s[0]] + rest)[1..] == rest;
      }
      [s[0]] + rest
  }

  /** The part of an initiator name before its second slash ("APT28/Fancy
      Bear/Sofacy" becomes "APT28/Fancy Bear"); the whole name when it has
      fewer than two slashes. */
  function ExtractInitiatorName(name: string): (out: string)
    ensures out <= name
    ensures Slashes(name) < 2 ==> out == name
    ensures Slashes(name) >= 2 ==> Slashes(out) == 1 && |out| < |name| && name[|out|] == '/'
  {
    BeforeSlash(name, 2)
  }

  lemma ExtractInitiatorNameIdempotent(name: string)
    ensures ExtractInitiatorName(ExtractInitiatorName(name)) == ExtractInitiatorName(name)
  {
  }

  /** The ISO alpha-2 code of a country name, as the left merge on the ISO
      table gives it: None (NaN) when the country is missing or not in the
      table. */
  function IsoCode(iso: map<string, string>, country: Option<string>): (code: Option<string>)
    ensures code.Some? <==> country.Some? && country.value in iso
    ensures code.Some? ==> code.value == iso[country.value]
  {
    if country.Some? && country.value in iso then Some(iso[country.value]) else None
  }

  /** The two long official names shown under their common names. */
  function ShortCountryName(c: Option<string>): Option<string> {
    Replace(Replace(c, "Iran, Islamic Republic of", "Iran"), "Korea, Democratic People's Republic of", "North Korea")
  }

  /** The steps of clean_initiator_names after the merges. The ISO code is
      looked up with the most-common country before the renaming, and the
      renaming touches `initiator_country` only. */
  function Finish(r: Row, iso: map<string, string>): (out: Row)
    ensures r.initiatorName.Some? ==> out.initiatorName == Some(ExtractInitiatorName(r.initiatorName.value))
    ensures r.initiatorName.Some? ==>
      Slashes(out.initiatorName.value) <= 1 && out.initiatorName.value <= r.initiatorName.value
    ensures r.initiatorName.None? ==> out.initiatorName.None?
    ensures r.initialAccessMostCommon.None? ==> out.initialAccessMostCommon == Some("Unknown")
    ensures r.initialAccessMostCommon.Some? ==> out.initialAccessMostCommon == r.initialAccessMostCommon
    ensures out.typeClean in ChosenTypes
    ensures r.typeClean in ChosenTypes ==> out.typeClean == r.typeClean
    ensures r.typeClean !in ChosenTypes ==> out.typeClean == "Other"
    ensures r.receiverSubcategory == "Not available" ==> out.receiverSubcategory == "Other"
    ensures r.receiverSubcategory != "Not available" ==> out.receiverSubcategory == r.receiverSubcategory
    ensures out.alpha2Code == IsoCode(iso, r.initiatorCountryMostCommon)
    ensures r.initiatorCountry == Some("Iran, Islamic Republic of") ==> out.initiatorCountry == Some("Iran")
    ensures r.initiatorCountry == Some("Korea, Democratic People's Republic of") ==> out.initiatorCountry == Some("North Korea")
    ensures r.initiatorCountry !in {Some("Iran, Islamic Republic of"), Some("Korea, Democratic People's Republic of")} ==>
      out.initiatorCountry == r.initiatorCountry
    ensures out.initiatorCountry != Some("Iran, Islamic Republic of")
    ensures out.initiatorCountry != Some("Korea, Democratic People's Republic of")
    ensures out == r.(initiatorName := out.initiatorName, initialAccessMostCommon := out.initialAccessMostCommon,
                      typeClean := out.typeClean, receiverSubcategory := out.receiverSubcategory,
                      alpha2Code := out.alpha2Code, initiatorCountry := out.initiatorCountry)
  {
    r.(initiatorName := if r.initiatorName.Some? then Some(ExtractInitiatorName(r.initiatorName.value)) else None,
       initialAccessMostCommon := FillNa(r.initialAccessMostCommon, "Unknown"),
       typeClean := if r.typeClean in ChosenTypes then r.typeClean else "Other",
       receiverSubcategory := ReplaceStr(r.receiverSubcategory, "Not available", "Other"),
       alpha2Code := IsoCode(iso, r.initiatorCountryMostCommon),
       initiatorCountry := ShortCountryName(r.initiatorCountry))
  }

  /** clean_initiator_names, with the ISO table as a map from country name to
      code: four merges, one per feature, then the per-row rewrites. */
  method CleanInitiatorNames(df: seq<Row>, iso: map<string, string>) returns (out: seq<Row>)
    ensures |out| == |df|
    ensures forall i :: 0 <= i < |df| ==> out[i] == Finish(Profiled(df, df[i], Features), iso)
  {
    out := df;
    for k := 0 to |Features|
      invariant |out| == |df|
      invariant forall f :: Entries(out, f) == Entries(df, f)
      invariant forall i :: 0 <= i < |df| ==> out[i] == Profiled(df, df[i], Features[..k])
    {
      MergeStep(df, out, k);
      out := MergeMostCommon(out, Features[k]);
    }
    assert Features[..|Features|] == Features;
    out := MapRows(out, (r: Row) => Finish(r, iso));
  }

  /** One turn of the merge loop keeps the projections and extends the
      profile by the next feature. */
  lemma MergeStep(df: seq<Row>, cur: seq<Row>, k: nat)
    requires k < |Features| && |cur| == |df|
    requires forall f :: Entries(cur, f) == Entries(df, f)
    requires forall i :: 0 <= i < |df| ==> cur[i] == Profiled(df, df[i], Features[..k])
    ensures forall f :: Entries(MergeMostCommon(cur, Features[k]), f) == Entries(df, f)
    ensures forall i :: 0 <= i < |df| ==>
      MergeMostCommon(cur, Features[k])[i] == Profiled(df, df[i], Features[..k + 1])
  {
    var f := Features[k];
    var next := MergeMostCommon(cur, f);
    forall i | 0 <= i < |df| {
      MergeStepRow(df, cur, k, i);
    }
    forall g
      ensures Entries(next, g) == Entries(df, g)
    {
      MergeKeepsEntries(cur, f, g);
    }
  }

  lemma MergeStepRow(df: seq<Row>, cur: seq<Row>, k: nat, i: nat)
    requires k < |Features| && |cur| == |df| && i < |df|
    requires Entries(cur, Features[k]) == Entries(df, Features[k])
    requires cur[i] == Profiled(df, df[i], Features[..k])
    ensures MergeMostCommon(cur, Features[k])[i] == Profiled(df, df[i], Features[..k + 1])
  {
    ProfiledSnoc(df, df[i], Features, k);
    ProfiledKeepsRow(df, df[i], Features[..k]);
  }

  lemma ProfiledSnoc(df: seq<Row>, r: Row, fs: seq<Feature>, k: nat)
    requires k < |fs|
    ensures Profiled(df, r, fs[..k + 1])
         == WithMostCommon(Profiled(df, r, fs[..k]), fs[k], MostCommonFor(df, r, fs[k]))
  {
    var p := fs[..k + 1];
    assert p[..|p| - 1] == fs[..k];
    assert p[|p| - 1] == fs[k];
  }

  lemma MergeKeepsEntries(cur: seq<Row>, f: Feature, g: Feature)
    ensures Entries(MergeMostCommon(cur, f), g) == Entries(cur, g)
  {
    var next := MergeMostCommon(cur, f);
    assert forall i :: 0 <= i < |cur| ==> Entries(next, g)[i] == Entries(cur, g)[i] by {
      forall i | 0 <= i < |cur| {
        WithMostCommonKeepsEntries(cur[i], f, MostCommonFor(cur, cur[i], f));
      }
    }
  }

  lemma {:induction false} ProfiledKeepsRow(df: seq<Row>, r: Row, fs: seq<Feature>)
    ensures Profiled(df, r, fs).initiatorName == r.initiatorName
    ensures forall g :: FeatureValue(Profiled(df, r, fs), g) == FeatureValue(r, g)
  {
    if fs != [] {
      ProfiledKeepsRow(df, r, fs[..|fs| - 1]);
      WithMostCommonKeepsEntries(Profiled(df, r, fs[..|fs| - 1]), fs[|fs| - 1], MostCommonFor(df, r, fs[|fs| - 1]));
    }
  }
}
