# EuRepoC critical infrastructure tracker — verified model of the data engine

The dashboard shows cyber incidents against critical infrastructure. Under its
plotting calls sits a small data engine. That engine is modelled here in
Dafny, with proofs.

- **Canonicalisation pipeline**: `QueryData.preclean_data`, `clean_initiators`
  and `clean_initiator_names` turn the raw incident table into the table that
  every chart reads.
- **Selection filter** `filter_data`: geography, year and date-range narrowing.
- **Cross-filter state machines**:
  - the multi-select sector bars of the overview section;
  - the single-select (type, sector) stack of the types section;
  - the conflict pie;
  - the sector buttons;
  - the conflict → sector → initiator chain of the initiators section.
- **Aggregation builders**:
  - sector totals;
  - top-5 actors;
  - top-10 origin countries;
  - conflict sector percentages;
  - the (sector, type) percentage pivot;
  - cumulative monthly and rolling daily counts;
  - impact and technique counts.

A table is a `seq<Row>`. A `Row` carries:
- the incident `id`;
- dates as `Date` values, compared through their day ordinal;
- the categorical strings;
- `Option` fields for the initiator columns, the settled flag, the start
  date and the columns the pipeline derives;
- an optional intensity.

The other categorical columns are plain strings, so a null in them is not
modelled (see "## Left out").

The "number of incidents" of a group is always the number of distinct ids in
it. The model states it as the cardinality of a set of ids (`Frame.Ids`,
`Frame.IdsWith`), never as a row count.

Each pandas `groupby(key).agg({"id": "nunique"})` is a list of `Group(key,
incidents)`. `Frame.IsGrouping` states what such a list must be:
- one group per key present;
- each group's count is the number of distinct ids with that key.

Sorting is a stable insertion sort proved to produce a sorted permutation, and
`head(n)` keeps the first `n` of a sorted list. Percentages are exact reals.

The modules follow the source files:
- `Frame`: the table, grouping, sorting and summation shared by all sections.
- `QueryData`: `server/query_data.py`.
- `Utils`: `server/utils.py`.
- `OverviewSection`, `InitiatorsSection` and `TypesSection`: the three
  dashboard sections.

Code that rewrites a frame step by step is modelled as a method, proved
against a function that specifies it:
- `QueryData.NoSettledIds` and `QueryData.CleanInitiatorNames`, with their
  loops;
- `QueryData.CleanInitiators`, as nine whole-column passes in sequence and
  no loop, as in the source;
- `OverviewSection.SectorTraces`, whose per-sector loop is the generic
  `Frame.MapEach`.

State that persists across callbacks is a class with a field and a
`modifies` clause:
- the bar-index and bar-label stores, in `OverviewSection.BarSelection`;
- `last_selected`, in `TypesSection.Types`.

Behaviours of the code that the model reproduces, some of them surprising:
- **`clean_initiators` is not idempotent.**
  - Take a row with name "APT28", no country and category "State". After one
    pass its country is "Not attributed" but its name is still "APT28".
  - A second pass then sets the name to "Not attributed".
  - `QueryData.CleanInitiatorNotIdempotent` exhibits this.
  - `QueryData.CleanInitiatorStable` says exactly which cleaned rows are fixed
    points.
- **A tie between most-common values goes to the smallest value in string
  order.** pandas `mode()` returns its values sorted. The first value
  encountered does not win.
- **`types_section.py:173` compares the full `prop_id`** (for example
  `"reset.n_clicks"`) with the bare reset-button id, so the reset never
  clears `last_selected`.
  - `TypesSection.ResetPropIdNeverMatches` and
    `TypesSection.ResetTogglesSelection` state the consequence: a reset with a
    click in the callback's inputs still toggles the selection.
- **`query_data.py:241` recodes every `receiver_subcategory` "Not available"
  to "Other"**, not only in one chart.
- **`query_data.py:247-248` renames the Iran and North Korea names in
  `initiator_country`.** The ISO join at line 244 reads
  `initiator_country_most_common`, which keeps the long names.
- **A click on a stack whose type is not in `chosen_types` raises.** The
  colour lookup at `types_section.py:243` fails on that type. The model
  returns the `Raised` outcome and leaves `last_selected` as it was before
  the click.

## Model

| member | source | states |
|---|---|---|
| QueryData.NoSettledIds | server/query_data.py:109-118 | the loop collects exactly the ids whose set of `settled_initiator` values is {False} |
| QueryData.DropDuplicates | server/query_data.py:123 | keeps exactly the rows of the input, each once |
| QueryData.ResolveSettled | server/query_data.py:119-123 | the result has no duplicate rows and every row has `settled_initiator` True |
| QueryData.SettledRows | server/query_data.py:119-123 | a row survives iff it is a row after promotion of the no-settled ids and is marked True |
| QueryData.SurvivorsQualify | server/query_data.py:109-123 | an incident survives only if all its values were False or one of them was True |
| QueryData.QualifiersSurvive | server/query_data.py:109-123 | every incident with only False values, or with a True value, survives |
| QueryData.ResolveSettledIds | server/query_data.py:109-123 | the surviving ids are exactly the all-False incidents plus those with a True row |
| QueryData.NoSettledRowsKept | server/query_data.py:119-123 | each row of an all-False incident is kept, with its flag promoted to True |
| QueryData.RelabelImpacts | server/query_data.py:125-159 | a table label becomes its short label and any other label is kept; the description is the text of the new label, None for a label outside the text table; "Not available" functional and overall impacts become "Unknown" and other values are kept; no other field changes |
| QueryData.ShortLabels | server/query_data.py:125-153 | every new intelligence label has a description and is not itself an old label |
| QueryData.RelabelImpactsIdempotent | server/query_data.py:155-159 | relabelling a relabelled row changes nothing |
| QueryData.DropUkAsEu | server/query_data.py:162-166 | a row is kept iff it is not (start date after 2020-02-01, receiver "United Kingdom", region "EU") |
| QueryData.Precleaned | server/query_data.py:108-166 | every row of the precleaned table is settled, is not a post-Brexit UK-as-EU row, and has no "Not available" functional or overall impact and no old intelligence label |
| QueryData.RelabelDropKeepsSettled | server/query_data.py:155-166 | relabelling and the post-Brexit carve-out keep the settled flag and leave no raw impact label |
| QueryData.PrecleanData | server/query_data.py:108-166 | the step-by-step rewrite yields the precleaned table |
| QueryData.PrecleanedIds | server/query_data.py:108-166 | precleaning invents no incident id |
| QueryData.NameStage | server/query_data.py:169-199 | after the first four passes the name is set and not "Not available", the country is not "Not available", the category is not "Unknown - not attributed", and only the initiator fields changed |
| QueryData.CategoryStage | server/query_data.py:200-215 | the last five passes keep the name, set country and category, bring in no "Not available" and leave no raw category sentinel; only country and category change |
| QueryData.CleanInitiator | server/query_data.py:168-217 | name, country and category are all set; none is "Not available"; the category is none of "Unknown - not attributed" and "Non-state actor, state-affiliation suggested"; no other field changes |
| QueryData.CleanInitiatorUnattributed | server/query_data.py:171-215 | an unknown triple ends as "Not attributed" three times; no row ends as ("Unknown", "Unknown", "Not attributed") |
| QueryData.CleanInitiators | server/query_data.py:168-217 | the nine whole-column passes, applied in order, turn every row into its cleaned row and keep the row count |
| QueryData.CleanInitiatorStable | server/query_data.py:168-217 | a cleaned row is a fixed point iff it is not "country Not attributed with a name or category that is not" |
| QueryData.CleanInitiatorNotIdempotent | server/query_data.py:171-199 | ("APT28", null, "State") cleans to country "Not attributed" with name "APT28", and a second pass renames it "Not attributed" |
| QueryData.Mode | server/query_data.py:220-221 | the mode is a value of the group with the highest support; among equals it is the least in string order |
| QueryData.MostCommon | server/query_data.py:220-233 | None iff the initiator has no counted value; otherwise a counted value of highest distinct-id support, least in string order among ties |
| QueryData.Candidates | server/query_data.py:230-233 | the candidates are exactly the counted values of the initiator ("Not available" initial access excluded) |
| QueryData.WithMostCommonKeepsEntries | server/query_data.py:234 | a merge adds one `_most_common` column and changes no feature column, no name and no other `_most_common` column |
| QueryData.SameInitiatorSameProfile | server/query_data.py:229-234 | two rows of the same initiator get the same most-common attributes |
| QueryData.MergeMostCommon | server/query_data.py:229-234 | a left merge keeps the row count and gives each row its initiator's most-common value |
| QueryData.MergeKeepsEntries | server/query_data.py:230-234 | the entries read by a later feature are unchanged by an earlier merge |
| QueryData.ProfiledKeepsRow | server/query_data.py:229-234 | the four merges leave the name and every feature value of the row untouched |
| QueryData.BeforeSlash | server/query_data.py:224 | the prefix ends just before the k-th slash, or is the whole name when there are fewer slashes |
| QueryData.ExtractInitiatorName | server/query_data.py:223-225 | a name with two or more slashes is cut to its first two segments (a prefix with exactly one slash); other names are unchanged |
| QueryData.ExtractInitiatorNameIdempotent | server/query_data.py:223-225 | truncation is idempotent |
| QueryData.Finish | server/query_data.py:236-248 | the name becomes its `extract_initiator_name` (at most one slash, a prefix); a missing initial-access mode becomes "Unknown"; a type outside `chosen_types` becomes "Other" and a chosen one is kept; a "Not available" subsector becomes "Other" and any other is kept; the ISO code is that of the country mode (None when unmatched); the Iran and North Korea long names become their short names; no other column changes |
| QueryData.CleanInitiatorNames | server/query_data.py:219-250 | the feature loop followed by the column rewrites gives each row its finished, profiled form |
| Utils.FilterData | server/utils.py:84-131 | a row is kept iff it is an input row that matches the selector (region code, or receiver country), the active year and the active date range; the output is a sub-multiset of the input |
| Utils.SelectorFilter | server/utils.py:110-118 | a row is kept iff it is an input row matching the selector: its region code for a region selector that restricts, its receiver country for any other name; the output is a sub-multiset of the input |
| Utils.YearFilter | server/utils.py:120-122 | an active year keeps exactly the rows starting in that year; no year, or 2025, keeps the table unchanged |
| Utils.RangeFilter | server/utils.py:124-129 | an active range keeps exactly the rows starting inside it, both ends included; no range, or the default range ending today, keeps the table unchanged |
| Utils.FilterGlobalIsIdentity | server/utils.py:85-129 | "Global (states)" with no year (or 2025) and no range (or the default range ending today) keeps the table unchanged |
| Utils.FilterDataIdempotent | server/utils.py:84-131 | filtering twice with the same inputs equals filtering once |
| Utils.FilterReversedRangeEmpty | server/utils.py:124-129 | a reversed, non-default date range yields the empty table |
| Utils.SelectedRows | server/utils.py:84-118 | the selector-only filter keeps exactly the input rows that match the selector |
| Utils.TriggerId | server/initiators_section.py:201 | the trigger id is the longest dot-free prefix of the `prop_id`, ending at the first dot |
| Utils.TriggerIdOfPropId | server/overview_section.py:207 | for `component.property` the trigger id is the component |
| OverviewSection.RemoveFirst | server/overview_section.py:219 | `list.remove` takes one occurrence out and shortens the list by one |
| OverviewSection.Toggle | server/overview_section.py:218-225 | a present value loses one occurrence; an absent value is appended at the end |
| OverviewSection.RemoveFirstAppended | server/overview_section.py:218-221 | removing a just-appended value restores the list |
| OverviewSection.ToggleTwiceAbsent | server/overview_section.py:215-227 | clicking a new bar twice restores the original list exactly |
| OverviewSection.ToggleTwiceMultiset | server/overview_section.py:215-227 | clicking any bar twice restores the original selection as a multiset |
| OverviewSection.ToggleTwiceReorders | server/overview_section.py:218-222 | clicking an already-selected bar twice can reorder the list: [0, 1] becomes [1, 0] |
| OverviewSection.ToggleUnique | server/overview_section.py:218-225 | toggling keeps a duplicate-free selection duplicate-free, and the bar is selected afterwards iff it was not before |
| OverviewSection.BarSelection.constructor | server/overview_section.py:204-205 | both stores start empty |
| OverviewSection.BarSelection.Update | server/overview_section.py:201-229 | no trigger, a country change or a reset empties both stores; a click on the graph toggles the index and the label; any other trigger leaves both unchanged |
| OverviewSection.SectorRows | server/overview_section.py:238-240 | exactly the selected rows whose sector is not "Not available" or "Other" |
| OverviewSection.ToBars | server/overview_section.py:245-259 | the i-th bar carries the i-th sector and count, and is highlighted iff i is a selected index |
| OverviewSection.BarsOf | server/overview_section.py:245-259 | one bar per sector present, counting its distinct ids (at least 1), ascending by count, highlighted iff its position is selected |
| OverviewSection.SectorBars | server/overview_section.py:237-262 | no bars iff no row remains; otherwise the bars of the remaining rows |
| OverviewSection.SectorBarsBounded | server/overview_section.py:245-248 | no bar counts more incidents than the table has |
| OverviewSection.CumSum | server/overview_section.py:94 | the i-th cumulative count is the sum of the first i+1 monthly counts |
| OverviewSection.CumSumProperties | server/overview_section.py:94 | the cumulative count never decreases and ends at the total |
| OverviewSection.MonthlyCounts | server/overview_section.py:92-93 | one bin per calendar month from the first to the last, each counting the distinct ids added that month |
| OverviewSection.MonthRange | server/overview_section.py:92-93 | the counts of the months from lo to hi, each month's at its offset from lo |
| OverviewSection.MonthInRange | server/overview_section.py:92-93 | a row's month lies between the first and the last month added |
| OverviewSection.MonthlyBinsCover | server/overview_section.py:92-93 | every row falls in a bin and makes its bin count at least 1 |
| OverviewSection.CumulativeSeries | server/overview_section.py:91-94 | the cumulative series has one point per monthly bin with its count, is non-decreasing and ends at the sum of the counts |
| OverviewSection.CumulativePoints | server/overview_section.py:94 | consecutive points carry the monthly counts; their cumulative value never decreases and ends at the total |
| OverviewSection.Days | server/overview_section.py:88 | the grouped days are strictly increasing and are exactly the days some row was added |
| OverviewSection.DailyCounts | server/overview_section.py:88 | each day's count is its number of distinct ids, at least 1 |
| OverviewSection.MeanOf | server/overview_section.py:88 | the `mean` of the values present: missing iff there is none, otherwise it times their number is their sum |
| OverviewSection.RealSumBounds | server/overview_section.py:88 | n values within [lo, hi] sum to between n·lo and n·hi |
| OverviewSection.MeanOfBounds | server/overview_section.py:88 | a mean lies between the smallest and the largest value |
| OverviewSection.RollingMean | server/overview_section.py:89 | each rolling value is the mean of the last up to 30 counts (min_periods 1) |
| OverviewSection.RollingIntensity | server/overview_section.py:90 | each rolling intensity is the mean of the intensities present among the last up to 30 entries of the daily frame (days with additions, not calendar days) |
| OverviewSection.RollingIntensityBounds | server/overview_section.py:90 | a rolling intensity is missing iff its window holds no intensity, and otherwise lies within the series' intensity range |
| OverviewSection.RollingMeanBounds | server/overview_section.py:89 | a rolling mean lies between the least and greatest count |
| OverviewSection.RollingMeanAtLeastOne | server/overview_section.py:88-89 | rolling means of daily counts are at least 1 |
| OverviewSection.RollingSeries | server/overview_section.py:86-90 | one point per day with additions on or after 2023-01-01, in increasing order, with that day's distinct-id count, its value the rolling mean of the daily counts (at least 1) and its intensity the rolling mean of the daily intensities |
| OverviewSection.RecentDays | server/overview_section.py:86-88 | every day kept for the rolling series is on or after 2023-01-01 |
| OverviewSection.SectorTraces | server/overview_section.py:289-314 | the loop draws one trace per selected sector, in selection order |
| OverviewSection.GenerateTimeline | server/overview_section.py:272-320 | no trace iff no row remains; one overall trace with no selection; otherwise one trace per selected sector over that sector's rows, cumulative when the toggle is on and rolling when it is off |
| OverviewSection.OfSector | server/overview_section.py:291 | exactly the rows of that sector, none added |
| InitiatorsSection.ButtonRows | server/initiators_section.py:31-33 | no button or "all-button" keeps every row; another button keeps exactly the rows of its mapped sector |
| InitiatorsSection.ButtonKeysAreKeys | server/initiators_section.py:11-27 | the 15 buttons are the keys of the sector map, without repeats, "all-button" first |
| InitiatorsSection.YearRows | server/initiators_section.py:38-82 | a year below 2025 keeps exactly the rows dated in that year; 2025 keeps all |
| InitiatorsSection.AggregateButton | server/initiators_section.py:217-227 | a triggering sector button is used as is; anything else falls back to the all-sectors button |
| InitiatorsSection.ActiveButtons | server/initiators_section.py:197-202 | with no trigger only "all-button" is active; otherwise exactly the triggered button is; at most one button is active |
| InitiatorsSection.NamedGroups | server/initiators_section.py:56-62 | groups of complete keys with a real name, each counting its distinct ids; every listable row's group is among them |
| InitiatorsSection.TopActorsOf | server/initiators_section.py:56-69 | at most 5 named actors, descending by count; each actor left out counts no more than any shown; with fewer than 5 shown none is left out |
| InitiatorsSection.TopActorsLeftOut | server/initiators_section.py:62-69 | the head(5) of the descending sort leaves out only actors no larger than those kept |
| InitiatorsSection.ActorCounts | server/initiators_section.py:56 | a group over the rows with a complete key counts the key's distinct ids in the whole table |
| InitiatorsSection.ListableGrouped | server/initiators_section.py:56-68 | the group of every listable row survives the name exclusion |
| InitiatorsSection.ActorTable | server/initiators_section.py:30-69 | at most 5 actors, each from a row that passes the button and year filters |
| InitiatorsSection.CountryTotalAtLeast | server/initiators_section.py:83-88 | a (country, category) count is at most its country's overall total |
| InitiatorsSection.CountryTotals | server/initiators_section.py:83-88 | one total per country, the sum of its category counts |
| InitiatorsSection.TopCountries | server/initiators_section.py:84-89 | at most 10 countries; none left out has a larger total than one kept; with at most 10 countries all are kept |
| InitiatorsSection.TopCountriesLeftOut | server/initiators_section.py:84-89 | nlargest(10) leaves out only countries with totals no larger than those kept |
| InitiatorsSection.OverallThenTotalOrder | server/initiators_section.py:93 | the (total_overall, total) order is a total preorder |
| InitiatorsSection.KeptBars | server/initiators_section.py:85-91 | a bar exists iff it is a group of a top country with that country's overall total merged in |
| InitiatorsSection.OriginGroups | server/initiators_section.py:75-77 | one group per non-null (country, category), counting its distinct ids |
| InitiatorsSection.CountryChartOf | server/initiators_section.py:71-93 | bars of at most 10 countries carry their distinct-id count and country total; every group of a kept country is shown; no omitted country outweighs a shown one; sorted ascending by (total_overall, total) |
| InitiatorsSection.BarsReordered | server/initiators_section.py:93 | sorting the bars keeps exactly the same bars |
| InitiatorsSection.BarsLeftOut | server/initiators_section.py:84-91 | a country outside the top 10 has an overall total no larger than any shown bar's |
| InitiatorsSection.BarsCounted | server/initiators_section.py:77-91 | each bar's total and overall total are distinct-id counts of the table |
| InitiatorsSection.BarsCountries | server/initiators_section.py:85-90 | the bars' countries are exactly the top countries |
| InitiatorsSection.BarsComplete | server/initiators_section.py:85-90 | every (country, category) of a top country has its bar |
| InitiatorsSection.CountryChart | server/initiators_section.py:213-229 | at most 10 countries, each bar from a row passing the button and year filters |
| InitiatorsSection.ConflictLinked | server/initiators_section.py:304 | exactly the rows whose conflict is not "Not available" |
| InitiatorsSection.ConflictRows | server/initiators_section.py:99-101 | conflict-linked rows, and only the clicked conflict's when one is clicked |
| InitiatorsSection.SharesOf | server/initiators_section.py:108-112 | the i-th share carries the i-th sector, its count, its percentage of the total and the shown conflict |
| InitiatorsSection.ConflictSectors | server/initiators_section.py:98-112 | the empty signal iff no row remains; otherwise one share per sector with its distinct-id count, percentages summing to 100, sorted descending, all labelled with the clicked conflict or "All conflicts" |
| InitiatorsSection.ConflictShares | server/initiators_section.py:108-112 | over a non-empty subset, the shares cover its sectors once each, sum to 100 percent and are sorted descending |
| InitiatorsSection.SharesTotal | server/initiators_section.py:110 | a non-empty grouping has a positive total |
| InitiatorsSection.SharesSectors | server/initiators_section.py:108-112 | the shares' sectors are the grouping's keys, with their counts and percentages |
| InitiatorsSection.SharesSorted | server/initiators_section.py:111 | shares of a descending grouping have descending percentages |
| InitiatorsSection.ShareTotalCounts | server/initiators_section.py:110 | the shares' incidents sum to the grouping's total |
| InitiatorsSection.ByNameOrder | server/initiators_section.py:318 | the order of groupby on the conflict name is a total preorder |
| InitiatorsSection.PieSegment | server/initiators_section.py:311-316 | the clicked point number, forced to None by a reset or a country change |
| InitiatorsSection.PieOf | server/initiators_section.py:318-322 | one slice per conflict with its distinct-id count, in name order; slice i is highlighted iff it is the segment; at most one is highlighted |
| InitiatorsSection.SlicesCount | server/initiators_section.py:318-322 | each slice of a grouping by conflict carries that conflict's distinct-id count, at least 1 |
| InitiatorsSection.Slices | server/initiators_section.py:318-322 | the i-th slice carries the i-th conflict and count, highlighted iff i is the segment |
| InitiatorsSection.PieSlices | server/initiators_section.py:301-324 | no pie iff no conflict-linked row is selected; after a reset or a country change nothing is highlighted |
| InitiatorsSection.ClickedConflict | server/initiators_section.py:361-370 | a reset or a country change ignores the pie click; otherwise the clicked conflict is used |
| InitiatorsSection.SectorsConflictGraph | server/initiators_section.py:346-376 | the store is the conflict sector shares of the selected rows for the clicked conflict (none after a reset or a selector change): empty iff no such row remains, otherwise per-sector distinct ids and percentages summing to 100 in descending order, each naming the conflict shown |
| InitiatorsSection.StoredConflict | server/initiators_section.py:404-405 | "All conflicts" means no conflict filter; any other name filters by itself |
| InitiatorsSection.ChainSelection | server/initiators_section.py:400-430 | a sector click not from the store selects the clicked sector and the stored conflict; a store update selects all sectors and the stored conflict; neither selects everything; unreadable stores fail |
| InitiatorsSection.InitiatorsConflictGraph | server/initiators_section.py:386-438 | no chart iff no conflict-linked row, a failure iff the selection cannot be read; otherwise the bars are the country chart (counts, top-10 law, order) of the conflict-linked rows matching the selection, titled with the selection |
| InitiatorsSection.ChosenRows | server/initiators_section.py:406-427 | exactly the rows of the clicked sector (if any) and of the stored conflict (unless all conflicts) |
| InitiatorsSection.ChainBarsSourced | server/initiators_section.py:400-436 | every bar of the chain's country chart comes from a selected, conflict-linked row matching the selection |
| InitiatorsSection.StoreUpdateFollowsPie | server/initiators_section.py:367-418 | after a pie click, the store update makes the initiator chart show all sectors of the clicked conflict |
| InitiatorsSection.StoreNarrowsToConflict | server/initiators_section.py:412-427 | a non-empty store naming one conflict makes the store update select that conflict in all sectors |
| TypesSection.FindFrom | server/types_section.py:231 | the first occurrence of the pattern at or after i, or None when there is none |
| TypesSection.MatchFrom | server/types_section.py:231 | a found position is a match of `Type: (.*?)<br>` at or after i |
| TypesSection.MatchFromLeftmost | server/types_section.py:231 | no match lies before the position found, and None means no match at or after i |
| TypesSection.GroupAt | server/types_section.py:231-232 | the group of a match is the text from after "Type: " up to the first "<br>", with no "<br>" and no newline inside |
| TypesSection.TypeFromHover | server/types_section.py:230-232 | the group of the leftmost match of `Type: (.*?)<br>` (where `.` skips newlines), None iff nothing matches; the result holds no "<br>" and no newline |
| TypesSection.HoverRoundTrip | server/types_section.py:202-232 | parsing the hover text built for a type without "<br>" or a newline returns that type |
| TypesSection.ChosenTypesPlain | server/types_section.py:9 | no chosen type contains "<br>" or a newline, so every chosen type round-trips |
| TypesSection.FilterClickData | server/types_section.py:110-119 | a row is kept iff it matches the stack's sector and type when a stack is selected, and the impact when one is clicked; neither keeps the table |
| TypesSection.FilterClickDataIdempotent | server/types_section.py:110-119 | filtering twice equals filtering once |
| TypesSection.PairCounts | server/types_section.py:179 | each cell is the distinct-id count of the (sector, type) pair |
| TypesSection.PivotColumns | server/types_section.py:189-190 | the columns are exactly the present chosen types, in `chosen_types` order |
| TypesSection.ColumnsUnique | server/types_section.py:189-190 | no column appears twice |
| TypesSection.SectorTotalPositive | server/types_section.py:181-182 | a sector's total is at least any of its cells, which is at least 1 for a present pair |
| TypesSection.SectorTotals | server/types_section.py:182 | one total per present sector, the sum of its pair counts, at least 1 |
| TypesSection.RowsOf | server/types_section.py:183-188 | each pivot row carries its sector's total and, per column, its pair count as a percentage of that total |
| TypesSection.RowsOfGroups | server/types_section.py:186-191 | the pivot rows cover every present sector in ascending order of total |
| TypesSection.PivotOf | server/types_section.py:179-191 | columns are the present chosen types in their order; one row per present sector, ascending by total; every cell is count / sector total × 100 |
| TypesSection.PivotRowsFacts | server/types_section.py:182-191 | sorting the totals keeps every sector and its total |
| TypesSection.PivotCellBounds | server/types_section.py:183-188 | every pivot cell lies between 0 and 100 |
| TypesSection.PivotRowSumsTo100 | server/types_section.py:182-190 | when every type is a chosen type, each sector's percentages sum to 100 |
| TypesSection.StackRows | server/types_section.py:33-37 | exactly the rows of the selected sector and type; no selection keeps all |
| TypesSection.ImpactGraph | server/types_section.py:32-40 | distinct-id counts per impact over the stack's rows, sorted descending |
| TypesSection.NextSelected | server/types_section.py:173-262 | with no data or no click the selection only sees the reset; clicking the selected pair clears it and any other pair selects it; a raising click changes nothing; a colourable selection stays colourable |
| TypesSection.ClickTwiceRestores | server/types_section.py:234-256 | clicking the same stack twice restores the previous selection |
| TypesSection.SegmentClickSelects | server/types_section.py:202-256 | a click on a chosen-type segment selects its (type, sector), or clears it when it was selected |
| TypesSection.ResetPropIdNeverMatches | server/types_section.py:173 | a reset trigger behaves exactly like any other trigger, because the full prop_id never equals the bare reset id |
| TypesSection.ResetTogglesSelection | server/types_section.py:173-256 | a reset with the same click still toggles the stack: a selected stack is cleared, an empty selection is set |
| TypesSection.Types.constructor | server/types_section.py:149 | the selection starts empty |
| TypesSection.Types.UpdateAggregateGraph | server/types_section.py:169-264 | empty charts iff no rows; raised iff the colour lookup fails; otherwise the pivot and impact chart of the selected rows, with the stack store set iff a stack is selected; `last_selected` moves to the next selection |
| TypesSection.EffectiveClicks | server/types_section.py:280-285 | a reset clears both clicks; an aggregate trigger clears the impact click; otherwise clicks pass through |
| TypesSection.ImpactTypesRows | server/types_section.py:276-307 | the rows of the impact-type charts are a sub-multiset of the selected rows |
| TypesSection.ResetShowsAllRows | server/types_section.py:280-307 | after a reset with no stored stack the charts read every selected row |
| TypesSection.AggregateClickNarrows | server/types_section.py:284-307 | after an aggregate click with a stored stack, every row read is of the clicked sector and type |
| TypesSection.IntelligenceCounts | server/types_section.py:66-69 | distinct-id counts per (label, text) over the rows with a text |
| TypesSection.KeysHaveText | server/types_section.py:66-69 | grouping rows that all have a text yields only keys with a text |
| TypesSection.FunctionalCounts | server/types_section.py:70-71 | distinct-id counts per functional impact |
| TypesSection.TechniqueRows | server/types_section.py:341-344 | "all" keeps every sector (type); any other choice keeps only its own |
| TypesSection.Techniques | server/types_section.py:335-348 | no chart iff no selected row; otherwise one bar per initial access other than "Not available", with its distinct-id count, sorted descending |
| TypesSection.KnownTechniques | server/types_section.py:346-348 | one group per initial access other than "Not available", with its distinct-id count, sorted descending |
| TypesSection.KnownTechniqueKeys | server/types_section.py:346-348 | dropping the "Not available" group leaves exactly the other initial-access values as keys |
| Frame.Where | server/initiators_section.py:98 | a boolean mask keeps exactly the rows satisfying it, every copy of each, in their order |
| Frame.CountBy | server/types_section.py:39 | one group per key present, each counting the distinct ids with that key |
| Frame.SortBy | server/types_section.py:40 | the sorted list is a permutation of the input, sorted by the order |
| Frame.TopBy | server/initiators_section.py:69 | `head(n)` of the sort: at most n elements, sorted, none left out ranks before a kept one |
| Frame.PercentsSum | server/initiators_section.py:110 | the percentages of counts sum to the percentage of their sum |
| Frame.MapEach | server/overview_section.py:289-314 | the loop builds one output per input, in input order |

## Left out

- Database access: `QueryData.__init__`, `query_database` and `get_subtype_data` are SQL against an external database. Their output is the input table.
- File reads: `iso_codes.xlsx` becomes the `iso` map parameter of `QueryData.CleanInitiatorNames`. An unmatched country gets no code, as the left merge leaves NaN. The layout pickle is not part of this model.
- Presentation: Plotly figures, colours, layouts, hover templates, titles, `empty_figure` and `graph_config` are not modelled. An empty figure is a `None` or an `EmptyCharts` outcome.
- Dash callback registration and `callback_context` plumbing: trigger ids, click payloads and stores are plain parameters. `today` is a parameter, because the clock is I/O.
- Floating point: percentages, means and rolling means are exact reals. Float formatting and IEEE rounding are not modelled.
- `weighted_intensity`: `pd.to_numeric` coercion is taken as done, with an unparsable value as `None`. Means skip `None`.
- Nulls in the categorical columns: the outer joins of `query_database` (query_data.py:69-81) can leave `conflict_name`, `receiver_subcategory`, `impact`, `functional_impact`, `intelligence_impact` and `initial_access` null. The model types them as plain strings. In pandas, a null passes a `!= "Not available"` filter but is dropped by `groupby`. For example, a null conflict name counts in the conflict sector shares and in the chain's country chart (initiators_section.py:99, :304, :395) but gets no pie slice (:318). The model does not capture this difference.
- Columns the charts never read (`receiver_name`, `issue`, `zero_days`, `economic_impact`, `economic_impact_value`, `economic_impact_currency`, the sub-type columns) are not in `Row`. `QueryData.DropDuplicates` therefore merges rows that differ only in them, which the source keeps apart. This changes the row-weighted intensity means, though no distinct-id count.
- The timeline's colour lookup `sectors_color_map[selected_sector]` (overview_section.py:115) raises `KeyError` for a sector outside the colour map. The model draws a trace for every selected label.
- Sort tie order: pandas' default sort is not stable, so its order among equal keys is unspecified. The model sorts stably.
- The display re-sorts by `total_overall` descending (initiators_section.py:234 and :440) only reorder bars already chosen. They are not modelled.
- `df["start_date"] = pd.to_datetime(...)` overwrites (utils.py:121 and :128, initiators_section.py:35) change the column type, not its values. Dates are already `Date`.
- `most_common` on an initiator whose feature values are all null: pandas' `mode()` is then empty and indexing it raises. The model returns no mode (`None`) instead. After `clean_initiators` the country and category are never null, so in the pipeline this case does not arise.
- The stores: the empty store `{}` of the sector chart (initiators_section.py:357) and a store whose row cannot be indexed both read as an unreadable store. They make the chain fail rather than raise.
- `generate_timeline` with a `None` selection evaluates `len(None)` and raises. The model's selection is always a list.
- `generate_impact_type_graph` category arrays and hover texts only fix the axis order of the charts. They are not modelled.
- The overview sunburst and the other layout-only callbacks are not part of this model.
- InitiatorsSection.ActorTable: states only the bound and the provenance of the shown actors. Their counts, the order and the top-5 law are the contract of `InitiatorsSection.TopActorsOf`, which it applies to the filtered rows.
- InitiatorsSection.CountryChart: states only the 10-country bound and the provenance of the bars. The counts, the order and the top-10 law are the contract of `InitiatorsSection.CountryChartOf`.
- TypesSection.ImpactTypesRows: its own contract is only the sub-multiset bound. The reset and aggregate-click cases are stated by `TypesSection.ResetShowsAllRows` and `TypesSection.AggregateClickNarrows`.
- TypesSection.PivotRowSumsTo100: requires every `type_clean` to be a chosen type. `clean_initiator_names` guarantees this (`QueryData.Finish`). Without it, a dropped column makes a row sum to less than 100.
