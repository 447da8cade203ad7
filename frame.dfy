/** The table every part of the dashboard works on.

    The database join returns one row per (incident, receiver, initiator,
    impact dimension) combination, so an incident id repeats across rows.
    A data frame is modelled as a sequence of such rows; "number of incidents"
    is always the number of DISTINCT ids among a set of rows (pandas
    `agg({"id": "nunique"})`), never a row count. */
module Frame {

  datatype Option<T> = None | Some(value: T)

  /** The attack types shown individually; every other type is reported as
      "Other". */
  const ChosenTypes: seq<string> := ["Data theft", "DDoS/Defacement", "Ransomware", "Wiper", "Hack and leak", "Other"]

  /** A calendar date. */
  datatype Date = Date(year: int, month: int, day: int)

  /** The date written as the number yyyymmdd (2020-02-01 is 20200201): for
      real dates, chronological order is the order of these numbers. */
  function Ordinal(d: Date): int { d.year * 10000 + d.month * 100 + d.day }

  function Year(d: Date): int { d.year }

  /** Months numbered consecutively, so that the bins of a monthly grouping
      are consecutive integers. */
  function MonthIndex(d: Date): int { d.year * 12 + d.month - 1 }

  /** One row of the canonical table. The last six fields are columns that the
      canonicalisation pipeline adds; they are None until it computes them. */
  datatype Row = Row(
    id: int,
    startDate: Option<Date>,
    addedToDb: Date,
    typeClean: string,
    receiverCountry: string,
    regionName: string,
    receiverSubcategory: string,
    initiatorName: Option<string>,
    initiatorCountry: Option<string>,
    initiatorCategory: Option<string>,
    settledInitiator: Option<bool>,
    initialAccess: string,
    weightedIntensity: Option<real>,
    impact: string,
    conflictName: string,
    functionalImpact: string,
    intelligenceImpact: string,
    intelligenceImpactText: Option<string>,
    typeCleanMostCommon: Option<string>,
    initialAccessMostCommon: Option<string>,
    initiatorCountryMostCommon: Option<string>,
    initiatorCategoryMostCommon: Option<string>,
    alpha2Code: Option<string>
  )

  /** The receiver sector of a row, the key of every per-sector grouping. */
  function Sector(r: Row): string { r.receiverSubcategory }

  /** The incidents present among some rows. */
  function Ids(rows: seq<Row>): set<int> {
    set r | r in rows :: r.id
  }

  /** The incidents among the rows whose grouping key is k. */
  function IdsWith<K(==)>(rows: seq<Row>, key: Row -> K, k: K): set<int> {
    set r | r in rows && key(r) == k :: r.id
  }

  /** Boolean-mask selection `df[mask]`: the rows satisfying p, every copy
      of each, in their order. */
  function Where(rows: seq<Row>, p: Row -> bool): (out: seq<Row>)
    ensures forall r :: r in out <==> r in rows && p(r)
    ensures multiset(out) <= multiset(rows)
    ensures forall r :: p(r) ==> multiset(out)[r] == multiset(rows)[r]
    ensures IsSubsequence(out, rows)
    ensures |out| <= |rows|
  {
    if rows == [] then []
    else
      var rest := Where(rows[1..], p);
      assert rows == [rows[0]] + rows[1..];
      assert multiset(rows) == multiset([rows[0]]) + multiset(rows[1..]);
      if p(rows[0]) then
        assert ([rows[0]] + rest)[1..] == rest;
        [rows[0]] + rest
      else rest
  }

  /** A mask over any sequence (a filtered aggregate): the elements
      satisfying p, in their order. */
  function Select<T(!new)>(s: seq<T>, p: T -> bool): (out: seq<T>)
    ensures forall x :: x in out <==> x in s && p(x)
    ensures multiset(out) <= multiset(s)
    ensures IsSubsequence(out, s)
  {
    if s == [] then []
    else
      var rest := Select(s[1..], p);
      assert s == [s[0]] + s[1..];
      if p(s[0]) then [s[0]] + rest else rest
  }

  /** a is b with some elements deleted: a keeps b's relative order. */
  predicate IsSubsequence<T(==)>(a: seq<T>, b: seq<T>) {
    if a == [] then true
    else if b == [] then false
    else (a[0] == b[0] && IsSubsequence(a[1..], b[1..])) || IsSubsequence(a, b[1..])
  }

  lemma {:induction false} SubsequenceMembers<T>(a: seq<T>, b: seq<T>)
    requires IsSubsequence(a, b)
    ensures forall x :: x in a ==> x in b
  {
    if a != [] && b != [] {
      if a[0] == b[0] && IsSubsequence(a[1..], b[1..]) {
        SubsequenceMembers(a[1..], b[1..]);
        assert a == [a[0]] + a[1..];
      } else {
        SubsequenceMembers(a, b[1..]);
      }
    }
  }

  /** Deleting elements keeps a sequence sorted. */
  lemma {:induction false} SubsequenceSorted<T>(a: seq<T>, b: seq<T>, le: (T, T) -> bool)
    requires IsSubsequence(a, b) && SortedBy(b, le)
    ensures SortedBy(a, le)
  {
    if a != [] && b != [] {
      assert SortedBy(b[1..], le);
      if a[0] == b[0] && IsSubsequence(a[1..], b[1..]) {
        SubsequenceSorted(a[1..], b[1..], le);
        SubsequenceMembers(a[1..], b[1..]);
        forall i, j | 0 <= i < j < |a|
          ensures le(a[i], a[j])
        {
          if i == 0 {
            assert a[j] == a[1..][j - 1];
            assert a[1..][j - 1] in a[1..];
            assert a[j] in b[1..];
            var k :| 0 <= k < |b[1..]| && b[1..][k] == a[j];
            assert b[k + 1] == a[j];
          } else {
            assert a[i] == a[1..][i - 1] && a[j] == a[1..][j - 1];
          }
        }
      } else {
        SubsequenceSorted(a, b[1..], le);
      }
    }
  }

  /** A mask that keeps every row leaves the frame as it is. */
  lemma {:induction false} WhereAll(rows: seq<Row>, p: Row -> bool)
    requires forall r :: r in rows ==> p(r)
    ensures Where(rows, p) == rows
  {
    if rows != [] {
      WhereAll(rows[1..], p);
    }
  }

  /** A mask that no row satisfies leaves nothing. */
  lemma WhereNone(rows: seq<Row>, p: Row -> bool)
    requires forall r :: r in rows ==> !p(r)
    ensures Where(rows, p) == []
  {
  }

  /** Applying a mask can only lose incidents. */
  lemma WhereIds(rows: seq<Row>, p: Row -> bool)
    ensures Ids(Where(rows, p)) <= Ids(rows)
  {
  }

  /** A row-wise rewrite of columns (`df[c] = df.apply(f, axis=1)`). */
  function MapRows(rows: seq<Row>, f: Row -> Row): (out: seq<Row>)
    ensures |out| == |rows|
    ensures forall i :: 0 <= i < |rows| ==> out[i] == f(rows[i])
  {
    seq(|rows|, i requires 0 <= i < |rows| => f(rows[i]))
  }

  /** A loop that builds one output per input, in order. */
  method MapEach<A, B>(xs: seq<A>, f: A -> B) returns (ys: seq<B>)
    ensures |ys| == |xs|
    ensures forall i :: 0 <= i < |xs| ==> ys[i] == f(xs[i])
  {
    ys := [];
    for k := 0 to |xs|
      invariant |ys| == k
      invariant forall i :: 0 <= i < k ==> ys[i] == f(xs[i])
    {
      ys := ys + [f(xs[k])];
    }
  }

  /** A rewrite that keeps every row's id keeps the set of incidents. */
  lemma MapRowsIds(rows: seq<Row>, f: Row -> Row)
    requires forall r :: f(r).id == r.id
    ensures Ids(MapRows(rows, f)) == Ids(rows)
  {
    var out := MapRows(rows, f);
    forall id | id in Ids(out) ensures id in Ids(rows) {
      var r :| r in out && r.id == id;
      var i :| 0 <= i < |out| && out[i] == r;
      assert rows[i] in rows;
    }
    forall id | id in Ids(rows) ensures id in Ids(out) {
      var r :| r in rows && r.id == id;
      var i :| 0 <= i < |rows| && rows[i] == r;
      assert out[i] in out;
    }
  }

  predicate Unique<T(==)>(s: seq<T>) {
    forall i, j :: 0 <= i < j < |s| ==> s[i] != s[j]
  }

  lemma {:induction false} UniqueCard<T>(s: seq<T>)
    requires Unique(s)
    ensures |set x | x in s| == |s|
  {
    if s != [] {
      var init := s[..|s| - 1];
      UniqueCard(init);
      assert (set x | x in s) == (set x | x in init) + {s[|s| - 1]};
      assert s[|s| - 1] !in init;
    }
  }

  /** The distinct values of a column, in order of first appearance. */
  function KeysOf<K(==)>(rows: seq<Row>, key: Row -> K): (ks: seq<K>)
    ensures Unique(ks)
    ensures (set k | k in ks) == (set r | r in rows :: key(r))
  {
    if rows == [] then []
    else
      var init := rows[..|rows| - 1];
      var ks := KeysOf(init, key);
      var k := key(rows[|rows| - 1]);
      assert rows == init + [rows[|rows| - 1]];
      assert (set r | r in rows :: key(r)) == (set r | r in init :: key(r)) + {k} by {
        forall r | r in rows
          ensures key(r) in (set r | r in init :: key(r)) + {k}
        {
          if r != rows[|rows| - 1] { assert r in init; }
        }
      }
      if k in ks then ks else ks + [k]
  }

  /** The distinct elements of a sequence, in order of first appearance. */
  function Distinct<T(==,!new)>(s: seq<T>): (d: seq<T>)
    ensures Unique(d)
    ensures forall x :: x in d <==> x in s
  {
    if s == [] then []
    else
      var d := Distinct(s[..|s| - 1]);
      assert s == s[..|s| - 1] + [s[|s| - 1]];
      if s[|s| - 1] in d then d else d + [s[|s| - 1]]
  }

  /** One group of a groupby: its key and its number of distinct incidents. */
  datatype Group<K> = Group(key: K, incidents: nat)

  function GroupKeys<K>(gs: seq<Group<K>>): set<K> {
    set g | g in gs :: g.key
  }

  /** gs is `rows.groupby(key).agg({"id": "nunique"})` up to row order: one
      group per key present, each with its number of distinct incidents. */
  ghost predicate IsGrouping<K(!new)>(gs: seq<Group<K>>, rows: seq<Row>, key: Row -> K) {
    && GroupKeys(gs) == (set r | r in rows :: key(r))
    && |gs| == |GroupKeys(gs)|
    && forall g :: g in gs ==> g.incidents == |IdsWith(rows, key, g.key)| && g.incidents >= 1
  }

  /** `rows.groupby(key).agg({"id": "nunique"})`, groups in order of first appearance. */
  function CountBy<K(==,!new)>(rows: seq<Row>, key: Row -> K): (gs: seq<Group<K>>)
    ensures IsGrouping(gs, rows, key)
  {
    var ks := KeysOf(rows, key);
    var gs := seq(|ks|, i requires 0 <= i < |ks| => Group(ks[i], |IdsWith(rows, key, ks[i])|));
    assert GroupKeys(gs) == (set k | k in ks) by {
      forall k | k in ks ensures k in GroupKeys(gs) {
        var i :| 0 <= i < |ks| && ks[i] == k;
        assert gs[i] in gs;
      }
    }
    UniqueCard(ks);
    forall g | g in gs
      ensures g.incidents >= 1
    {
      assert g.key in GroupKeys(gs);
      assert g.key in (set r | r in rows :: key(r));
      var r :| r in rows && key(r) == g.key;
      assert r.id in IdsWith(rows, key, g.key);
    }
    gs
  }

  /** A grouping stays a grouping under any reordering of its groups. */
  lemma GroupingPermuted<K(!new)>(gs: seq<Group<K>>, hs: seq<Group<K>>, rows: seq<Row>, key: Row -> K)
    requires IsGrouping(gs, rows, key)
    requires multiset(hs) == multiset(gs)
    ensures IsGrouping(hs, rows, key)
  {
    assert forall g :: g in hs <==> g in gs by {
      forall g ensures g in hs <==> g in gs {
        assert g in hs <==> g in multiset(hs);
        assert g in gs <==> g in multiset(gs);
      }
    }
    assert |hs| == |multiset(hs)| == |multiset(gs)| == |gs|;
  }

  /** Descending order of incidents, the order of `sort_values(ascending=False)`
      and `nlargest`. */
  predicate Larger<K>(a: Group<K>, b: Group<K>) {
    a.incidents >= b.incidents
  }

  lemma LargerTotal<K(!new)>()
    ensures TotalPreorder(Larger<K>)
  {
  }

  /** Ascending order of incidents. */
  predicate Fewer<K>(a: Group<K>, b: Group<K>) {
    a.incidents <= b.incidents
  }

  lemma FewerTotal<K(!new)>()
    ensures TotalPreorder(Fewer<K>)
  {
  }

  lemma {:induction false} KeysCard<K>(gs: seq<Group<K>>)
    ensures |GroupKeys(gs)| <= |gs|
  {
    if gs != [] {
      KeysCard(gs[1..]);
      assert gs == [gs[0]] + gs[1..];
      assert GroupKeys(gs) == {gs[0].key} + GroupKeys(gs[1..]);
    }
  }

  lemma GroupsIn<K>(gs: seq<Group<K>>, hs: seq<Group<K>>)
    requires multiset(hs) <= multiset(gs)
    ensures forall g :: g in hs ==> g in gs
  {
    forall g | g in hs ensures g in gs {
      assert g in multiset(hs);
    }
  }

  lemma SameGroups<K>(gs: seq<Group<K>>, hs: seq<Group<K>>)
    requires multiset(hs) == multiset(gs)
    ensures forall g :: g in hs <==> g in gs
  {
    forall g ensures g in hs <==> g in gs {
      assert g in hs <==> g in multiset(hs);
    }
  }

  // ---------------------------------------------------------------- sorting

  ghost predicate TotalPreorder<T(!new)>(le: (T, T) -> bool) {
    && (forall a, b :: le(a, b) || le(b, a))
    && (forall a, b, c :: le(a, b) && le(b, c) ==> le(a, c))
  }

  predicate SortedBy<T>(s: seq<T>, le: (T, T) -> bool) {
    forall i, j :: 0 <= i < j < |s| ==> le(s[i], s[j])
  }

  /** Putting in front an element that precedes every other keeps a
      sequence sorted. */
  lemma SortedCons<T>(x: T, s: seq<T>, le: (T, T) -> bool)
    requires SortedBy(s, le) && forall y :: y in s ==> le(x, y)
    ensures SortedBy([x] + s, le)
  {
    var out := [x] + s;
    forall i, j | 0 <= i < j < |out| ensures le(out[i], out[j]) {
      assert out[j] == s[j - 1] && s[j - 1] in s;
      if i > 0 { assert out[i] == s[i - 1]; }
    }
  }

  /** An element before the head of a sorted sequence (or any element, when
      it is empty) precedes all of it. */
  lemma LeadsSorted<T(!new)>(x: T, s: seq<T>, le: (T, T) -> bool)
    requires TotalPreorder(le) && SortedBy(s, le) && (s == [] || le(x, s[0]))
    ensures forall y :: y in s ==> le(x, y)
  {
    forall y | y in s ensures le(x, y) {
      var j :| 0 <= j < |s| && s[j] == y;
      if j > 0 { assert le(s[0], s[j]); }
    }
  }

  /** The head of a sorted sequence precedes its tail with x put in, when it
      precedes x. */
  lemma HeadLeadsRest<T>(s: seq<T>, x: T, rest: seq<T>, le: (T, T) -> bool)
    requires SortedBy(s, le) && s != [] && le(s[0], x)
    requires multiset(rest) == multiset(s[1..]) + multiset{x}
    ensures forall y :: y in rest ==> le(s[0], y)
  {
    forall y | y in rest ensures le(s[0], y) {
      assert y in multiset(rest);
      if y != x {
        assert y in multiset(s[1..]);
        var j :| 0 <= j < |s[1..]| && s[1..][j] == y;
        assert s[j + 1] == y;
      }
    }
  }

  function InsertBy<T(==,!new)>(x: T, s: seq<T>, le: (T, T) -> bool): (out: seq<T>)
    requires TotalPreorder(le) && SortedBy(s, le)
    ensures multiset(out) == multiset(s) + multiset{x}
    ensures SortedBy(out, le)
  {
    if s == [] || le(x, s[0]) then
      LeadsSorted(x, s, le);
      SortedCons(x, s, le);
      [x] + s
    else
      var rest := InsertBy(x, s[1..], le);
      assert s == [s[0]] + s[1..];
      assert le(s[0], x);
      HeadLeadsRest(s, x, rest, le);
      SortedCons(s[0], rest, le);
      [s[0]] + rest
  }

  /** `sort_values` by the order le (a stable insertion sort). */
  function SortBy<T(==,!new)>(s: seq<T>, le: (T, T) -> bool): (out: seq<T>)
    requires TotalPreorder(le)
    ensures multiset(out) == multiset(s)
    ensures SortedBy(out, le)
  {
    if s == [] then []
    else
      assert s == [s[0]] + s[1..];
      InsertBy(s[0], SortBy(s[1..], le), le)
  }

  function Min(a: int, b: int): int { if a <= b then a else b }

  /** In a sorted sequence, an element of a prefix precedes every element
      outside it. */
  lemma SortedPrefixLeads<T>(sorted: seq<T>, k: nat, le: (T, T) -> bool, x: T, y: T)
    requires SortedBy(sorted, le) && k <= |sorted|
    requires x in sorted[..k] && y in sorted && y !in sorted[..k]
    ensures le(x, y)
  {
    var i :| 0 <= i < k && sorted[..k][i] == x;
    var j :| 0 <= j < |sorted| && sorted[j] == y;
    assert forall m :: 0 <= m < k ==> sorted[m] in sorted[..k];
    assert i < j;
  }

  /** A prefix holds part of the sequence's elements. */
  lemma PrefixSub<T>(s: seq<T>, k: nat)
    requires k <= |s|
    ensures multiset(s[..k]) <= multiset(s)
  {
    assert s == s[..k] + s[k..];
  }

  /** `sort_values(...).head(n)` / `nlargest(n)`: the first n elements in the
      order le. Nothing left out ranks above anything kept. */
  function TopBy<T(==,!new)>(s: seq<T>, le: (T, T) -> bool, n: nat): (out: seq<T>)
    requires TotalPreorder(le)
    ensures |out| == Min(n, |s|)
    ensures multiset(out) <= multiset(s)
    ensures SortedBy(out, le)
    ensures forall x, y :: x in out && y in s && y !in out ==> le(x, y)
    ensures |s| <= n ==> multiset(out) == multiset(s)
  {
    var sorted := SortBy(s, le);
    var k := Min(n, |sorted|);
    var out := sorted[..k];
    PrefixSub(sorted, k);
    assert |sorted| == |multiset(sorted)| == |s|;
    assert k == |sorted| ==> out == sorted;
    forall x, y | x in out && y in s && y !in out
      ensures le(x, y)
    {
      assert y in multiset(sorted);
      SortedPrefixLeads(sorted, k, le, x, y);
    }
    out
  }

  /** Python's string order: lexicographic by character code. */
  predicate StrLe(a: string, b: string) {
    a == [] || (b != [] && (a[0] < b[0] || (a[0] == b[0] && StrLe(a[1..], b[1..]))))
  }

  lemma {:induction false} StrLeRefl(a: string)
    ensures StrLe(a, a)
  {
    if a != [] {
      StrLeRefl(a[1..]);
    }
  }

  lemma {:induction false} StrLeTotal(a: string, b: string)
    ensures StrLe(a, b) || StrLe(b, a)
  {
    if a != [] && b != [] && a[0] == b[0] {
      StrLeTotal(a[1..], b[1..]);
    }
  }

  lemma {:induction false} StrLeTrans(a: string, b: string, c: string)
    requires StrLe(a, b) && StrLe(b, c)
    ensures StrLe(a, c)
  {
    if a != [] && a[0] == b[0] && b[0] == c[0] {
      StrLeTrans(a[1..], b[1..], c[1..]);
    }
  }

  lemma {:induction false} StrLeAntisym(a: string, b: string)
    requires StrLe(a, b) && StrLe(b, a)
    ensures a == b
  {
    if a != [] {
      StrLeAntisym(a[1..], b[1..]);
      assert a == [a[0]] + a[1..];
      assert b == [b[0]] + b[1..];
    }
  }

  // ---------------------------------------------------------------- sums

  function Sum(s: seq<nat>): nat {
    if s == [] then 0 else Sum(s[..|s| - 1]) + s[|s| - 1]
  }

  function RealSum(s: seq<real>): real {
    if s == [] then 0.0 else RealSum(s[..|s| - 1]) + s[|s| - 1]
  }

  lemma {:induction false} SumPositive(cs: seq<nat>)
    requires |cs| > 0 && forall i :: 0 <= i < |cs| ==> cs[i] >= 1
    ensures Sum(cs) >= 1
  {
    if |cs| > 1 {
      SumPositive(cs[..|cs| - 1]);
    }
  }

  /** No element exceeds the sum. */
  lemma {:induction false} SumAtLeast(cs: seq<nat>, i: nat)
    requires i < |cs|
    ensures cs[i] <= Sum(cs)
  {
    if i < |cs| - 1 {
      SumAtLeast(cs[..|cs| - 1], i);
    }
  }

  /** Deleting elements from a sequence without repetitions leaves one. */
  lemma SubsequenceUnique<T>(a: seq<T>, b: seq<T>)
    requires IsSubsequence(a, b) && Unique(b)
    ensures Unique(a)
  {
    var differ := (x: T, y: T) => x != y;
    assert SortedBy(b, differ);
    SubsequenceSorted(a, b, differ);
  }

  /** No attack type is chosen twice. */
  lemma ChosenTypesUnique()
    ensures Unique(ChosenTypes)
  {
  }

  /** Sum distributes over concatenation. */
  lemma {:induction false} SumAppend(xs: seq<nat>, ys: seq<nat>)
    ensures Sum(xs + ys) == Sum(xs) + Sum(ys)
    decreases |ys|
  {
    if ys == [] {
      assert xs + ys == xs;
    } else {
      assert (xs + ys)[..|xs + ys| - 1] == xs + ys[..|ys| - 1];
      SumAppend(xs, ys[..|ys| - 1]);
    }
  }

  /** The value of f at each element of s. */
  function Tally<T>(s: seq<T>, f: T -> nat): (cs: seq<nat>)
    ensures |cs| == |s|
    ensures forall j :: 0 <= j < |s| ==> cs[j] == f(s[j])
  {
    seq(|s|, j requires 0 <= j < |s| => f(s[j]))
  }

  /** One group per key, counting f of the key. */
  function GroupsOf<K>(ks: seq<K>, f: K -> nat): (gs: seq<Group<K>>)
    ensures |gs| == |ks|
    ensures GroupKeys(gs) == set k | k in ks
    ensures forall g :: g in gs ==> g.key in ks && g.incidents == f(g.key)
  {
    var gs := seq(|ks|, i requires 0 <= i < |ks| => Group(ks[i], f(ks[i])));
    assert forall k :: k in ks ==> k in GroupKeys(gs) by {
      forall k | k in ks ensures k in GroupKeys(gs) {
        var i :| 0 <= i < |ks| && ks[i] == k;
        assert gs[i] in gs;
      }
    }
    gs
  }

  /** Removing the same element from two permutations of each other
      leaves two permutations of each other. */
  lemma RemoveLast<T>(a: seq<T>, b: seq<T>, k: nat)
    requires multiset(a) == multiset(b) && a != [] && k < |b| && b[k] == a[|a| - 1]
    ensures multiset(a[..|a| - 1]) == multiset(b[..k] + b[k + 1..])
  {
    var t := a[|a| - 1];
    var init := a[..|a| - 1];
    var rest := b[..k] + b[k + 1..];
    assert a == init + [t];
    assert b == b[..k] + [t] + b[k + 1..];
    assert multiset(a) == multiset(init) + multiset{t};
    assert multiset(b) == multiset(b[..k]) + multiset{t} + multiset(b[k + 1..]);
    assert multiset(rest) == multiset(b[..k]) + multiset(b[k + 1..]);
    forall x ensures multiset(init)[x] == multiset(rest)[x] {
      assert multiset(a)[x] == multiset(init)[x] + multiset{t}[x];
      assert multiset(b)[x] == multiset(rest)[x] + multiset{t}[x];
    }
  }

  /** Summing f over a sequence with one element removed. */
  lemma TallyRemove<T>(b: seq<T>, k: nat, f: T -> nat)
    requires k < |b|
    ensures Sum(Tally(b, f)) == Sum(Tally(b[..k] + b[k + 1..], f)) + f(b[k])
  {
    var pre := Tally(b[..k], f);
    var post := Tally(b[k + 1..], f);
    assert Tally(b, f) == pre + ([f(b[k])] + post);
    assert Tally(b[..k] + b[k + 1..], f) == pre + post;
    SumAppend(pre, [f(b[k])] + post);
    SumAppend([f(b[k])], post);
    SumAppend(pre, post);
    assert Sum([f(b[k])]) == f(b[k]) by { assert [f(b[k])][..0] == []; }
  }

  /** Summing f over a sequence does not depend on the sequence's order. */
  lemma {:induction false} TallySumPermutation<T>(a: seq<T>, b: seq<T>, f: T -> nat)
    requires multiset(a) == multiset(b)
    ensures Sum(Tally(a, f)) == Sum(Tally(b, f))
    decreases |a|
  {
    if a == [] {
      assert |b| == |multiset(b)| == 0;
    } else {
      var init := a[..|a| - 1];
      assert a[|a| - 1] in multiset(b);
      var k :| 0 <= k < |b| && b[k] == a[|a| - 1];
      RemoveLast(a, b, k);
      TallySumPermutation(init, b[..k] + b[k + 1..], f);
      TallyRemove(b, k, f);
      assert Tally(a, f)[..|a| - 1] == Tally(init, f);
    }
  }

  /** In a sequence without repetitions every member occurs once. */
  lemma {:induction false} UniqueMultiplicity<T>(s: seq<T>, x: T)
    requires Unique(s)
    ensures multiset(s)[x] == if x in s then 1 else 0
  {
    if s != [] {
      var init := s[..|s| - 1];
      assert s == init + [s[|s| - 1]];
      UniqueMultiplicity(init, x);
      assert s[|s| - 1] !in init by {
        forall i | 0 <= i < |init| ensures init[i] != s[|s| - 1] {
          assert init[i] == s[i];
        }
      }
    }
  }

  /** A value at two positions occurs at least twice. */
  lemma DuplicateCount<T>(s: seq<T>, i: nat, j: nat)
    requires i < j < |s| && s[i] == s[j]
    ensures multiset(s)[s[i]] >= 2
  {
    assert s == s[..i] + [s[i]] + s[i + 1..j] + [s[j]] + s[j + 1..];
  }

  /** Two sequences without repetitions and with the same members are
      permutations of each other. */
  lemma UniqueSameMultiset<T>(a: seq<T>, b: seq<T>)
    requires Unique(a) && Unique(b)
    requires forall x :: x in a <==> x in b
    ensures multiset(a) == multiset(b)
  {
    forall x ensures multiset(a)[x] == multiset(b)[x] {
      UniqueMultiplicity(a, x);
      UniqueMultiplicity(b, x);
    }
  }

  /** n as a percentage of total. */
  function Percent(n: nat, total: nat): real
    requires total > 0
  {
    (n as real) * 100.0 / (total as real)
  }

  lemma PercentAdd(a: nat, b: nat, total: nat)
    requires total > 0
    ensures Percent(a, total) + Percent(b, total) == Percent(a + b, total)
  {
  }

  lemma PercentMono(a: nat, b: nat, total: nat)
    requires total > 0 && a >= b
    ensures Percent(a, total) >= Percent(b, total)
  {
    var t := total as real;
    assert (a as real) * 100.0 >= (b as real) * 100.0;
    assert (a as real) * 100.0 / t - (b as real) * 100.0 / t == ((a - b) as real) * 100.0 / t;
  }

  lemma PercentWhole(total: nat)
    requires total > 0
    ensures Percent(total, total) == 100.0
  {
  }

  /** Each count as a percentage of the same total. */
  function PercentsOf(cs: seq<nat>, total: nat): (ps: seq<real>)
    requires total > 0
    ensures |ps| == |cs|
    ensures forall i :: 0 <= i < |cs| ==> ps[i] == Percent(cs[i], total)
  {
    seq(|cs|, i requires 0 <= i < |cs| => Percent(cs[i], total))
  }

  /** Percentages of a common total add up to the percentage of the sum. */
  lemma {:induction false} PercentsSum(cs: seq<nat>, total: nat)
    requires total > 0
    ensures RealSum(PercentsOf(cs, total)) == Percent(Sum(cs), total)
  {
    if cs == [] {
      assert Percent(0, total) == 0.0;
    } else {
      var init := cs[..|cs| - 1];
      assert PercentsOf(cs, total)[..|cs| - 1] == PercentsOf(init, total);
      PercentsSum(init, total);
      PercentAdd(Sum(init), cs[|cs| - 1], total);
    }
  }

  /** A sequence of at most one true value. */
  predicate AtMostOne(s: seq<bool>) {
    forall i, j :: 0 <= i < j < |s| ==> !(s[i] && s[j])
  }
}
