/** "Aggregate each side, then merge" (build_aggregation_sql of shared/database.py) against
    aggregating the one logical table. */
module Aggregation {
  import opened Options
  import opened Sql
  import TextOrder

  datatype Grouping = ByMonth | ByItem | ByMonthAndItem

  datatype Key = Key(month: Value, code: Value)

  function KeyOf(g: Grouping, t: Tagged): Key {
    Key(if g.ByItem? then Null else ValueOf(YearMonth, t), if g.ByMonth? then Null else ValueOf(ItemCode, t))
  }

  /** MAX(item_name), SUM(good_quantity), COUNT(*), AVG(good_quantity); the aggregates skip NULLs. */
  datatype Summary = Summary(name: Option<string>, total: Option<int>, count: nat, average: Option<real>)

  function Plus(x: Option<int>, y: Option<int>): Option<int> {
    if x.None? then y else if y.None? then x else Some(x.value + y.value)
  }

  function Sum(xs: seq<Option<int>>): Option<int> {
    if xs == [] then None else Plus(xs[0], Sum(xs[1..]))
  }

  function Greater(x: Option<string>, y: Option<string>): Option<string> {
    if x.None? then y else if y.None? then x else if TextOrder.Less(x.value, y.value) then y else x
  }

  function Max(xs: seq<Option<string>>): Option<string> {
    if xs == [] then None else Greater(xs[0], Max(xs[1..]))
  }

  function Known(xs: seq<Option<int>>): nat {
    if xs == [] then 0 else (if xs[0].Some? then 1 else 0) + Known(xs[1..])
  }

  function Ratio(s: int, n: nat): real
    requires n > 0
  {
    s as real / n as real
  }

  function Mean(xs: seq<Option<int>>): Option<real> {
    if Known(xs) == 0 || Sum(xs).None? then None else Some(Ratio(Sum(xs).value, Known(xs)))
  }

  function KnownReals(xs: seq<Option<real>>): nat {
    if xs == [] then 0 else (if xs[0].Some? then 1 else 0) + KnownReals(xs[1..])
  }

  function RealSum(xs: seq<Option<real>>): real {
    if xs == [] then 0.0 else (if xs[0].Some? then xs[0].value else 0.0) + RealSum(xs[1..])
  }

  /** The outer AVG, over the at most two averages of one group. */
  function MeanOfMeans(xs: seq<Option<real>>): Option<real> {
    if KnownReals(xs) == 0 then None else Some(RealSum(xs) / KnownReals(xs) as real)
  }

  function Quantities(rows: seq<Tagged>): seq<Option<int>> {
    if rows == [] then [] else [rows[0].row.qty] + Quantities(rows[1..])
  }

  function Names(rows: seq<Tagged>): seq<Option<string>> {
    if rows == [] then [] else [rows[0].row.name] + Names(rows[1..])
  }

  function Summarize(rows: seq<Tagged>): Summary {
    Summary(Max(Names(rows)), Sum(Quantities(rows)), |rows|, Mean(Quantities(rows)))
  }

  function InGroup(g: Grouping, k: Key): Tagged -> bool {
    t => KeyOf(g, t) == k
  }

  function Group(g: Grouping, k: Key, rows: seq<Tagged>): seq<Tagged> {
    Filter(InGroup(g, k), rows)
  }

  /** SELECT ... GROUP BY key: one summary for each key that occurs. */
  function GroupBy(g: Grouping, rows: seq<Tagged>): map<Key, Summary> {
    map t | t in rows :: KeyOf(g, t) := Summarize(Group(g, KeyOf(g, t), rows))
  }

  /** The inner rows of one key, in the branches of the UNION ALL. */
  function At(k: Key, tables: seq<map<Key, Summary>>): seq<Summary> {
    if tables == [] then []
    else (if k in tables[0] then [tables[0][k]] else []) + At(k, tables[1..])
  }

  function Keys(tables: seq<map<Key, Summary>>): set<Key> {
    if tables == [] then {} else tables[0].Keys + Keys(tables[1..])
  }

  function Totals(xs: seq<Summary>): seq<Option<int>> {
    seq(|xs|, i requires 0 <= i < |xs| => xs[i].total)
  }

  function TopNames(xs: seq<Summary>): seq<Option<string>> {
    seq(|xs|, i requires 0 <= i < |xs| => xs[i].name)
  }

  function Averages(xs: seq<Summary>): seq<Option<real>> {
    seq(|xs|, i requires 0 <= i < |xs| => xs[i].average)
  }

  function Counts(xs: seq<Summary>): nat {
    if xs == [] then 0 else xs[0].count + Counts(xs[1..])
  }

  /** MAX(item_name), SUM(total), SUM(cnt), AVG(avg_val) */
  function Combine(xs: seq<Summary>): Summary {
    Summary(Max(TopNames(xs)), Sum(Totals(xs)), Counts(xs), MeanOfMeans(Averages(xs)))
  }

  /** The outer SELECT ... GROUP BY over the union of the inner results. */
  function Merge(tables: seq<map<Key, Summary>>): map<Key, Summary> {
    map k | k in Keys(tables) :: Combine(At(k, tables))
  }

  /** The rows of each branch of the inner UNION ALL. */
  function Branches(q: Query, db: Db, ps: seq<Value>): seq<seq<Tagged>>
    requires |ps| == QueryHoles(q)
  {
    match q
    case Scan(_, _) => [Eval(q, db, ps)]
    case UnionAll(l, r) => Branches(l, db, ps[..QueryHoles(l)]) + Branches(r, db, ps[QueryHoles(l)..])
  }

  function GroupEach(g: Grouping, branches: seq<seq<Tagged>>): seq<map<Key, Summary>> {
    if branches == [] then [] else [GroupBy(g, branches[0])] + GroupEach(g, branches[1..])
  }

  datatype AggregateStatement = AggregateStatement(body: Query, grouping: Grouping)

  function MergedResult(stmt: AggregateStatement, db: Db, ps: seq<Value>): map<Key, Summary>
    requires |ps| == QueryHoles(stmt.body)
  {
    Merge(GroupEach(stmt.grouping, Branches(stmt.body, db, ps)))
  }

  // ----- merging two sides -----

  lemma {:induction false} SumConcat(a: seq<Option<int>>, b: seq<Option<int>>)
    ensures Sum(a + b) == Plus(Sum(a), Sum(b))
    ensures Known(a + b) == Known(a) + Known(b)
  {
    if a == [] {
      assert a + b == b;
    } else {
      assert (a + b)[1..] == a[1..] + b;
      SumConcat(a[1..], b);
    }
  }

  lemma GreaterAssociative(x: Option<string>, y: Option<string>, z: Option<string>)
    ensures Greater(x, Greater(y, z)) == Greater(Greater(x, y), z)
  {
    if x.Some? && y.Some? && z.Some? {
      TextOrder.Trichotomy(x.value, y.value);
      TextOrder.Trichotomy(y.value, z.value);
      TextOrder.Trichotomy(x.value, z.value);
      if TextOrder.Less(x.value, y.value) && TextOrder.Less(y.value, z.value) {
        TextOrder.Transitive(x.value, y.value, z.value);
      }
      if TextOrder.Less(x.value, z.value) && TextOrder.Less(z.value, y.value) {
        TextOrder.Transitive(x.value, z.value, y.value);
      }
    }
  }

  lemma {:induction false} MaxConcat(a: seq<Option<string>>, b: seq<Option<string>>)
    ensures Max(a + b) == Greater(Max(a), Max(b))
  {
    if a == [] {
      assert a + b == b;
    } else {
      assert (a + b)[1..] == a[1..] + b;
      MaxConcat(a[1..], b);
      GreaterAssociative(a[0], Max(a[1..]), Max(b));
    }
  }

  lemma {:induction false} ColumnsConcat(a: seq<Tagged>, b: seq<Tagged>)
    ensures Quantities(a + b) == Quantities(a) + Quantities(b)
    ensures Names(a + b) == Names(a) + Names(b)
  {
    if a == [] {
      assert a + b == b;
    } else {
      var ab := a + b;
      assert ab[0] == a[0] && ab[1..] == a[1..] + b;
      ColumnsConcat(a[1..], b);
      assert [a[0].row.qty] + (Quantities(a[1..]) + Quantities(b))
          == [a[0].row.qty] + Quantities(a[1..]) + Quantities(b);
      assert [a[0].row.name] + (Names(a[1..]) + Names(b)) == [a[0].row.name] + Names(a[1..]) + Names(b);
    }
  }

  lemma {:induction false} KnownIffSum(xs: seq<Option<int>>)
    ensures Known(xs) == 0 <==> Sum(xs) == None
  {
    if xs != [] { KnownIffSum(xs[1..]); }
  }

  lemma SummarizeConcat(a: seq<Tagged>, b: seq<Tagged>)
    ensures var s, x, y := Summarize(a + b), Summarize(a), Summarize(b);
            s.total == Plus(x.total, y.total) && s.name == Greater(x.name, y.name) && s.count == x.count + y.count
  {
    ColumnsConcat(a, b);
    SumConcat(Quantities(a), Quantities(b));
    MaxConcat(Names(a), Names(b));
  }

  lemma GroupEmpty(g: Grouping, k: Key, rows: seq<Tagged>)
    ensures Group(g, k, rows) == [] <==> k !in GroupBy(g, rows)
    ensures k in GroupBy(g, rows) ==> GroupBy(g, rows)[k] == Summarize(Group(g, k, rows))
  {
    if Group(g, k, rows) != [] {
      var t := Group(g, k, rows)[0];
      FilterIn(InGroup(g, k), rows, t);
    }
    if k in GroupBy(g, rows) {
      var t :| t in rows && KeyOf(g, t) == k;
      FilterIn(InGroup(g, k), rows, t);
    }
  }

  lemma MeanOfOne(v: Option<real>)
    ensures MeanOfMeans([v]) == v
  {
    assert KnownReals([v]) == if v.Some? then 1 else 0;
    assert RealSum([v]) == if v.Some? then v.value else 0.0;
  }

  lemma CombineOne(x: Summary)
    ensures Combine([x]) == x
  {
    assert TopNames([x]) == [x.name] && Totals([x]) == [x.total] && Averages([x]) == [x.average];
    assert Counts([x]) == x.count + Counts([]);
    MaxConcat([], [x.name]);
    assert [x.name][1..] == [] && Greater(x.name, None) == x.name;
    assert Max([x.name]) == x.name;
    assert Sum([x.total]) == x.total;
    MeanOfOne(x.average);
  }

  lemma CombineTwo(x: Summary, y: Summary)
    ensures Combine([x, y]) == Summary(Greater(x.name, y.name), Plus(x.total, y.total), x.count + y.count,
                                       MeanOfMeans([x.average, y.average]))
  {
    var xs := [x, y];
    assert xs[1..] == [y];
    assert TopNames(xs) == [x.name] + [y.name] && Totals(xs) == [x.total] + [y.total];
    assert Averages(xs) == [x.average, y.average];
    assert Counts([y]) == y.count + Counts([]);
    SumConcat([x.total], [y.total]);
    MaxConcat([x.name], [y.name]);
  }

  /** The merged result of two sides, either of which may have been skipped. */
  function MergeTwo(g: Grouping, a: seq<Tagged>, b: seq<Tagged>): map<Key, Summary> {
    Merge([GroupBy(g, a), GroupBy(g, b)])
  }

  predicate SameButAverage(x: map<Key, Summary>, y: map<Key, Summary>) {
    && x.Keys == y.Keys
    && forall k :: k in x.Keys ==> x[k].name == y[k].name && x[k].total == y[k].total && x[k].count == y[k].count
  }

  /** The group of `k` lies on one side only. */
  predicate OneSided(g: Grouping, k: Key, a: seq<Tagged>, b: seq<Tagged>) {
    Group(g, k, a) == [] || Group(g, k, b) == []
  }

  /** The merged summary `m` of a group with the rows `x` on one side and `y` on the other. */
  predicate MergedGroup(x: seq<Tagged>, y: seq<Tagged>, m: Summary) {
    var w := Summarize(x + y);
    && m.name == w.name && m.total == w.total && m.count == w.count
    && (if x == [] || y == [] then m.average == w.average
        else m.average == MeanOfMeans([Mean(Quantities(x)), Mean(Quantities(y))]))
  }

  function Sides(x: seq<Tagged>, y: seq<Tagged>): seq<Summary> {
    (if x == [] then [] else [Summarize(x)]) + (if y == [] then [] else [Summarize(y)])
  }

  lemma CombineSides(x: seq<Tagged>, y: seq<Tagged>)
    requires x != [] || y != []
    ensures MergedGroup(x, y, Combine(Sides(x, y)))
  {
    if x == [] {
      assert x + y == y && Sides(x, y) == [Summarize(y)];
      CombineOne(Summarize(y));
    } else if y == [] {
      assert x + y == x && Sides(x, y) == [Summarize(x)];
      CombineOne(Summarize(x));
    } else {
      assert Sides(x, y) == [Summarize(x), Summarize(y)];
      SummarizeConcat(x, y);
      CombineTwo(Summarize(x), Summarize(y));
    }
  }

  lemma AtTwo(k: Key, ta: map<Key, Summary>, tb: map<Key, Summary>)
    ensures At(k, [ta, tb]) == (if k in ta then [ta[k]] else []) + (if k in tb then [tb[k]] else [])
    ensures Keys([ta, tb]) == ta.Keys + tb.Keys
  {
    assert [ta, tb][1..] == [tb];
    assert At(k, [tb]) == (if k in tb then [tb[k]] else []) + At(k, []);
    assert Keys([tb]) == tb.Keys + Keys([]);
  }

  lemma MergedAt(g: Grouping, k: Key, a: seq<Tagged>, b: seq<Tagged>)
    ensures k in MergeTwo(g, a, b) <==> k in GroupBy(g, a + b)
    ensures k in GroupBy(g, a + b) ==>
      MergedGroup(Group(g, k, a), Group(g, k, b), MergeTwo(g, a, b)[k])
      && GroupBy(g, a + b)[k] == Summarize(Group(g, k, a) + Group(g, k, b))
  {
    var x, y := Group(g, k, a), Group(g, k, b);
    FilterConcat(InGroup(g, k), a, b);
    GroupEmpty(g, k, a);
    GroupEmpty(g, k, b);
    GroupEmpty(g, k, a + b);
    AtTwo(k, GroupBy(g, a), GroupBy(g, b));
    assert At(k, [GroupBy(g, a), GroupBy(g, b)]) == Sides(x, y);
    if x != [] || y != [] { CombineSides(x, y); }
  }

  /** Sums, counts and maxima merge exactly. */
  lemma MergeIsWholeButAverages(g: Grouping, a: seq<Tagged>, b: seq<Tagged>)
    ensures SameButAverage(MergeTwo(g, a, b), GroupBy(g, a + b))
  {
    forall k { MergedAt(g, k, a, b); }
  }

  // ----- what a summary says of the rows -----

  /** The entry a row belongs to: that of its month and of its item code, as far as they are grouped by. */
  predicate EntryOf(g: Grouping, k: Key, t: Tagged) {
    && k.month == (if g == ByItem || t.row.date.None? then Null else Text(MonthOf(t.row.date.value)))
    && k.code == (if g == ByMonth || t.row.code.None? then Null else Text(t.row.code.value))
  }

  function Entered(g: Grouping, k: Key): Tagged -> bool {
    t => EntryOf(g, k, t)
  }

  predicate SameMonth(t: Tagged, u: Tagged) {
    if t.row.date.None? || u.row.date.None? then t.row.date == u.row.date
    else MonthOf(t.row.date.value) == MonthOf(u.row.date.value)
  }

  /** Two rows share an entry exactly when they agree in what is grouped by. */
  lemma SharedEntry(g: Grouping, t: Tagged, u: Tagged)
    ensures (exists k :: EntryOf(g, k, t) && EntryOf(g, k, u))
            <==> (g != ByItem ==> SameMonth(t, u)) && (g != ByMonth ==> t.row.code == u.row.code)
  {
    if (g != ByItem ==> SameMonth(t, u)) && (g != ByMonth ==> t.row.code == u.row.code) {
      assert EntryOf(g, KeyOf(g, t), t) && EntryOf(g, KeyOf(g, t), u);
    }
  }

  predicate HasQuantity(t: Tagged) {
    t.row.qty.Some?
  }

  function Counted(rows: seq<Tagged>): nat {
    |Filter(HasQuantity, rows)|
  }

  /** The quantities added up, a missing one as nothing. */
  function TotalOf(rows: seq<Tagged>): int {
    if rows == [] then 0 else (if HasQuantity(rows[0]) then rows[0].row.qty.value else 0) + TotalOf(rows[1..])
  }

  /** The name of one of the rows, none greater; missing when no row has one. */
  predicate TopName(name: Option<string>, rows: seq<Tagged>) {
    if name.None? then forall t :: t in rows ==> t.row.name.None?
    else
      && (exists t :: t in rows && t.row.name == name)
      && forall t :: t in rows && t.row.name.Some? ==> TextOrder.AtMost(t.row.name.value, name.value)
  }

  /** Name, total and count are those of the rows. */
  predicate Describes(s: Summary, rows: seq<Tagged>) {
    && s.count == |rows| && TopName(s.name, rows)
    && s.total == if Counted(rows) == 0 then None else Some(TotalOf(rows))
  }

  /** So is the average: as often as there are quantities it makes the total, and there is none without any. */
  predicate TrueAverage(s: Summary, rows: seq<Tagged>) {
    if Counted(rows) == 0 then s.average.None?
    else s.average.Some? && s.average.value * Counted(rows) as real == TotalOf(rows) as real
  }

  predicate EntryReports(g: Grouping, k: Key, rows: seq<Tagged>, s: Summary) {
    Filter(Entered(g, k), rows) != [] && Describes(s, Filter(Entered(g, k), rows))
  }

  predicate EntryAverage(g: Grouping, k: Key, rows: seq<Tagged>, s: Summary) {
    TrueAverage(s, Filter(Entered(g, k), rows))
  }

  /** Every row has an entry, and every entry describes the rows that belong to it, of which there is at least one. */
  ghost predicate Reports(g: Grouping, rows: seq<Tagged>, res: map<Key, Summary>) {
    && (forall t :: t in rows ==> exists k :: k in res && EntryOf(g, k, t))
    && forall k :: k in res ==> EntryReports(g, k, rows, res[k])
  }

  ghost predicate TrueAverages(g: Grouping, rows: seq<Tagged>, res: map<Key, Summary>) {
    forall k :: k in res ==> EntryAverage(g, k, rows, res[k])
  }

  lemma {:induction false} MaxIsTopName(rows: seq<Tagged>)
    ensures TopName(Max(Names(rows)), rows)
  {
    if rows != [] {
      var x, y := rows[0].row.name, Max(Names(rows[1..]));
      MaxIsTopName(rows[1..]);
      assert rows == [rows[0]] + rows[1..] && Max(Names(rows)) == Greater(x, y);
      if x.Some? && y.Some? {
        TextOrder.Trichotomy(x.value, y.value);
        forall t | t in rows && t.row.name.Some?
          ensures TextOrder.AtMost(t.row.name.value, Greater(x, y).value)
        {
          var n := t.row.name.value;
          if n != y.value && y.value != x.value && TextOrder.Less(n, y.value) && TextOrder.Less(y.value, x.value) {
            TextOrder.Transitive(n, y.value, x.value);
          }
          TextOrder.Total(x.value, y.value);
        }
      }
    }
  }

  lemma {:induction false} SumIsTotal(rows: seq<Tagged>)
    ensures Known(Quantities(rows)) == Counted(rows)
    ensures Sum(Quantities(rows)) == if Counted(rows) == 0 then None else Some(TotalOf(rows))
    ensures Counted(rows) == 0 ==> TotalOf(rows) == 0
  {
    if rows != [] { SumIsTotal(rows[1..]); }
  }

  lemma SummarizeDescribes(rows: seq<Tagged>)
    ensures Describes(Summarize(rows), rows) && TrueAverage(Summarize(rows), rows)
  {
    MaxIsTopName(rows);
    SumIsTotal(rows);
  }

  lemma KeyIsEntry(g: Grouping, k: Key, rows: seq<Tagged>)
    ensures Group(g, k, rows) == Filter(Entered(g, k), rows)
  {
    FilterSame(InGroup(g, k), Entered(g, k), rows);
  }

  lemma GroupByReports(g: Grouping, rows: seq<Tagged>)
    ensures Reports(g, rows, GroupBy(g, rows)) && TrueAverages(g, rows, GroupBy(g, rows))
  {
    forall t | t in rows ensures exists k :: k in GroupBy(g, rows) && EntryOf(g, k, t) {
      assert KeyOf(g, t) in GroupBy(g, rows) && EntryOf(g, KeyOf(g, t), t);
    }
    forall k | k in GroupBy(g, rows)
      ensures EntryReports(g, k, rows, GroupBy(g, rows)[k]) && EntryAverage(g, k, rows, GroupBy(g, rows)[k])
    {
      GroupEmpty(g, k, rows);
      KeyIsEntry(g, k, rows);
      SummarizeDescribes(Group(g, k, rows));
    }
  }

  lemma SameEntries<K, V>(x: map<K, V>, y: map<K, V>)
    requires x.Keys == y.Keys && forall k :: k in y ==> x[k] == y[k]
    ensures x == y
  {}

  lemma Cancel(x: real, y: real, c: real)
    requires c > 0.0 && x * c == y * c
    ensures x == y
  {
    assert (x * c) / c == x && (y * c) / c == y;
  }

  lemma AverageIsUnique(s: Summary, u: Summary, rows: seq<Tagged>)
    requires TrueAverage(s, rows) && TrueAverage(u, rows)
    ensures s.average == u.average
  {
    if Counted(rows) > 0 { Cancel(s.average.value, u.average.value, Counted(rows) as real); }
  }

  lemma EntryLikeDirect(g: Grouping, k: Key, rows: seq<Tagged>, s: Summary, u: Summary)
    requires EntryReports(g, k, rows, u) && EntryAverage(g, k, rows, u)
    requires s.name == u.name && s.total == u.total && s.count == u.count
    ensures EntryReports(g, k, rows, s) && (EntryAverage(g, k, rows, s) <==> s == u)
  {
    if EntryAverage(g, k, rows, s) { AverageIsUnique(s, u, Filter(Entered(g, k), rows)); }
  }

  lemma EntriesLikeDirect(g: Grouping, rows: seq<Tagged>, res: map<Key, Summary>, direct: map<Key, Summary>)
    requires SameButAverage(res, direct) && Reports(g, rows, direct) && TrueAverages(g, rows, direct)
    ensures forall k :: k in res ==>
      EntryReports(g, k, rows, res[k]) && (EntryAverage(g, k, rows, res[k]) <==> res[k] == direct[k])
  {
    forall k | k in res
      ensures EntryReports(g, k, rows, res[k]) && (EntryAverage(g, k, rows, res[k]) <==> res[k] == direct[k])
    {
      EntryLikeDirect(g, k, rows, res[k], direct[k]);
    }
  }

  /** What agrees with the direct grouping but for averages reports on the rows, and its averages are true exactly when
      it is the direct grouping. */
  lemma ReportsLikeDirect(g: Grouping, rows: seq<Tagged>, res: map<Key, Summary>, direct: map<Key, Summary>)
    requires SameButAverage(res, direct) && Reports(g, rows, direct) && TrueAverages(g, rows, direct)
    ensures Reports(g, rows, res)
    ensures TrueAverages(g, rows, res) <==> res == direct
  {
    EntriesLikeDirect(g, rows, res, direct);
    if TrueAverages(g, rows, res) {
      assert forall k :: k in direct ==> k in res && res[k] == direct[k];
      SameEntries(res, direct);
    }
  }

  lemma OneSidedGroup(x: seq<Tagged>, y: seq<Tagged>, m: Summary)
    requires MergedGroup(x, y, m) && (x == [] || y == [])
    ensures m == Summarize(x + y)
  {}

  lemma MergedGroupIsWhole(g: Grouping, k: Key, a: seq<Tagged>, b: seq<Tagged>)
    requires OneSided(g, k, a, b) && k in GroupBy(g, a + b)
    ensures k in MergeTwo(g, a, b) && MergeTwo(g, a, b)[k] == GroupBy(g, a + b)[k]
  {
    MergedAt(g, k, a, b);
    OneSidedGroup(Group(g, k, a), Group(g, k, b), MergeTwo(g, a, b)[k]);
  }

  /** When every group lies on one side, the averages are exact too. */
  lemma MergeIsWhole(g: Grouping, a: seq<Tagged>, b: seq<Tagged>)
    requires forall k :: OneSided(g, k, a, b)
    ensures MergeTwo(g, a, b) == GroupBy(g, a + b)
  {
    MergeIsWholeButAverages(g, a, b);
    forall k | k in GroupBy(g, a + b) ensures MergeTwo(g, a, b)[k] == GroupBy(g, a + b)[k] {
      assert OneSided(g, k, a, b);
      MergedGroupIsWhole(g, k, a, b);
    }
    SameEntries(MergeTwo(g, a, b), GroupBy(g, a + b));
  }

  /** The mean of two lists' means is the mean of both: one has only NULLs, or both count the same, or the means
      agree. */
  predicate AverageSurvives(xs: seq<Option<int>>, ys: seq<Option<int>>) {
    Known(xs) == 0 || Known(ys) == 0 || Known(xs) == Known(ys) || Mean(xs) == Mean(ys)
  }

  lemma MeanOfOneSide(xs: seq<Option<int>>, ys: seq<Option<int>>)
    requires Known(xs) == 0 || Known(ys) == 0
    ensures Mean(xs + ys) == if Known(xs) == 0 then Mean(ys) else Mean(xs)
    ensures Mean(xs).None? || Mean(ys).None?
    ensures Known(xs) > 0 ==> Mean(ys).None?
  {
    SumConcat(xs, ys);
    KnownIffSum(xs);
    KnownIffSum(ys);
  }

  lemma MeanAsRatio(xs: seq<Option<int>>) returns (s: int, n: nat)
    requires Known(xs) > 0
    ensures Sum(xs) == Some(s) && Known(xs) == n && Mean(xs) == Some(Ratio(s, n))
  {
    KnownIffSum(xs);
    s, n := Sum(xs).value, Known(xs);
  }

  lemma WeightedMeans(s: real, m: real, t: real, n: real)
    requires m > 0.0 && n > 0.0
    ensures (s / m + t / n) / 2.0 == (s + t) / (m + n) <==> m == n || s / m == t / n
  {
    var p, q := s / m, t / n;
    assert s == p * m && t == q * n;
    var all := (s + t) / (m + n);
    assert all * (m + n) == s + t;
    assert (p + q) * (m + n) - 2.0 * (p * m + q * n) == (p - q) * (n - m);
    if (p + q) / 2.0 == all {
      assert (p + q) * (m + n) == 2.0 * (s + t);
      assert (p - q) * (n - m) == 0.0;
    }
    if m == n || p == q {
      assert (p - q) * (n - m) == 0.0;
      assert ((p + q) / 2.0) * (m + n) == s + t;
    }
  }

  lemma MeansOfNumbers(s: int, m: nat, t: int, n: nat)
    requires m > 0 && n > 0
    ensures (Ratio(s, m) + Ratio(t, n)) / 2.0 == Ratio(s + t, m + n) <==> m == n || Ratio(s, m) == Ratio(t, n)
  {
    WeightedMeans(s as real, m as real, t as real, n as real);
    assert (s + t) as real == s as real + t as real && (m + n) as real == m as real + n as real;
  }

  lemma MeanOfBothSides(xs: seq<Option<int>>, ys: seq<Option<int>>)
    requires Known(xs) > 0 && Known(ys) > 0 && Known(xs + ys) > 0
    ensures Mean(xs).Some? && Mean(ys).Some?
    ensures Some((Mean(xs).value + Mean(ys).value) / 2.0) == Mean(xs + ys)
            <==> Known(xs) == Known(ys) || Mean(xs) == Mean(ys)
  {
    var s, m := MeanAsRatio(xs);
    var t, n := MeanAsRatio(ys);
    var u, k := MeanAsRatio(xs + ys);
    SumConcat(xs, ys);
    MeansOfNumbers(s, m, t, n);
    assert u == s + t && k == m + n;
  }

  lemma MeanFrom(xs: seq<Option<real>>, total: real, n: nat)
    requires KnownReals(xs) == n && RealSum(xs) == total
    ensures MeanOfMeans(xs) == if n == 0 then None else Some(total / n as real)
  {}

  lemma DividedByOne(x: real)
    ensures x / 1 as real == x && x / 2 as real == x / 2.0
  {}

  lemma MeanOfTwo(u: Option<real>, v: Option<real>)
    ensures MeanOfMeans([u, v]) ==
      if u.None? then v else if v.None? then u else Some((u.value + v.value) / 2.0)
  {
    var xs := [u, v];
    assert xs[1..] == [v];
    var x, y := if u.Some? then u.value else 0.0, if v.Some? then v.value else 0.0;
    var m, n := if u.Some? then 1 else 0, if v.Some? then 1 else 0;
    assert KnownReals([v]) == n && RealSum([v]) == y;
    assert KnownReals(xs) == m + KnownReals([v]) && RealSum(xs) == x + RealSum([v]);
    MeanFrom(xs, x + y, m + n);
    DividedByOne(x + y);
  }

  /** For a group split over both sides, the mean of the two means is the true mean exactly when one side has only
      NULLs, or both sides count the same, or both means agree. */
  lemma SplitAverageIsTrueExactlyWhen(xs: seq<Option<int>>, ys: seq<Option<int>>)
    ensures MeanOfMeans([Mean(xs), Mean(ys)]) == Mean(xs + ys)
            <==> AverageSurvives(xs, ys)
  {
    MeanOfTwo(Mean(xs), Mean(ys));
    if Known(xs) == 0 || Known(ys) == 0 {
      MeanOfOneSide(xs, ys);
    } else {
      SumConcat(xs, ys);
      MeanOfBothSides(xs, ys);
    }
  }

  lemma MergedGroupSurvives(x: seq<Tagged>, y: seq<Tagged>, m: Summary)
    requires MergedGroup(x, y, m)
    ensures m == Summarize(x + y) <==> AverageSurvives(Quantities(x), Quantities(y))
  {
    if x != [] && y != [] {
      ColumnsConcat(x, y);
      SplitAverageIsTrueExactlyWhen(Quantities(x), Quantities(y));
    }
  }

  lemma MergedKeyIsWhole(g: Grouping, k: Key, a: seq<Tagged>, b: seq<Tagged>)
    ensures var survives := AverageSurvives(Quantities(Group(g, k, a)), Quantities(Group(g, k, b)));
      if k in GroupBy(g, a + b) then
        k in MergeTwo(g, a, b) && (MergeTwo(g, a, b)[k] == GroupBy(g, a + b)[k] <==> survives)
      else survives
  {
    var x, y := Group(g, k, a), Group(g, k, b);
    FilterConcat(InGroup(g, k), a, b);
    GroupEmpty(g, k, a + b);
    if k in GroupBy(g, a + b) {
      MergedAt(g, k, a, b);
      MergedGroupSurvives(x, y, MergeTwo(g, a, b)[k]);
    }
  }

  /** The merged result is that of the whole table, averages included, exactly when every group's average survives. */
  lemma MergeIsWholeExactlyWhen(g: Grouping, a: seq<Tagged>, b: seq<Tagged>)
    ensures MergeTwo(g, a, b) == GroupBy(g, a + b)
            <==> forall k :: AverageSurvives(Quantities(Group(g, k, a)), Quantities(Group(g, k, b)))
  {
    var m, w := MergeTwo(g, a, b), GroupBy(g, a + b);
    MergeIsWholeButAverages(g, a, b);
    if m == w {
      forall k ensures AverageSurvives(Quantities(Group(g, k, a)), Quantities(Group(g, k, b))) {
        MergedKeyIsWhole(g, k, a, b);
      }
    }
    if forall k :: AverageSurvives(Quantities(Group(g, k, a)), Quantities(Group(g, k, b))) {
      forall k | k in w ensures m[k] == w[k] { MergedKeyIsWhole(g, k, a, b); }
      SameEntries(m, w);
    }
  }
}
