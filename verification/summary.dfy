/** The /summary endpoints (api/routers/summary.py): routing, per-side aggregation and merging, end to end. */
module SummaryRoutes {
  import opened Options
  import opened Sql
  import opened Router
  import opened Aggregation
  import opened Records
  import opened HttpDates
  import TextOrder
  import Timestamps

  /** The rows of one side that the inner query aggregates; none when the side is skipped. */
  function SideRows(where: Cond, base: seq<Value>, targets: Targets, db: Db, side: Side): seq<Tagged> {
    if targets.Uses(side) then Filter(Selected(where, base), Part(db, side)) else []
  }

  predicate AggregatesBySide(stmt: AggregateStatement, where: Cond, targets: Targets, db: Db, base: seq<Value>) {
    var ps := QueryParams(base, targets, db.archive.Some?);
    && |ps| == QueryHoles(stmt.body)
    && MergedResult(stmt, db, ps)
       == MergeTwo(stmt.grouping, SideRows(where, base, targets, db, Archive), SideRows(where, base, targets, db, Live))
  }

  lemma AtOne(k: Key, t: map<Key, Summary>)
    ensures At(k, [t]) == if k in t then [t[k]] else []
    ensures Keys([t]) == t.Keys
  {
    assert At(k, [t]) == (if k in t then [t[k]] else []) + At(k, []);
    assert Keys([t]) == t.Keys + Keys([]);
  }

  lemma MergeSame(x: seq<map<Key, Summary>>, y: seq<map<Key, Summary>>)
    requires Keys(x) == Keys(y) && forall k :: At(k, x) == At(k, y)
    ensures Merge(x) == Merge(y)
  {}

  lemma MergeWithEmpty(t: map<Key, Summary>)
    ensures Merge([t]) == Merge([t, map[]])
    ensures Merge([t]) == Merge([map[], t])
  {
    forall k ensures At(k, [t]) == At(k, [t, map[]]) && At(k, [t]) == At(k, [map[], t])
                     && Keys([t]) == Keys([t, map[]]) && Keys([t]) == Keys([map[], t]) {
      AtOne(k, t);
      AtTwo(k, t, map[]);
      AtTwo(k, map[], t);
    }
    assert At(Key(Null, Null), [t]) == At(Key(Null, Null), [t, map[]]);
    MergeSame([t], [t, map[]]);
    MergeSame([t], [map[], t]);
  }

  lemma MergeSkipped(g: Grouping, a: seq<Tagged>)
    ensures Merge([GroupBy(g, a)]) == MergeTwo(g, a, []) == MergeTwo(g, [], a)
  {
    assert GroupBy(g, []) == map[];
    MergeWithEmpty(GroupBy(g, a));
  }

  lemma GroupEachOne(g: Grouping, a: seq<Tagged>)
    ensures GroupEach(g, [a]) == [GroupBy(g, a)]
  {
    assert GroupEach(g, [a]) == [GroupBy(g, a)] + GroupEach(g, []);
  }

  lemma GroupEachTwo(g: Grouping, a: seq<Tagged>, l: seq<Tagged>)
    ensures GroupEach(g, [a] + [l]) == [GroupBy(g, a), GroupBy(g, l)]
  {
    assert ([a] + [l])[1..] == [l];
    assert GroupEach(g, [l]) == [GroupBy(g, l)] + GroupEach(g, []);
  }

  lemma AggregationReads(where: Cond, grouping: Grouping, targets: Targets, db: Db, base: seq<Value>)
    requires |base| == Holes(where)
    ensures AggregatesBySide(AggregateStatement(UnionBody(where, targets, db.archive.Some?), grouping),
                             where, targets, db, base)
  {
    var one := base + [Text(CUTOFF)];
    BranchReads(Archive, where, db, base);
    BranchReads(Live, where, db, base);
    assert (one + one)[..|one|] == one && (one + one)[|one|..] == one;
    assert one + [] == one && [] + one == one;
    var a, l := SideRows(where, base, targets, db, Archive), SideRows(where, base, targets, db, Live);
    var ps := QueryParams(base, targets, db.archive.Some?);
    var q := UnionBody(where, targets, db.archive.Some?);
    if targets.useArchive && db.archive.Some? && targets.useLive {
      assert Aggregation.Branches(q, db, ps) == [a] + [l];
      GroupEachTwo(grouping, a, l);
    } else {
      FilterNone(Satisfies(Never, []), TableOf(db, Live));
      if db.archive.None? { assert a == []; }
      var rows := if targets.useArchive && db.archive.Some? then a else l;
      assert Aggregation.Branches(q, db, ps) == [rows];
      GroupEachOne(grouping, rows);
      MergeSkipped(grouping, rows);
    }
  }

  method BuildAggregationSql(where: Cond, grouping: Grouping, targets: Targets, archiveExists: bool)
    returns (stmt: AggregateStatement, paramsDoubled: bool)
    ensures stmt.grouping == grouping
    ensures forall db: Db, base: seq<Value> :: db.archive.Some? == archiveExists && |base| == Holes(where) ==>
      AggregatesBySide(stmt, where, targets, db, base)
    ensures forall base: seq<Value> ::
      |QueryParams(base, targets, archiveExists)| == 2 * (|base| + 1) <==> paramsDoubled
  {
    var parts: seq<Query> := [];
    paramsDoubled := false;
    if targets.useArchive && archiveExists {
      parts := parts + [Branch(Archive, where)];
    }
    if targets.useLive {
      parts := parts + [Branch(Live, where)];
    }
    var union;
    if |parts| == 2 {
      union := UnionAll(parts[0], parts[1]);
      paramsDoubled := true;
    } else if |parts| == 1 {
      union := parts[0];
    } else {
      union := Scan(Live, Never);
    }
    stmt := AggregateStatement(union, grouping);
    forall db: Db, base | db.archive.Some? == archiveExists && |base| == Holes(where)
      ensures AggregatesBySide(stmt, where, targets, db, base)
    {
      AggregationReads(where, grouping, targets, db, base);
    }
  }

  /** The answer one gets by aggregating the logical table directly. */
  function Direct(g: Grouping, asked: Tagged -> bool, db: Db): map<Key, Summary> {
    GroupBy(g, Filter(asked, Logical(db)))
  }

  /** No archived row carries the month of the cutoff. */
  predicate CutoffAligned(db: Db) {
    forall t :: t in Part(db, Archive) ==> ValueOf(YearMonth, t) != Text(MonthOf(CUTOFF))
  }

  function MonthDigits(year: nat, month: nat): (s: string)
    ensures |s| == 7
  {
    Timestamps.Digits(year, 4) + ("-" + Timestamps.Digits(month, 2))
  }

  lemma MonthText(d: Timestamps.Date)
    requires Timestamps.ValidDate(d)
    ensures MonthOf(Timestamps.IsoDate(d)) == MonthDigits(d.year, d.month)
    ensures Timestamps.IsoDate(d) == MonthDigits(d.year, d.month) + ("-" + Timestamps.Digits(d.day, 2))
  {
    assert Timestamps.IsoDate(d) == MonthDigits(d.year, d.month) + ("-" + Timestamps.Digits(d.day, 2));
  }

  lemma CutoffText()
    ensures MonthDigits(2026, 1) == "2026-01" && MonthOf(CUTOFF) == "2026-01"
    ensures Timestamps.IsoDate(Timestamps.Date(2026, 1, 1)) == CUTOFF
    ensures Timestamps.Digits(2026, 4) == "2026"
  {
    CutoffDay();
    assert MonthDigits(2026, 1) == "2026-01";
    MonthText(Timestamps.Date(2026, 1, 1));
    assert CUTOFF[..7] == "2026-01";
  }

  lemma YearMonthOrder(y: nat, m: nat, z: nat, n: nat)
    requires y < 10_000 && z < 10_000 && m < 100 && n < 100
    ensures TextOrder.Less(MonthDigits(y, m), MonthDigits(z, n)) <==> y < z || (y == z && m < n)
  {
    Timestamps.Powers();
    var dm, dn := Timestamps.Digits(m, 2), Timestamps.Digits(n, 2);
    Timestamps.Field(y, z, 4, "-" + dm, "-" + dn);
    Timestamps.Separator("-", dm, dn);
    Timestamps.DigitsOrder(m, n, 2);
  }

  lemma YearMonthInjective(y: nat, m: nat, z: nat, n: nat)
    requires y < 10_000 && z < 10_000 && m < 100 && n < 100
    requires MonthDigits(y, m) == MonthDigits(z, n)
    ensures y == z && m == n
  {
    YearMonthOrder(y, m, z, n);
    YearMonthOrder(z, n, y, m);
    TextOrder.Irreflexive(MonthDigits(y, m));
  }

  lemma DayBeforeCutoff(d: Timestamps.Date)
    requires Timestamps.ValidDate(d) && TextOrder.Less(Timestamps.IsoDate(d), CUTOFF)
    ensures MonthOf(Timestamps.IsoDate(d)) != MonthOf(CUTOFF)
  {
    var c := Timestamps.Date(2026, 1, 1);
    CutoffText();
    Timestamps.IsoDateOrder(d, c);
    if MonthOf(Timestamps.IsoDate(d)) == MonthOf(CUTOFF) {
      MonthText(d);
      MonthText(c);
      Timestamps.Powers();
      YearMonthInjective(d.year, d.month, 2026, 1);
    }
  }

  /** Calendar dates keep the archive aligned, because the cutoff is the first day of its month. */
  lemma CalendarDatesAreAligned(db: Db)
    requires forall t :: t in Part(db, Archive) ==>
      exists d :: Timestamps.ValidDate(d) && t.row.date == Some(Timestamps.IsoDate(d))
    ensures CutoffAligned(db)
  {
    PartSide(db, Archive);
    forall t | t in Part(db, Archive) ensures ValueOf(YearMonth, t) != Text(MonthOf(CUTOFF)) {
      var d :| Timestamps.ValidDate(d) && t.row.date == Some(Timestamps.IsoDate(d));
      DayBeforeCutoff(d);
    }
  }

  /** Rows of one month on both sides of the cutoff are in the cutoff's own month. */
  lemma SplitMonthIsCutoffMonth(a: string, l: string)
    requires TextOrder.Less(a, CUTOFF) && !TextOrder.Less(l, CUTOFF) && MonthOf(a) == MonthOf(l)
    ensures MonthOf(a) == MonthOf(CUTOFF)
  {
    CutoffText();
    var m := MonthOf(a);
    if |a| >= 7 && |l| >= 7 {
      assert a == m + a[7..] && l == m + l[7..] && CUTOFF == "2026-01" + CUTOFF[7..];
      TextOrder.Blocks(m, "2026-01", a[7..], CUTOFF[7..]);
      TextOrder.Blocks(m, "2026-01", l[7..], CUTOFF[7..]);
    }
  }

  lemma SidesShareNoMonth(db: Db, x: Tagged, y: Tagged)
    requires CutoffAligned(db) && x in Part(db, Archive) && y in Part(db, Live)
    ensures ValueOf(YearMonth, x) != ValueOf(YearMonth, y)
  {
    PartSide(db, Archive);
    PartSide(db, Live);
    if MonthOf(x.row.date.value) == MonthOf(y.row.date.value) {
      SplitMonthIsCutoffMonth(x.row.date.value, y.row.date.value);
    }
  }

  /** With an aligned archive no month group is split over the two sides. */
  lemma MonthGroupsAreOneSided(g: Grouping, db: Db, a: seq<Tagged>, l: seq<Tagged>, k: Key)
    requires g != ByItem && CutoffAligned(db)
    requires (forall t :: t in a ==> t in Part(db, Archive)) && forall t :: t in l ==> t in Part(db, Live)
    ensures OneSided(g, k, a, l)
  {
    if !OneSided(g, k, a, l) {
      var x, y := Group(g, k, a)[0], Group(g, k, l)[0];
      FilterIn(InGroup(g, k), a, x);
      FilterIn(InGroup(g, k), l, y);
      SidesShareNoMonth(db, x, y);
    }
  }

  /** What is asked for on one side of the logical table. */
  function AskedOf(asked: Tagged -> bool, db: Db, side: Side): seq<Tagged> {
    Filter(asked, Part(db, side))
  }

  /** Every group's average survives the merge of the two sides. */
  ghost predicate AveragesSurvive(g: Grouping, asked: Tagged -> bool, db: Db) {
    forall k :: AverageSurvives(Quantities(Group(g, k, AskedOf(asked, db, Archive))),
                                Quantities(Group(g, k, AskedOf(asked, db, Live))))
  }

  /** The result reports on the rows; its averages, where there are any, are true exactly when they survived. */
  ghost predicate Truthful(g: Grouping, rows: seq<Tagged>, survived: bool, res: map<Key, Summary>) {
    Reports(g, rows, res) && (g != ByItem ==> (TrueAverages(g, rows, res) <==> survived))
  }

  /** The routed, per-side, merged answer against the direct one. Only the month groups are served with averages. */
  ghost predicate LikeDirect(g: Grouping, asked: Tagged -> bool, db: Db, res: map<Key, Summary>) {
    && res == MergeTwo(g, AskedOf(asked, db, Archive), AskedOf(asked, db, Live))
    && SameButAverage(res, Direct(g, asked, db))
    && (g != ByItem ==> (res == Direct(g, asked, db) <==> AveragesSurvive(g, asked, db)))
    && (g != ByItem && CutoffAligned(db) ==> res == Direct(g, asked, db))
  }

  /** It reports on exactly the rows asked for. */
  ghost predicate Answers(g: Grouping, asked: Tagged -> bool, db: Db, res: map<Key, Summary>) {
    && LikeDirect(g, asked, db, res)
    && Truthful(g, Filter(asked, Logical(db)), AveragesSurvive(g, asked, db), res)
  }

  lemma SideAnswer(asked: Tagged -> bool, where: Cond, base: seq<Value>, targets: Targets, db: Db, side: Side)
    requires forall t :: t in Part(db, side) ==> (Selects(where, base, t) <==> asked(t))
    requires forall t :: t in Part(db, side) && asked(t) ==> targets.Uses(t.side)
    ensures SideRows(where, base, targets, db, side) == Filter(asked, Part(db, side))
    ensures forall t :: t in SideRows(where, base, targets, db, side) ==> t in Part(db, side)
  {
    PartSide(db, side);
    if targets.Uses(side) {
      FilterSame(Selected(where, base), asked, Part(db, side));
    } else {
      FilterNone(asked, Part(db, side));
    }
    forall t | t in SideRows(where, base, targets, db, side) ensures t in Part(db, side) {
      FilterIn(asked, Part(db, side), t);
    }
  }

  /** With an aligned archive the month groups are whole. */
  lemma AlignedIsWhole(g: Grouping, asked: Tagged -> bool, db: Db)
    requires g != ByItem && CutoffAligned(db)
    ensures var a, l := AskedOf(asked, db, Archive), AskedOf(asked, db, Live);
      MergeTwo(g, a, l) == GroupBy(g, a + l)
  {
    var a, l := AskedOf(asked, db, Archive), AskedOf(asked, db, Live);
    forall t | t in a ensures t in Part(db, Archive) { FilterIn(asked, Part(db, Archive), t); }
    forall t | t in l ensures t in Part(db, Live) { FilterIn(asked, Part(db, Live), t); }
    forall k ensures OneSided(g, k, a, l) { MonthGroupsAreOneSided(g, db, a, l, k); }
    MergeIsWhole(g, a, l);
  }

  lemma {:induction false} DirectLikeIsTruthful(g: Grouping, rows: seq<Tagged>, survived: bool, res: map<Key, Summary>)
    requires SameButAverage(res, GroupBy(g, rows)) && (g != ByItem ==> (res == GroupBy(g, rows) <==> survived))
    ensures Truthful(g, rows, survived, res)
  {
    GroupByReports(g, rows);
    ReportsLikeDirect(g, rows, res, GroupBy(g, rows));
  }

  lemma MergedSidesLikeDirect(g: Grouping, asked: Tagged -> bool, db: Db)
    ensures LikeDirect(g, asked, db, MergeTwo(g, AskedOf(asked, db, Archive), AskedOf(asked, db, Live)))
  {
    var a, l := AskedOf(asked, db, Archive), AskedOf(asked, db, Live);
    FilterConcat(asked, Part(db, Archive), Part(db, Live));
    assert Filter(asked, Logical(db)) == a + l;
    MergeIsWholeButAverages(g, a, l);
    MergeIsWholeExactlyWhen(g, a, l);
    if g != ByItem && CutoffAligned(db) { AlignedIsWhole(g, asked, db); }
  }

  lemma {:induction false} MergedSidesAnswer(g: Grouping, asked: Tagged -> bool, db: Db)
    ensures Answers(g, asked, db, MergeTwo(g, AskedOf(asked, db, Archive), AskedOf(asked, db, Live)))
  {
    var res := MergeTwo(g, AskedOf(asked, db, Archive), AskedOf(asked, db, Live));
    MergedSidesLikeDirect(g, asked, db);
    assert SameButAverage(res, Direct(g, asked, db));
    DirectLikeIsTruthful(g, Filter(asked, Logical(db)), AveragesSurvive(g, asked, db), res);
  }

  lemma RoutedAnswer(g: Grouping, asked: Tagged -> bool, where: Cond, base: seq<Value>, targets: Targets, db: Db)
    requires |base| == Holes(where)
    requires forall t :: t in Logical(db) ==> (Selects(where, base, t) <==> asked(t))
    requires forall t :: t in Logical(db) && asked(t) ==> targets.Uses(t.side)
    ensures Answers(g, asked, db,
      MergeTwo(g, SideRows(where, base, targets, db, Archive), SideRows(where, base, targets, db, Live)))
  {
    SideAnswer(asked, where, base, targets, db, Archive);
    SideAnswer(asked, where, base, targets, db, Live);
    MergedSidesAnswer(g, asked, db);
  }

  // ----- /summary/monthly_total -----

  function AskedRange(dateFrom: Option<string>, dateTo: Option<string>): Tagged -> bool {
    t => InRange(dateFrom, dateTo, t)
  }

  lemma RangeAsked(dateFrom: Option<string>, dateTo: Option<string>, t: Tagged)
    ensures Both(Both(Anything(), FromDate(dateFrom)), BeforeDate(dateTo))(t) <==> AskedRange(dateFrom, dateTo)(t)
  {}

  lemma RangeAnswer(db: Db, dateFrom: Option<string>, dateTo: Option<string>, where: Cond, params: seq<Value>,
                    p: Tagged -> bool)
    requires |params| == Holes(where) && forall t :: Selects(where, params, t) <==> p(t)
    requires p == Both(Both(Anything(), FromDate(dateFrom)), BeforeDate(dateTo)) && dateTo != Some("")
    ensures var targets := PickTargets(dateFrom, dateTo);
      Answers(ByMonth, AskedRange(dateFrom, dateTo), db,
        MergeTwo(ByMonth, SideRows(where, params, targets, db, Archive), SideRows(where, params, targets, db, Live)))
  {
    var targets, asked := PickTargets(dateFrom, dateTo), AskedRange(dateFrom, dateTo);
    PartSide(db, Archive);
    PartSide(db, Live);
    forall t | t in Logical(db) ensures (Selects(where, params, t) <==> asked(t))
        && (asked(t) ==> targets.Uses(t.side)) {
      RangeAsked(dateFrom, dateTo, t);
      if asked(t) { SkippedSideHoldsNoMatch(dateFrom, dateTo, t); }
    }
    RoutedAnswer(ByMonth, asked, where, params, targets, db);
  }

  method MonthlyTotal(db: Db, dateFrom: Option<string>, dateTo: Option<string>) returns (res: map<Key, Summary>)
    ensures dateTo != Some("") ==> Answers(ByMonth, AskedRange(dateFrom, dateTo), db, res)
  {
    var targets := PickTargets(dateFrom, dateTo);
    var where: seq<Cond>, params: seq<Value> := [], [];
    NoClauses();
    ghost var p := Anything();
    if Given(dateFrom) {
      DateClauses(dateFrom.value);
      AddClause(where, params, p, Compare(ProductionDate, Ge), [Text(dateFrom.value)], FromDate(dateFrom));
      where := where + [Compare(ProductionDate, Ge)];
      params := params + [Text(dateFrom.value)];
    } else { SkipClause(where, params, p, FromDate(dateFrom)); }
    p := Both(p, FromDate(dateFrom));
    if Given(dateTo) {
      DateClauses(dateTo.value);
      AddClause(where, params, p, Compare(ProductionDate, Lt), [Text(dateTo.value)], BeforeDate(dateTo));
      where := where + [Compare(ProductionDate, Lt)];
      params := params + [Text(dateTo.value)];
    } else { SkipClause(where, params, p, BeforeDate(dateTo)); }
    p := Both(p, BeforeDate(dateTo));
    var stmt, _ := BuildAggregationSql(JoinAnd(where), ByMonth, targets, db.archive.Some?);
    var ps := BuildQueryParams(params, targets, db.archive.Some?);
    assert AggregatesBySide(stmt, JoinAnd(where), targets, db, params);
    res := MergedResult(stmt, db, ps);
    if dateTo != Some("") {
      RangeAnswer(db, dateFrom, dateTo, JoinAnd(where), params, p);
    }
  }

  /** The rows dated on the days asked for. */
  ghost function AskedDays(dateFrom: Option<Timestamps.Date>, dateTo: Option<Timestamps.Date>): Tagged -> bool
    requires ValidDay(dateFrom)
  {
    (t: Tagged) => OnDays(dateFrom, dateTo, t.row.date)
  }

  /** Only what is asked of the logical table matters. */
  lemma {:induction false} SameAnswer(g: Grouping, p: Tagged -> bool, q: Tagged -> bool, db: Db, res: map<Key, Summary>)
    requires Answers(g, p, db, res) && forall t :: t in Logical(db) ==> p(t) == q(t)
    ensures Answers(g, q, db, res)
  {
    FilterSame(p, q, Part(db, Archive));
    FilterSame(p, q, Part(db, Live));
    FilterSame(p, q, Logical(db));
    assert AskedOf(p, db, Archive) == AskedOf(q, db, Archive) && AskedOf(p, db, Live) == AskedOf(q, db, Live);
    assert AveragesSurvive(g, p, db) <==> AveragesSurvive(g, q, db);
  }

  /** The route: the totals are those of the days asked for, both included. */
  method GetMonthlyTotal(db: Db, dateFrom: Option<Timestamps.Date>, dateTo: Option<Timestamps.Date>)
    returns (r: Result<map<Key, Summary>, HttpError>)
    requires ValidDay(dateFrom) && ValidDay(dateTo)
    ensures r == Err(BadRequest) <==> dateTo != Some(LAST_DAY) && Reversed(dateFrom, dateTo)
    ensures r == Err(ServerError) <==> dateTo == Some(LAST_DAY)
    ensures r.Ok? ==> Answers(ByMonth, AskedDays(dateFrom, dateTo), db, r.value)
  {
    if dateTo == Some(LAST_DAY) {
      return Err(ServerError);
    }
    if dateFrom.Some? && dateTo.Some? && Timestamps.Before(dateTo.value, dateFrom.value) {
      return Err(BadRequest);
    }
    BoundsAreNotEmpty(dateFrom, dateTo);
    var res := MonthlyTotal(db, FromText(dateFrom), ToText(dateTo));
    var asked, days := AskedRange(FromText(dateFrom), ToText(dateTo)), AskedDays(dateFrom, dateTo);
    forall t ensures asked(t) == days(t) { RangeIsDays(dateFrom, dateTo, t); }
    SameAnswer(ByMonth, asked, days, db, res);
    r := Ok(res);
  }

  // ----- /summary/by_item -----

  /** Both bounds are always part of the WHERE clause; an absent one is bound to NULL, and selects nothing. */
  function AskedItems(dateFrom: Option<string>, dateTo: Option<string>, itemCode: Option<string>): Tagged -> bool {
    (t: Tagged) =>
      dateFrom.Some? && dateTo.Some? && t.row.date.Some?
      && TextOrder.AtMost(dateFrom.value, t.row.date.value) && TextOrder.Less(t.row.date.value, dateTo.value)
      && (Given(itemCode) ==> t.row.code == itemCode)
  }

  ghost function FromBound(d: Option<string>): Tagged -> bool {
    (t: Tagged) => d.Some? && t.row.date.Some? && TextOrder.AtMost(d.value, t.row.date.value)
  }

  ghost function BeforeBound(d: Option<string>): Tagged -> bool {
    (t: Tagged) => d.Some? && t.row.date.Some? && TextOrder.Less(t.row.date.value, d.value)
  }

  lemma BoundClauses(dateFrom: Option<string>, dateTo: Option<string>)
    ensures Means([Compare(ProductionDate, Ge), Compare(ProductionDate, Lt)], [TextValue(dateFrom), TextValue(dateTo)],
                  Both(Both(Anything(), FromBound(dateFrom)), BeforeBound(dateTo)))
  {
    var ge, lt := Compare(ProductionDate, Ge), Compare(ProductionDate, Lt);
    var from, to := TextValue(dateFrom), TextValue(dateTo);
    NoClauses();
    assert [] + [ge] == [ge] && [ge] + [lt] == [ge, lt];
    assert [] + [from] == [from] && [from] + [to] == [from, to];
    AddClause([], [], Anything(), ge, [from], FromBound(dateFrom));
    AddClause([ge], [from], Both(Anything(), FromBound(dateFrom)), lt, [to], BeforeBound(dateTo));
  }

  lemma ItemsAsked(dateFrom: Option<string>, dateTo: Option<string>, itemCode: Option<string>, t: Tagged)
    ensures AskedItems(dateFrom, dateTo, itemCode)(t)
            <==> Both(Both(Anything(), FromBound(dateFrom)), BeforeBound(dateTo))(t) && ItemCodeIs(itemCode)(t)
  {}

  lemma ItemClauses(dateFrom: Option<string>, dateTo: Option<string>, itemCode: Option<string>,
                    where: seq<Cond>, params: seq<Value>)
    requires where == [Compare(ProductionDate, Ge), Compare(ProductionDate, Lt)]
                      + if Given(itemCode) then [Compare(ItemCode, Eq)] else []
    requires params == [TextValue(dateFrom), TextValue(dateTo)]
                       + if Given(itemCode) then [Text(itemCode.value)] else []
    ensures Means(where, params, AskedItems(dateFrom, dateTo, itemCode))
  {
    var w, ps := [Compare(ProductionDate, Ge), Compare(ProductionDate, Lt)], [TextValue(dateFrom), TextValue(dateTo)];
    var p, q := Both(Both(Anything(), FromBound(dateFrom)), BeforeBound(dateTo)), ItemCodeIs(itemCode);
    BoundClauses(dateFrom, dateTo);
    if Given(itemCode) {
      ItemCodeClause(itemCode.value);
      AddClause(w, ps, p, Compare(ItemCode, Eq), [Text(itemCode.value)], q);
    } else {
      SkipClause(w, ps, p, q);
      assert where == w && params == ps;
    }
    forall t ensures AskedItems(dateFrom, dateTo, itemCode)(t) <==> Both(p, q)(t) {
      ItemsAsked(dateFrom, dateTo, itemCode, t);
    }
  }

  method SummaryByItem(db: Db, dateFrom: Option<string>, dateTo: Option<string>, itemCode: Option<string>)
    returns (res: map<Key, Summary>)
    ensures Answers(ByItem, AskedItems(dateFrom, dateTo, itemCode), db, res)
  {
    var targets := PickTargets(dateFrom, dateTo);
    var where := [Compare(ProductionDate, Ge), Compare(ProductionDate, Lt)];
    var params := [TextValue(dateFrom), TextValue(dateTo)];
    if Given(itemCode) {
      where := where + [Compare(ItemCode, Eq)];
      params := params + [Text(itemCode.value)];
    }
    ItemClauses(dateFrom, dateTo, itemCode, where, params);
    var stmt, _ := BuildAggregationSql(JoinAnd(where), ByItem, targets, db.archive.Some?);
    var ps := BuildQueryParams(params, targets, db.archive.Some?);
    assert AggregatesBySide(stmt, JoinAnd(where), targets, db, params);
    res := MergedResult(stmt, db, ps);
    var asked := AskedItems(dateFrom, dateTo, itemCode);
    forall t | t in Logical(db) && asked(t) ensures targets.Uses(t.side) {
      PartSide(db, Archive);
      PartSide(db, Live);
      SkippedSideHoldsNoMatch(dateFrom, dateTo, t);
    }
    RoutedAnswer(ByItem, asked, JoinAnd(where), params, targets, db);
  }

  /** Rows dated on the days asked for, of the item asked for if any; none when a date is left empty. */
  ghost function AskedItemDays(dateFrom: Option<Timestamps.Date>, dateTo: Option<Timestamps.Date>,
                               itemCode: Option<string>): Tagged -> bool
    requires ValidDay(dateFrom)
  {
    (t: Tagged) =>
      dateFrom.Some? && dateTo.Some? && OnDays(dateFrom, dateTo, t.row.date)
      && (itemCode.Some? && itemCode.value != "" ==> t.row.code == itemCode)
  }

  /** The route: the totals are those of the days asked for, both included. */
  method GetSummaryByItem(db: Db, dateFrom: Option<Timestamps.Date>, dateTo: Option<Timestamps.Date>,
                          itemCode: Option<string>)
    returns (r: Result<map<Key, Summary>, HttpError>)
    requires ValidDay(dateFrom) && ValidDay(dateTo)
    ensures r == Err(BadRequest) <==> dateTo != Some(LAST_DAY) && Reversed(dateFrom, dateTo)
    ensures r == Err(ServerError) <==> dateTo == Some(LAST_DAY)
    ensures r.Ok? ==> Answers(ByItem, AskedItemDays(dateFrom, dateTo, itemCode), db, r.value)
  {
    if dateTo == Some(LAST_DAY) {
      return Err(ServerError);
    }
    if dateFrom.Some? && dateTo.Some? && Timestamps.Before(dateTo.value, dateFrom.value) {
      return Err(BadRequest);
    }
    BoundsAreNotEmpty(dateFrom, dateTo);
    var from, to := FromText(dateFrom), ToText(dateTo);
    var res := SummaryByItem(db, from, to, itemCode);
    var asked, days := AskedItems(from, to, itemCode), AskedItemDays(dateFrom, dateTo, itemCode);
    forall t ensures asked(t) == days(t) { RangeIsDays(dateFrom, dateTo, t); }
    SameAnswer(ByItem, asked, days, db, res);
    r := Ok(res);
  }

  // ----- /summary/monthly_by_item -----

  /** str(n) */
  function Decimal(n: nat): string {
    (if n < 10 then "" else Decimal(n / 10)) + [Timestamps.DigitChar(n % 10)]
  }

  /** f"{n:02d}" */
  function Padded(n: nat): string {
    if n < 10 then "0" + Decimal(n) else Decimal(n)
  }

  /** The first day of the next month; the year is not padded. */
  function NextMonthFirst(year: nat, month: nat): string {
    if month == 12 then Decimal(year + 1) + "-01-01" else Decimal(year) + "-" + Padded(month + 1) + "-01"
  }

  function MonthTargets(year: nat, month: nat): Targets {
    PickTargets(Some(MonthDigits(year, month) + "-01"), Some(NextMonthFirst(year, month)))
  }

  /** The month parameter is four digits, a dash and two digits. */
  predicate MonthParameter(year: nat, month: nat) {
    year < 10_000 && month < 100
  }

  lemma {:induction false} Pow10AtLeast(w: nat)
    requires w >= 1
    ensures Timestamps.Pow10(w) >= 10
  {
    if w > 1 { Pow10AtLeast(w - 1); }
  }

  lemma {:induction false} DecimalIsDigits(n: nat, w: nat)
    requires w >= 1 && n < Timestamps.Pow10(w) && (w > 1 ==> Timestamps.Pow10(w - 1) <= n)
    ensures Decimal(n) == Timestamps.Digits(n, w)
  {
    if w > 1 {
      assert n >= 10 by { assert Timestamps.Pow10(w - 1) >= 10 by { Pow10AtLeast(w - 1); } }
      DecimalIsDigits(n / 10, w - 1);
    } else {
      assert Timestamps.Digits(n / 10, 0) == "";
    }
  }

  lemma CutoffYear()
    ensures CUTOFF == Timestamps.Digits(2026, 4) + "-01-01"
  {
    CutoffText();
    assert CUTOFF == "2026" + "-01-01";
  }

  lemma FourDigitYear(y: nat, rest: string)
    requires 2026 <= y < 10_000 && (y == 2026 ==> TextOrder.Less("-01-01", rest))
    ensures TextOrder.Less(CUTOFF, Decimal(y) + rest)
  {
    Timestamps.Powers();
    assert Timestamps.Pow10(3) == 1000;
    DecimalIsDigits(y, 4);
    CutoffYear();
    Timestamps.Field(2026, y, 4, "-01-01", rest);
  }

  lemma LeadingDigit()
    ensures |Decimal(10_000)| == 5 && Decimal(10_000)[0] == '1'
  {
    assert Decimal(1) == "1";
    assert Decimal(10) == Decimal(1) + "0";
    assert Decimal(100) == Decimal(10) + "0";
    assert Decimal(1000) == Decimal(100) + "0";
    assert Decimal(10_000) == Decimal(1000) + "0";
  }

  lemma SecondMonthOn(m: nat)
    requires 2 <= m <= 100
    ensures TextOrder.Less("-01-01", "-" + Padded(m) + "-01")
  {
    var p := Padded(m);
    Timestamps.Powers();
    var a, b := "01-01", p + "-01";
    assert "-01-01" == "-" + a && "-" + p + "-01" == "-" + b;
    Timestamps.Separator("-", a, b);
    if m < 10 {
      assert p == "0" + [Timestamps.DigitChar(m)];
      assert b[0] == '0' && a[1..] == "1-01" && b[1..] == [Timestamps.DigitChar(m)] + "-01";
    } else if m < 100 {
      assert p == Decimal(m / 10) + [Timestamps.DigitChar(m % 10)];
      assert Decimal(m / 10) == [Timestamps.DigitChar(m / 10)];
      assert b[0] == Timestamps.DigitChar(m / 10);
    } else {
      assert p == Decimal(10) + "0" && Decimal(10) == Decimal(1) + "0" && Decimal(1) == "1";
      assert b[0] == '1';
    }
  }

  /** From 2026 on, the first of the next month is not before the cutoff, unless the year gets a fifth digit. */
  lemma NextMonthReachesCutoff(year: nat, month: nat)
    requires MonthParameter(year, month) && 2026 <= year && (year == 2026 ==> month >= 1)
    ensures TextOrder.AtMost(CUTOFF, NextMonthFirst(year, month)) <==> !(year == 9999 && month == 12)
  {
    if year == 9999 && month == 12 {
      LeadingDigit();
      assert NextMonthFirst(year, month)[0] == '1' && CUTOFF[0] == '2';
    } else if month == 12 {
      FourDigitYear(year + 1, "-01-01");
    } else {
      if year == 2026 { SecondMonthOn(month + 1); }
      FourDigitYear(year, "-" + Padded(month + 1) + "-01");
      assert NextMonthFirst(year, month) == Decimal(year) + ("-" + Padded(month + 1) + "-01");
    }
  }

  predicate InMonth(year: nat, month: nat, t: Tagged) {
    t.row.date.Some? && MonthOf(t.row.date.value) == MonthDigits(year, month)
  }

  /** The month filter against the cutoff. */
  lemma MonthAgainstCutoff(year: nat, month: nat, t: Tagged)
    requires MonthParameter(year, month) && Owned(t) && InMonth(year, month, t)
    ensures t.side.Live? ==> 2026 <= year && (year == 2026 ==> month >= 1)
    ensures t.side.Archive? ==> year < 2026 || (year == 2026 && month <= 1)
  {
    CutoffText();
    var d, m := t.row.date.value, MonthDigits(year, month);
    assert d == m + d[7..] && CUTOFF == MonthDigits(2026, 1) + CUTOFF[7..];
    TextOrder.Blocks(m, MonthDigits(2026, 1), d[7..], CUTOFF[7..]);
    YearMonthOrder(year, month, 2026, 1);
    YearMonthOrder(2026, 1, year, month);
    if m == MonthDigits(2026, 1) { YearMonthInjective(year, month, 2026, 1); }
    TextOrder.Trichotomy(m, MonthDigits(2026, 1));
    TextOrder.Total(m, MonthDigits(2026, 1));
  }

  lemma EarlyMonthStartsBeforeCutoff(year: nat, month: nat)
    requires MonthParameter(year, month) && (year < 2026 || (year == 2026 && month < 1))
    ensures TextOrder.Less(MonthDigits(year, month) + "-01", CUTOFF)
  {
    CutoffText();
    YearMonthOrder(year, month, 2026, 1);
    assert CUTOFF == MonthDigits(2026, 1) + "-01";
    TextOrder.Blocks(MonthDigits(year, month), MonthDigits(2026, 1), "-01", "-01");
  }

  /** No row of the month is on a database that routing skips. */
  predicate MonthKept(year: nat, month: nat, db: Db) {
    forall t :: t in Logical(db) && InMonth(year, month, t) ==> MonthTargets(year, month).Uses(t.side)
  }

  /** The one month whose rows can be archived although its first day is not before the cutoff. */
  predicate IsCutoffMonth(year: nat, month: nat) {
    year == 2026 && month == 1
  }

  lemma MonthRoutingKeeps(year: nat, month: nat, t: Tagged)
    requires MonthParameter(year, month) && !(year == 9999 && month == 12)
    requires Owned(t) && InMonth(year, month, t) && (t.side.Archive? ==> !IsCutoffMonth(year, month))
    ensures MonthTargets(year, month).Uses(t.side)
  {
    MonthAgainstCutoff(year, month, t);
    if t.side.Live? {
      NextMonthReachesCutoff(year, month);
    } else {
      EarlyMonthStartsBeforeCutoff(year, month);
    }
  }

  lemma CutoffMonthSkipsArchive()
    ensures !MonthTargets(2026, 1).useArchive
  {
    CutoffText();
    assert MonthDigits(2026, 1) + "-01" == CUTOFF;
    TextOrder.Irreflexive(CUTOFF);
  }

  lemma CutoffMonthOf(t: Tagged)
    ensures ValueOf(YearMonth, t) == Text(MonthOf(CUTOFF)) <==> InMonth(2026, 1, t)
  {
    CutoffText();
  }

  /** The cutoff's own month keeps all its rows exactly when the archive is aligned. */
  lemma CutoffMonthIsKeptExactlyWhenAligned(db: Db)
    ensures MonthKept(2026, 1, db) <==> CutoffAligned(db)
  {
    CutoffMonthSkipsArchive();
    if MonthKept(2026, 1, db) {
      forall t | t in Part(db, Archive) ensures ValueOf(YearMonth, t) != Text(MonthOf(CUTOFF)) {
        PartSide(db, Archive);
        assert t in Logical(db);
        CutoffMonthOf(t);
      }
    }
    if CutoffAligned(db) {
      forall t | t in Logical(db) && InMonth(2026, 1, t) ensures MonthTargets(2026, 1).Uses(t.side) {
        PartSide(db, Archive);
        PartSide(db, Live);
        assert t in Part(db, Archive) || t in Part(db, Live);
        CutoffMonthOf(t);
        MonthRoutingKeeps(2026, 1, t);
      }
    }
  }

  lemma MonthIsKept(year: nat, month: nat, db: Db)
    requires MonthParameter(year, month) && !(year == 9999 && month == 12)
    requires IsCutoffMonth(year, month) ==> CutoffAligned(db)
    ensures MonthKept(year, month, db)
  {
    if IsCutoffMonth(year, month) {
      CutoffMonthIsKeptExactlyWhenAligned(db);
    } else {
      PartSide(db, Archive);
      PartSide(db, Live);
      forall t | t in Logical(db) && InMonth(year, month, t) ensures MonthTargets(year, month).Uses(t.side) {
        MonthRoutingKeeps(year, month, t);
      }
    }
  }

  function AskedMonth(yearMonth: Option<(nat, nat)>, itemCode: Option<string>): Tagged -> bool {
    (t: Tagged) =>
      (yearMonth.Some? ==> InMonth(yearMonth.value.0, yearMonth.value.1, t))
      && (Given(itemCode) ==> t.row.code == itemCode)
  }

  lemma OnlyRow(db: Db, t: Tagged)
    requires Owned(t) && db == if t.side.Archive? then Db(Some([t.row]), []) else Db(None, [t.row])
    ensures t in Logical(db) && (t.side.Live? ==> Part(db, Archive) == [])
  {
    TagSide(t.side, [t.row]);
    assert TableOf(db, t.side)[0] == t;
    FilterIn(Owned, TableOf(db, t.side), t);
    assert t in Part(db, t.side);
  }

  lemma LastMonthRow(d: string)
    requires d == MonthDigits(9999, 12) + "-15"
    ensures MonthOf(d) == MonthDigits(9999, 12) && !TextOrder.Less(d, CUTOFF)
  {
    CutoffText();
    assert CUTOFF == MonthDigits(2026, 1) + "-01";
    TextOrder.Blocks(MonthDigits(9999, 12), MonthDigits(2026, 1), "-15", "-01");
    YearMonthOrder(9999, 12, 2026, 1);
    if MonthDigits(9999, 12) == MonthDigits(2026, 1) { YearMonthInjective(9999, 12, 2026, 1); }
  }

  /** A live row of December 9999 that its own month does not find. */
  lemma LastMonthIsLost() returns (db: Db)
    ensures CutoffAligned(db) && !MonthKept(9999, 12, db)
  {
    var d := MonthDigits(9999, 12) + "-15";
    var t := Tagged(Live, Row(1, Some(d), None, None, None, None));
    db := Db(None, [t.row]);
    LastMonthRow(d);
    OnlyRow(db, t);
    assert InMonth(9999, 12, t);
    NextMonthReachesCutoff(9999, 12);
  }

  lemma StrayDates()
    ensures TextOrder.Less("2026-01-00", CUTOFF) && !TextOrder.Less(CUTOFF, CUTOFF)
    ensures MonthOf("2026-01-00") == "2026-01" == MonthOf(CUTOFF)
  {
    assert "2026-01-00" == "2026-01-0" + "0" && CUTOFF == "2026-01-0" + "1";
    TextOrder.Blocks("2026-01-0", "2026-01-0", "0", "1");
    TextOrder.Irreflexive(CUTOFF);
    assert "2026-01-00"[..7] == "2026-01" && CUTOFF[..7] == "2026-01";
  }

  lemma MisdatedRowIsLost(d: string) returns (db: Db)
    requires TextOrder.Less(d, CUTOFF) && MonthOf(d) == MonthOf(CUTOFF)
    ensures !MonthKept(2026, 1, db)
  {
    var t := Tagged(Archive, Row(1, Some(d), None, None, None, None));
    db := Db(Some([t.row]), []);
    CutoffMonthSkipsArchive();
    OnlyRow(db, t);
    CutoffMonthOf(t);
  }

  /** An archived row dated 2026-01-00 that January 2026 does not find. */
  lemma MisdatedIsLost() returns (db: Db)
    ensures !MonthKept(2026, 1, db)
  {
    StrayDates();
    db := MisdatedRowIsLost("2026-01-00");
  }

  /** Routing a month keeps all its rows, whatever the databases hold, for every month parameter but two: 9999-12, and
      the cutoff's own month, of which a misdated row may be archived. */
  lemma MonthRoutingIsLosslessExactlyWhen(year: nat, month: nat)
    requires MonthParameter(year, month)
    ensures (forall db :: MonthKept(year, month, db)) <==> !(year == 9999 && month == 12) && !IsCutoffMonth(year, month)
  {
    if year == 9999 && month == 12 {
      var db := LastMonthIsLost();
      assert !MonthKept(year, month, db);
    } else if IsCutoffMonth(year, month) {
      var db := MisdatedIsLost();
      assert !MonthKept(year, month, db);
    } else {
      forall db ensures MonthKept(year, month, db) { MonthIsKept(year, month, db); }
    }
  }

  /** On aligned databases 9999-12 is the only exception. */
  lemma AlignedRoutingIsLosslessExactlyWhen(year: nat, month: nat)
    requires MonthParameter(year, month)
    ensures (forall db :: CutoffAligned(db) ==> MonthKept(year, month, db)) <==> !(year == 9999 && month == 12)
  {
    if year == 9999 && month == 12 {
      var db := LastMonthIsLost();
      assert CutoffAligned(db) && !MonthKept(year, month, db);
    } else {
      forall db | CutoffAligned(db) ensures MonthKept(year, month, db) { MonthIsKept(year, month, db); }
    }
  }

  ghost function InMonths(yearMonth: Option<(nat, nat)>): Tagged -> bool {
    (t: Tagged) => yearMonth.Some? ==> InMonth(yearMonth.value.0, yearMonth.value.1, t)
  }

  lemma MonthAsked(yearMonth: Option<(nat, nat)>, itemCode: Option<string>, t: Tagged)
    ensures Both(Both(Anything(), InMonths(yearMonth)), ItemCodeIs(itemCode))(t) <==> AskedMonth(yearMonth, itemCode)(t)
  {}

  lemma MonthAnswer(db: Db, yearMonth: Option<(nat, nat)>, itemCode: Option<string>, targets: Targets,
                    where: Cond, params: seq<Value>, p: Tagged -> bool)
    requires |params| == Holes(where) && forall t :: Selects(where, params, t) <==> p(t)
    requires p == Both(Both(Anything(), InMonths(yearMonth)), ItemCodeIs(itemCode))
    requires yearMonth != Some((9999, 12)) && (yearMonth == Some((2026, 1)) ==> CutoffAligned(db))
    requires yearMonth.Some? ==> MonthParameter(yearMonth.value.0, yearMonth.value.1)
    requires targets == if yearMonth.Some? then MonthTargets(yearMonth.value.0, yearMonth.value.1)
        else Targets(true, true)
    ensures Answers(ByMonthAndItem, AskedMonth(yearMonth, itemCode), db,
      MergeTwo(ByMonthAndItem, SideRows(where, params, targets, db, Archive),
          SideRows(where, params, targets, db, Live)))
  {
    var asked := AskedMonth(yearMonth, itemCode);
    if yearMonth.Some? { MonthIsKept(yearMonth.value.0, yearMonth.value.1, db); }
    forall t | t in Logical(db) ensures (Selects(where, params, t) <==> asked(t))
        && (asked(t) ==> targets.Uses(t.side)) {
      MonthAsked(yearMonth, itemCode, t);
    }
    RoutedAnswer(ByMonthAndItem, asked, where, params, targets, db);
  }

  lemma MonthClause(year: nat, month: nat)
    ensures Says(Compare(YearMonth, Eq), [Text(MonthDigits(year, month))], InMonths(Some((year, month))))
  {}

  method MonthlyByItem(db: Db, yearMonth: Option<(nat, nat)>, itemCode: Option<string>)
    returns (res: map<Key, Summary>)
    requires yearMonth.Some? ==> MonthParameter(yearMonth.value.0, yearMonth.value.1)
    ensures yearMonth !in {Some((9999, 12)), Some((2026, 1))} ==>
      Answers(ByMonthAndItem, AskedMonth(yearMonth, itemCode), db, res)
    ensures CutoffAligned(db) && yearMonth != Some((9999, 12)) ==>
      res == Direct(ByMonthAndItem, AskedMonth(yearMonth, itemCode), db)
  {
    var targets;
    if yearMonth.Some? {
      targets := MonthTargets(yearMonth.value.0, yearMonth.value.1);
    } else {
      targets := Targets(true, true);
    }
    var where: seq<Cond>, params: seq<Value> := [], [];
    NoClauses();
    ghost var p := Anything();
    if yearMonth.Some? {
      MonthClause(yearMonth.value.0, yearMonth.value.1);
      AddClause(where, params, p, Compare(YearMonth, Eq), [Text(MonthDigits(yearMonth.value.0, yearMonth.value.1))],
                InMonths(yearMonth));
      where := where + [Compare(YearMonth, Eq)];
      params := params + [Text(MonthDigits(yearMonth.value.0, yearMonth.value.1))];
    } else { SkipClause(where, params, p, InMonths(yearMonth)); }
    p := Both(p, InMonths(yearMonth));
    if Given(itemCode) {
      ItemCodeClause(itemCode.value);
      AddClause(where, params, p, Compare(ItemCode, Eq), [Text(itemCode.value)], ItemCodeIs(itemCode));
      where := where + [Compare(ItemCode, Eq)];
      params := params + [Text(itemCode.value)];
    } else { SkipClause(where, params, p, ItemCodeIs(itemCode)); }
    p := Both(p, ItemCodeIs(itemCode));
    var stmt, _ := BuildAggregationSql(JoinAnd(where), ByMonthAndItem, targets, db.archive.Some?);
    var ps := BuildQueryParams(params, targets, db.archive.Some?);
    assert AggregatesBySide(stmt, JoinAnd(where), targets, db, params);
    res := MergedResult(stmt, db, ps);
    if yearMonth != Some((9999, 12)) && (yearMonth == Some((2026, 1)) ==> CutoffAligned(db)) {
      MonthAnswer(db, yearMonth, itemCode, targets, JoinAnd(where), params, p);
    }
  }

  lemma MeanIs(xs: seq<Option<int>>, s: int, n: nat)
    requires Sum(xs) == Some(s) && Known(xs) == n && n > 0
    ensures Mean(xs) == Some(Ratio(s, n))
  {}

  lemma Ratios()
    ensures Ratio(0, 1) == 0.0 && Ratio(60, 2) == 30.0 && Ratio(60, 3) == 20.0
  {}

  lemma UnevenSums()
    ensures Known([Some(0)]) == 1 && Sum([Some(0)]) == Some(0)
    ensures Known([Some(30), Some(30)]) == 2 && Sum([Some(30), Some(30)]) == Some(60)
    ensures Known([Some(0)] + [Some(30), Some(30)]) == 3 && Sum([Some(0)] + [Some(30), Some(30)]) == Some(60)
  {
    assert [Some(30), Some(30)] == [Some(30)] + [Some(30)];
    assert Known([Some(30)]) == 1 && Sum([Some(30)]) == Some(30);
    SumConcat([Some(30)], [Some(30)]);
    SumConcat([Some(0)], [Some(30), Some(30)]);
  }

  lemma {:induction false} QuantitiesAre(a: seq<Tagged>, l: seq<Tagged>)
    requires |a| == 1 && |l| == 2
    ensures Quantities(a) == [a[0].row.qty] && Quantities(l) == [l[0].row.qty, l[1].row.qty]
    ensures Quantities(a + l) == Quantities(a) + Quantities(l)
  {
    assert a[1..] == [] && l[1..] == [l[1]] && [l[1]][1..] == [];
    assert Quantities([l[1]]) == [l[1].row.qty] + Quantities([]);
    ColumnsConcat(a, l);
  }

  /** Means of 0 over one row and of 30 over two: 15 when merged, 20 over all three. */
  lemma {:induction false} UnevenMeans(a: seq<Tagged>, l: seq<Tagged>)
    requires |a| == 1 && a[0].row.qty == Some(0) && |l| == 2 && l[0].row.qty == l[1].row.qty == Some(30)
    ensures MeanOfMeans([Mean(Quantities(a)), Mean(Quantities(l))]) == Some(15.0)
    ensures Mean(Quantities(a + l)) == Some(20.0)
  {
    QuantitiesAre(a, l);
    UnevenSums();
    MeanIs(Quantities(a), 0, 1);
    MeanIs(Quantities(l), 60, 2);
    MeanIs(Quantities(a + l), 60, 3);
    Ratios();
    MeanOfTwo(Some(0.0), Some(30.0));
  }

  /** A group of which one side has the first rows and the other side the others. */
  lemma {:induction false} SplitGroupAverage(k: Key, a: seq<Tagged>, l: seq<Tagged>)
    requires a != [] && l != [] && forall t :: t in a + l ==> KeyOf(ByMonth, t) == k
    ensures k in MergeTwo(ByMonth, a, l) && k in GroupBy(ByMonth, a + l)
    ensures MergeTwo(ByMonth, a, l)[k].average == MeanOfMeans([Mean(Quantities(a)), Mean(Quantities(l))])
    ensures GroupBy(ByMonth, a + l)[k].average == Mean(Quantities(a + l))
  {
    forall t | t in a || t in l ensures InGroup(ByMonth, k)(t) { assert t in a + l; }
    FilterAll(InGroup(ByMonth, k), a);
    FilterAll(InGroup(ByMonth, k), l);
    FilterConcat(InGroup(ByMonth, k), a, l);
    GroupEmpty(ByMonth, k, a + l);
    MergedAt(ByMonth, k, a, l);
  }

  function Produced(id: int, date: string, qty: int): Row {
    Row(id, Some(date), None, None, None, Some(qty))
  }

  /** One archived row dated `before`, and two live ones dated `after`. */
  function SplitDb(before: string, after: string): Db {
    Db(Some([Produced(1, before, 0)]), [Produced(1, after, 30), Produced(2, after, 30)])
  }

  lemma SplitDbParts(before: string, after: string)
    requires TextOrder.Less(before, CUTOFF) && !TextOrder.Less(after, CUTOFF)
    ensures Part(SplitDb(before, after), Archive) == [Tagged(Archive, Produced(1, before, 0))]
    ensures Part(SplitDb(before, after), Live)
         == [Tagged(Live, Produced(1, after, 30)), Tagged(Live, Produced(2, after, 30))]
  {
    var db := SplitDb(before, after);
    TagSide(Archive, db.archive.value);
    TagSide(Live, db.live);
    FilterAll(Owned, TableOf(db, Archive));
    FilterAll(Owned, TableOf(db, Live));
  }

  /** What MonthlyTotal computes for a request without dates. */
  function RoutedTotals(db: Db): map<Key, Summary> {
    var targets := PickTargets(None, None);
    MergeTwo(ByMonth, SideRows(Always, [], targets, db, Archive), SideRows(Always, [], targets, db, Live))
  }

  lemma RoutedTotalsAnswer(db: Db)
    ensures Answers(ByMonth, AskedRange(None, None), db, RoutedTotals(db))
  {
    RoutedAnswer(ByMonth, AskedRange(None, None), Always, [], PickTargets(None, None), db);
  }

  lemma AskedForAll(db: Db, side: Side)
    ensures AskedOf(AskedRange(None, None), db, side) == Part(db, side)
  {
    FilterAll(AskedRange(None, None), Part(db, side));
  }

  lemma DirectOfAll(db: Db)
    ensures Direct(ByMonth, AskedRange(None, None), db) == GroupBy(ByMonth, Logical(db))
  {
    FilterAll(AskedRange(None, None), Logical(db));
  }

  lemma AllRows(db: Db, a: seq<Tagged>, l: seq<Tagged>)
    requires Part(db, Archive) == a && Part(db, Live) == l
    ensures RoutedTotals(db) == MergeTwo(ByMonth, a, l)
    ensures Direct(ByMonth, AskedRange(None, None), db) == GroupBy(ByMonth, a + l)
  {
    RoutedTotalsAnswer(db);
    AskedForAll(db, Archive);
    AskedForAll(db, Live);
    DirectOfAll(db);
  }

  lemma {:induction false} SameMonth(rows: seq<Tagged>, month: string)
    requires forall i :: 0 <= i < |rows| ==> rows[i].row.date.Some? && MonthOf(rows[i].row.date.value) == month
    ensures forall t :: t in rows ==> KeyOf(ByMonth, t) == Key(Text(month), Null)
  {}

  lemma {:induction false} SplitMonthAverage(before: string, after: string)
    requires TextOrder.Less(before, CUTOFF) && !TextOrder.Less(after, CUTOFF) && MonthOf(before) == MonthOf(after)
    ensures var db, k := SplitDb(before, after), Key(Text(MonthOf(after)), Null);
      var direct := Direct(ByMonth, AskedRange(None, None), db);
      && k in RoutedTotals(db) && RoutedTotals(db)[k].average == Some(15.0)
      && k in direct && direct[k].average == Some(20.0)
  {
    var a := [Tagged(Archive, Produced(1, before, 0))];
    var l := [Tagged(Live, Produced(1, after, 30)), Tagged(Live, Produced(2, after, 30))];
    SplitDbParts(before, after);
    AllRows(SplitDb(before, after), a, l);
    SameMonth(a + l, MonthOf(after));
    SplitGroupAverage(Key(Text(MonthOf(after)), Null), a, l);
    UnevenMeans(a, l);
  }

  /** The routed monthly totals report one average for the entry where the whole table has another. */
  ghost predicate AverageIsLost(db: Db, k: Key, reported: real, average: real) {
    var direct := Direct(ByMonth, AskedRange(None, None), db);
    && Answers(ByMonth, AskedRange(None, None), db, RoutedTotals(db))
    && k in RoutedTotals(db) && RoutedTotals(db)[k].average == Some(reported)
    && k in direct && direct[k].average == Some(average) && reported != average
  }

  lemma {:induction false} SplitMonthLosesAverage(before: string, after: string)
    requires TextOrder.Less(before, CUTOFF) && !TextOrder.Less(after, CUTOFF) && MonthOf(before) == MonthOf(after)
    ensures AverageIsLost(SplitDb(before, after), Key(Text(MonthOf(after)), Null), 15.0, 20.0)
  {
    SplitMonthAverage(before, after);
    RoutedTotalsAnswer(SplitDb(before, after));
  }

  /** Without alignment the average can be wrong: one archived row of 0 dated 2026-01-00, and two live rows of 30 dated
      2026-01-01. The monthly totals are routed and merged to an average of 15 for January 2026; it is 20. */
  lemma {:induction false} UnalignedAverageCanBeWrong()
    ensures AverageIsLost(SplitDb("2026-01-00", "2026-01-01"), Key(Text("2026-01"), Null), 15.0, 20.0)
  {
    StrayDates();
    SplitMonthLosesAverage("2026-01-00", CUTOFF);
  }
}
