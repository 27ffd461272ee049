/** DBRouter (shared/database.py): which databases a date range needs, and the UNION ALL query
    with its bind parameters. */
module Router {
  import opened Options
  import opened Sql
  import TextOrder
  import Timestamps
  import Ordering

  datatype Targets = Targets(useArchive: bool, useLive: bool) {
    predicate Uses(side: Side) {
      if side.Archive? then useArchive else useLive
    }
  }

  /** Range of dates [from, to): `from` inclusive, `to` exclusive. */
  function PickTargets(dateFrom: Option<string>, dateTo: Option<string>): Targets {
    if dateFrom.None? && dateTo.None? then Targets(true, true)
    else if dateFrom.None? then Targets(true, TextOrder.AtMost(CUTOFF, dateTo.value))
    else if dateTo.None? then Targets(TextOrder.Less(dateFrom.value, CUTOFF), true)
    else Targets(TextOrder.Less(dateFrom.value, CUTOFF), TextOrder.AtMost(CUTOFF, dateTo.value))
  }

  /** The filter the endpoints put on production_date: an absent or empty bound adds no clause. */
  predicate InRange(dateFrom: Option<string>, dateTo: Option<string>, t: Tagged) {
    && (dateFrom.Some? && dateFrom.value != "" ==>
          t.row.date.Some? && TextOrder.AtMost(dateFrom.value, t.row.date.value))
    && (dateTo.Some? && dateTo.value != "" ==>
          t.row.date.Some? && TextOrder.Less(t.row.date.value, dateTo.value))
  }

  lemma CutoffDay()
    ensures Timestamps.Digits(2026, 4) == "2026" && Timestamps.Digits(1, 2) == "01"
    ensures Timestamps.IsoDate(Timestamps.Date(2026, 1, 1)) == CUTOFF
  {
    var y := 2026;
    assert Timestamps.Digits(y / 1000, 1) == Timestamps.Digits(0, 0) + "2";
    assert Timestamps.Digits(y / 100, 2) == "20";
    assert Timestamps.Digits(y / 10, 3) == "202";
    assert Timestamps.Digits(0, 1) == "0";
  }

  /** A skipped database never held a match. */
  lemma SkippedSideHoldsNoMatch(dateFrom: Option<string>, dateTo: Option<string>, t: Tagged)
    requires dateTo != Some("")
    requires Owned(t) && InRange(dateFrom, dateTo, t)
    ensures PickTargets(dateFrom, dateTo).Uses(t.side)
  {
    var d := t.row.date.value;
    TextOrder.Trichotomy(d, CUTOFF);
    if t.side.Archive? && dateFrom.Some? && dateFrom.value != "" && dateFrom.value != d {
      TextOrder.Transitive(dateFrom.value, d, CUTOFF);
    }
    if t.side.Live? && dateTo.Some? && CUTOFF != d {
      TextOrder.Total(d, CUTOFF);
      TextOrder.Transitive(CUTOFF, d, dateTo.value);
    }
  }

  /** Skipping loses no row, whatever the databases hold, exactly when the upper bound is not the empty text
      (an empty bound is no filter, but it does switch the live side off). */
  lemma RoutingIsLosslessExactlyWhen(dateFrom: Option<string>, dateTo: Option<string>)
    ensures (forall t :: Owned(t) && InRange(dateFrom, dateTo, t) ==> PickTargets(dateFrom, dateTo).Uses(t.side))
            <==> dateTo != Some("")
  {
    if dateTo == Some("") {
      var d := if dateFrom.Some? && TextOrder.Less(CUTOFF, dateFrom.value) then dateFrom.value else CUTOFF;
      var t := Tagged(Live, Row(1, Some(d), None, None, None, None));
      TextOrder.Trichotomy(d, CUTOFF);
      if dateFrom.Some? { TextOrder.Total(CUTOFF, dateFrom.value); }
      assert Owned(t) && InRange(dateFrom, dateTo, t);
    } else {
      forall t | Owned(t) && InRange(dateFrom, dateTo, t) ensures PickTargets(dateFrom, dateTo).Uses(t.side) {
        SkippedSideHoldsNoMatch(dateFrom, dateTo, t);
      }
    }
  }

  /** Some row of this side could be in the range. */
  ghost predicate CanMatch(dateFrom: Option<string>, dateTo: Option<string>, side: Side) {
    exists t :: Owned(t) && t.side == side && InRange(dateFrom, dateTo, t)
  }

  predicate NonEmpty(dateFrom: Option<string>, dateTo: Option<string>) {
    dateFrom.None? || dateTo.None? || TextOrder.Less(dateFrom.value, dateTo.value)
  }

  /** For a range that is not empty, exactly the databases that can hold a match are queried, and besides only the live
      one for a range that ends at the cutoff. */
  lemma RoutingIsMinimalButAtTheBoundary(dateFrom: Option<string>, dateTo: Option<string>, side: Side)
    requires dateTo != Some("") && NonEmpty(dateFrom, dateTo)
    ensures PickTargets(dateFrom, dateTo).Uses(side)
            <==> CanMatch(dateFrom, dateTo, side) || (side == Live && dateTo == Some(CUTOFF))
  {
    if CanMatch(dateFrom, dateTo, side) {
      var t :| Owned(t) && t.side == side && InRange(dateFrom, dateTo, t);
      SkippedSideHoldsNoMatch(dateFrom, dateTo, t);
    } else if PickTargets(dateFrom, dateTo).Uses(side) {
      var d := if side.Archive? then (if dateFrom.Some? then dateFrom.value else "")
               else if dateFrom.Some? && TextOrder.Less(CUTOFF, dateFrom.value) then dateFrom.value else CUTOFF;
      var t := Tagged(side, Row(1, Some(d), None, None, None, None));
      TextOrder.Trichotomy(d, CUTOFF);
      if dateFrom.Some? { TextOrder.Total(CUTOFF, dateFrom.value); }
      assert dateTo == Some(CUTOFF) || InRange(dateFrom, dateTo, t);
    }
  }

  // ----- query building -----

  /** SELECT * FROM (body) ORDER BY production_date DESC, source DESC, id DESC [LIMIT n [OFFSET m]] */
  datatype Statement = Statement(body: Query, limit: Option<int>, offset: Option<int>)

  function Drop<T>(s: seq<T>, n: int): seq<T> {
    if n <= 0 then s else if n <= |s| then s[n..] else []
  }

  /** A negative LIMIT is none. */
  function Take<T>(s: seq<T>, n: int): seq<T> {
    if 0 <= n <= |s| then s[..n] else s
  }

  /** LIMIT n and OFFSET n part the rows at n, or at the end when there are fewer. */
  lemma LimitAndOffset<T>(s: seq<T>, n: nat)
    ensures Take(s, n) + Drop(s, n) == s && |Take(s, n)| == if n <= |s| then n else |s|
  {}

  function Rows(stmt: Statement, db: Db, ps: seq<Value>): seq<Tagged>
    requires |ps| == QueryHoles(stmt.body)
  {
    var all := Ordering.SortDesc(Eval(stmt.body, db, ps));
    var rest := if stmt.offset.Some? then Drop(all, stmt.offset.value) else all;
    if stmt.limit.Some? then Take(rest, stmt.limit.value) else rest
  }

  /** Binding an integer beyond 64 bits raises, and so does such a LIMIT or OFFSET. */
  predicate Runnable(stmt: Statement, ps: seq<Value>) {
    Bindable(ps) && (stmt.limit.Some? ==> Int64(stmt.limit.value)) && (stmt.offset.Some? ==> Int64(stmt.offset.value))
  }

  /** DBRouter.query; None when it raises. */
  function RunQuery(stmt: Statement, db: Db, ps: seq<Value>): Option<seq<Tagged>>
    requires |ps| == QueryHoles(stmt.body)
  {
    if Runnable(stmt, ps) then Some(Rows(stmt, db, ps)) else None
  }

  /** The base parameters, then the cutoff, once for every database that is queried. */
  function QueryParams(base: seq<Value>, targets: Targets, archiveExists: bool): seq<Value> {
    (if targets.useArchive && archiveExists then base + [Text(CUTOFF)] else [])
    + (if targets.useLive then base + [Text(CUTOFF)] else [])
  }

  method BuildQueryParams(base: seq<Value>, targets: Targets, archiveExists: bool) returns (ps: seq<Value>)
    ensures ps == QueryParams(base, targets, archiveExists)
  {
    ps := [];
    if targets.useArchive && archiveExists {
      ps := ps + base;
      ps := ps + [Text(CUTOFF)];
    }
    if targets.useLive {
      ps := ps + base;
      ps := ps + [Text(CUTOFF)];
    }
  }

  /** Some database is queried. */
  predicate Queried(targets: Targets, archiveExists: bool) {
    targets.useLive || (targets.useArchive && archiveExists)
  }

  lemma QueryParamsBindable(base: seq<Value>, targets: Targets, archiveExists: bool)
    ensures Bindable(QueryParams(base, targets, archiveExists)) <==> Bindable(base) || !Queried(targets, archiveExists)
  {
    var one := base + [Text(CUTOFF)];
    BindableParts(base, [Text(CUTOFF)]);
    BindableParts(if targets.useArchive && archiveExists then one else [], if targets.useLive then one else []);
  }

  function SideTest(side: Side): Cond {
    Compare(ProductionDate, if side.Archive? then Lt else Ge)
  }

  function Branch(side: Side, where: Cond): (q: Query)
    ensures QueryHoles(q) == Holes(where) + 1
  {
    assert Holes(SideTest(side)) == 1;
    Scan(side, And(where, SideTest(side)))
  }

  /** `where` selects the row once its placeholders are bound to `base`. */
  predicate Selects(where: Cond, base: seq<Value>, t: Tagged) {
    |base| == Holes(where) && Holds(where, t, base)
  }

  function Selected(where: Cond, base: seq<Value>): Tagged -> bool {
    t => Selects(where, base, t)
  }

  function Targeted(where: Cond, base: seq<Value>, targets: Targets): Tagged -> bool {
    t => Selects(where, base, t) && targets.Uses(t.side)
  }

  /** Bound to the parameters of `QueryParams`, in number and in order, the query yields the rows of the logical
      table on the targeted sides that `where` selects. */
  predicate ReadsLogicalTable(q: Query, where: Cond, targets: Targets, db: Db, base: seq<Value>) {
    var ps := QueryParams(base, targets, db.archive.Some?);
    && |ps| == QueryHoles(q)
    && Eval(q, db, ps) == Filter(Targeted(where, base, targets), Logical(db))
  }

  lemma SideTestIsOwnership(t: Tagged)
    ensures Holds(SideTest(t.side), t, [Text(CUTOFF)]) <==> Owned(t)
  {
    if t.row.date.Some? {
      TextOrder.Trichotomy(t.row.date.value, CUTOFF);
    }
  }

  lemma BranchSelects(where: Cond, base: seq<Value>, t: Tagged)
    requires |base| == Holes(where)
    ensures Holds(And(where, SideTest(t.side)), t, base + [Text(CUTOFF)]) <==> Selects(where, base, t) && Owned(t)
  {
    var ps := base + [Text(CUTOFF)];
    assert ps[..Holes(where)] == base && ps[Holes(where)..] == [Text(CUTOFF)];
    SideTestIsOwnership(t);
  }

  lemma BranchReads(side: Side, where: Cond, db: Db, base: seq<Value>)
    requires |base| == Holes(where)
    ensures Eval(Branch(side, where), db, base + [Text(CUTOFF)]) == Filter(Selected(where, base), Part(db, side))
  {
    TableSide(db, side);
    var p := Satisfies(Branch(side, where).cond, base + [Text(CUTOFF)]);
    forall t | t in TableOf(db, side) ensures p(t) <==> Selected(where, base)(t) && Owned(t) {
      BranchSelects(where, base, t);
    }
    FilterTwice(Selected(where, base), Owned, p, TableOf(db, side));
  }

  lemma PartSide(db: Db, side: Side)
    ensures forall t :: t in Part(db, side) ==> t.side == side && Owned(t)
  {
    TableSide(db, side);
    forall t | t in Part(db, side) { FilterIn(Owned, TableOf(db, side), t); }
  }

  lemma TargetedPart(where: Cond, targets: Targets, db: Db, base: seq<Value>, side: Side)
    ensures Filter(Targeted(where, base, targets), Part(db, side))
         == if targets.Uses(side) then Filter(Selected(where, base), Part(db, side)) else []
  {
    PartSide(db, side);
    var p := Targeted(where, base, targets);
    if targets.Uses(side) {
      FilterSame(p, Selected(where, base), Part(db, side));
    } else {
      FilterNone(p, Part(db, side));
    }
  }

  function UnionBody(where: Cond, targets: Targets, archiveExists: bool): Query {
    if targets.useArchive && archiveExists then
      if targets.useLive then UnionAll(Branch(Archive, where), Branch(Live, where)) else Branch(Archive, where)
    else if targets.useLive then Branch(Live, where)
    else Scan(Live, Never)
  }

  lemma UnionReads(where: Cond, targets: Targets, db: Db, base: seq<Value>)
    requires |base| == Holes(where)
    ensures ReadsLogicalTable(UnionBody(where, targets, db.archive.Some?), where, targets, db, base)
  {
    var p := Targeted(where, base, targets);
    FilterConcat(p, Part(db, Archive), Part(db, Live));
    TargetedPart(where, targets, db, base, Archive);
    TargetedPart(where, targets, db, base, Live);
    BranchReads(Archive, where, db, base);
    BranchReads(Live, where, db, base);
    var one := base + [Text(CUTOFF)];
    assert (one + one)[..|one|] == one && (one + one)[|one|..] == one;
    assert one + [] == one && [] + one == one;
    FilterNone(Satisfies(Never, []), TableOf(db, Live));
  }

  method BuildUnionSql(where: Cond, targets: Targets, archiveExists: bool, limit: Option<int>)
    returns (stmt: Statement, paramsDoubled: bool)
    ensures stmt.limit == limit && stmt.offset == None
    ensures forall db: Db, base :: db.archive.Some? == archiveExists && |base| == Holes(where) ==>
      ReadsLogicalTable(stmt.body, where, targets, db, base)
    ensures forall base: seq<Value> ::
      |QueryParams(base, targets, archiveExists)| == 2 * (|base| + 1) <==> paramsDoubled
  {
    var parts: seq<Query> := [];
    paramsDoubled := false;
    if targets.useArchive && archiveExists {
      parts := parts + [Branch(Archive, where)];
    }
    if targets.useLive {
      parts := parts + [Branch(Live, where)];
    }
    var final;
    if |parts| == 2 {
      final := UnionAll(parts[0], parts[1]);
      paramsDoubled := true;
    } else if |parts| == 1 {
      final := parts[0];
    } else {
      final := Scan(Live, Never);
    }
    forall db: Db, base | db.archive.Some? == archiveExists && |base| == Holes(where)
      ensures ReadsLogicalTable(final, where, targets, db, base)
    {
      UnionReads(where, targets, db, base);
    }
    stmt := Statement(final, limit, None);
  }

  predicate DistinctIds(rows: seq<Row>) {
    forall i, j :: 0 <= i < j < |rows| ==> rows[i].id != rows[j].id
  }

  /** Distinct ids in each database give distinct sort keys in the logical table. */
  predicate UniqueIds(db: Db) {
    (db.archive.Some? ==> DistinctIds(db.archive.value)) && DistinctIds(db.live)
  }

  lemma LogicalHasDistinctKeys(db: Db)
    requires UniqueIds(db)
    ensures Ordering.DistinctKeys(Logical(db))
  {
    if db.archive.Some? { TagSide(Archive, db.archive.value); }
    TagSide(Live, db.live);
    Ordering.FilterKeepsDistinct(Owned, TableOf(db, Archive));
    Ordering.FilterKeepsDistinct(Owned, TableOf(db, Live));
    PartSide(db, Archive);
    PartSide(db, Live);
    var a, l := Part(db, Archive), Part(db, Live);
    forall i, j | 0 <= i < j < |a + l| ensures !Ordering.SameKey((a + l)[i], (a + l)[j]) {
      if i < |a| <= j { assert (a + l)[i] in a && (a + l)[j] in l; }
    }
  }
}
