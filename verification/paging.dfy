/** The /records endpoint: what one page holds, and what following `next_cursor` yields. */
module Paging {
  import opened Options
  import opened Sql
  import opened Router
  import opened Ordering
  import opened Records
  import opened HttpDates
  import TextOrder
  import Timestamps

  ghost function WantedRows(f: Filters, dateFrom: Option<string>, dateTo: Option<string>): Tagged -> bool {
    (t: Tagged) => Wanted(f, dateFrom, dateTo, t)
  }

  function AfterCursor(c: Cursor): Tagged -> bool {
    t => IsAfter(c, t)
  }

  /** The full result: every wanted row of the logical table, newest first. */
  ghost function AllMatches(db: Db, f: Filters, dateFrom: Option<string>, dateTo: Option<string>): seq<Tagged> {
    SortDesc(Filter(WantedRows(f, dateFrom, dateTo), Logical(db)))
  }

  /** What is left of the full result where this request starts. A malformed cursor counts as none;
      the offset only counts without a cursor. */
  function Remaining(all: seq<Tagged>, f: Filters): seq<Tagged> {
    match Decoded(f)
    case None => Drop(all, f.offset)
    case Some(c) => Filter(AfterCursor(c), all)
  }

  function PageOf(all: seq<Tagged>, f: Filters): Page
    requires f.limit >= 1
  {
    var rest := Remaining(all, f);
    if |rest| <= f.limit then Page(rest, None, false, |rest|)
    else
      var last := rest[f.limit - 1];
      Page(rest[..f.limit], Some(EncodeCursor(DateText(last), last.row.id, SideName(last.side))), true, f.limit)
  }

  /** The page query raises: an integer that is bound, while any database is queried, or its LIMIT or OFFSET does not
      fit into 64 bits. */
  predicate OutOfRange(f: Filters, queried: bool) {
    || (queried && !IntegersFit(f, Decoded(f)))
    || !Int64(f.limit + 1)
    || (Decoded(f).None? && f.offset > 0 && !Int64(f.offset))
  }

  predicate QueriesAny(db: Db, from: Option<string>, to: Option<string>) {
    Queried(PickTargets(from, to), db.archive.Some?)
  }

  /** Sorting what the query selects is selecting, from the sorted full result, what lies after the cursor. */
  lemma QueryYieldsRemaining(db: Db, f: Filters, from: Option<string>, to: Option<string>,
                             where: seq<Cond>, params: seq<Value>)
    requires UniqueIds(db) && to != Some("")
    requires Means(where, params, Requested(f, from, to, Decoded(f)))
    ensures var found := SortDesc(Filter(Targeted(JoinAnd(where), params, PickTargets(from, to)), Logical(db)));
            var all := AllMatches(db, f, from, to);
            found == if Decoded(f).None? then all else Filter(AfterCursor(Decoded(f).value), all)
  {
    var c := Decoded(f);
    var wanted := WantedRows(f, from, to);
    var targeted := Targeted(JoinAnd(where), params, PickTargets(from, to));
    PartSide(db, Archive);
    PartSide(db, Live);
    forall t | t in Logical(db) ensures targeted(t) <==> wanted(t) && (c.Some? ==> IsAfter(c.value, t)) {
      assert Selects(JoinAnd(where), params, t) <==> Requested(f, from, to, c)(t);
      if wanted(t) { SkippedSideHoldsNoMatch(from, to, t); }
    }
    if c.None? {
      FilterSame(targeted, wanted, Logical(db));
    } else {
      FilterTwice(AfterCursor(c.value), wanted, targeted, Logical(db));
      LogicalHasDistinctKeys(db);
      FilterKeepsDistinct(wanted, Logical(db));
      FilterThenSort(AfterCursor(c.value), Filter(wanted, Logical(db)));
    }
  }

  lemma RowsServed(db: Db, f: Filters, from: Option<string>, to: Option<string>,
                   where: seq<Cond>, params: seq<Value>, stmt: Statement)
    requires UniqueIds(db) && to != Some("") && f.limit >= 1
    requires Means(where, params, Requested(f, from, to, Decoded(f)))
    requires ReadsLogicalTable(stmt.body, JoinAnd(where), PickTargets(from, to), db, params)
    requires stmt.limit == Some(f.limit + 1)
    requires stmt.offset == if Decoded(f).None? && f.offset > 0 then Some(f.offset) else None
    ensures Rows(stmt, db, QueryParams(params, PickTargets(from, to), db.archive.Some?))
         == Take(Remaining(AllMatches(db, f, from, to), f), f.limit + 1)
  {
    QueryYieldsRemaining(db, f, from, to, where, params);
  }

  /** Builds and runs the page query: one row more than the page holds. */
  method SelectRows(db: Db, f: Filters, from: Option<string>, to: Option<string>) returns (rows: Option<seq<Tagged>>)
    requires UniqueIds(db) && to != Some("") && f.limit >= 1 && f.offset >= 0
    ensures rows.None? <==> OutOfRange(f, QueriesAny(db, from, to))
    ensures rows.Some? ==> rows.value == Take(Remaining(AllMatches(db, f, from, to), f), f.limit + 1)
  {
    var targets := PickTargets(from, to);
    var cursor := Decoded(f);
    var where, params := BuildRecordsFilters(f, from, to, cursor);
    var stmt, _ := BuildUnionSql(JoinAnd(where), targets, db.archive.Some?, Some(f.limit + 1));
    if cursor.None? && f.offset > 0 {
      stmt := stmt.(offset := Some(f.offset));
    }
    var ps := BuildQueryParams(params, targets, db.archive.Some?);
    assert ReadsLogicalTable(stmt.body, JoinAnd(where), targets, db, params);
    RowsServed(db, f, from, to, where, params, stmt);
    QueryParamsBindable(params, targets, db.archive.Some?);
    rows := RunQuery(stmt, db, ps);
  }

  /** The extra row tells whether there is a next page, and is not part of this one. */
  function PageFrom(rows: seq<Tagged>, limit: nat): Page {
    var hasMore := |rows| > limit;
    var results := Take(rows, limit);
    var nextCursor :=
      if hasMore && results != [] then
        var last := results[|results| - 1];
        Some(EncodeCursor(DateText(last), last.row.id, SideName(last.side)))
      else None;
    Page(results, nextCursor, hasMore, |results|)
  }

  lemma PageFromRemaining(all: seq<Tagged>, f: Filters)
    requires f.limit >= 1
    ensures PageFrom(Take(Remaining(all, f), f.limit + 1), f.limit) == PageOf(all, f)
  {
    var rest := Remaining(all, f);
    if |rest| > f.limit {
      assert rest[..f.limit + 1][..f.limit] == rest[..f.limit];
    }
  }

  // ----- what the client asked for -----

  /** The rows the request asks for, in calendar days, cursor and paging aside. */
  ghost function AskedRows(f: Filters, dateFrom: Option<Timestamps.Date>, dateTo: Option<Timestamps.Date>)
    : Tagged -> bool
    requires ValidDay(dateFrom)
  {
    (t: Tagged) => Matches(f, t) && OnDays(dateFrom, dateTo, t.row.date)
  }

  /** All of them, newest first. */
  ghost function FullResult(db: Db, f: Filters, dateFrom: Option<Timestamps.Date>, dateTo: Option<Timestamps.Date>)
    : seq<Tagged>
    requires ValidDay(dateFrom)
  {
    SortDesc(Filter(AskedRows(f, dateFrom, dateTo), Logical(db)))
  }

  lemma FullResultIs(db: Db, f: Filters, dateFrom: Option<Timestamps.Date>, dateTo: Option<Timestamps.Date>)
    requires ValidDay(dateFrom) && ValidDay(dateTo) && dateTo != Some(LAST_DAY)
    ensures FullResult(db, f, dateFrom, dateTo) == AllMatches(db, f, FromText(dateFrom), ToText(dateTo))
  {
    var asked, wanted := AskedRows(f, dateFrom, dateTo), WantedRows(f, FromText(dateFrom), ToText(dateTo));
    forall t | t in Logical(db) ensures asked(t) == wanted(t) { RangeIsDays(dateFrom, dateTo, t); }
    FilterSame(asked, wanted, Logical(db));
  }

  /** `page` holds the first `limit` of the rows that are left, all of them when there are no more, and says which. */
  predicate Serves(page: Page, rest: seq<Tagged>, limit: int) {
    && page.data <= rest && page.count == |page.data| <= limit
    && (page.count == limit || page.data == rest)
    && (page.hasMore <==> page.data != rest)
    && (page.nextCursor.Some? <==> page.hasMore)
  }

  lemma PageServes(all: seq<Tagged>, f: Filters)
    requires f.limit >= 1
    ensures Serves(PageOf(all, f), Remaining(all, f), f.limit)
  {}

  /** The days asked for reach into the live database, or begin before it and there is an archive. */
  predicate QueriesDays(db: Db, dateFrom: Option<Timestamps.Date>, dateTo: Option<Timestamps.Date>) {
    || dateTo.None? || !Timestamps.Before(dateTo.value, Timestamps.Date(2025, 12, 31))
    || (db.archive.Some? && (dateFrom.None? || Timestamps.Before(dateFrom.value, Timestamps.Date(2026, 1, 1))))
  }

  lemma QueriedIsQueriesDays(db: Db, dateFrom: Option<Timestamps.Date>, dateTo: Option<Timestamps.Date>)
    requires ValidDay(dateFrom) && ValidDay(dateTo) && dateTo != Some(LAST_DAY)
    ensures QueriesAny(db, FromText(dateFrom), ToText(dateTo)) <==> QueriesDays(db, dateFrom, dateTo)
  {
    var c, last := Timestamps.Date(2026, 1, 1), Timestamps.Date(2025, 12, 31);
    CutoffDay();
    if dateFrom.Some? { Timestamps.IsoDateOrder(dateFrom.value, c); }
    if dateTo.Some? {
      Timestamps.NextDayIsNext(dateTo.value, last);
      Timestamps.IsoDateOrder(Timestamps.NextDay(dateTo.value), c);
      TextOrder.Trichotomy(ToText(dateTo).value, CUTOFF);
    }
  }

  /** Serves one page. The dates are the parsed query parameters. */
  method GetRecords(db: Db, f: Filters, dateFrom: Option<Timestamps.Date>, dateTo: Option<Timestamps.Date>)
    returns (r: Result<Page, HttpError>)
    requires UniqueIds(db) && f.limit >= 1 && f.offset >= 0
    requires ValidDay(dateFrom) && ValidDay(dateTo)
    ensures r == Err(BadRequest) <==> dateTo != Some(LAST_DAY) && Reversed(dateFrom, dateTo)
    ensures r == Err(ServerError) <==> dateTo == Some(LAST_DAY)
                                       || (!Reversed(dateFrom, dateTo)
                                           && OutOfRange(f, QueriesDays(db, dateFrom, dateTo)))
    ensures r.Ok? ==> r.value == PageOf(FullResult(db, f, dateFrom, dateTo), f)
    ensures r.Ok? ==> Serves(r.value, Remaining(FullResult(db, f, dateFrom, dateTo), f), f.limit)
  {
    if dateTo == Some(LAST_DAY) {
      return Err(ServerError);
    }
    var from, to := FromText(dateFrom), ToText(dateTo);
    if dateFrom.Some? && dateTo.Some? && Timestamps.Before(dateTo.value, dateFrom.value) {
      return Err(BadRequest);
    }
    BoundsAreNotEmpty(dateFrom, dateTo);
    QueriedIsQueriesDays(db, dateFrom, dateTo);
    var rows := SelectRows(db, f, from, to);
    if rows.None? {
      return Err(ServerError);
    }
    r := Ok(PageFrom(rows.value, f.limit));
    FullResultIs(db, f, dateFrom, dateTo);
    PageFromRemaining(AllMatches(db, f, from, to), f);
    PageServes(AllMatches(db, f, from, to), f);
  }

  predicate Listing(all: seq<Tagged>) {
    Ordered(all) && forall t :: t in all ==> t.row.date.Some?
  }

  /** Later dates first; on one date the live rows before the archived ones, each by descending id. */
  predicate NewestFirst(a: Tagged, b: Tagged) {
    && !TextOrder.Less(DateText(a), DateText(b))
    && (a.row.date == b.row.date ==>
          (a.side == Live || b.side == Archive) && (a.side == b.side ==> a.row.id > b.row.id))
  }

  lemma PrecedesIsNewestFirst(a: Tagged, b: Tagged)
    requires Precedes(a, b)
    ensures NewestFirst(a, b)
  {
    TextOrder.Trichotomy(DateText(a), DateText(b));
    TextOrder.Trichotomy(DateText(b), DateText(a));
    Sides();
  }

  lemma AllMatchesOrdered(db: Db, f: Filters, from: Option<string>, to: Option<string>)
    requires UniqueIds(db)
    ensures Listing(AllMatches(db, f, from, to))
    ensures var all := AllMatches(db, f, from, to); forall i, j :: 0 <= i < j < |all| ==> NewestFirst(all[i], all[j])
  {
    var wanted := WantedRows(f, from, to);
    var rows := Filter(wanted, Logical(db));
    LogicalHasDistinctKeys(db);
    FilterKeepsDistinct(wanted, Logical(db));
    SortSorts(rows);
    PartSide(db, Archive);
    PartSide(db, Live);
    forall t | t in SortDesc(rows) ensures t.row.date.Some? {
      assert t in multiset(SortDesc(rows));
      FilterIn(wanted, Logical(db), t);
    }
    var all := AllMatches(db, f, from, to);
    forall i, j | 0 <= i < j < |all| ensures NewestFirst(all[i], all[j]) { PrecedesIsNewestFirst(all[i], all[j]); }
  }

  // ----- following next_cursor -----

  lemma AfterIsPrecedes(a: Tagged, t: Tagged)
    requires t.row.date.Some?
    ensures IsAfter(CursorOf(a), t) <==> Precedes(a, t)
  {
    assert SideName(t.side) == SideName(a.side) <==> t.side == a.side;
  }

  /** The rows after the k-th row of an ordered listing are its tail. */
  lemma {:induction false} TailAfter(all: seq<Tagged>, k: nat)
    requires Listing(all) && k < |all|
    ensures Filter(AfterCursor(CursorOf(all[k])), all) == all[k + 1..]
  {
    var keep := AfterCursor(CursorOf(all[k]));
    forall i | 0 <= i < |all| ensures keep(all[i]) <==> i > k {
      AfterIsPrecedes(all[k], all[i]);
      PrecedesIrreflexive(all[k]);
      if i < k && Precedes(all[k], all[i]) { PrecedesTransitive(all[i], all[k], all[i]); PrecedesIrreflexive(all[i]); }
    }
    assert all == all[..k + 1] + all[k + 1..];
    FilterConcat(keep, all[..k + 1], all[k + 1..]);
    FilterNone(keep, all[..k + 1]);
    FilterAll(keep, all[k + 1..]);
  }

  lemma RemainingIn(all: seq<Tagged>, f: Filters, t: Tagged)
    requires t in Remaining(all, f)
    ensures t in all
  {
    if Decoded(f).Some? { FilterIn(AfterCursor(Decoded(f).value), all, t); }
  }

  lemma NextCursorDecodes(all: seq<Tagged>, f: Filters)
    requires f.limit >= 1 && PageOf(all, f).hasMore
    ensures |Remaining(all, f)| > f.limit
    ensures Decoded(f.(cursor := PageOf(all, f).nextCursor)) == Some(CursorOf(Remaining(all, f)[f.limit - 1]))
  {
    CursorRoundTrip(Remaining(all, f)[f.limit - 1]);
  }

  /** When all ids fit, a walk that starts in range stays in range. */
  lemma NextCursorIsInRange(db: Db, f: Filters, from: Option<string>, to: Option<string>)
    requires f.limit >= 1 && PageOf(AllMatches(db, f, from, to), f).hasMore && !OutOfRange(f, QueriesAny(db, from, to))
    requires forall t :: t in Logical(db) ==> Int64(t.row.id)
    ensures !OutOfRange(f.(cursor := PageOf(AllMatches(db, f, from, to), f).nextCursor), QueriesAny(db, from, to))
  {
    var all := AllMatches(db, f, from, to);
    var last := Remaining(all, f)[f.limit - 1];
    NextCursorDecodes(all, f);
    RemainingIn(all, f, last);
    SortSorts(Filter(WantedRows(f, from, to), Logical(db)));
    assert last in multiset(all);
    FilterIn(WantedRows(f, from, to), Logical(db), last);
  }

  lemma AfterTransitive(c: Cursor, a: Tagged, b: Tagged)
    requires IsAfter(c, a) && Precedes(a, b) && b.row.date.Some?
    ensures IsAfter(c, b)
  {
    if TextOrder.Less(DateText(b), DateText(a)) && TextOrder.Less(DateText(a), c.date) {
      TextOrder.Transitive(DateText(b), DateText(a), c.date);
    }
    if TextOrder.Less(SideName(b.side), SideName(a.side)) && TextOrder.Less(SideName(a.side), c.source) {
      TextOrder.Transitive(SideName(b.side), SideName(a.side), c.source);
    }
  }

  /** What a request leaves is a tail of the full listing, wherever its cursor points. */
  lemma {:induction false} CursorLeavesTail(c: Cursor, all: seq<Tagged>) returns (k: nat)
    requires Listing(all)
    ensures k <= |all| && Filter(AfterCursor(c), all) == all[k..]
  {
    if all == [] {
      k := 0;
    } else if IsAfter(c, all[0]) {
      forall t | t in all[1..] ensures IsAfter(c, t) {
        assert Precedes(all[0], t);
        var a := Tagged(all[0].side, all[0].row);
        AfterTransitive(c, all[0], t);
      }
      FilterAll(AfterCursor(c), all);
      k := 0;
    } else {
      var j := CursorLeavesTail(c, all[1..]);
      k := j + 1;
      assert all[1..][j..] == all[k..];
    }
  }

  /** What is left when the cursor is the `n`-th row. */
  lemma RemainingAfter(all: seq<Tagged>, f: Filters, n: nat)
    requires Listing(all) && 1 <= n <= |all| && Decoded(f) == Some(CursorOf(all[n - 1]))
    ensures Remaining(all, f) == all[n..]
  {
    TailAfter(all, n - 1);
  }

  lemma TailOfTail<T>(s: seq<T>, rest: seq<T>, k: nat, m: nat)
    requires k <= |s| && rest == s[k..] && 1 <= m <= |rest|
    ensures rest[m..] == s[k + m..] && rest[m - 1] == s[k + m - 1]
  {}

  lemma RemainingIsTail(all: seq<Tagged>, f: Filters) returns (k: nat)
    requires Listing(all)
    ensures k <= |all| && Remaining(all, f) == all[k..]
  {
    match Decoded(f)
    case None => k := if f.offset <= 0 then 0 else if f.offset <= |all| then f.offset else |all|;
    case Some(c) => k := CursorLeavesTail(c, all);
  }

  /** The next page starts where this one ended: no row is repeated, none is missed. */
  lemma NextPageContinues(all: seq<Tagged>, f: Filters)
    requires Listing(all) && f.limit >= 1 && PageOf(all, f).hasMore
    ensures Remaining(all, f.(cursor := PageOf(all, f).nextCursor)) == Remaining(all, f)[f.limit..]
  {
    var k := RemainingIsTail(all, f);
    NextCursorDecodes(all, f);
    TailOfTail(all, Remaining(all, f), k, f.limit);
    RemainingAfter(all, f.(cursor := PageOf(all, f).nextCursor), k + f.limit);
  }

  /** All pages a client sees that follows `next_cursor` until `has_more` is false. */
  ghost function Walk(all: seq<Tagged>, f: Filters): seq<Page>
    requires Listing(all) && f.limit >= 1
    decreases |Remaining(all, f)|
  {
    var page := PageOf(all, f);
    if !page.hasMore then [page]
    else
      NextPageContinues(all, f);
      [page] + Walk(all, f.(cursor := page.nextCursor))
  }

  function AllData(pages: seq<Page>): seq<Tagged> {
    if pages == [] then [] else pages[0].data + AllData(pages[1..])
  }

  lemma AllDataSteps(page: Page, pages: seq<Page>)
    ensures AllData([page] + pages) == page.data + AllData(pages)
  {
    assert ([page] + pages)[1..] == pages;
  }

  /** The shape of a finished walk over `rows` in pages of `limit`. */
  ghost predicate Covers(pages: seq<Page>, rows: seq<Tagged>, limit: nat) {
    && AllData(pages) == rows
    && pages != [] && !pages[|pages| - 1].hasMore
    && (forall i :: 0 <= i < |pages| - 1 ==> |pages[i].data| == limit && pages[i].hasMore)
  }

  lemma CoversMore(page: Page, pages: seq<Page>, rows: seq<Tagged>, limit: nat)
    requires limit <= |rows| && page.data == rows[..limit] && page.hasMore && Covers(pages, rows[limit..], limit)
    ensures Covers([page] + pages, rows, limit)
  {
    AllDataSteps(page, pages);
    assert rows == rows[..limit] + rows[limit..];
    var more := [page] + pages;
    assert more[|more| - 1] == pages[|pages| - 1];
    forall i | 0 <= i < |more| - 1 ensures |more[i].data| == limit && more[i].hasMore {
      assert more[i] == if i == 0 then page else pages[i - 1];
    }
  }

  lemma OneMore(k: nat, d: nat)
    ensures (k + 1) * d == k * d + d
  {}

  /** The walk ends, and lists each remaining row exactly once and in order; every page but the last is full. */
  lemma {:induction false} WalkListsEverything(all: seq<Tagged>, f: Filters)
    requires Listing(all) && f.limit >= 1
    ensures Covers(Walk(all, f), Remaining(all, f), f.limit)
    ensures (|Walk(all, f)| - 1) * f.limit <= |Remaining(all, f)|
    decreases |Remaining(all, f)|
  {
    var page := PageOf(all, f);
    if page.hasMore {
      var g := f.(cursor := page.nextCursor);
      NextPageContinues(all, f);
      WalkListsEverything(all, g);
      CoversMore(page, Walk(all, g), Remaining(all, f), f.limit);
      OneMore(|Walk(all, g)| - 1, f.limit);
    } else {
      AllDataSteps(page, []);
    }
  }

  /** From the first page on, the pages together are the full sorted result of the filter. */
  lemma FollowingCursorsYieldsTheFullResult(db: Db, f: Filters, from: Option<string>, to: Option<string>)
    requires UniqueIds(db) && f.limit >= 1 && f.offset == 0 && f.cursor == None
    ensures var all := AllMatches(db, f, from, to);
      Listing(all) && AllData(Walk(all, f)) == all
      && multiset(all) == multiset(Filter(WantedRows(f, from, to), Logical(db)))
  {
    AllMatchesOrdered(db, f, from, to);
    WalkListsEverything(AllMatches(db, f, from, to), f);
    SortSorts(Filter(WantedRows(f, from, to), Logical(db)));
  }
}
