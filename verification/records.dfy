/** GET /records (api/routers/records.py): filters, cursor, one page, and the walk over all pages. */
module Records {
  import opened Options
  import opened Sql
  import opened Router
  import opened Ordering
  import opened HttpDates
  import TextOrder
  import Timestamps
  import Like

  /** What json.loads can return. */
  datatype Json = JNull | JBool(b: bool) | JInt(n: int) | JReal(x: real) | JStr(s: string)
                | JList(items: seq<Json>) | JObj(fields: map<string, Json>)

  datatype Cursor = Cursor(date: string, source: string, id: int)

  datatype Filters = Filters(itemCode: Option<string>, q: Option<string>, lotNumber: Option<string>,
                             minQuantity: Option<int>, maxQuantity: Option<int>,
                             limit: int, offset: int, cursor: Option<Json>)

  datatype Page = Page(data: seq<Tagged>, nextCursor: Option<Json>, hasMore: bool, count: nat)

  datatype HttpError = BadRequest | ServerError

  // ----- cursor -----

  function EncodeCursor(date: string, id: int, source: string): Json {
    JObj(map["d" := JStr(date), "id" := JInt(id), "src" := JStr(source)])
  }

  /** The shape check; a bool passes Python's isinstance(..., int). */
  function DecodeCursor(j: Json): Option<Cursor> {
    if !j.JObj? then None
    else if !("d" in j.fields && j.fields["d"].JStr?) then None
    else if !("src" in j.fields && j.fields["src"].JStr?) then None
    else if !("id" in j.fields && (j.fields["id"].JInt? || j.fields["id"].JBool?)) then None
    else
      var id := j.fields["id"];
      Some(Cursor(j.fields["d"].s, j.fields["src"].s, if id.JInt? then id.n else if id.b then 1 else 0))
  }

  predicate HasText(j: Json, name: string) {
    j.JObj? && name in j.fields && j.fields[name].JStr?
  }

  /** A cursor is taken exactly when it is an object with a text date, a text source, and an integer id; Python counts
      true and false as the integers 1 and 0. Anything else is no cursor. */
  lemma CursorShape(j: Json, c: Cursor)
    ensures DecodeCursor(j) == Some(c) <==>
      && HasText(j, "d") && j.fields["d"].s == c.date && HasText(j, "src") && j.fields["src"].s == c.source
      && "id" in j.fields
      && (j.fields["id"] == JInt(c.id) || (c.id == 1 && j.fields["id"] == JBool(true))
          || (c.id == 0 && j.fields["id"] == JBool(false)))
  {}

  function Decoded(f: Filters): Option<Cursor> {
    if f.cursor.None? then None else DecodeCursor(f.cursor.value)
  }

  /** The row comes after the cursor in the listing order. */
  predicate IsAfter(c: Cursor, t: Tagged) {
    && t.row.date.Some?
    && (|| TextOrder.Less(t.row.date.value, c.date)
        || (t.row.date.value == c.date
            && (TextOrder.Less(SideName(t.side), c.source) || (SideName(t.side) == c.source && t.row.id < c.id))))
  }

  function CursorOf(t: Tagged): Cursor {
    Cursor(DateText(t), SideName(t.side), t.row.id)
  }

  lemma CursorRoundTrip(t: Tagged)
    ensures DecodeCursor(EncodeCursor(DateText(t), t.row.id, SideName(t.side))) == Some(CursorOf(t))
    ensures CursorOf(t) == Cursor(DateText(t), if t.side == Live then "live" else "archive", t.row.id)
  {}

  // ----- filters -----

  /** Python truthiness of an optional text. */
  predicate Given(o: Option<string>) {
    o.Some? && o.value != ""
  }

  predicate Mentions(q: string, field: Option<string>) {
    field.Some? && Like.Occurs(q, field.value)
  }

  /** What the request asks for, the dates and the cursor aside. */
  predicate Matches(f: Filters, t: Tagged) {
    && (Given(f.itemCode) ==> t.row.code == f.itemCode)
    && (Given(f.q) ==>
          Mentions(f.q.value, t.row.code) || Mentions(f.q.value, t.row.name) || Mentions(f.q.value, t.row.lot))
    && (Given(f.lotNumber) ==> t.row.lot.Some? && Like.StartsWith(f.lotNumber.value, t.row.lot.value))
    && (f.minQuantity.Some? ==> t.row.qty.Some? && f.minQuantity.value <= t.row.qty.value)
    && (f.maxQuantity.Some? ==> t.row.qty.Some? && t.row.qty.value <= f.maxQuantity.value)
  }

  /** The same with the range of dates. */
  predicate Wanted(f: Filters, dateFrom: Option<string>, dateTo: Option<string>, t: Tagged) {
    Matches(f, t) && InRange(dateFrom, dateTo, t)
  }

  /** The text bounds stand for the days. */
  lemma RangeIsDays(dateFrom: Option<Timestamps.Date>, dateTo: Option<Timestamps.Date>, t: Tagged)
    requires ValidDay(dateFrom) && ValidDay(dateTo) && dateTo != Some(LAST_DAY)
    ensures InRange(FromText(dateFrom), ToText(dateTo), t) <==> OnDays(dateFrom, dateTo, t.row.date)
  {
    BoundsAreNotEmpty(dateFrom, dateTo);
    if dateTo.Some? && t.row.date.Some? { UpToIsBeforeNext(dateTo.value, t.row.date.value); }
  }

  /** " AND ".join(where) if where else "1=1" */
  function JoinAnd(where: seq<Cond>): Cond {
    if where == [] then Always
    else if |where| == 1 then where[0]
    else And(JoinAnd(where[..|where| - 1]), where[|where| - 1])
  }

  /** Every integer the filters bind fits into 64 bits. */
  predicate IntegersFit(f: Filters, cursor: Option<Cursor>) {
    && (f.minQuantity.Some? ==> Int64(f.minQuantity.value))
    && (f.maxQuantity.Some? ==> Int64(f.maxQuantity.value))
    && (cursor.Some? ==> Int64(cursor.value.id))
  }

  /** The clauses, bound to the parameters, select exactly the rows of which `p` is true. */
  ghost predicate Means(where: seq<Cond>, params: seq<Value>, p: Tagged -> bool) {
    && |params| == Holes(JoinAnd(where))
    && forall t :: Selects(JoinAnd(where), params, t) <==> p(t)
  }

  ghost function Both(p: Tagged -> bool, q: Tagged -> bool): Tagged -> bool {
    t => p(t) && q(t)
  }

  /** One clause, bound to its own parameters. */
  ghost predicate Says(c: Cond, ps: seq<Value>, q: Tagged -> bool) {
    |ps| == Holes(c) && forall t :: Holds(c, t, ps) <==> q(t)
  }

  lemma AddClause(where: seq<Cond>, params: seq<Value>, p: Tagged -> bool, c: Cond, ps: seq<Value>, q: Tagged -> bool)
    requires Means(where, params, p) && Says(c, ps, q)
    ensures Means(where + [c], params + ps, Both(p, q))
  {
    assert (params + ps)[..|params|] == params && (params + ps)[|params|..] == ps;
    if where == [] {
      assert where + [c] == [c] && params + ps == ps;
      forall t ensures Selects(JoinAnd([c]), ps, t) <==> Both(p, q)(t) {
        assert Selects(JoinAnd(where), params, t);
      }
    } else {
      assert (where + [c])[..|where|] == where;
      assert JoinAnd(where + [c]) == And(JoinAnd(where), c);
    }
  }

  ghost predicate Fits(ps: seq<Value>, fits: bool) {
    Bindable(ps) <==> fits
  }

  /** The clauses so far, and whether every integer bound so far fits. */
  ghost predicate Built(where: seq<Cond>, params: seq<Value>, p: Tagged -> bool, fits: bool) {
    Means(where, params, p) && Fits(params, fits)
  }

  lemma AddBuilt(where: seq<Cond>, params: seq<Value>, p: Tagged -> bool, fits: bool,
                 c: Cond, ps: seq<Value>, q: Tagged -> bool, more: bool)
    requires Built(where, params, p, fits) && Says(c, ps, q) && Fits(ps, more)
    ensures Built(where + [c], params + ps, Both(p, q), fits && more)
  {
    AddClause(where, params, p, c, ps, q);
    BindableParts(params, ps);
  }

  ghost predicate Everything(q: Tagged -> bool) {
    forall t :: q(t)
  }

  lemma SkipClause(where: seq<Cond>, params: seq<Value>, p: Tagged -> bool, q: Tagged -> bool)
    requires Means(where, params, p) && Everything(q)
    ensures Means(where, params, Both(p, q))
  {}

  lemma SkipBuilt(where: seq<Cond>, params: seq<Value>, p: Tagged -> bool, fits: bool, q: Tagged -> bool)
    requires Built(where, params, p, fits) && Everything(q)
    ensures Built(where, params, Both(p, q), fits)
  {
    SkipClause(where, params, p, q);
  }

  const SEARCH_CLAUSE: Cond := Or(Or(LikeEscaped(ItemCode), LikeEscaped(ItemName)), LikeEscaped(LotNumber))

  lemma SearchFinds(q: string, t: Tagged)
    ensures var like := Text("%" + Like.EscapeWildcards(q) + "%");
            Holds(SEARCH_CLAUSE, t, [like, like, like])
            <==> Mentions(q, t.row.code) || Mentions(q, t.row.name) || Mentions(q, t.row.lot)
  {
    var like := Text("%" + Like.EscapeWildcards(q) + "%");
    assert [like, like, like] == ([like] + [like]) + [like];
    HoldsParts(LikeEscaped(ItemCode), LikeEscaped(ItemName), t, [like], [like]);
    HoldsParts(Or(LikeEscaped(ItemCode), LikeEscaped(ItemName)), LikeEscaped(LotNumber), t, [like] + [like], [like]);
    if t.row.code.Some? { Like.SubstringSearch(q, t.row.code.value); }
    if t.row.name.Some? { Like.SubstringSearch(q, t.row.name.value); }
    if t.row.lot.Some? { Like.SubstringSearch(q, t.row.lot.value); }
  }

  const SAME_DATE_EARLIER_SOURCE: Cond := And(Compare(ProductionDate, Eq), Compare(Source, Lt))
  const SAME_DATE_AND_SOURCE: Cond := And(Compare(ProductionDate, Eq), Compare(Source, Eq))

  const CURSOR_CLAUSE: Cond :=
    Or(Or(Compare(ProductionDate, Lt), SAME_DATE_EARLIER_SOURCE), And(SAME_DATE_AND_SOURCE, Compare(Id, Lt)))

  lemma SameDateClauses(d: string, s: string, t: Tagged)
    ensures Holds(SAME_DATE_EARLIER_SOURCE, t, [Text(d), Text(s)])
            <==> t.row.date == Some(d) && TextOrder.Less(SideName(t.side), s)
    ensures Holds(SAME_DATE_AND_SOURCE, t, [Text(d), Text(s)]) <==> t.row.date == Some(d) && SideName(t.side) == s
  {
    assert [Text(d), Text(s)] == [Text(d)] + [Text(s)];
    HoldsParts(Compare(ProductionDate, Eq), Compare(Source, Lt), t, [Text(d)], [Text(s)]);
    HoldsParts(Compare(ProductionDate, Eq), Compare(Source, Eq), t, [Text(d)], [Text(s)]);
  }

  function CursorParams(c: Cursor): seq<Value> {
    [Text(c.date), Text(c.date), Text(c.source), Text(c.date), Text(c.source), Number(c.id)]
  }

  lemma CursorClauseIsAfter(c: Cursor, t: Tagged)
    ensures Holes(CURSOR_CLAUSE) == 6 && (Holds(CURSOR_CLAUSE, t, CursorParams(c)) <==> IsAfter(c, t))
  {
    var d, ds, n := [Text(c.date)], [Text(c.date), Text(c.source)], [Number(c.id)];
    assert CursorParams(c) == (d + ds) + (ds + n);
    SameDateClauses(c.date, c.source, t);
    HoldsParts(Compare(ProductionDate, Lt), SAME_DATE_EARLIER_SOURCE, t, d, ds);
    HoldsParts(SAME_DATE_AND_SOURCE, Compare(Id, Lt), t, ds, n);
    HoldsParts(Or(Compare(ProductionDate, Lt), SAME_DATE_EARLIER_SOURCE), And(SAME_DATE_AND_SOURCE, Compare(Id, Lt)),
        t, d + ds, ds + n);
  }

  // What each optional filter asks of a row, true of every row when the filter is not given.

  ghost function ItemCodeIs(code: Option<string>): Tagged -> bool {
    (t: Tagged) => Given(code) ==> t.row.code == code
  }

  ghost function SearchHits(q: Option<string>): Tagged -> bool {
    (t: Tagged) => Given(q)
        ==> Mentions(q.value, t.row.code) || Mentions(q.value, t.row.name) || Mentions(q.value, t.row.lot)
  }

  ghost function LotStarts(lot: Option<string>): Tagged -> bool {
    (t: Tagged) => Given(lot) ==> t.row.lot.Some? && Like.StartsWith(lot.value, t.row.lot.value)
  }

  ghost function FromDate(d: Option<string>): Tagged -> bool {
    (t: Tagged) => Given(d) ==> t.row.date.Some? && TextOrder.AtMost(d.value, t.row.date.value)
  }

  ghost function BeforeDate(d: Option<string>): Tagged -> bool {
    (t: Tagged) => Given(d) ==> t.row.date.Some? && TextOrder.Less(t.row.date.value, d.value)
  }

  ghost function AtLeast(n: Option<int>): Tagged -> bool {
    (t: Tagged) => n.Some? ==> t.row.qty.Some? && n.value <= t.row.qty.value
  }

  ghost function NoMoreThan(n: Option<int>): Tagged -> bool {
    (t: Tagged) => n.Some? ==> t.row.qty.Some? && t.row.qty.value <= n.value
  }

  ghost function PastCursor(c: Option<Cursor>): Tagged -> bool {
    (t: Tagged) => c.Some? ==> IsAfter(c.value, t)
  }

  lemma NotGiven(f: Filters, dateFrom: Option<string>, dateTo: Option<string>, cursor: Option<Cursor>)
    ensures !Given(f.itemCode) ==> Everything(ItemCodeIs(f.itemCode))
    ensures !Given(f.q) ==> Everything(SearchHits(f.q))
    ensures !Given(f.lotNumber) ==> Everything(LotStarts(f.lotNumber))
    ensures !Given(dateFrom) ==> Everything(FromDate(dateFrom))
    ensures !Given(dateTo) ==> Everything(BeforeDate(dateTo))
    ensures f.minQuantity.None? ==> Everything(AtLeast(f.minQuantity))
    ensures f.maxQuantity.None? ==> Everything(NoMoreThan(f.maxQuantity))
    ensures cursor.None? ==> Everything(PastCursor(cursor))
  {}

  lemma ItemCodeClause(code: string)
    requires code != ""
    ensures Says(Compare(ItemCode, Eq), [Text(code)], ItemCodeIs(Some(code)))
    ensures Fits([Text(code)], true)
  {}

  lemma SearchSays(q: string)
    requires q != ""
    ensures var like := Text("%" + Like.EscapeWildcards(q) + "%");
            Says(SEARCH_CLAUSE, [like, like, like], SearchHits(Some(q))) && Fits([like, like, like], true)
  {
    forall t { SearchFinds(q, t); }
  }

  lemma LotClause(lot: string)
    requires lot != ""
    ensures Says(LikeEscaped(LotNumber), [Text(Like.EscapeWildcards(lot) + "%")], LotStarts(Some(lot)))
    ensures Fits([Text(Like.EscapeWildcards(lot) + "%")], true)
  {
    forall s { Like.PrefixSearch(lot, s); }
  }

  lemma DateClauses(d: string)
    requires d != ""
    ensures Says(Compare(ProductionDate, Ge), [Text(d)], FromDate(Some(d)))
    ensures Says(Compare(ProductionDate, Lt), [Text(d)], BeforeDate(Some(d)))
    ensures Fits([Text(d)], true)
  {}

  lemma QuantityClauses(n: int)
    ensures Says(Compare(GoodQuantity, Ge), [Number(n)], AtLeast(Some(n)))
    ensures Says(Compare(GoodQuantity, Le), [Number(n)], NoMoreThan(Some(n)))
    ensures Fits([Number(n)], Int64(n))
  {
    assert [Number(n)][0].Number?;
  }

  lemma CursorSays(c: Cursor)
    ensures Says(CURSOR_CLAUSE, CursorParams(c), PastCursor(Some(c)))
    ensures Fits(CursorParams(c), Int64(c.id))
  {
    assert CursorParams(c)[5].Number?;
    forall t { CursorClauseIsAfter(c, t); }
  }

  /** The whole request, the cursor included. */
  ghost function Requested(f: Filters, dateFrom: Option<string>, dateTo: Option<string>,
                           cursor: Option<Cursor>): Tagged -> bool {
    (t: Tagged) => Wanted(f, dateFrom, dateTo, t) && (cursor.Some? ==> IsAfter(cursor.value, t))
  }

  ghost function Anything(): Tagged -> bool {
    t => true
  }

  lemma AllClauses(where: seq<Cond>, params: seq<Value>, p: Tagged -> bool,
                   f: Filters, dateFrom: Option<string>, dateTo: Option<string>, cursor: Option<Cursor>)
    requires Means(where, params, p)
    requires p == Both(Both(Both(Both(Both(Both(Both(Both(Anything(), ItemCodeIs(f.itemCode)), SearchHits(f.q)),
                  LotStarts(f.lotNumber)), FromDate(dateFrom)), BeforeDate(dateTo)),
                  AtLeast(f.minQuantity)), NoMoreThan(f.maxQuantity)), PastCursor(cursor))
    ensures Means(where, params, Requested(f, dateFrom, dateTo, cursor))
  {
    forall t ensures p(t) <==> Requested(f, dateFrom, dateTo, cursor)(t) {}
  }

  lemma NoClauses()
    ensures Means([], [], Anything())
  {}

  method BuildRecordsFilters(f: Filters, dateFrom: Option<string>, dateTo: Option<string>, cursor: Option<Cursor>)
    returns (where: seq<Cond>, params: seq<Value>)
    ensures Means(where, params, Requested(f, dateFrom, dateTo, cursor))
    ensures Bindable(params) <==> IntegersFit(f, cursor)
  {
    where, params := [], [];
    ghost var p, fits := Anything(), true;
    NoClauses();
    NotGiven(f, dateFrom, dateTo, cursor);

    ghost var q := ItemCodeIs(f.itemCode);
    if Given(f.itemCode) {
      ItemCodeClause(f.itemCode.value);
      AddBuilt(where, params, p, fits, Compare(ItemCode, Eq), [Text(f.itemCode.value)], q, true);
      where := where + [Compare(ItemCode, Eq)];
      params := params + [Text(f.itemCode.value)];
    } else { SkipBuilt(where, params, p, fits, q); }
    p, q := Both(p, q), SearchHits(f.q);

    if Given(f.q) {
      var like := Text("%" + Like.EscapeWildcards(f.q.value) + "%");
      SearchSays(f.q.value);
      AddBuilt(where, params, p, fits, SEARCH_CLAUSE, [like, like, like], q, true);
      where := where + [SEARCH_CLAUSE];
      params := params + [like, like, like];
    } else { SkipBuilt(where, params, p, fits, q); }
    p, q := Both(p, q), LotStarts(f.lotNumber);

    if Given(f.lotNumber) {
      var like := Text(Like.EscapeWildcards(f.lotNumber.value) + "%");
      LotClause(f.lotNumber.value);
      AddBuilt(where, params, p, fits, LikeEscaped(LotNumber), [like], q, true);
      where := where + [LikeEscaped(LotNumber)];
      params := params + [like];
    } else { SkipBuilt(where, params, p, fits, q); }
    p, q := Both(p, q), FromDate(dateFrom);

    if Given(dateFrom) {
      DateClauses(dateFrom.value);
      AddBuilt(where, params, p, fits, Compare(ProductionDate, Ge), [Text(dateFrom.value)], q, true);
      where := where + [Compare(ProductionDate, Ge)];
      params := params + [Text(dateFrom.value)];
    } else { SkipBuilt(where, params, p, fits, q); }
    p, q := Both(p, q), BeforeDate(dateTo);

    if Given(dateTo) {
      DateClauses(dateTo.value);
      AddBuilt(where, params, p, fits, Compare(ProductionDate, Lt), [Text(dateTo.value)], q, true);
      where := where + [Compare(ProductionDate, Lt)];
      params := params + [Text(dateTo.value)];
    } else { SkipBuilt(where, params, p, fits, q); }
    p, q := Both(p, q), AtLeast(f.minQuantity);

    if f.minQuantity.Some? {
      QuantityClauses(f.minQuantity.value);
      AddBuilt(where, params, p, fits, Compare(GoodQuantity, Ge), [Number(f.minQuantity.value)], q,
          Int64(f.minQuantity.value));
      where := where + [Compare(GoodQuantity, Ge)];
      params := params + [Number(f.minQuantity.value)];
    } else { SkipBuilt(where, params, p, fits, q); }
    p, q, fits := Both(p, q), NoMoreThan(f.maxQuantity), fits && (f.minQuantity.Some? ==> Int64(f.minQuantity.value));

    if f.maxQuantity.Some? {
      QuantityClauses(f.maxQuantity.value);
      AddBuilt(where, params, p, fits, Compare(GoodQuantity, Le), [Number(f.maxQuantity.value)], q,
          Int64(f.maxQuantity.value));
      where := where + [Compare(GoodQuantity, Le)];
      params := params + [Number(f.maxQuantity.value)];
    } else { SkipBuilt(where, params, p, fits, q); }
    p, q, fits := Both(p, q), PastCursor(cursor), fits && (f.maxQuantity.Some? ==> Int64(f.maxQuantity.value));

    if cursor.Some? {
      CursorSays(cursor.value);
      AddBuilt(where, params, p, fits, CURSOR_CLAUSE, CursorParams(cursor.value), q, Int64(cursor.value.id));
      where := where + [CURSOR_CLAUSE];
      params := params + CursorParams(cursor.value);
    } else { SkipBuilt(where, params, p, fits, q); }
    AllClauses(where, params, Both(p, q), f, dateFrom, dateTo, cursor);
  }
}
