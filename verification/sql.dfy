/** The fragment of SQL that the query builders of shared/database.py emit, as a syntax tree
    with positional `?` placeholders, and what it means on an archive and a live database. */
module Sql {
  import opened Options
  import TextOrder
  import Like

  datatype Side = Archive | Live

  /** production_records; NULL is None. */
  datatype Row = Row(id: int, date: Option<string>, lot: Option<string>, code: Option<string>,
                     name: Option<string>, qty: Option<int>)

  /** A row with the literal `source` column of the branch that selected it. */
  datatype Tagged = Tagged(side: Side, row: Row)

  /** `archive` is None when the archive file does not exist. */
  datatype Db = Db(archive: Option<seq<Row>>, live: seq<Row>)

  datatype Value = Null | Text(text: string) | Number(n: int)

  /** A column, or substr(production_date, 1, 7). */
  datatype Column = Id | ProductionDate | LotNumber | ItemCode | ItemName | GoodQuantity | Source | YearMonth

  datatype Comparison = Lt | Le | Eq | Ge

  datatype Cond =
    | Always                                       // 1=1
    | Never                                        // 1=0
    | Compare(column: Column, op: Comparison)      // column op ?
    | LikeEscaped(column: Column)                  // column LIKE ? ESCAPE '\'
    | And(left: Cond, right: Cond)
    | Or(left: Cond, right: Cond)

  datatype Query =
    | Scan(side: Side, cond: Cond)                 // SELECT 'side' AS source, ... WHERE cond
    | UnionAll(left: Query, right: Query)

  const CUTOFF: string := "2026-01-01"

  function SideName(s: Side): string {
    match s case Archive => "archive" case Live => "live"
  }

  /** substr(d, 1, 7) */
  function MonthOf(d: string): string {
    if |d| <= 7 then d else d[..7]
  }

  function TextValue(o: Option<string>): Value {
    match o case None => Null case Some(s) => Text(s)
  }

  function ValueOf(c: Column, t: Tagged): Value {
    match c
    case Id => Number(t.row.id)
    case ProductionDate => TextValue(t.row.date)
    case LotNumber => TextValue(t.row.lot)
    case ItemCode => TextValue(t.row.code)
    case ItemName => TextValue(t.row.name)
    case GoodQuantity => if t.row.qty.None? then Null else Number(t.row.qty.value)
    case Source => Text(SideName(t.side))
    case YearMonth => if t.row.date.None? then Null else Text(MonthOf(t.row.date.value))
  }

  /** Within a storage class by value; numbers before texts. */
  predicate ValueLess(x: Value, y: Value) {
    match (x, y)
    case (Number(a), Number(b)) => a < b
    case (Text(a), Text(b)) => TextOrder.Less(a, b)
    case (Number(_), Text(_)) => true
    case _ => false
  }

  /** NULL aside, the values are strictly ordered, the numbers before the texts. */
  lemma ValuesAreOrdered(x: Value, y: Value)
    requires !x.Null? && !y.Null?
    ensures !ValueLess(x, x) && (x.Number? && y.Text? ==> ValueLess(x, y))
    ensures x == y || (ValueLess(x, y) <==> !ValueLess(y, x))
  {
    match (x, y)
    case (Text(a), Text(b)) =>
      TextOrder.Trichotomy(a, b);
      TextOrder.Trichotomy(b, a);
    case (Text(a), _) => TextOrder.Irreflexive(a);
    case _ =>
  }

  /** A comparison with NULL is never true. */
  predicate Compares(op: Comparison, x: Value, y: Value) {
    && !x.Null? && !y.Null?
    && match op
       case Lt => ValueLess(x, y)
       case Le => x == y || ValueLess(x, y)
       case Eq => x == y
       case Ge => x == y || ValueLess(y, x)
  }

  function Holes(c: Cond): nat {
    match c
    case Always | Never => 0
    case Compare(_, _) => 1
    case LikeEscaped(_) => 1
    case And(l, r) => Holes(l) + Holes(r)
    case Or(l, r) => Holes(l) + Holes(r)
  }

  /** Whether the WHERE condition is true of a row when the placeholders, left to right, are bound to `ps`.
      Without NOT, a three-valued AND or OR is true exactly when the two-valued one is. */
  predicate Holds(c: Cond, t: Tagged, ps: seq<Value>)
    requires |ps| == Holes(c)
  {
    match c
    case Always => true
    case Never => false
    case Compare(col, op) => Compares(op, ValueOf(col, t), ps[0])
    case LikeEscaped(col) =>
      var v := ValueOf(col, t);
      v.Text? && ps[0].Text? && Like.Matches(ps[0].text, v.text)
    case And(l, r) => Holds(l, t, ps[..Holes(l)]) && Holds(r, t, ps[Holes(l)..])
    case Or(l, r) => Holds(l, t, ps[..Holes(l)]) || Holds(r, t, ps[Holes(l)..])
  }

  /** AND and OR bind their placeholders left to right. */
  lemma HoldsParts(l: Cond, r: Cond, t: Tagged, a: seq<Value>, b: seq<Value>)
    requires |a| == Holes(l) && |b| == Holes(r)
    ensures Holds(And(l, r), t, a + b) <==> Holds(l, t, a) && Holds(r, t, b)
    ensures Holds(Or(l, r), t, a + b) <==> Holds(l, t, a) || Holds(r, t, b)
  {
    assert (a + b)[..|a|] == a && (a + b)[|a|..] == b;
  }

  /** The integers SQLite stores. */
  predicate Int64(n: int) {
    -0x8000_0000_0000_0000 <= n < 0x8000_0000_0000_0000
  }

  lemma Int64Is(n: int)
    ensures Int64(n) <==> -9_223_372_036_854_775_808 <= n <= 9_223_372_036_854_775_807
  {}

  /** sqlite3 refuses to bind any other integer. */
  predicate Bindable(ps: seq<Value>) {
    forall i :: 0 <= i < |ps| && ps[i].Number? ==> Int64(ps[i].n)
  }

  lemma BindableParts(a: seq<Value>, b: seq<Value>)
    ensures Bindable(a + b) <==> Bindable(a) && Bindable(b)
  {
    if Bindable(a + b) {
      assert forall i :: 0 <= i < |a| ==> (a + b)[i] == a[i];
      assert forall i :: 0 <= i < |b| ==> (a + b)[|a| + i] == b[i];
    }
  }

  function QueryHoles(q: Query): nat {
    match q
    case Scan(_, c) => Holes(c)
    case UnionAll(l, r) => QueryHoles(l) + QueryHoles(r)
  }

  function Filter<T>(keep: T -> bool, s: seq<T>): seq<T> {
    if s == [] then [] else (if keep(s[0]) then [s[0]] else []) + Filter(keep, s[1..])
  }

  function Tag(side: Side, rows: seq<Row>): seq<Tagged> {
    if rows == [] then [] else [Tagged(side, rows[0])] + Tag(side, rows[1..])
  }

  function TableOf(db: Db, side: Side): seq<Tagged> {
    match side
    case Archive => if db.archive.None? then [] else Tag(Archive, db.archive.value)
    case Live => Tag(Live, db.live)
  }

  function Satisfies(c: Cond, ps: seq<Value>): Tagged -> bool
    requires |ps| == Holes(c)
  {
    t => Holds(c, t, ps)
  }

  /** The rows a query yields, before ORDER BY. */
  function Eval(q: Query, db: Db, ps: seq<Value>): seq<Tagged>
    requires |ps| == QueryHoles(q)
  {
    match q
    case Scan(side, c) => Filter(Satisfies(c, ps), TableOf(db, side))
    case UnionAll(l, r) => Eval(l, db, ps[..QueryHoles(l)]) + Eval(r, db, ps[QueryHoles(l)..])
  }

  // ----- the one logical table -----

  /** Each database owns its side of the cutoff; a row without a date belongs to neither. */
  predicate Owned(t: Tagged) {
    t.row.date.Some? && (t.side.Archive? <==> TextOrder.Less(t.row.date.value, CUTOFF))
  }

  function Part(db: Db, side: Side): seq<Tagged> {
    Filter(Owned, TableOf(db, side))
  }

  /** Archive before the cutoff, live from the cutoff on. */
  function Logical(db: Db): seq<Tagged> {
    Part(db, Archive) + Part(db, Live)
  }

  // ----- filtering -----

  lemma {:induction false} FilterConcat<T>(keep: T -> bool, a: seq<T>, b: seq<T>)
    ensures Filter(keep, a + b) == Filter(keep, a) + Filter(keep, b)
  {
    if a == [] {
      assert a + b == b;
    } else {
      var ab, head := a + b, if keep(a[0]) then [a[0]] else [];
      assert ab[0] == a[0] && ab[1..] == a[1..] + b;
      FilterConcat(keep, a[1..], b);
      assert head + (Filter(keep, a[1..]) + Filter(keep, b)) == head + Filter(keep, a[1..]) + Filter(keep, b);
    }
  }

  lemma {:induction false} FilterIn<T>(keep: T -> bool, s: seq<T>, x: T)
    ensures x in Filter(keep, s) <==> x in s && keep(x)
  {
    if s != [] {
      assert s == [s[0]] + s[1..];
      FilterIn(keep, s[1..], x);
    }
  }

  lemma {:induction false} FilterSame<T>(p: T -> bool, q: T -> bool, s: seq<T>)
    requires forall x :: x in s ==> p(x) == q(x)
    ensures Filter(p, s) == Filter(q, s)
  {
    if s != [] { FilterSame(p, q, s[1..]); }
  }

  lemma {:induction false} FilterTwice<T>(p: T -> bool, q: T -> bool, both: T -> bool, s: seq<T>)
    requires forall x :: x in s ==> (both(x) <==> p(x) && q(x))
    ensures Filter(p, Filter(q, s)) == Filter(both, s)
  {
    if s != [] {
      FilterTwice(p, q, both, s[1..]);
      FilterConcat(p, if q(s[0]) then [s[0]] else [], Filter(q, s[1..]));
    }
  }

  lemma {:induction false} FilterCount<T>(keep: T -> bool, s: seq<T>, x: T)
    ensures multiset(Filter(keep, s))[x] == if keep(x) then multiset(s)[x] else 0
  {
    if s != [] {
      assert s == [s[0]] + s[1..];
      FilterCount(keep, s[1..], x);
    }
  }

  lemma {:induction false} FilterAll<T>(keep: T -> bool, s: seq<T>)
    requires forall x :: x in s ==> keep(x)
    ensures Filter(keep, s) == s
  {
    if s != [] { FilterAll(keep, s[1..]); }
  }

  lemma FilterNone<T>(keep: T -> bool, s: seq<T>)
    requires forall x :: x in s ==> !keep(x)
    ensures Filter(keep, s) == []
  {
    if Filter(keep, s) != [] { FilterIn(keep, s, Filter(keep, s)[0]); }
  }

  lemma {:induction false} TagSide(side: Side, rows: seq<Row>)
    ensures |Tag(side, rows)| == |rows|
    ensures forall i :: 0 <= i < |rows| ==> Tag(side, rows)[i] == Tagged(side, rows[i])
  {
    if rows != [] { TagSide(side, rows[1..]); }
  }

  lemma TableSide(db: Db, side: Side)
    ensures forall t :: t in TableOf(db, side) ==> t.side == side
  {
    if db.archive.Some? { TagSide(Archive, db.archive.value); }
    TagSide(Live, db.live);
  }
}
