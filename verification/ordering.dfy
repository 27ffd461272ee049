/** ORDER BY production_date DESC, source DESC, id DESC (api/routers/records.py). */
module Ordering {
  import opened TextOrder
  import opened Sql

  function DateText(t: Tagged): string {
    if t.row.date.Some? then t.row.date.value else ""
  }

  predicate SameKey(a: Tagged, b: Tagged) {
    DateText(a) == DateText(b) && a.side == b.side && a.row.id == b.row.id
  }

  /** `a` is listed before `b`. */
  predicate Precedes(a: Tagged, b: Tagged) {
    || Less(DateText(b), DateText(a))
    || (DateText(a) == DateText(b)
        && (Less(SideName(b.side), SideName(a.side)) || (a.side == b.side && b.row.id < a.row.id)))
  }

  predicate DistinctKeys(s: seq<Tagged>) {
    forall i, j :: 0 <= i < j < |s| ==> !SameKey(s[i], s[j])
  }

  predicate Ordered(s: seq<Tagged>) {
    forall i, j :: 0 <= i < j < |s| ==> Precedes(s[i], s[j])
  }

  function Insert(x: Tagged, s: seq<Tagged>): seq<Tagged> {
    if s == [] || Precedes(x, s[0]) then [x] + s else [s[0]] + Insert(x, s[1..])
  }

  function SortDesc(s: seq<Tagged>): seq<Tagged> {
    if s == [] then [] else Insert(s[0], SortDesc(s[1..]))
  }

  lemma PrecedesIrreflexive(a: Tagged)
    ensures !Precedes(a, a)
  {
    Irreflexive(DateText(a));
    Irreflexive(SideName(a.side));
  }

  lemma Sides()
    ensures Less(SideName(Archive), SideName(Live)) && !Less(SideName(Live), SideName(Archive))
    ensures forall s: Side :: !Less(SideName(s), SideName(s))
  {
    assert "archive"[0] == 'a' && "live"[0] == 'l';
    forall s: Side { Irreflexive(SideName(s)); }
  }

  lemma PrecedesTransitive(a: Tagged, b: Tagged, c: Tagged)
    requires Precedes(a, b) && Precedes(b, c)
    ensures Precedes(a, c)
  {
    if Less(DateText(b), DateText(a)) && Less(DateText(c), DateText(b)) {
      Transitive(DateText(c), DateText(b), DateText(a));
    }
    Sides();
  }

  lemma PrecedesTotal(a: Tagged, b: Tagged)
    ensures Precedes(a, b) || Precedes(b, a) || SameKey(a, b)
  {
    Total(DateText(a), DateText(b));
    Sides();
  }

  lemma {:induction false} InsertAdds(x: Tagged, s: seq<Tagged>)
    ensures multiset(Insert(x, s)) == multiset{x} + multiset(s)
  {
    if s != [] {
      assert s == [s[0]] + s[1..];
      if !Precedes(x, s[0]) { InsertAdds(x, s[1..]); }
    }
  }

  lemma OrderedCons(x: Tagged, s: seq<Tagged>)
    requires Ordered(s) && forall y :: y in s ==> Precedes(x, y)
    ensures Ordered([x] + s)
  {}

  lemma {:induction false} InsertPlaces(x: Tagged, s: seq<Tagged>)
    requires Ordered(s) && forall y :: y in s ==> !SameKey(x, y)
    ensures Ordered(Insert(x, s))
  {
    if s == [] {
    } else if Precedes(x, s[0]) {
      forall y | y in s ensures Precedes(x, y) {
        if y != s[0] { PrecedesTransitive(x, s[0], y); }
      }
      OrderedCons(x, s);
    } else {
      InsertPlaces(x, s[1..]);
      PrecedesTotal(x, s[0]);
      var r := Insert(x, s[1..]);
      InsertAdds(x, s[1..]);
      forall y | y in r ensures Precedes(s[0], y) {
        assert y in multiset(r);
        assert y == x || y in s[1..];
      }
      OrderedCons(s[0], r);
    }
  }

  lemma {:induction false} SortSorts(s: seq<Tagged>)
    ensures multiset(SortDesc(s)) == multiset(s)
    ensures DistinctKeys(s) ==> Ordered(SortDesc(s))
  {
    if s != [] {
      SortSorts(s[1..]);
      var r := SortDesc(s[1..]);
      assert s == [s[0]] + s[1..];
      InsertAdds(s[0], r);
      if DistinctKeys(s) {
        forall y | y in r ensures !SameKey(s[0], y) {
          assert y in multiset(r);
          assert y in s[1..];
        }
        InsertPlaces(s[0], r);
      }
    }
  }

  lemma SameHead(a: seq<Tagged>, b: seq<Tagged>)
    requires Ordered(a) && Ordered(b) && multiset(a) == multiset(b) && a != [] && b != []
    ensures a[0] == b[0]
  {
    assert a[0] in multiset(b) && b[0] in multiset(a);
    assert a[0] in b && b[0] in a;
    if a[0] != b[0] {
      PrecedesTransitive(a[0], b[0], a[0]);
      PrecedesIrreflexive(a[0]);
    }
  }

  /** A strictly ordered listing of a bag of rows is unique, so ORDER BY leaves nothing open. */
  lemma {:induction false} ListingIsUnique(a: seq<Tagged>, b: seq<Tagged>)
    requires Ordered(a) && Ordered(b) && multiset(a) == multiset(b)
    ensures a == b
  {
    assert |a| == |multiset(a)| == |multiset(b)| == |b|;
    if a != [] {
      SameHead(a, b);
      assert a == [a[0]] + a[1..] && b == [b[0]] + b[1..];
      assert multiset(a[1..]) == multiset(a) - multiset{a[0]};
      assert multiset(b[1..]) == multiset(b) - multiset{b[0]};
      ListingIsUnique(a[1..], b[1..]);
    }
  }

  lemma {:induction false} FilterKeepsOrder(keep: Tagged -> bool, s: seq<Tagged>)
    requires Ordered(s)
    ensures Ordered(Filter(keep, s))
  {
    if s != [] {
      FilterKeepsOrder(keep, s[1..]);
      forall y | y in Filter(keep, s[1..]) ensures Precedes(s[0], y) { FilterIn(keep, s[1..], y); }
    }
  }

  lemma {:induction false} FilterKeepsDistinct(keep: Tagged -> bool, s: seq<Tagged>)
    requires DistinctKeys(s)
    ensures DistinctKeys(Filter(keep, s))
  {
    if s != [] {
      FilterKeepsDistinct(keep, s[1..]);
      forall y | y in Filter(keep, s[1..]) ensures !SameKey(s[0], y) { FilterIn(keep, s[1..], y); }
    }
  }

  /** Restricting before sorting is restricting after sorting. */
  lemma FilterThenSort(keep: Tagged -> bool, s: seq<Tagged>)
    requires DistinctKeys(s)
    ensures SortDesc(Filter(keep, s)) == Filter(keep, SortDesc(s))
  {
    var f := Filter(keep, s);
    SortSorts(s);
    FilterKeepsDistinct(keep, s);
    SortSorts(f);
    FilterKeepsOrder(keep, SortDesc(s));
    forall x ensures multiset(f)[x] == multiset(Filter(keep, SortDesc(s)))[x] {
      FilterCount(keep, s, x);
      FilterCount(keep, SortDesc(s), x);
    }
    assert multiset(f) == multiset(Filter(keep, SortDesc(s)));
    ListingIsUnique(SortDesc(f), Filter(keep, SortDesc(s)));
  }
}
