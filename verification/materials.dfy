/** Material-request intake (api/materials/store.py): batch upsert, delete with tombstones, restore. */
module Materials {
  import opened Options
  import Timestamps
  import UnicodeDigits

  datatype Incoming = Incoming(doc: string, seqNo: Option<int>, materialCode: Option<string>,
                               materialName: Option<string>, qty: Option<string>, reason: Option<string>,
                               dept: Option<string>, drafter: Option<string>, processedAt: Option<string>,
                               keyword: Option<string>)

  /** The nine columns a change is looked for in. */
  datatype Content = Content(materialCode: Option<string>, materialName: Option<string>, qty: Option<string>,
                             reason: Option<string>, dept: Option<string>, drafter: Option<string>,
                             processedAt: Option<string>, keyword: Option<string>, docDate: Option<string>)

  datatype Stored = Stored(content: Content, receivedAt: int, updatedAt: int)

  datatype Key = Key(doc: string, seqNo: int)

  type Table = map<Key, Stored>

  datatype BackupResult = BackupResult(upserted: int, inserted: int, updated: int, skipped: int)

  function KeyOf(r: Incoming): Key {
    Key(r.doc, if r.seqNo.Some? then r.seqNo.value else 0)
  }

  predicate IsDigit(c: char) { '0' <= c <= '9' }

  predicate AllDigits(s: string) {
    forall i :: 0 <= i < |s| ==> IsDigit(s[i])
  }

  function Number(s: string): nat
    requires AllDigits(s)
  {
    if s == [] then 0
    else
      assert IsDigit(s[|s| - 1]);
      Number(s[..|s| - 1]) * 10 + (s[|s| - 1] as int - '0' as int)
  }

  /** The text with every decimal digit, of whatever script, written in ASCII. */
  function AsciiOf(s: string): (r: string)
    requires forall i :: 0 <= i < |s| ==> UnicodeDigits.DecimalValue(s[i]).Some?
    ensures |r| == |s| && AllDigits(r)
  {
    seq(|s|, i requires 0 <= i < |s| => Timestamps.DigitChar(UnicodeDigits.DecimalValue(s[i]).value))
  }

  /** What strptime's %Y%m%d matches in eight characters that isdigit() accepts: the year may be in digits of any
      script, the month and the day are ASCII, but for the second digit of a day from 10 to 29. */
  predicate ReadsAsDate(s: string) {
    && |s| == 8 && (forall i :: 0 <= i < 8 ==> UnicodeDigits.DecimalValue(s[i]).Some?)
    && IsDigit(s[4]) && IsDigit(s[5]) && IsDigit(s[6]) && (IsDigit(s[7]) || s[6] in {'1', '2'})
  }

  function DateIn(t: string): Option<string>
    requires |t| == 8 && AllDigits(t)
  {
    var d := Timestamps.Date(Number(t[..4]), Number(t[4..6]), Number(t[6..8]));
    if Timestamps.ValidDate(d) then Some(Timestamps.IsoDate(d)) else None
  }

  /** The business date in the first eight characters, if they are a calendar date. */
  function DocDate(doc: string): Option<string> {
    if |doc| >= 8 && ReadsAsDate(doc[..8]) then DateIn(AsciiOf(doc[..8])) else None
  }

  /** YYYYMMDD */
  function Compact(d: Timestamps.Date): string
    requires Timestamps.ValidDate(d)
  {
    Timestamps.Digits(d.year, 4) + (Timestamps.Digits(d.month, 2) + Timestamps.Digits(d.day, 2))
  }

  lemma {:induction false} NumberOfDigits(n: nat, w: nat)
    requires n < Timestamps.Pow10(w)
    ensures AllDigits(Timestamps.Digits(n, w)) && Number(Timestamps.Digits(n, w)) == n
  {
    if w > 0 {
      NumberOfDigits(n / 10, w - 1);
      var s := Timestamps.Digits(n, w);
      assert s[..w - 1] == Timestamps.Digits(n / 10, w - 1) && s[w - 1] == Timestamps.DigitChar(n % 10);
    }
  }

  lemma LastDigit(n: nat, d: nat)
    requires d < 10
    ensures (n * 10 + d) / 10 == n && (n * 10 + d) % 10 == d
  {}

  lemma DigitsNext(n: nat, w: nat, c: char)
    requires IsDigit(c) && n < Timestamps.Pow10(w)
    ensures var m := n * 10 + (c as int - '0' as int);
      m < Timestamps.Pow10(w + 1) && Timestamps.Digits(m, w + 1) == Timestamps.Digits(n, w) + [c]
  {
    LastDigit(n, c as int - '0' as int);
  }

  lemma {:induction false} DigitsOfNumber(s: string)
    requires AllDigits(s)
    ensures Number(s) < Timestamps.Pow10(|s|) && Timestamps.Digits(Number(s), |s|) == s
  {
    if s != [] {
      var n := |s| - 1;
      DigitsOfNumber(s[..n]);
      DigitsNext(Number(s[..n]), n, s[n]);
      assert s == s[..n] + [s[n]];
    }
  }

  lemma SplitCompact(t: string, d: Timestamps.Date)
    requires Timestamps.ValidDate(d) && t == Compact(d)
    ensures t[..4] == Timestamps.Digits(d.year, 4)
    ensures t[4..6] == Timestamps.Digits(d.month, 2) && t[6..8] == Timestamps.Digits(d.day, 2)
  {}

  lemma DateInIs(t: string, d: Timestamps.Date)
    requires |t| == 8 && AllDigits(t) && Timestamps.ValidDate(d)
    ensures DateIn(t) == Some(Timestamps.IsoDate(d)) <==> t == Compact(d)
  {
    Timestamps.Powers();
    assert t == t[..4] + (t[4..6] + t[6..8]);
    if t == Compact(d) {
      NumberOfDigits(d.year, 4);
      NumberOfDigits(d.month, 2);
      NumberOfDigits(d.day, 2);
      SplitCompact(t, d);
    }
    if DateIn(t) == Some(Timestamps.IsoDate(d)) {
      DigitsOfNumber(t[..4]);
      DigitsOfNumber(t[4..6]);
      DigitsOfNumber(t[6..8]);
      Timestamps.IsoDateOrder(d, Timestamps.Date(Number(t[..4]), Number(t[4..6]), Number(t[6..8])));
    }
  }

  /** A document has a business date exactly when its first eight characters spell one, in the digits strptime takes. */
  lemma DocDateIs(doc: string, d: Timestamps.Date)
    requires Timestamps.ValidDate(d)
    ensures DocDate(doc) == Some(Timestamps.IsoDate(d))
            <==> |doc| >= 8 && ReadsAsDate(doc[..8]) && AsciiOf(doc[..8]) == Compact(d)
  {
    if |doc| >= 8 && ReadsAsDate(doc[..8]) { DateInIs(AsciiOf(doc[..8]), d); }
  }

  /** For ASCII digits that is: exactly when they are the date. */
  lemma AsciiDocDateIs(doc: string, d: Timestamps.Date)
    requires Timestamps.ValidDate(d) && |doc| >= 8 && AllDigits(doc[..8])
    ensures DocDate(doc) == Some(Timestamps.IsoDate(d)) <==> doc[..8] == Compact(d)
  {
    var t := doc[..8];
    forall i | 0 <= i < 8
      ensures IsDigit(t[i]) && UnicodeDigits.DecimalValue(t[i]).Some?
              && Timestamps.DigitChar(UnicodeDigits.DecimalValue(t[i]).value) == t[i]
    {
      UnicodeDigits.AsciiValue(t[i]);
    }
    assert AsciiOf(t) == t;
    DocDateIs(doc, d);
  }

  // ----- the format itself -----

  /** What `%Y%m%d` matches where it has to match all of eight digits: any four digits; a month from 01 to 12; and 30 or
      31, 1 or 2 with any digit, or 01 to 09. Only `any` digit may be of another script. */
  predicate MatchesFormat(s: string) {
    && |s| == 8 && (forall i :: 0 <= i < 4 ==> UnicodeDigits.DecimalValue(s[i]).Some?)
    && ((s[4] == '1' && s[5] in "012") || (s[4] == '0' && s[5] in "123456789"))
    && (|| (s[6] == '3' && s[7] in "01") || (s[6] == '0' && s[7] in "123456789")
        || (s[6] in "12" && UnicodeDigits.DecimalValue(s[7]).Some?))
  }

  /** The value of a digit. */
  function Digit(c: char): nat {
    var v := UnicodeDigits.DecimalValue(c);
    if v.Some? then v.value else 0
  }

  /** The eight digits, read as year, month and day. */
  function ReadDate(s: string): Timestamps.Date
    requires |s| == 8
  {
    Timestamps.Date(1000 * Digit(s[0]) + 100 * Digit(s[1]) + 10 * Digit(s[2]) + Digit(s[3]),
                    10 * Digit(s[4]) + Digit(s[5]), 10 * Digit(s[6]) + Digit(s[7]))
  }

  lemma NumberOfTwo(t: string)
    requires |t| == 2 && AllDigits(t)
    ensures Number(t) == 10 * (t[0] as int - '0' as int) + (t[1] as int - '0' as int)
  {
    assert Number(t[..1]) == Number(t[..1][..0]) * 10 + (t[0] as int - '0' as int);
  }

  lemma NumberOfFour(t: string)
    requires |t| == 4 && AllDigits(t)
    ensures Number(t) == 100 * Number(t[..2]) + Number(t[2..])
  {
    assert t[..3][..2] == t[..2] && t[2..][..1] == [t[2]] && t[2..][1] == t[3];
    NumberOfTwo(t[2..]);
    assert Number(t[..3]) == Number(t[..2]) * 10 + (t[2] as int - '0' as int);
  }

  lemma ReadsDate(s: string)
    requires |s| == 8 && forall i :: 0 <= i < 8 ==> UnicodeDigits.DecimalValue(s[i]).Some?
    ensures var t := AsciiOf(s);
      ReadDate(s) == Timestamps.Date(Number(t[..4]), Number(t[4..6]), Number(t[6..8]))
  {
    var t := AsciiOf(s);
    assert forall i :: 0 <= i < 8 ==> t[i] as int - '0' as int == Digit(s[i]);
    NumberOfFour(t[..4]);
    assert t[..4][..2] == t[..2] && t[..4][2..] == t[2..4];
    NumberOfTwo(t[..2]);
    NumberOfTwo(t[2..4]);
    NumberOfTwo(t[4..6]);
    NumberOfTwo(t[6..8]);
  }

  lemma AsciiDigit(c: char)
    ensures IsDigit(c) ==> UnicodeDigits.DecimalValue(c).Some? && Digit(c) == c as int - '0' as int
    ensures Digit(c) <= 9
  {
    if IsDigit(c) { UnicodeDigits.AsciiValue(c); }
  }

  lemma FormatOfDates(s: string)
    requires |s| == 8 && Timestamps.ValidDate(ReadDate(s))
    ensures ReadsAsDate(s) <==> MatchesFormat(s)
  {
    AsciiDigit(s[4]);
    AsciiDigit(s[5]);
    AsciiDigit(s[6]);
    AsciiDigit(s[7]);
  }

  /** A document has a business date exactly when its first eight characters match the format and are a calendar date,
      and then it is that date. */
  lemma DocDateReads(doc: string)
    ensures DocDate(doc) ==
      if |doc| >= 8 && MatchesFormat(doc[..8]) && Timestamps.ValidDate(ReadDate(doc[..8]))
      then Some(Timestamps.IsoDate(ReadDate(doc[..8]))) else None
  {
    if |doc| >= 8 {
      var s := doc[..8];
      if Timestamps.ValidDate(ReadDate(s)) { FormatOfDates(s); }
      if ReadsAsDate(s) { ReadsDate(s); }
    }
  }

  function ContentOf(r: Incoming): Content {
    Content(r.materialCode, r.materialName, r.qty, r.reason, r.dept, r.drafter, r.processedAt, r.keyword,
        DocDate(r.doc))
  }

  /** The WHERE clause of the conflict update: some column IS NOT its stored value. */
  predicate Changed(c: Content, old_: Content) {
    || c.materialCode != old_.materialCode || c.materialName != old_.materialName || c.qty != old_.qty
    || c.reason != old_.reason || c.dept != old_.dept || c.drafter != old_.drafter
    || c.processedAt != old_.processedAt || c.keyword != old_.keyword || c.docDate != old_.docDate
  }

  // ----- the one-pass specification -----

  function Keys(rows: seq<Incoming>): set<Key> {
    set r | r in rows :: KeyOf(r)
  }

  /** The last row of the batch with this key. */
  function Last(rows: seq<Incoming>, k: Key): Incoming
    requires k in Keys(rows)
  {
    var n := |rows| - 1;
    if KeyOf(rows[n]) == k then rows[n]
    else
      assert rows == rows[..n] + [rows[n]];
      Last(rows[..n], k)
  }

  function Latest(rows: seq<Incoming>): map<Key, Incoming> {
    map k | k in Keys(rows) :: Last(rows, k)
  }

  /** The keys of the batch whose document is not tombstoned. */
  function Accepted(rows: seq<Incoming>, tombstoned: set<string>): set<Key> {
    set k | k in Keys(rows) && k.doc !in tombstoned
  }

  /** INSERT ... ON CONFLICT DO UPDATE for one key: the first reception stays, an unchanged row is not rewritten. */
  function Put(t: Table, k: Key, c: Content, now: int): Stored {
    if k !in t then Stored(c, now, now)
    else if t[k].content == c then t[k]
    else Stored(c, t[k].receivedAt, now)
  }

  function Contents(rows: map<Key, Incoming>): map<Key, Content> {
    map k | k in rows :: ContentOf(rows[k])
  }

  function PutAll(t: Table, ks: set<Key>, latest: map<Key, Content>, now: int): Table
    requires ks <= latest.Keys
  {
    map k | k in t.Keys + ks :: if k in ks then Put(t, k, latest[k], now) else t[k]
  }

  function Upserted(t: Table, rows: seq<Incoming>, tombstoned: set<string>, now: int): Table {
    PutAll(t, Accepted(rows, tombstoned), Contents(Latest(rows)), now)
  }

  /** The keys an upsert writes. */
  function Written(t: Table, ks: set<Key>, latest: map<Key, Content>): set<Key>
    requires ks <= latest.Keys
  {
    set k | k in ks && (k !in t || t[k].content != latest[k])
  }

  function Counts(t: Table, rows: seq<Incoming>, tombstoned: set<string>): BackupResult {
    var ks := Accepted(rows, tombstoned);
    BackupResult(|ks|, |ks - t.Keys|, |Written(t, ks * t.Keys, Contents(Latest(rows)))|, |Keys(rows) - ks|)
  }

  // ----- the operations -----

  /** Both datasets' tables, and the tombstones they share: (table, document) to time of deletion. */
  datatype Db = Db(tables: map<string, Table>, tombstones: map<(string, string), int>)

  function TableOf(db: Db, table: string): Table {
    if table in db.tables then db.tables[table] else map[]
  }

  function Tombstoned(db: Db, table: string): set<string> {
    set p | p in db.tombstones && p.0 == table :: p.1
  }

  function DoUpsert(db: Db, table: string, rows: seq<Incoming>, now: int): Db {
    db.(tables := db.tables[table := Upserted(TableOf(db, table), rows, Tombstoned(db, table), now)])
  }

  function RowsOf(t: Table, doc: string): set<Key> {
    set k | k in t && k.doc == doc
  }

  /** Only a delete that removed something leaves a tombstone. */
  function DoDelete(db: Db, table: string, doc: string, now: int): Db {
    var t := TableOf(db, table);
    if RowsOf(t, doc) == {} then db
    else Db(db.tables[table := t - RowsOf(t, doc)], db.tombstones[(table, doc) := now])
  }

  function DoRestore(db: Db, table: string, doc: string): Db {
    db.(tombstones := db.tombstones - {(table, doc)})
  }

  /** The INSERT ... ON CONFLICT statement for one row, and how many rows it counts as changed. */
  method ExecuteOne(t: Table, k: Key, c: Content, now: int) returns (u: Table, changes: nat)
    ensures u == t[k := Put(t, k, c, now)]
    ensures changes == if k !in t || t[k].content != c then 1 else 0
  {
    if k !in t {
      return t[k := Stored(c, now, now)], 1;
    }
    if Changed(c, t[k].content) {
      return t[k := Stored(c, t[k].receivedAt, now)], 1;
    }
    assert t == t[k := t[k]];
    return t, 0;
  }

  predicate DistinctKeys(ks: seq<Key>) {
    forall i, j :: 0 <= i < j < |ks| ==> ks[i] != ks[j]
  }

  predicate Batch(keys: seq<Key>, contents: map<Key, Content>) {
    DistinctKeys(keys) && forall k :: k in keys ==> k in contents
  }

  function KeySet(ks: seq<Key>): set<Key> {
    set k | k in ks
  }

  /** The table, and the number of changes, after the first `i` keys. */
  function PutFirst(t: Table, keys: seq<Key>, contents: map<Key, Content>, now: int, i: nat): Table
    requires Batch(keys, contents) && i <= |keys|
  {
    PutAll(t, KeySet(keys[..i]), contents, now)
  }

  function WrittenFirst(t: Table, keys: seq<Key>, contents: map<Key, Content>, i: nat): nat
    requires Batch(keys, contents) && i <= |keys|
  {
    |Written(t, KeySet(keys[..i]), contents)|
  }

  lemma NothingPut(t: Table, keys: seq<Key>, contents: map<Key, Content>, now: int)
    requires Batch(keys, contents)
    ensures PutFirst(t, keys, contents, now, 0) == t && WrittenFirst(t, keys, contents, 0) == 0
  {
    assert KeySet(keys[..0]) == {} && PutAll(t, {}, contents, now) == t;
    assert Written(t, {}, contents) == {};
  }

  lemma PutOneMore(t: Table, ks: set<Key>, latest: map<Key, Content>, now: int, k: Key)
    requires ks + {k} <= latest.Keys && k !in ks
    ensures PutAll(t, ks + {k}, latest, now) == PutAll(t, ks, latest, now)[k := Put(t, k, latest[k], now)]
    ensures k in PutAll(t, ks, latest, now) <==> k in t
    ensures k in t ==> PutAll(t, ks, latest, now)[k] == t[k]
  {
    var u, v := PutAll(t, ks, latest, now), PutAll(t, ks + {k}, latest, now);
    assert v.Keys == u.Keys + {k};
  }

  lemma WrittenGrows(t: Table, ks: set<Key>, latest: map<Key, Content>, k: Key)
    requires ks + {k} <= latest.Keys
    ensures Written(t, ks + {k}, latest)
         == Written(t, ks, latest) + if k !in t || t[k].content != latest[k] then {k} else {}
  {}

  lemma WrittenOneMore(t: Table, ks: set<Key>, latest: map<Key, Content>, k: Key)
    requires ks + {k} <= latest.Keys && k !in ks
    ensures |Written(t, ks + {k}, latest)|
         == |Written(t, ks, latest)| + if k !in t || t[k].content != latest[k] then 1 else 0
  {
    WrittenGrows(t, ks, latest, k);
    var w := Written(t, ks, latest);
    assert k !in w;
    assert |w + {k}| == |w| + 1;
  }

  lemma PutNext(t: Table, keys: seq<Key>, contents: map<Key, Content>, now: int, i: nat)
    requires Batch(keys, contents) && i < |keys|
    ensures var current, k := PutFirst(t, keys, contents, now, i), keys[i];
            && PutFirst(t, keys, contents, now, i + 1) == current[k := Put(current, k, contents[k], now)]
            && WrittenFirst(t, keys, contents, i + 1) == WrittenFirst(t, keys, contents, i)
               + if k !in current || current[k].content != contents[k] then 1 else 0
  {
    var k, ks := keys[i], KeySet(keys[..i]);
    assert KeySet(keys[..i + 1]) == ks + {k};
    assert k !in ks;
    PutOneMore(t, ks, contents, now, k);
    WrittenOneMore(t, ks, contents, k);
  }

  /** executemany over distinct keys; `written` is the growth of total_changes. */
  method ExecuteMany(t: Table, keys: seq<Key>, contents: map<Key, Content>, now: int) 
    returns (current: Table, written: nat)
    requires Batch(keys, contents)
    ensures current == PutAll(t, KeySet(keys), contents, now)
    ensures written == |Written(t, KeySet(keys), contents)|
  {
    current, written := t, 0;
    NothingPut(t, keys, contents, now);
    for i := 0 to |keys|
      invariant current == PutFirst(t, keys, contents, now, i)
      invariant written == WrittenFirst(t, keys, contents, i)
    {
      PutNext(t, keys, contents, now, i);
      var n;
      current, n := ExecuteOne(current, keys[i], contents[keys[i]], now);
      written := written + n;
    }
    assert keys[..|keys|] == keys;
  }

  /** list({k[0] for k in keys}), in some order */
  function Documents(ks: seq<Key>): (docs: seq<string>)
    ensures forall d :: d in docs <==> exists k :: k in ks && k.doc == d
  {
    if ks == [] then []
    else
      var rest := Documents(ks[1..]);
      assert ks == [ks[0]] + ks[1..];
      if ks[0].doc in rest then rest else [ks[0].doc] + rest
  }

  /** [k for k in keys if k[0] not in docs] */
  function KeepOut(ks: seq<Key>, docs: set<string>): seq<Key> {
    if ks == [] then [] else (if ks[0].doc in docs then [] else [ks[0]]) + KeepOut(ks[1..], docs)
  }

  function CountNew(ks: seq<Key>, existing: set<Key>): nat {
    if ks == [] then 0 else (if ks[0] in existing then 0 else 1) + CountNew(ks[1..], existing)
  }

  lemma {:induction false} KeepAll(ks: seq<Key>)
    ensures KeepOut(ks, {}) == ks
  {
    if ks != [] { KeepAll(ks[1..]); }
  }

  lemma LatestExtends(rows: seq<Incoming>, r: Incoming)
    ensures Keys(rows + [r]) == Keys(rows) + {KeyOf(r)}
    ensures Latest(rows + [r]) == Latest(rows)[KeyOf(r) := r]
  {
    var all := rows + [r];
    assert all[..|rows|] == rows && all[|rows|] == r;
    assert r in all;
    forall k ensures k in Keys(all) <==> k in Keys(rows) || k == KeyOf(r) {
      if k in Keys(rows) {
        var x :| x in rows && KeyOf(x) == k;
        assert x in all;
      }
    }
  }

  lemma {:induction false} KeepOutSame(ks: seq<Key>, a: set<string>, b: set<string>)
    requires forall k :: k in ks ==> (k.doc in a <==> k.doc in b)
    ensures KeepOut(ks, a) == KeepOut(ks, b)
  {
    if ks != [] { KeepOutSame(ks[1..], a, b); }
  }

  lemma {:induction false} CountNewSame(ks: seq<Key>, a: set<Key>, b: set<Key>)
    requires forall k :: k in ks ==> (k in a <==> k in b)
    ensures CountNew(ks, a) == CountNew(ks, b)
  {
    if ks != [] { CountNewSame(ks[1..], a, b); }
  }

  lemma {:induction false} KeepOutKeeps(ks: seq<Key>, docs: set<string>)
    ensures forall k :: k in KeepOut(ks, docs) <==> k in ks && k.doc !in docs
    ensures DistinctKeys(ks) ==> DistinctKeys(KeepOut(ks, docs))
  {
    if ks != [] {
      assert ks == [ks[0]] + ks[1..];
      KeepOutKeeps(ks[1..], docs);
    }
  }

  lemma IncomingIs(rows: seq<Incoming>, keys: seq<Key>, incoming: seq<Key>, tombstoned: set<string>)
    requires DistinctKeys(keys) && forall k :: k in keys <==> k in Keys(rows)
    requires incoming == KeepOut(keys, tombstoned)
    ensures KeySet(incoming) == Accepted(rows, tombstoned) && DistinctKeys(incoming)
    ensures KeySet(keys) == Keys(rows)
  {
    KeepOutKeeps(keys, tombstoned);
  }

  lemma {:induction false} Cardinality(ks: seq<Key>)
    requires DistinctKeys(ks)
    ensures |KeySet(ks)| == |ks|
  {
    if ks != [] {
      Cardinality(ks[1..]);
      assert ks == [ks[0]] + ks[1..];
      assert KeySet(ks) == {ks[0]} + KeySet(ks[1..]);
    }
  }

  lemma KeySetCons(ks: seq<Key>)
    requires ks != [] && DistinctKeys(ks)
    ensures KeySet(ks) == {ks[0]} + KeySet(ks[1..]) && ks[0] !in KeySet(ks[1..])
  {
    assert ks == [ks[0]] + ks[1..];
  }

  lemma OneMoreKey(k: Key, rest: set<Key>, existing: set<Key>)
    requires k !in rest
    ensures |({k} + rest) - existing| == (if k in existing then 0 else 1) + |rest - existing|
  {
    if k in existing {
      assert ({k} + rest) - existing == rest - existing;
    } else {
      assert ({k} + rest) - existing == {k} + (rest - existing);
    }
  }

  lemma {:induction false} CountNewIs(ks: seq<Key>, existing: set<Key>)
    requires DistinctKeys(ks)
    ensures CountNew(ks, existing) == |KeySet(ks) - existing|
  {
    if ks != [] {
      CountNewIs(ks[1..], existing);
      KeySetCons(ks);
      OneMoreKey(ks[0], KeySet(ks[1..]), existing);
    }
  }

  /** What is written is the new keys and the existing keys whose content changed. */
  lemma WrittenSplits(t: Table, ks: set<Key>, latest: map<Key, Content>)
    requires ks <= latest.Keys
    ensures |Written(t, ks, latest)| == |ks - t.Keys| + |Written(t, ks * t.Keys, latest)|
  {
    assert Written(t, ks, latest) == (ks - t.Keys) + Written(t, ks * t.Keys, latest);
  }

  lemma SubsetSize(a: set<Key>, b: set<Key>)
    requires a <= b
    ensures |b - a| == |b| - |a|
  {
    assert b == (b - a) + a;
  }

  lemma CountsAre(t: Table, rows: seq<Incoming>, incoming: seq<Key>, allKeys: seq<Key>)
    requires DistinctKeys(incoming) && DistinctKeys(allKeys)
    requires KeySet(incoming) <= KeySet(allKeys) == Keys(rows)
    ensures |KeySet(incoming)| == |incoming|
    ensures CountNew(incoming, t.Keys) == |KeySet(incoming) - t.Keys|
    ensures |Written(t, KeySet(incoming), Contents(Latest(rows)))|
         == CountNew(incoming, t.Keys) + |Written(t, KeySet(incoming) * t.Keys, Contents(Latest(rows)))|
    ensures |Keys(rows) - KeySet(incoming)| == |allKeys| - |incoming|
  {
    var ks := KeySet(incoming);
    Cardinality(incoming);
    Cardinality(allKeys);
    CountNewIs(incoming, t.Keys);
    WrittenSplits(t, ks, Contents(Latest(rows)));
    SubsetSize(ks, Keys(rows));
  }

  // ----- an upsert, line by line -----

  function SeqOf(r: Incoming): int {
    match r.seqNo case None => 0 case Some(n) => n
  }

  /** Two rows are of one line: the same document, and the same sequence number, absent counting as 0. */
  predicate SameLine(a: Incoming, b: Incoming) {
    a.doc == b.doc && SeqOf(a) == SeqOf(b)
  }

  lemma KeyIsLine(a: Incoming, b: Incoming)
    ensures KeyOf(a) == KeyOf(b) <==> SameLine(a, b)
    ensures KeyOf(a) == Key(a.doc, SeqOf(a))
  {}

  /** No later row of the batch is of the same line. */
  predicate LastOfLine(rows: seq<Incoming>, i: int) {
    0 <= i < |rows| && forall j :: i < j < |rows| ==> !SameLine(rows[i], rows[j])
  }

  /** The stored columns are those of the row, with the document's business date. */
  predicate Carries(c: Content, r: Incoming) {
    && c.materialCode == r.materialCode && c.materialName == r.materialName && c.qty == r.qty && c.reason == r.reason
    && c.dept == r.dept && c.drafter == r.drafter && c.processedAt == r.processedAt && c.keyword == r.keyword
    && c.docDate == DocDate(r.doc)
  }

  /** The row is stored: first received when its line was, updated only if a column changed. */
  predicate Stores(t: Table, u: Table, r: Incoming, now: int) {
    var k := Key(r.doc, SeqOf(r));
    && k in u && Carries(u[k].content, r)
    && u[k].receivedAt == (if k in t then t[k].receivedAt else now)
    && u[k].updatedAt == (if k in t && Carries(t[k].content, r) then t[k].updatedAt else now)
  }

  /** The batch has an admitted row of this line. */
  predicate Admits(rows: seq<Incoming>, tombstoned: set<string>, k: Key) {
    exists i :: 0 <= i < |rows| && k == Key(rows[i].doc, SeqOf(rows[i])) && k.doc !in tombstoned
  }

  /** The last row of every line is stored, unless its document is tombstoned; nothing else changes. */
  ghost predicate StoresBatch(t: Table, u: Table, rows: seq<Incoming>, tombstoned: set<string>, now: int) {
    && (forall i :: LastOfLine(rows, i) && rows[i].doc !in tombstoned ==> Stores(t, u, rows[i], now))
    && (forall k :: k in u ==> k in t || Admits(rows, tombstoned, k))
    && (forall k :: k in t && !Admits(rows, tombstoned, k) ==> k in u && u[k] == t[k])
  }

  /** The lines of the batch for which `p` holds, by their last row. */
  function Lines(rows: seq<Incoming>, p: Incoming -> bool): set<int> {
    set i | 0 <= i < |rows| && LastOfLine(rows, i) && p(rows[i])
  }

  function IsAdmitted(tombstoned: set<string>): Incoming -> bool {
    (r: Incoming) => r.doc !in tombstoned
  }

  function IsSkipped(tombstoned: set<string>): Incoming -> bool {
    (r: Incoming) => r.doc in tombstoned
  }

  function IsNew(t: Table, tombstoned: set<string>): Incoming -> bool {
    (r: Incoming) => r.doc !in tombstoned && Key(r.doc, SeqOf(r)) !in t
  }

  function IsChanged(t: Table, tombstoned: set<string>): Incoming -> bool {
    (r: Incoming) =>
      r.doc !in tombstoned && Key(r.doc, SeqOf(r)) in t && !Carries(t[Key(r.doc, SeqOf(r))].content, r)
  }

  /** Each line counts once: as upserted or skipped, and as inserted, updated or neither. */
  predicate CountsLines(t: Table, rows: seq<Incoming>, tombstoned: set<string>, res: BackupResult) {
    && res.upserted == |Lines(rows, IsAdmitted(tombstoned))| && res.skipped == |Lines(rows, IsSkipped(tombstoned))|
    && res.inserted == |Lines(rows, IsNew(t, tombstoned))| && res.updated == |Lines(rows, IsChanged(t, tombstoned))|
  }

  function KeysAt(rows: seq<Incoming>, at: set<int>): set<Key>
    requires forall i :: i in at ==> 0 <= i < |rows|
  {
    set i | i in at :: KeyOf(rows[i])
  }

  lemma KeysAtOneMore(rows: seq<Incoming>, rest: set<int>, i: int)
    requires 0 <= i < |rows| && forall j {:trigger j in rest} :: j in rest ==> 0 <= j < |rows|
    ensures KeysAt(rows, rest + {i}) == KeysAt(rows, rest) + {KeyOf(rows[i])}
  {}

  lemma NotAgain(rows: seq<Incoming>, j: int, i: int)
    requires LastOfLine(rows, j) && j < i < |rows|
    ensures KeyOf(rows[j]) != KeyOf(rows[i])
  {
    KeyIsLine(rows[j], rows[i]);
  }

  lemma {:induction false} OneKeyEach(rows: seq<Incoming>, at: set<int>, n: nat)
    requires n <= |rows|
    requires forall i {:trigger i in at} :: i in at ==> 0 <= i < n
    requires forall i {:trigger i in at} :: i in at ==> LastOfLine(rows, i)
    ensures |KeysAt(rows, at)| == |at|
  {
    if n == 0 {
      assert at == {} && KeysAt(rows, at) == {};
    } else if n - 1 !in at {
      OneKeyEach(rows, at, n - 1);
    } else {
      var i, rest := n - 1, at - {n - 1};
      assert at == rest + {i};
      OneKeyEach(rows, rest, i);
      forall j | j in rest ensures KeyOf(rows[j]) != KeyOf(rows[i]) { NotAgain(rows, j, i); }
      KeysAtOneMore(rows, rest, i);
      assert KeyOf(rows[i]) !in KeysAt(rows, rest);
    }
  }

  lemma {:induction false} LastIsLast(rows: seq<Incoming>, k: Key) returns (i: nat)
    requires k in Keys(rows)
    ensures i < |rows| && Last(rows, k) == rows[i] && KeyOf(rows[i]) == k
    ensures forall j :: i < j < |rows| ==> KeyOf(rows[j]) != k
  {
    var n := |rows| - 1;
    if KeyOf(rows[n]) == k {
      i := n;
    } else {
      assert rows == rows[..n] + [rows[n]];
      i := LastIsLast(rows[..n], k);
      assert Last(rows, k) == Last(rows[..n], k);
    }
  }

  /** The last row of a line is what its key stands for. */
  lemma LastOfLineIsLast(rows: seq<Incoming>, i: int)
    requires LastOfLine(rows, i)
    ensures KeyOf(rows[i]) in Keys(rows) && Last(rows, KeyOf(rows[i])) == rows[i]
  {
    assert rows[i] in rows;
    var j := LastIsLast(rows, KeyOf(rows[i]));
    KeyIsLine(rows[i], rows[j]);
    KeyIsLine(rows[j], rows[i]);
  }

  /** Counting lines is counting keys. */
  lemma LinesAreKeys(rows: seq<Incoming>, p: Incoming -> bool, ks: set<Key>)
    requires forall k :: k in ks <==> k in Keys(rows) && p(Last(rows, k))
    ensures |Lines(rows, p)| == |ks|
  {
    var at := Lines(rows, p);
    forall k ensures k in KeysAt(rows, at) <==> k in ks {
      if k in ks {
        var i := LastIsLast(rows, k);
        forall j | i < j < |rows| ensures !SameLine(rows[i], rows[j]) { KeyIsLine(rows[i], rows[j]); }
        assert i in at;
      }
      if k in KeysAt(rows, at) {
        var i :| i in at && KeyOf(rows[i]) == k;
        LastOfLineIsLast(rows, i);
      }
    }
    assert KeysAt(rows, at) == ks;
    OneKeyEach(rows, at, |rows|);
  }

  lemma ContentCarries(r: Incoming, c: Content)
    ensures c == ContentOf(r) <==> Carries(c, r)
  {}

  lemma LastHasKey(rows: seq<Incoming>, k: Key)
    requires k in Keys(rows)
    ensures Key(Last(rows, k).doc, SeqOf(Last(rows, k))) == k
  {
    var i := LastIsLast(rows, k);
    KeyIsLine(rows[i], rows[i]);
  }

  lemma CountsAreLines(t: Table, rows: seq<Incoming>, tombstoned: set<string>)
    ensures CountsLines(t, rows, tombstoned, Counts(t, rows, tombstoned))
  {
    var ks := Accepted(rows, tombstoned);
    forall k | k in Keys(rows) ensures Key(Last(rows, k).doc, SeqOf(Last(rows, k))) == k { LastHasKey(rows, k); }
    LinesAreKeys(rows, IsAdmitted(tombstoned), ks);
    LinesAreKeys(rows, IsSkipped(tombstoned), Keys(rows) - ks);
    LinesAreKeys(rows, IsNew(t, tombstoned), ks - t.Keys);
    LinesAreKeys(rows, IsChanged(t, tombstoned), Written(t, ks * t.Keys, Contents(Latest(rows))));
  }

  lemma AdmittedIsAccepted(rows: seq<Incoming>, tombstoned: set<string>, k: Key)
    ensures Admits(rows, tombstoned, k) <==> k in Accepted(rows, tombstoned)
  {
    forall r ensures KeyOf(r) == Key(r.doc, SeqOf(r)) { KeyIsLine(r, r); }
    if k in Accepted(rows, tombstoned) {
      var r :| r in rows && KeyOf(r) == k;
      var i :| 0 <= i < |rows| && rows[i] == r;
    }
  }

  lemma UpsertStoresBatch(t: Table, rows: seq<Incoming>, tombstoned: set<string>, now: int)
    ensures StoresBatch(t, Upserted(t, rows, tombstoned, now), rows, tombstoned, now)
  {
    var u := Upserted(t, rows, tombstoned, now);
    forall i | LastOfLine(rows, i) && rows[i].doc !in tombstoned ensures Stores(t, u, rows[i], now) {
      LastOfLineIsLast(rows, i);
      KeyIsLine(rows[i], rows[i]);
    }
    forall k ensures k in u ==> k in t || Admits(rows, tombstoned, k) { AdmittedIsAccepted(rows, tombstoned, k); }
    forall k | k in t && !Admits(rows, tombstoned, k) ensures k in u && u[k] == t[k] {
      AdmittedIsAccepted(rows, tombstoned, k);
    }
  }

  lemma UpsertIs(db: Db, table: string, rows: seq<Incoming>, now: int, after: Db, res: BackupResult)
    requires after == DoUpsert(db, table, rows, now)
    requires res == Counts(TableOf(db, table), rows, Tombstoned(db, table))
    ensures StoresBatch(TableOf(db, table), TableOf(after, table), rows, Tombstoned(db, table), now)
    ensures CountsLines(TableOf(db, table), rows, Tombstoned(db, table), res)
  {
    UpsertStoresBatch(TableOf(db, table), rows, Tombstoned(db, table), now);
    CountsAreLines(TableOf(db, table), rows, Tombstoned(db, table));
  }

  class Store {
    var tables: map<string, Table>
    var tombstones: map<(string, string), int>

    ghost function State(): Db
      reads this
    {
      Db(tables, tombstones)
    }

    const CHUNK := 500

    /** The chunked tombstone lookup of the batch's documents. */
    method LookupTombstones(table: string, docs: seq<string>) returns (found: set<string>)
      ensures found == set d | d in docs && (table, d) in tombstones
    {
      found := {};
      var start := 0;
      while start < |docs|
        invariant 0 <= start
        invariant found == set d | d in docs[..if start < |docs| then start else |docs|] && (table, d) in tombstones
      {
        var end := if start + CHUNK < |docs| then start + CHUNK else |docs|;
        var chunk := docs[start..end];
        assert docs[..end] == docs[..start] + chunk;
        found := found + set d | d in chunk && (table, d) in tombstones;
        start := start + CHUNK;
      }
      assert docs[..|docs|] == docs;
    }

    /** The chunked lookup of the keys already stored for the batch's documents. */
    method LookupExisting(t: Table, docs: seq<string>) returns (found: set<Key>)
      ensures found == set k | k in t && k.doc in docs
    {
      found := {};
      var start := 0;
      while start < |docs|
        invariant 0 <= start
        invariant found == set k | k in t && k.doc in docs[..if start < |docs| then start else |docs|]
      {
        var end := if start + CHUNK < |docs| then start + CHUNK else |docs|;
        var chunk := docs[start..end];
        assert docs[..end] == docs[..start] + chunk;
        found := found + set k | k in t && k.doc in chunk;
        start := start + CHUNK;
      }
      assert docs[..|docs|] == docs;
    }

    /** Keeps the last row of every key; `order` is the dictionary's insertion order. */
    method Dedupe(rows: seq<Incoming>) returns (deduped: map<Key, Incoming>, order: seq<Key>)
      ensures deduped == Latest(rows)
      ensures DistinctKeys(order) && forall k :: k in order <==> k in Keys(rows)
    {
      deduped, order := map[], [];
      for i := 0 to |rows|
        invariant deduped == Latest(rows[..i])
        invariant DistinctKeys(order) && forall k :: k in order <==> k in Keys(rows[..i])
      {
        LatestExtends(rows[..i], rows[i]);
        assert rows[..i + 1] == rows[..i] + [rows[i]];
        if KeyOf(rows[i]) !in deduped {
          order := order + [KeyOf(rows[i])];
        }
        deduped := deduped[KeyOf(rows[i]) := rows[i]];
      }
      assert rows[..|rows|] == rows;
    }

    /** Writes the batch and commits; `written` is the growth of total_changes. */
    method WriteAll(table: string, keys: seq<Key>, contents: map<Key, Content>, now: int) returns (written: nat)
      requires Batch(keys, contents)
      modifies this
      ensures tombstones == old(tombstones)
      ensures var t := TableOf(old(State()), table);
              && tables == old(tables)[table := PutAll(t, KeySet(keys), contents, now)]
              && written == |Written(t, KeySet(keys), contents)|
    {
      var t, n := ExecuteMany(if table in tables then tables[table] else map[], keys, contents, now);
      tables := tables[table := t];
      written := n;
    }

    /** Drops the keys of tombstoned documents from the batch. */
    method FilterTombstoned(table: string, keys: seq<Key>) returns (incoming: seq<Key>)
      ensures incoming == KeepOut(keys, Tombstoned(State(), table))
    {
      var tombstoned := LookupTombstones(table, Documents(keys));
      incoming := keys;
      if tombstoned != {} {
        incoming := KeepOut(incoming, tombstoned);
      } else {
        KeepAll(keys);
      }
      KeepOutSame(keys, tombstoned, Tombstoned(State(), table));
    }

    /** How many of the keys are not stored yet. */
    method CountInserted(table: string, keys: seq<Key>) returns (inserted: nat)
      ensures inserted == CountNew(keys, TableOf(State(), table).Keys)
    {
      var t := if table in tables then tables[table] else map[];
      var existing := LookupExisting(t, Documents(keys));
      inserted := CountNew(keys, existing);
      CountNewSame(keys, existing, t.Keys);
    }

    method UpsertMaterials(rows: seq<Incoming>, table: string, now: int) returns (res: BackupResult)
      modifies this
      ensures State() == DoUpsert(old(State()), table, rows, now)
      ensures res == Counts(TableOf(old(State()), table), rows, Tombstoned(old(State()), table))
      ensures StoresBatch(TableOf(old(State()), table), TableOf(State(), table), rows,
                          Tombstoned(old(State()), table), now)
      ensures CountsLines(TableOf(old(State()), table), rows, Tombstoned(old(State()), table), res)
    {
      var deduped, allKeys := Dedupe(rows);
      var incoming := FilterTombstoned(table, allKeys);
      IncomingIs(rows, allKeys, incoming, Tombstoned(State(), table));
      var skipped := |allKeys| - |incoming|;
      var inserted := CountInserted(table, incoming);
      CountsAre(TableOf(State(), table), rows, incoming, allKeys);
      var written := WriteAll(table, incoming, Contents(deduped), now);
      res := BackupResult(|incoming|, inserted, written - inserted, skipped);
      UpsertIs(old(State()), table, rows, now, State(), res);
    }

    method DeleteDocument(doc: string, table: string, now: int) returns (deleted: nat)
      modifies this
      ensures State() == DoDelete(old(State()), table, doc, now)
      ensures deleted == |RowsOf(TableOf(old(State()), table), doc)|
      ensures forall k :: k in TableOf(State(), table) <==> k in TableOf(old(State()), table) && k.doc != doc
      ensures forall k :: k in TableOf(State(), table) ==>
        TableOf(State(), table)[k] == TableOf(old(State()), table)[k]
      ensures deleted == |set k | k in TableOf(old(State()), table) && k.doc == doc|
      ensures tombstones == if deleted > 0 then old(tombstones)[(table, doc) := now] else old(tombstones)
    {
      var t := if table in tables then tables[table] else map[];
      var gone := set k | k in t && k.doc == doc;
      deleted := |gone|;
      assert forall k :: k in gone <==> k in t && k.doc == doc;
      if deleted > 0 {
        tables := tables[table := t - gone];
        tombstones := tombstones[(table, doc) := now];
      }
    }

    method RestoreDocument(doc: string, table: string) returns (restored: nat)
      modifies this
      ensures State() == DoRestore(old(State()), table, doc)
      ensures restored == if (table, doc) in old(tombstones) then 1 else 0
      ensures tables == old(tables) && (table, doc) !in tombstones
      ensures forall p :: p in tombstones <==> p in old(tombstones) && p != (table, doc)
      ensures forall p :: p in tombstones ==> tombstones[p] == old(tombstones)[p]
    {
      restored := if (table, doc) in tombstones then 1 else 0;
      tombstones := tombstones - {(table, doc)};
    }
  }

  // ----- what an upsert promises -----

  /** Row by row: a tombstoned or unmentioned key is untouched; otherwise the batch's last row for the key is stored,
      received_at is the first reception's, and updated_at moves exactly when the content changes. */
  lemma UpsertedRow(t: Table, rows: seq<Incoming>, tombstoned: set<string>, now: int, k: Key)
    ensures var u := Upserted(t, rows, tombstoned, now);
            if k !in Keys(rows) || k.doc in tombstoned then (k in u <==> k in t) && (k in t ==> u[k] == t[k])
            else
              && k in u && u[k].content == ContentOf(Last(rows, k))
              && u[k].receivedAt == (if k in t then t[k].receivedAt else now)
              && u[k].updatedAt == (if k in t && t[k].content == u[k].content then t[k].updatedAt else now)
  {}

  /** Each distinct key of the batch is either upserted or skipped. */
  lemma CountsAddUp(t: Table, rows: seq<Incoming>, tombstoned: set<string>)
    ensures var c := Counts(t, rows, tombstoned);
            && c.upserted + c.skipped == |Keys(rows)|
            && 0 <= c.inserted + c.updated <= c.upserted
  {
    var ks := Accepted(rows, tombstoned);
    SubsetSize(ks, Keys(rows));
    WrittenSplits(t, ks, Contents(Latest(rows)));
    var w := Written(t, ks, Contents(Latest(rows)));
    SubsetSize(w, ks);
  }

  lemma PutAgain(t: Table, ks: set<Key>, latest: map<Key, Content>, now: int, later: int)
    requires ks <= latest.Keys
    ensures var u := PutAll(t, ks, latest, now);
            PutAll(u, ks, latest, later) == u && ks - u.Keys == {} && Written(u, ks * u.Keys, latest) == {}
  {
    var u := PutAll(t, ks, latest, now);
    forall k | k in ks ensures k in u && u[k].content == latest[k] {}
    assert PutAll(u, ks, latest, later) == u;
  }

  /** Posting the same batch again changes no row, whenever it happens, and counts nothing inserted or updated. */
  lemma RepostingChangesNothing(t: Table, rows: seq<Incoming>, tombstoned: set<string>, now: int, later: int)
    ensures var u := Upserted(t, rows, tombstoned, now);
            var c := Counts(u, rows, tombstoned);
            && Upserted(u, rows, tombstoned, later) == u
            && c.inserted == 0 && c.updated == 0
            && c.upserted == Counts(t, rows, tombstoned).upserted
  {
    PutAgain(t, Accepted(rows, tombstoned), Contents(Latest(rows)), now, later);
  }

  // ----- deletes and restores over whole histories -----

  datatype Op = Upsert(table: string, rows: seq<Incoming>, now: int)
              | Delete(table: string, doc: string, now: int)
              | Restore(table: string, doc: string)

  function Perform(db: Db, op: Op): Db {
    match op
    case Upsert(table, rows, now) => DoUpsert(db, table, rows, now)
    case Delete(table, doc, now) => DoDelete(db, table, doc, now)
    case Restore(table, doc) => DoRestore(db, table, doc)
  }

  function PerformAll(db: Db, ops: seq<Op>): Db
    decreases |ops|
  {
    if ops == [] then db else PerformAll(Perform(db, ops[0]), ops[1..])
  }

  predicate HasRows(db: Db, table: string, doc: string) {
    RowsOf(TableOf(db, table), doc) != {}
  }

  /** A tombstoned document has no rows. */
  predicate Buried(db: Db) {
    forall p :: p in db.tombstones ==> !HasRows(db, p.0, p.1)
  }

  lemma NoRowsMeans(db: Db, table: string, doc: string)
    ensures HasRows(db, table, doc) <==> exists k :: k in TableOf(db, table) && k.doc == doc
  {
    if k :| k in TableOf(db, table) && k.doc == doc { assert k in RowsOf(TableOf(db, table), doc); }
  }

  lemma UpsertBuries(db: Db, table: string, rows: seq<Incoming>, now: int, doc: string)
    requires (table, doc) in db.tombstones && !HasRows(db, table, doc)
    ensures !HasRows(DoUpsert(db, table, rows, now), table, doc)
  {
    assert doc in Tombstoned(db, table);
    NoRowsMeans(db, table, doc);
    NoRowsMeans(DoUpsert(db, table, rows, now), table, doc);
  }

  lemma StepKeepsBuried(db: Db, op: Op)
    requires Buried(db)
    ensures Buried(Perform(db, op))
  {
    var after := Perform(db, op);
    forall p | p in after.tombstones ensures !HasRows(after, p.0, p.1) {
      NoRowsMeans(db, p.0, p.1);
      NoRowsMeans(after, p.0, p.1);
      match op
      case Upsert(table, rows, now) => if p.0 == table { UpsertBuries(db, table, rows, now, p.1); }
      case Delete(table, doc, now) =>
      case Restore(_, _) =>
    }
  }

  lemma {:induction false} TombstonedDocumentsHaveNoRows(db: Db, ops: seq<Op>)
    requires Buried(db)
    ensures Buried(PerformAll(db, ops))
    decreases |ops|
  {
    if ops != [] {
      StepKeepsBuried(db, ops[0]);
      TombstonedDocumentsHaveNoRows(Perform(db, ops[0]), ops[1..]);
    }
  }

  /** Operations on one table never change another, nor its tombstones. */
  lemma {:induction false} OtherTablesAreUntouched(db: Db, ops: seq<Op>, table: string)
    requires forall op :: op in ops ==> op.table != table
    ensures TableOf(PerformAll(db, ops), table) == TableOf(db, table)
    ensures Tombstoned(PerformAll(db, ops), table) == Tombstoned(db, table)
    decreases |ops|
  {
    if ops != [] {
      var next := Perform(db, ops[0]);
      assert TableOf(next, table) == TableOf(db, table);
      assert forall p: (string, string) :: p.0 == table ==> (p in next.tombstones <==> p in db.tombstones);
      assert Tombstoned(next, table) == Tombstoned(db, table);
      OtherTablesAreUntouched(next, ops[1..], table);
    }
  }

  /** The operation brings rows of the document into the table. */
  predicate Resends(op: Op, table: string, doc: string) {
    op.Upsert? && op.table == table && exists r :: r in op.rows && r.doc == doc
  }

  lemma OnlyUpsertAddsRows(db: Db, op: Op, table: string, doc: string)
    requires !HasRows(db, table, doc) && HasRows(Perform(db, op), table, doc)
    ensures Resends(op, table, doc)
  {
    var k :| k in RowsOf(TableOf(Perform(db, op), table), doc);
    assert k !in RowsOf(TableOf(db, table), doc);
    if op.Upsert? && op.table == table {
      assert k in Keys(op.rows);
    }
  }

  lemma {:induction false} RowsComeFromUpserts(db: Db, ops: seq<Op>, table: string, doc: string) returns (j: nat)
    requires !HasRows(db, table, doc) && HasRows(PerformAll(db, ops), table, doc)
    ensures j < |ops| && Resends(ops[j], table, doc)
    decreases |ops|
  {
    var next := Perform(db, ops[0]);
    if HasRows(next, table, doc) {
      OnlyUpsertAddsRows(db, ops[0], table, doc);
      j := 0;
    } else {
      var i := RowsComeFromUpserts(next, ops[1..], table, doc);
      j := i + 1;
    }
  }

  /** A deleted document comes back only by a restore and, after it, an upsert that resends it. */
  lemma {:induction false} DeletedDocumentReturnsOnlyByRestoreAndResend(db: Db, ops: seq<Op>, table: string,
          doc: string)
    returns (i: nat, j: nat)
    requires Buried(db) && (table, doc) in db.tombstones
    requires HasRows(PerformAll(db, ops), table, doc)
    ensures i < j < |ops| && ops[i] == Restore(table, doc) && Resends(ops[j], table, doc)
    decreases |ops|
  {
    var next := Perform(db, ops[0]);
    StepKeepsBuried(db, ops[0]);
    if ops[0] == Restore(table, doc) {
      i := 0;
      var k := RowsComeFromUpserts(next, ops[1..], table, doc);
      j := k + 1;
    } else {
      var a, b := DeletedDocumentReturnsOnlyByRestoreAndResend(next, ops[1..], table, doc);
      i, j := a + 1, b + 1;
    }
  }

  /** A document that was there and is deleted is gone, and is back later only if it was restored and then resent. */
  lemma DeletedStaysAway(db: Db, ops: seq<Op>, table: string, doc: string, now: int) returns (i: nat, j: nat)
    requires Buried(db) && HasRows(db, table, doc)
    ensures !HasRows(Perform(db, Delete(table, doc, now)), table, doc)
    ensures HasRows(PerformAll(Perform(db, Delete(table, doc, now)), ops), table, doc) ==>
      i < j < |ops| && ops[i] == Restore(table, doc) && Resends(ops[j], table, doc)
  {
    var gone := Perform(db, Delete(table, doc, now));
    StepKeepsBuried(db, Delete(table, doc, now));
    assert (table, doc) in gone.tombstones;
    i, j := 0, 0;
    if HasRows(PerformAll(gone, ops), table, doc) {
      i, j := DeletedDocumentReturnsOnlyByRestoreAndResend(gone, ops, table, doc);
    }
  }
}
