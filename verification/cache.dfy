/** The version-keyed result cache (shared/cache.py) under concurrent calls, evictions and database changes.
    Contents of the database are numbered in the order in which they appear. What get_db_version makes of a content is
    any function of its number; the code's may repeat itself (times rounded to seconds, and one text for any error). */
module ApiCache {
  import opened Options

  const VERSION_TTL: real := 1.0

  /** `query` stands for the endpoint and its arguments. */
  datatype Key = Key(query: int, version: nat)

  /** What the endpoint computes for a query on a content. */
  datatype Value = Value(query: int, content: nat)

  /** The remembered version and the clock reading it was remembered under. */
  datatype Remembered = Remembered(version: nat, timestamp: real)

  predicate StillValid(r: Option<Remembered>, now: real) {
    r.Some? && now - r.value.timestamp < VERSION_TTL
  }

  function VersionFor(r: Option<Remembered>, now: real, current: nat): nat {
    if StillValid(r, now) then r.value.version else current
  }

  function RememberedAfter(r: Option<Remembered>, now: real, current: nat): Option<Remembered> {
    if StillValid(r, now) then r else Some(Remembered(current, now))
  }

  /** The second, locked look at the cache: an entry that is there by now wins. */
  function Stored(entries: map<Key, Value>, k: Key, v: Value): map<Key, Value> {
    if k in entries then entries else entries[k := v]
  }

  // ----- interleavings -----

  /** A call: it reads the clock (`at`), forms its key (`formed`), looks, and on a miss computes and stores. */
  datatype Call =
    | Ready
    | Timed(query: int, at: real)
    | Keyed(key: Key, at: real, formed: real)
    | Missed(key: Key, at: real, formed: real)
    | Computed(key: Key, at: real, formed: real, value: Value)
    | Returned(key: Key, at: real, formed: real, value: Value)

  /** `content` is the current content; `ended[c]` is when content c was replaced, `version(c)` its version. */
  datatype State = State(clock: real, content: nat, ended: seq<real>, version: nat -> nat,
                         remembered: Option<Remembered>, entries: map<Key, Value>, calls: map<int, Call>)

  /** The version the next key is formed with, unless one is remembered. */
  function CurrentVersion(s: State): nat {
    s.version(s.content)
  }

  datatype Step =
    | Pass(seconds: real)
    | ChangeDb
    | ReadClock(id: int, query: int)
    | FormKey(id: int)
    | Look(id: int)
    | Compute(id: int)
    | Store(id: int)
    | Abort(id: int)
    | Evict(key: Key)
    | ClearAll

  function CallOf(s: State, id: int): Call {
    if id in s.calls then s.calls[id] else Ready
  }

  predicate Enabled(s: State, step: Step) {
    match step
    case Pass(seconds) => seconds >= 0.0
    case FormKey(id) => CallOf(s, id).Timed?
    case Look(id) => CallOf(s, id).Keyed?
    case Compute(id) => CallOf(s, id).Missed?
    case Store(id) => CallOf(s, id).Computed?
    case _ => true
  }

  function Apply(s: State, step: Step): State
    requires Enabled(s, step)
  {
    match step
    case Pass(seconds) => s.(clock := s.clock + seconds)
    case ChangeDb => s.(content := s.content + 1, ended := s.ended + [s.clock])
    case ReadClock(id, query) => s.(calls := s.calls[id := Timed(query, s.clock)])
    case FormKey(id) =>
      var c := CallOf(s, id);
      var version := VersionFor(s.remembered, c.at, CurrentVersion(s));
      s.(calls := s.calls[id := Keyed(Key(c.query, version), c.at, s.clock)],
         remembered := RememberedAfter(s.remembered, c.at, CurrentVersion(s)))
    case Look(id) =>
      var c := CallOf(s, id);
      s.(calls := s.calls[id := if c.key in s.entries then Returned(c.key, c.at, c.formed, s.entries[c.key])
                               else Missed(c.key, c.at, c.formed)])
    case Compute(id) =>
      var c := CallOf(s, id);
      s.(calls := s.calls[id := Computed(c.key, c.at, c.formed, Value(c.key.query, s.content))])
    case Store(id) =>
      var c := CallOf(s, id);
      var entries := Stored(s.entries, c.key, c.value);
      s.(entries := entries, calls := s.calls[id := Returned(c.key, c.at, c.formed, entries[c.key])])
    case Abort(id) => s.(calls := s.calls[id := Ready])
    case Evict(key) => s.(entries := s.entries - {key})
    case ClearAll => s.(entries := map[])
  }

  predicate Runs(s: State, steps: seq<Step>)
    decreases |steps|
  {
    steps == [] || (Enabled(s, steps[0]) && Runs(Apply(s, steps[0]), steps[1..]))
  }

  function After(s: State, steps: seq<Step>): State
    requires Runs(s, steps)
    decreases |steps|
  {
    if steps == [] then s else After(Apply(s, steps[0]), steps[1..])
  }

  /** The content was current at some instant later than `at`, or still is. */
  predicate CurrentAfter(s: State, content: nat, at: real)
    requires |s.ended| == s.content
  {
    content == s.content || (content < s.content && s.ended[content] > at)
  }

  /** Computed from a content no older than some content of the key's version. */
  ghost predicate ValueOk(s: State, k: Key, v: Value) {
    v.query == k.query && v.content <= s.content && exists c: nat :: c <= v.content && s.version(c) == k.version
  }

  /** The version of a content that was current later than `at`. */
  ghost predicate VersionAfter(s: State, version: nat, at: real)
    requires |s.ended| == s.content
  {
    exists c: nat :: s.version(c) == version && CurrentAfter(s, c, at)
  }

  ghost predicate KeyOk(s: State, k: Key, at: real, formed: real)
    requires |s.ended| == s.content
  {
    at <= formed <= s.clock && VersionAfter(s, k.version, at - VERSION_TTL)
  }

  ghost predicate CallOk(s: State, c: Call)
    requires |s.ended| == s.content
  {
    match c
    case Ready => true
    case Timed(_, at) => at <= s.clock
    case Keyed(k, at, formed) => KeyOk(s, k, at, formed)
    case Missed(k, at, formed) => KeyOk(s, k, at, formed)
    case Computed(k, at, formed, v) => KeyOk(s, k, at, formed) && ValueOk(s, k, v)
    case Returned(k, at, formed, v) => KeyOk(s, k, at, formed) && ValueOk(s, k, v)
  }

  /** The version remembered at some time was the version of a content that lasted until then. */
  ghost predicate RememberedOk(s: State, r: Remembered)
    requires |s.ended| == s.content
  {
    r.timestamp <= s.clock
    && exists c: nat :: s.version(c) == r.version
                        && (c == s.content || (c < s.content && s.ended[c] >= r.timestamp))
  }

  ghost predicate Inv(s: State) {
    && |s.ended| == s.content
    && (forall i, j :: 0 <= i < j < |s.ended| ==> s.ended[i] <= s.ended[j])
    && (forall i :: 0 <= i < |s.ended| ==> s.ended[i] <= s.clock)
    && (s.remembered.Some? ==> RememberedOk(s, s.remembered.value))
    && (forall k :: k in s.entries ==> ValueOk(s, k, s.entries[k]))
    && forall id :: id in s.calls ==> CallOk(s, s.calls[id])
  }

  predicate Init(s: State) {
    s.content == 0 && s.ended == [] && s.remembered == None && s.entries == map[] && s.calls == map[]
  }

  /** Time and changes leave what was true of a key or a remembered version true. */
  lemma VersionsStay(s: State, t: State, version: nat, at: real)
    requires Inv(s) && |t.ended| == t.content && s.ended <= t.ended && t.version == s.version
    requires forall i :: |s.ended| <= i < |t.ended| ==> t.ended[i] >= s.clock
    requires VersionAfter(s, version, at) && at < s.clock
    ensures VersionAfter(t, version, at)
  {
    var c: nat :| s.version(c) == version && CurrentAfter(s, c, at);
    assert CurrentAfter(t, c, at);
  }

  lemma CallStays(s: State, t: State, c: Call)
    requires Inv(s) && |t.ended| == t.content && s.ended <= t.ended && t.version == s.version && s.clock <= t.clock
    requires forall i :: |s.ended| <= i < |t.ended| ==> t.ended[i] >= s.clock
    requires CallOk(s, c)
    ensures CallOk(t, c)
  {
    if !c.Ready? && !c.Timed? { VersionsStay(s, t, c.key.version, c.at - VERSION_TTL); }
  }

  lemma ChangeKeepsInv(s: State)
    requires Inv(s)
    ensures Inv(Apply(s, ChangeDb))
  {
    var t := Apply(s, ChangeDb);
    assert forall i :: 0 <= i < |s.ended| ==> t.ended[i] == s.ended[i];
    if s.remembered.Some? {
      var r := s.remembered.value;
      var c: nat :| s.version(c) == r.version && (c == s.content || (c < s.content && s.ended[c] >= r.timestamp));
      assert t.version(c) == r.version && c < t.content && t.ended[c] >= r.timestamp;
    }
    forall id | id in t.calls ensures CallOk(t, t.calls[id]) { CallStays(s, t, s.calls[id]); }
  }

  lemma PassKeepsInv(s: State, seconds: real)
    requires Inv(s) && seconds >= 0.0
    ensures Inv(Apply(s, Pass(seconds)))
  {
    var t := Apply(s, Pass(seconds));
    forall id | id in t.calls ensures CallOk(t, t.calls[id]) { CallStays(s, t, s.calls[id]); }
  }

  lemma CallKeepsInv(s: State, id: int, c: Call)
    requires Inv(s) && CallOk(s, c)
    ensures Inv(s.(calls := s.calls[id := c]))
  {
    var t := s.(calls := s.calls[id := c]);
    forall i | i in t.calls ensures CallOk(t, t.calls[i]) {
      CallStays(s, t, if i == id then c else s.calls[i]);
    }
  }

  lemma RememberKeepsInv(s: State, at: real)
    requires Inv(s) && at <= s.clock
    ensures Inv(s.(remembered := RememberedAfter(s.remembered, at, CurrentVersion(s))))
    ensures VersionAfter(s, VersionFor(s.remembered, at, CurrentVersion(s)), at - VERSION_TTL)
  {
    var t := s.(remembered := RememberedAfter(s.remembered, at, CurrentVersion(s)));
    forall id | id in t.calls ensures CallOk(t, t.calls[id]) { CallStays(s, t, s.calls[id]); }
    if StillValid(s.remembered, at) {
      var r := s.remembered.value;
      var c: nat :| s.version(c) == r.version && (c == s.content || (c < s.content && s.ended[c] >= r.timestamp));
      assert CurrentAfter(s, c, at - VERSION_TTL);
    } else {
      assert s.version(s.content) == CurrentVersion(s) && CurrentAfter(s, s.content, at - VERSION_TTL);
    }
  }

  lemma EntriesKeepInv(s: State, entries: map<Key, Value>)
    requires Inv(s) && forall k :: k in entries ==> ValueOk(s, k, entries[k])
    ensures Inv(s.(entries := entries))
  {
    var t := s.(entries := entries);
    forall id | id in t.calls ensures CallOk(t, t.calls[id]) { CallStays(s, t, s.calls[id]); }
  }

  lemma KeyedOk(s: State, u: State, id: int)
    requires Inv(s) && Enabled(s, FormKey(id))
    requires u == s.(remembered := RememberedAfter(s.remembered, CallOf(s, id).at, CurrentVersion(s)))
    ensures CallOk(u, CallOf(Apply(s, FormKey(id)), id))
  {
    var at := CallOf(s, id).at;
    RememberKeepsInv(s, at);
    var version := VersionFor(s.remembered, at, CurrentVersion(s));
    var c: nat :| s.version(c) == version && CurrentAfter(s, c, at - VERSION_TTL);
    assert u.version(c) == version && CurrentAfter(u, c, at - VERSION_TTL);
  }

  /** A content computed after the key was formed is no older than the content the key's version is of. */
  lemma ComputedOk(s: State, c: Call)
    requires Inv(s) && c.Missed? && CallOk(s, c)
    ensures ValueOk(s, c.key, Value(c.key.query, s.content))
  {
    var i: nat :| s.version(i) == c.key.version && CurrentAfter(s, i, c.at - VERSION_TTL);
    assert i <= s.content;
  }

  lemma StepKeepsInv(s: State, step: Step)
    requires Inv(s) && Enabled(s, step)
    ensures Inv(Apply(s, step))
  {
    match step
    case Pass(seconds) => PassKeepsInv(s, seconds);
    case ChangeDb => ChangeKeepsInv(s);
    case ReadClock(id, query) => CallKeepsInv(s, id, Timed(query, s.clock));
    case FormKey(id) =>
      assert CallOk(s, CallOf(s, id));
      RememberKeepsInv(s, CallOf(s, id).at);
      var u := s.(remembered := RememberedAfter(s.remembered, CallOf(s, id).at, CurrentVersion(s)));
      CallStays(s, u, s.calls[id]);
      KeyedOk(s, u, id);
      CallKeepsInv(u, id, CallOf(Apply(s, step), id));
    case Look(id) =>
      assert CallOk(s, CallOf(s, id));
      CallKeepsInv(s, id, CallOf(Apply(s, step), id));
    case Compute(id) =>
      assert CallOk(s, CallOf(s, id));
      ComputedOk(s, CallOf(s, id));
      CallKeepsInv(s, id, CallOf(Apply(s, step), id));
    case Store(id) =>
      assert CallOk(s, CallOf(s, id));
      var entries := Stored(s.entries, CallOf(s, id).key, CallOf(s, id).value);
      EntriesKeepInv(s, entries);
      CallKeepsInv(s.(entries := entries), id, CallOf(Apply(s, step), id));
    case Abort(id) => CallKeepsInv(s, id, Ready);
    case Evict(key) => EntriesKeepInv(s, s.entries - {key});
    case ClearAll => EntriesKeepInv(s, map[]);
  }

  lemma {:induction false} RunKeepsInv(s: State, steps: seq<Step>)
    requires Inv(s) && Runs(s, steps)
    ensures Inv(After(s, steps))
    decreases |steps|
  {
    if steps != [] {
      StepKeepsInv(s, steps[0]);
      RunKeepsInv(Apply(s, steps[0]), steps[1..]);
    }
  }

  lemma {:induction false} RunKeepsVersion(s: State, steps: seq<Step>)
    requires Runs(s, steps)
    ensures After(s, steps).version == s.version
    decreases |steps|
  {
    if steps != [] { RunKeepsVersion(Apply(s, steps[0]), steps[1..]); }
  }

  /** No version is ever used for two contents. */
  ghost predicate Identifies(version: nat -> nat) {
    forall i: nat, j: nat :: version(i) == version(j) ==> i == j
  }

  /** The call answers its own query from a content still current less than a second before the call read the clock,
      or later. */
  ghost predicate IsRecent(s: State, c: Call)
    requires c.Returned?
  {
    |s.ended| == s.content && c.value.query == c.key.query && CurrentAfter(s, c.value.content, c.at - 1.0)
  }

  lemma LaterIsRecent(s: State, i: nat, j: nat, at: real)
    requires Inv(s) && CurrentAfter(s, i, at) && i <= j <= s.content
    ensures CurrentAfter(s, j, at)
  {}

  lemma ReturnedIsRecent(t: State, c: Call)
    requires Inv(t) && Identifies(t.version) && c.Returned? && CallOk(t, c)
    ensures IsRecent(t, c)
  {
    var i: nat :| t.version(i) == c.key.version && CurrentAfter(t, i, c.at - VERSION_TTL);
    var j: nat :| j <= c.value.content && t.version(j) == c.key.version;
    assert i == j;
    LaterIsRecent(t, i, c.value.content, c.at - VERSION_TTL);
  }

  /** If versions identify contents, then under every interleaving what a call returns is the answer to its own query,
      from a content still current less than a second before the call read the clock, or later. */
  lemma ResultsAreRecent(s: State, steps: seq<Step>, id: int)
    requires Init(s) && Identifies(s.version) && Runs(s, steps) && CallOf(After(s, steps), id).Returned?
    ensures IsRecent(After(s, steps), CallOf(After(s, steps), id))
  {
    RunKeepsInv(s, steps);
    RunKeepsVersion(s, steps);
    var t := After(s, steps);
    ReturnedIsRecent(t, CallOf(t, id));
  }

  ghost predicate AlwaysRecent(version: nat -> nat) {
    forall s, steps, id :: Init(s) && s.version == version && Runs(s, steps)
                           && CallOf(After(s, steps), id).Returned? ==>
      IsRecent(After(s, steps), CallOf(After(s, steps), id))
  }

  /** A call that waited `wait` seconds for the lock may return a content that was current less than a second before
      its key was formed, or later. */
  ghost predicate RecentWhenFormed(wait: real) {
    forall s, steps, id :: Init(s) && Identifies(s.version) && Runs(s, steps) ==>
      var t := After(s, steps);
      CallOf(t, id).Returned? && CallOf(t, id).formed - CallOf(t, id).at == wait ==>
        |t.ended| == t.content && CurrentAfter(t, CallOf(t, id).value.content, CallOf(t, id).formed - 1.0)
  }

  /** Before any call. */
  function Fresh(version: nat -> nat): State {
    State(0.0, 0, [], version, None, map[], map[])
  }

  lemma Prepend(s: State, step: Step, steps: seq<Step>)
    requires Enabled(s, step) && Runs(Apply(s, step), steps)
    ensures Runs(s, [step] + steps) && After(s, [step] + steps) == After(Apply(s, step), steps)
  {
    assert ([step] + steps)[1..] == steps;
  }

  lemma {:induction false} RunsConcat(s: State, a: seq<Step>, b: seq<Step>)
    requires Runs(s, a) && Runs(After(s, a), b)
    ensures Runs(s, a + b) && After(s, a + b) == After(After(s, a), b)
    decreases |a|
  {
    if a == [] {
      assert a + b == b;
    } else {
      RunsConcat(Apply(s, a[0]), a[1..], b);
      assert a + b == [a[0]] + (a[1..] + b);
      Prepend(s, a[0], a[1..] + b);
    }
  }

  /** A call that nothing interrupts, hit or miss. */
  lemma CallRuns(s: State, id: int, query: int) returns (steps: seq<Step>)
    ensures Runs(s, steps)
    ensures var k := Key(query, VersionFor(s.remembered, s.clock, CurrentVersion(s)));
      var entries := Stored(s.entries, k, Value(query, s.content));
      After(s, steps) == s.(remembered := RememberedAfter(s.remembered, s.clock, CurrentVersion(s)), entries := entries,
                            calls := s.calls[id := Returned(k, s.clock, s.clock, entries[k])])
  {
    var s1 := Apply(s, ReadClock(id, query));
    var s2 := Apply(s1, FormKey(id));
    var s3 := Apply(s2, Look(id));
    var rest := [];
    if CallOf(s3, id).Missed? {
      var s4 := Apply(s3, Compute(id));
      Prepend(s4, Store(id), []);
      Prepend(s3, Compute(id), [Store(id)] + []);
      rest := [Compute(id)] + ([Store(id)] + []);
    }
    Prepend(s2, Look(id), rest);
    Prepend(s1, FormKey(id), [Look(id)] + rest);
    Prepend(s, ReadClock(id, query), [FormKey(id)] + ([Look(id)] + rest));
    steps := [ReadClock(id, query)] + ([FormKey(id)] + ([Look(id)] + rest));
    var k := Key(query, VersionFor(s.remembered, s.clock, CurrentVersion(s)));
    var entries := Stored(s.entries, k, Value(query, s.content));
    assert After(s, steps).calls == s.calls[id := Returned(k, s.clock, s.clock, entries[k])];
  }

  lemma StaleHit(s: State, wait: real) returns (steps: seq<Step>)
    requires wait > 0.0
    requires s.clock == 0.0 && s.content == 0 && s.ended == []
    requires s.remembered == Some(Remembered(s.version(0), 0.0))
    requires Key(0, s.version(0)) in s.entries && s.entries[Key(0, s.version(0))] == Value(0, 0)
    ensures Runs(s, steps)
    ensures var t := After(s, steps);
      && CallOf(t, 2).Returned? && CallOf(t, 2).formed - CallOf(t, 2).at == wait
      && |t.ended| == t.content && !CurrentAfter(t, CallOf(t, 2).value.content, CallOf(t, 2).formed - 1.0)
  {
    var pause := if wait >= VERSION_TTL then 0.0 else VERSION_TTL - wait;
    var s1 := Apply(s, ChangeDb);
    var s2 := Apply(s1, Pass(pause));
    var s3 := Apply(s2, ReadClock(2, 0));
    var s4 := Apply(s3, Pass(wait));
    var s5 := Apply(s4, FormKey(2));
    Prepend(s5, Look(2), []);
    Prepend(s4, FormKey(2), [Look(2)] + []);
    Prepend(s3, Pass(wait), [FormKey(2)] + ([Look(2)] + []));
    Prepend(s2, ReadClock(2, 0), [Pass(wait)] + ([FormKey(2)] + ([Look(2)] + [])));
    Prepend(s1, Pass(pause), [ReadClock(2, 0)] + ([Pass(wait)] + ([FormKey(2)] + ([Look(2)] + []))));
    Prepend(s, ChangeDb, [Pass(pause)] + ([ReadClock(2, 0)] + ([Pass(wait)] + ([FormKey(2)] + ([Look(2)] + [])))));
    steps := [ChangeDb] + ([Pass(pause)] + ([ReadClock(2, 0)] + ([Pass(wait)] + ([FormKey(2)] + ([Look(2)] + [])))));
  }

  /** One call fills the cache, the content changes, and a second call reads the clock within the second but gets
      the lock only `wait` later. */
  lemma StaleRun(wait: real) returns (s: State, steps: seq<Step>)
    requires wait > 0.0
    ensures Init(s) && Identifies(s.version) && Runs(s, steps)
    ensures var t := After(s, steps);
      && CallOf(t, 2).Returned? && CallOf(t, 2).formed - CallOf(t, 2).at == wait
      && |t.ended| == t.content && !CurrentAfter(t, CallOf(t, 2).value.content, CallOf(t, 2).formed - 1.0)
  {
    s := Fresh((c: nat) => c);
    var first := CallRuns(s, 1, 0);
    var second := StaleHit(After(s, first), wait);
    RunsConcat(s, first, second);
    steps := first + second;
  }

  /** The clock is read before the lock is taken, so the second counts from the key only for a call that did not
      have to wait for the lock. */
  lemma RecentWhenFormedExactlyWithoutWaiting(wait: real)
    requires wait >= 0.0
    ensures RecentWhenFormed(wait) <==> wait == 0.0
  {
    if wait == 0.0 {
      forall s, steps, id | Init(s) && Identifies(s.version) && Runs(s, steps) && CallOf(After(s, steps), id).Returned?
                            && CallOf(After(s, steps), id).formed - CallOf(After(s, steps), id).at == wait
        ensures var t := After(s, steps);
          |t.ended| == t.content && CurrentAfter(t, CallOf(t, id).value.content, CallOf(t, id).formed - 1.0)
      {
        ResultsAreRecent(s, steps, id);
      }
    } else {
      var s, steps := StaleRun(wait);
      assert CallOf(After(s, steps), 2).Returned?;
    }
  }

  /** `n` changes in one instant. */
  lemma {:induction false} ChangesRun(s: State, n: nat) returns (steps: seq<Step>)
    requires |s.ended| == s.content
    ensures Runs(s, steps)
    ensures After(s, steps) == s.(content := s.content + n, ended := s.ended + seq(n, _ => s.clock))
    decreases n
  {
    if n == 0 {
      steps := [];
      assert s.ended + seq(0, _ => s.clock) == s.ended;
    } else {
      var t := Apply(s, ChangeDb);
      var rest := ChangesRun(t, n - 1);
      Prepend(s, ChangeDb, rest);
      steps := [ChangeDb] + rest;
      assert t.ended + seq(n - 1, _ => t.clock) == s.ended + seq(n, _ => s.clock);
    }
  }

  /** A call fills the cache from content `i`; a second later, long after the contents up to `j` have come, a call finds
      that entry under the version they share. */
  lemma SharedVersionRun(version: nat -> nat, i: nat, j: nat) returns (s: State, steps: seq<Step>)
    requires i < j && version(i) == version(j)
    ensures Init(s) && s.version == version && Runs(s, steps) && CallOf(After(s, steps), 2).Returned?
    ensures !IsRecent(After(s, steps), CallOf(After(s, steps), 2))
  {
    s := Fresh(version);
    var a := ChangesRun(s, i);
    var s1 := After(s, a);
    var b := CallRuns(s1, 1, 0);
    var s2 := After(s1, b);
    var c := ChangesRun(s2, j - i);
    var s3 := After(s2, c);
    var s4 := Apply(s3, Pass(VERSION_TTL));
    var d := CallRuns(s4, 2, 0);
    Prepend(s3, Pass(VERSION_TTL), d);
    RunsConcat(s2, c, [Pass(VERSION_TTL)] + d);
    RunsConcat(s1, b, c + ([Pass(VERSION_TTL)] + d));
    RunsConcat(s, a, b + (c + ([Pass(VERSION_TTL)] + d)));
    steps := a + (b + (c + ([Pass(VERSION_TTL)] + d)));
  }

  /** Results are recent in every run exactly when no two contents share a version. */
  lemma AlwaysRecentExactlyWhenVersionsIdentify(version: nat -> nat)
    ensures AlwaysRecent(version) <==> Identifies(version)
  {
    if Identifies(version) {
      forall s, steps, id | Init(s) && s.version == version && Runs(s, steps)
                            && CallOf(After(s, steps), id).Returned?
        ensures IsRecent(After(s, steps), CallOf(After(s, steps), id))
      {
        ResultsAreRecent(s, steps, id);
      }
    } else {
      var i: nat, j: nat :| version(i) == version(j) && i != j;
      var s, steps := SharedVersionRun(version, if i < j then i else j, if i < j then j else i);
      assert CallOf(After(s, steps), 2).Returned?;
    }
  }

  predicate Removes(step: Step, k: Key) {
    step == Evict(k) || step == ClearAll
  }

  /** While an entry is not evicted, every call on its key that finishes returns the entry's value. */
  lemma {:induction false} RacingCallsAgree(s: State, steps: seq<Step>, k: Key, id: int)
    requires Runs(s, steps) && k in s.entries
    requires forall step :: step in steps ==> !Removes(step, k)
    ensures var t := After(s, steps);
            && k in t.entries && t.entries[k] == s.entries[k]
            && (CallOf(t, id).Returned? && CallOf(t, id).key == k && CallOf(s, id) != CallOf(t, id)
                ==> CallOf(t, id).value == s.entries[k])
    decreases |steps|
  {
    if steps != [] {
      var u := Apply(s, steps[0]);
      assert !Removes(steps[0], k);
      RacingCallsAgree(u, steps[1..], k, id);
    }
  }

  // ----- the cache itself -----

  class Cache {
    var remembered: Option<Remembered>
    var entries: map<Key, Value>

    /** One locked section; `current` is what the files' modification times say now. */
    method GetDbVersion(now: real, current: nat) returns (version: nat)
      modifies this
      ensures version == VersionFor(old(remembered), now, current)
      ensures var r := old(remembered);
        if r.Some? && now < r.value.timestamp + 1.0 then version == r.value.version && remembered == r
        else version == current && remembered == Some(Remembered(current, now))
      ensures remembered == RememberedAfter(old(remembered), now, current) && entries == old(entries)
    {
      if remembered.Some? && now - remembered.value.timestamp < VERSION_TTL {
        return remembered.value.version;
      }
      remembered := Some(Remembered(current, now));
      version := current;
    }

    method Lookup(k: Key) returns (hit: Option<Value>)
      ensures hit.Some? <==> k in entries
      ensures hit.Some? ==> hit.value == entries[k]
    {
      hit := None;
      if k in entries {
        hit := Some(entries[k]);
      }
    }

    method StoreResult(k: Key, computed: Value) returns (result: Value)
      modifies this
      ensures entries == Stored(old(entries), k, computed) && remembered == old(remembered)
      ensures k in entries && result == entries[k]
    {
      result := computed;
      if k !in entries {
        entries := entries[k := result];
      } else {
        result := entries[k];
      }
    }

    /** The whole wrapper, undisturbed: a run of the protocol, so what is proved of every interleaving holds of it.
        `content` is what the endpoint computes from, `current` its version. */
    method CallEndpoint(query: int, now: real, content: nat, current: nat, ghost s: State, ghost id: int)
      returns (result: Value, ghost steps: seq<Step>)
      requires s.remembered == remembered && s.entries == entries && s.clock == now
      requires s.content == content && s.version(content) == current
      modifies this
      ensures Runs(s, steps)
      ensures After(s, steps).remembered == remembered && After(s, steps).entries == entries
      ensures var key := Key(query, VersionFor(old(remembered), now, current));
        CallOf(After(s, steps), id) == Returned(key, now, now, result)
      ensures Inv(s) ==> result.query == query && result.content <= content
      ensures Inv(s) && Identifies(s.version) ==> IsRecent(After(s, steps), CallOf(After(s, steps), id))
    {
      var version := GetDbVersion(now, current);
      steps := CallRuns(s, id, query);
      if Inv(s) {
        RunKeepsInv(s, steps);
        RunKeepsVersion(s, steps);
        assert CallOk(After(s, steps), CallOf(After(s, steps), id));
        if Identifies(s.version) { ReturnedIsRecent(After(s, steps), CallOf(After(s, steps), id)); }
      }
      var hit := Lookup(Key(query, version));
      if hit.Some? {
        result := hit.value;
        return;
      }
      result := StoreResult(Key(query, version), Value(query, content));
    }

    method Clear()
      modifies this
      ensures entries == map[] && remembered == old(remembered)
    {
      entries := map[];
    }
  }
}
