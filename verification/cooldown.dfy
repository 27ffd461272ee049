/** Anomaly alert cooldowns (api/anomaly/store_state.py) and the scan step over them (api/anomaly/detector.py). */
module Cooldown {
  import opened Options

  datatype Kind = VolumeDrop | VolumeSpike | StaleItem

  datatype Finding = Finding(kind: Kind, subject: string)

  function KindName(k: Kind): string {
    match k case VolumeDrop => "volume_drop" case VolumeSpike => "volume_spike" case StaleItem => "stale_item"
  }

  function KeyOf(f: Finding): string {
    KindName(f.kind) + ":" + f.subject
  }

  /** The keys under which the cooldowns are kept. */
  lemma KeysAre(subject: string)
    ensures KeyOf(Finding(VolumeDrop, subject)) == "volume_drop:" + subject
    ensures KeyOf(Finding(VolumeSpike, subject)) == "volume_spike:" + subject
    ensures KeyOf(Finding(StaleItem, subject)) == "stale_item:" + subject
  {}

  type Cooldowns = map<string, real>

  /** cooldowns.get(key, 0) */
  function LastEmit(c: Cooldowns, key: string): real {
    if key in c then c[key] else 0.0
  }

  /** The key is outside its cooldown window. */
  predicate Fresh(c: Cooldowns, key: string, now: real, cooldown: int) {
    now - LastEmit(c, key) >= cooldown as real
  }

  /** The cooldown is over at its very end, and a key never emitted counts as emitted at the epoch. */
  lemma FreshIs(c: Cooldowns, key: string, now: real, cooldown: int)
    ensures Fresh(c, key, now, cooldown) <==> now >= (if key in c then c[key] else 0.0) + cooldown as real
  {}

  function FreshOnes(fs: seq<Finding>, c: Cooldowns, now: real, cooldown: int): seq<Finding> {
    if fs == [] then []
    else (if Fresh(c, KeyOf(fs[0]), now, cooldown) then [fs[0]] else []) + FreshOnes(fs[1..], c, now, cooldown)
  }

  function Keys(fs: seq<Finding>): set<string> {
    set f | f in fs :: KeyOf(f)
  }

  function Marked(c: Cooldowns, fs: seq<Finding>, now: real): Cooldowns {
    c + map k | k in Keys(fs) :: now
  }

  function Pruned(c: Cooldowns, now: real, maxAge: int): Cooldowns {
    map k | k in c && now - c[k] < maxAge as real :: c[k]
  }

  lemma {:induction false} FreshOnesAre(fs: seq<Finding>, c: Cooldowns, now: real, cooldown: int)
    ensures forall f :: f in FreshOnes(fs, c, now, cooldown) <==> f in fs && Fresh(c, KeyOf(f), now, cooldown)
  {
    if fs != [] {
      assert fs == [fs[0]] + fs[1..];
      FreshOnesAre(fs[1..], c, now, cooldown);
    }
  }

  lemma FreshOnesCons(f: Finding, fs: seq<Finding>, c: Cooldowns, now: real, cooldown: int)
    ensures FreshOnes([f] + fs, c, now, cooldown)
         == (if Fresh(c, KeyOf(f), now, cooldown) then [f] else []) + FreshOnes(fs, c, now, cooldown)
  {
    assert ([f] + fs)[0] == f && ([f] + fs)[1..] == fs;
  }

  lemma SplitHead<T>(a: seq<T>, b: seq<T>)
    requires a != []
    ensures a + b == [a[0]] + (a[1..] + b) && a == [a[0]] + a[1..]
  {}

  lemma Associate<T>(a: seq<T>, b: seq<T>, c: seq<T>)
    ensures a + (b + c) == (a + b) + c
  {}

  lemma {:induction false} FreshOnesConcat(a: seq<Finding>, b: seq<Finding>, c: Cooldowns, now: real, cooldown: int)
    ensures FreshOnes(a + b, c, now, cooldown) == FreshOnes(a, c, now, cooldown) + FreshOnes(b, c, now, cooldown)
  {
    if a == [] {
      assert a + b == b;
    } else {
      var tail, head := a[1..], if Fresh(c, KeyOf(a[0]), now, cooldown) then [a[0]] else [];
      SplitHead(a, b);
      FreshOnesConcat(tail, b, c, now, cooldown);
      FreshOnesCons(a[0], tail + b, c, now, cooldown);
      FreshOnesCons(a[0], tail, c, now, cooldown);
      Associate(head, FreshOnes(tail, c, now, cooldown), FreshOnes(b, c, now, cooldown));
    }
  }

  lemma FreshOnesNext(fs: seq<Finding>, i: nat, c: Cooldowns, now: real, cooldown: int)
    requires i < |fs|
    ensures FreshOnes(fs[..i + 1], c, now, cooldown)
         == FreshOnes(fs[..i], c, now, cooldown) + if Fresh(c, KeyOf(fs[i]), now, cooldown) then [fs[i]] else []
  {
    assert fs[..i + 1] == fs[..i] + [fs[i]];
    FreshOnesConcat(fs[..i], [fs[i]], c, now, cooldown);
    assert [fs[i]] + [] == [fs[i]];
    FreshOnesCons(fs[i], [], c, now, cooldown);
  }

  lemma MarkedNext(c: Cooldowns, fs: seq<Finding>, f: Finding, now: real)
    ensures Marked(c, fs + [f], now) == Marked(c, fs, now)[KeyOf(f) := now]
  {
    assert Keys(fs + [f]) == Keys(fs) + {KeyOf(f)} by {
      assert f in fs + [f];
      assert forall g :: g in fs ==> g in fs + [f];
    }
  }

  /** What a scan starts from: a state file that cannot be read counts as an empty one. */
  function Loaded(saved: Cooldowns, readable: bool): Cooldowns {
    if readable then saved else map[]
  }

  class StateFile {
    var cooldowns: Cooldowns

    constructor (saved: Cooldowns, readable: bool)
      ensures cooldowns == Loaded(saved, readable)
    {
      cooldowns := if readable then saved else map[];
    }

    method FilterNew(findings: seq<Finding>, now: real, cooldown: int) returns (news: seq<Finding>)
      ensures news == FreshOnes(findings, cooldowns, now, cooldown)
    {
      news := [];
      for i := 0 to |findings|
        invariant news == FreshOnes(findings[..i], cooldowns, now, cooldown)
      {
        FreshOnesNext(findings, i, cooldowns, now, cooldown);
        var last := if KeyOf(findings[i]) in cooldowns then cooldowns[KeyOf(findings[i])] else 0.0;
        if now - last >= cooldown as real {
          news := news + [findings[i]];
        }
      }
      assert findings[..|findings|] == findings;
    }

    method MarkEmitted(findings: seq<Finding>, now: real)
      modifies this
      ensures cooldowns == Marked(old(cooldowns), findings, now)
      ensures forall f :: f in findings ==> KeyOf(f) in cooldowns && cooldowns[KeyOf(f)] == now
      ensures forall k :: k !in Keys(findings) ==>
        (k in cooldowns <==> k in old(cooldowns)) && (k in cooldowns ==> cooldowns[k] == old(cooldowns)[k])
    {
      for i := 0 to |findings|
        invariant cooldowns == Marked(old(cooldowns), findings[..i], now)
      {
        assert findings[..i + 1] == findings[..i] + [findings[i]];
        MarkedNext(old(cooldowns), findings[..i], findings[i], now);
        cooldowns := cooldowns[KeyOf(findings[i]) := now];
      }
      assert findings[..|findings|] == findings;
    }

    method Prune(now: real, maxAge: int)
      modifies this
      ensures cooldowns == Pruned(old(cooldowns), now, maxAge)
      ensures forall k :: k in cooldowns <==> k in old(cooldowns) && now < old(cooldowns)[k] + maxAge as real
      ensures forall k :: k in cooldowns ==> cooldowns[k] == old(cooldowns)[k]
    {
      cooldowns := map k | k in cooldowns && now - cooldowns[k] < maxAge as real :: cooldowns[k];
    }
  }

  // ----- one scan -----

  /** What one scan meets: its findings and time, which emissions succeed (by position among the fresh findings), and
      whether the state file can be read and can be written. */
  datatype Scan = Scan(findings: seq<Finding>, now: real, emits: seq<bool>, loads: bool, saves: bool)

  function Delivered(fs: seq<Finding>, emits: seq<bool>): seq<Finding> {
    if fs == [] || emits == [] then [] else (if emits[0] then [fs[0]] else []) + Delivered(fs[1..], emits[1..])
  }

  /** The findings outside their cooldown, as far as the scan can tell from the saved cooldowns `c`. */
  function FreshIn(c: Cooldowns, s: Scan, cooldown: int): seq<Finding> {
    FreshOnes(s.findings, Loaded(c, s.loads), s.now, cooldown)
  }

  /** The findings the scan emits successfully. */
  function EmittedBy(c: Cooldowns, s: Scan, cooldown: int): seq<Finding> {
    Delivered(FreshIn(c, s, cooldown), s.emits)
  }

  /** The cooldowns the scan holds in the end. */
  function MarkedBy(c: Cooldowns, s: Scan, cooldown: int): Cooldowns {
    Marked(Loaded(c, s.loads), EmittedBy(c, s, cooldown), s.now)
  }

  /** The saved cooldowns after the scan. */
  function SavedAfter(c: Cooldowns, s: Scan, cooldown: int): Cooldowns {
    if s.saves then Pruned(MarkedBy(c, s, cooldown), s.now, cooldown * 7) else c
  }

  lemma {:induction false} DeliveredNext(fs: seq<Finding>, emits: seq<bool>, f: Finding, ok: bool)
    requires |fs| == |emits|
    ensures Delivered(fs + [f], emits + [ok]) == Delivered(fs, emits) + if ok then [f] else []
  {
    if fs == [] {
      assert fs + [f] == [f] && emits + [ok] == [ok] && Delivered([], []) == [];
    } else {
      assert (fs + [f])[1..] == fs[1..] + [f] && (emits + [ok])[1..] == emits[1..] + [ok];
      DeliveredNext(fs[1..], emits[1..], f, ok);
    }
  }

  lemma {:induction false} DeliveredPrefix(fs: seq<Finding>, emits: seq<bool>)
    requires |fs| <= |emits|
    ensures Delivered(fs, emits[..|fs|]) == Delivered(fs, emits)
  {
    if fs != [] {
      assert emits[..|fs|][1..] == emits[1..][..|fs| - 1];
      DeliveredPrefix(fs[1..], emits[1..]);
    }
  }

  /** The emission loop: a failure is skipped, not marked. */
  method Deliver(news: seq<Finding>, emits: seq<bool>) returns (emitted: seq<Finding>)
    requires |news| <= |emits|
    ensures emitted == Delivered(news, emits)
  {
    emitted := [];
    for i := 0 to |news|
      invariant emitted == Delivered(news[..i], emits[..i])
    {
      assert news[..i + 1] == news[..i] + [news[i]] && emits[..i + 1] == emits[..i] + [emits[i]];
      DeliveredNext(news[..i], emits[..i], news[i], emits[i]);
      if emits[i] {
        emitted := emitted + [news[i]];
      }
    }
    DeliveredPrefix(news, emits);
    assert news[..|news|] == news;
  }

  lemma {:induction false} FreshOnesShort(fs: seq<Finding>, c: Cooldowns, now: real, cooldown: int)
    ensures |FreshOnes(fs, c, now, cooldown)| <= |fs|
  {
    if fs != [] { FreshOnesShort(fs[1..], c, now, cooldown); }
  }

  /** _emit_new: loads the state, emits what is fresh, marks only what was emitted, prunes, and tries to save. */
  method EmitNew(saved: Cooldowns, s: Scan, cooldown: int) returns (keys: seq<string>, left: Cooldowns)
    requires |s.emits| >= |s.findings|
    ensures left == SavedAfter(saved, s, cooldown)
    ensures |keys| == |EmittedBy(saved, s, cooldown)|
    ensures forall i :: 0 <= i < |keys| ==> keys[i] == KeyOf(EmittedBy(saved, s, cooldown)[i])
  {
    var state := new StateFile(saved, s.loads);
    var news := state.FilterNew(s.findings, s.now, cooldown);
    FreshOnesShort(s.findings, Loaded(saved, s.loads), s.now, cooldown);
    var emitted := Deliver(news, s.emits);
    state.MarkEmitted(emitted, s.now);
    state.Prune(s.now, cooldown * 7);
    left := if s.saves then state.cooldowns else saved;
    keys := seq(|emitted|, i requires 0 <= i < |emitted| => KeyOf(emitted[i]));
  }

  lemma {:induction false} DeliveredIn(fs: seq<Finding>, emits: seq<bool>)
    ensures forall f :: f in Delivered(fs, emits) ==> f in fs
  {
    if fs != [] && emits != [] {
      DeliveredIn(fs[1..], emits[1..]);
    }
  }

  predicate Emits(c: Cooldowns, s: Scan, cooldown: int, key: string) {
    key in Keys(EmittedBy(c, s, cooldown))
  }

  lemma EmittedIsFresh(c: Cooldowns, s: Scan, cooldown: int, key: string)
    requires Emits(c, s, cooldown, key)
    ensures Fresh(Loaded(c, s.loads), key, s.now, cooldown)
  {
    var f :| f in EmittedBy(c, s, cooldown) && KeyOf(f) == key;
    DeliveredIn(FreshIn(c, s, cooldown), s.emits);
    FreshOnesAre(s.findings, Loaded(c, s.loads), s.now, cooldown);
  }

  // ----- runs of scans -----

  function SavedAfterAll(c: Cooldowns, scans: seq<Scan>, cooldown: int): Cooldowns
    decreases |scans|
  {
    if scans == [] then c else SavedAfterAll(SavedAfter(c, scans[0], cooldown), scans[1..], cooldown)
  }

  predicate InOrder(scans: seq<Scan>) {
    forall i, j :: 0 <= i < j < |scans| ==> scans[i].now <= scans[j].now
  }

  /** No scan overwrites a state file that it could not read. */
  predicate NoneOverwritesUnread(scans: seq<Scan>) {
    forall i :: 0 <= i < |scans| ==> scans[i].loads || !scans[i].saves
  }

  /** The key was emitted at `since`: either the file still says so, or the cooldown has passed by `now`. */
  predicate Remembers(c: Cooldowns, key: string, since: real, now: real, cooldown: int) {
    (key in c && c[key] >= since) || now - since >= cooldown as real
  }

  lemma MarkingRemembers(c: Cooldowns, emitted: seq<Finding>, now: real, cooldown: int, key: string, since: real)
    requires Remembers(c, key, since, now, cooldown) && since <= now
    ensures Remembers(Pruned(Marked(c, emitted, now), now, cooldown * 7), key, since, now, cooldown)
  {
    var m := Marked(c, emitted, now);
    assert key in c ==> key in m && (m[key] == c[key] || m[key] == now);
    if key in m && key !in Pruned(m, now, cooldown * 7) {
      assert now - m[key] >= (cooldown * 7) as real == 7.0 * cooldown as real;
    }
  }

  lemma ScanRemembers(c: Cooldowns, s: Scan, cooldown: int, key: string, since: real)
    requires Remembers(c, key, since, s.now, cooldown) && since <= s.now && (s.loads || !s.saves)
    ensures Remembers(SavedAfter(c, s, cooldown), key, since, s.now, cooldown)
  {
    if s.saves {
      MarkingRemembers(c, EmittedBy(c, s, cooldown), s.now, cooldown, key, since);
    }
  }

  lemma {:induction false} RunRemembers(c: Cooldowns, scans: seq<Scan>, cooldown: int, key: string, since: real,
                                        now: real)
    requires Remembers(c, key, since, now, cooldown) && since <= now
    requires InOrder(scans) && NoneOverwritesUnread(scans)
    requires forall i :: 0 <= i < |scans| ==> now <= scans[i].now
    ensures Remembers(SavedAfterAll(c, scans, cooldown), key, since,
                      if scans == [] then now else scans[|scans| - 1].now, cooldown)
    decreases |scans|
  {
    if scans != [] {
      ScanRemembers(c, scans[0], cooldown, key, since);
      RunRemembers(SavedAfter(c, scans[0], cooldown), scans[1..], cooldown, key, since, scans[0].now);
    }
  }

  lemma MarkedNowSurvives(c: Cooldowns, emitted: seq<Finding>, now: real, cooldown: int, key: string)
    requires key in Keys(emitted)
    ensures Remembers(Pruned(Marked(c, emitted, now), now, cooldown * 7), key, now, now, cooldown)
  {
    assert Marked(c, emitted, now)[key] == now;
    if cooldown > 0 { assert now - now < (cooldown * 7) as real; }
  }

  lemma SavedEmissionIsRemembered(c: Cooldowns, s: Scan, cooldown: int, key: string)
    requires Emits(c, s, cooldown, key) && s.saves
    ensures Remembers(SavedAfter(c, s, cooldown), key, s.now, s.now, cooldown)
  {
    MarkedNowSurvives(Loaded(c, s.loads), EmittedBy(c, s, cooldown), s.now, cooldown, key);
  }

  /** Wherever the file remembers an emission at `since`, the next scan that can read it emits the key no earlier than
      the cooldown after that. */
  lemma RememberedKeepsCooldown(c: Cooldowns, since: real, between: seq<Scan>, last: Scan, cooldown: int, key: string)
    requires Remembers(c, key, since, since, cooldown)
    requires InOrder(between + [last]) && forall i :: 0 <= i < |between| ==> since <= between[i].now
    requires since <= last.now && NoneOverwritesUnread(between) && last.loads
    requires Emits(SavedAfterAll(c, between, cooldown), last, cooldown, key)
    ensures last.now - since >= cooldown as real
  {
    var all := between + [last];
    assert all[|between|] == last && forall i :: 0 <= i < |between| ==> all[i] == between[i];
    RunRemembers(c, between, cooldown, key, since, since);
    EmittedIsFresh(SavedAfterAll(c, between, cooldown), last, cooldown, key);
  }

  lemma OrderedParts(first: Scan, between: seq<Scan>, last: Scan)
    requires InOrder([first] + between + [last])
    ensures InOrder(between + [last]) && first.now <= last.now
    ensures forall i :: 0 <= i < |between| ==> first.now <= between[i].now
  {
    var all, rest := [first] + between + [last], between + [last];
    assert all[0] == first && forall i :: 0 <= i < |rest| ==> all[i + 1] == rest[i];
    assert rest[|between|] == last && forall i :: 0 <= i < |between| ==> rest[i] == between[i];
  }

  /** Two successful emissions of one key, the first by a scan whose state was saved, are at least the cooldown apart,
      whatever the scans between them find, emit, fail to emit or fail to save, as long as the last one reads the state
      file and none of the others overwrites it unread. */
  lemma EmissionsKeepTheCooldown(c: Cooldowns, first: Scan, between: seq<Scan>, last: Scan, cooldown: int, key: string)
    requires InOrder([first] + between + [last]) && first.saves
    requires NoneOverwritesUnread(between) && last.loads
    requires Emits(c, first, cooldown, key)
    requires Emits(SavedAfterAll(SavedAfter(c, first, cooldown), between, cooldown), last, cooldown, key)
    ensures last.now - first.now >= cooldown as real
  {
    OrderedParts(first, between, last);
    SavedEmissionIsRemembered(c, first, cooldown, key);
    RememberedKeepsCooldown(SavedAfter(c, first, cooldown), first.now, between, last, cooldown, key);
  }

  /** Whatever scans follow `first`, the next emission of the key by a scan that reads the state file comes at least the
      cooldown later, unless a scan in between overwrote the file unread. */
  ghost predicate KeepsCooldown(c: Cooldowns, first: Scan, cooldown: int, key: string) {
    forall between: seq<Scan>, last: Scan ::
      InOrder([first] + between + [last]) && NoneOverwritesUnread(between) && last.loads
      && Emits(SavedAfterAll(SavedAfter(c, first, cooldown), between, cooldown), last, cooldown, key)
      ==> last.now - first.now >= cooldown as real
  }

  lemma AloneIsEmitted(c: Cooldowns, s: Scan, cooldown: int, f: Finding)
    requires s.findings == [f] && s.emits == [true] && Fresh(Loaded(c, s.loads), KeyOf(f), s.now, cooldown)
    ensures Emits(c, s, cooldown, KeyOf(f))
  {
    FreshOnesAre([f], Loaded(c, s.loads), s.now, cooldown);
    var found := FreshIn(c, s, cooldown);
    assert f in found && found[0] in found;
    assert Delivered(found, [true]) == [found[0]] + Delivered(found[1..], [true][1..]);
    assert f in EmittedBy(c, s, cooldown);
  }

  /** A scan that reads what `first` left unsaved emits the key again before the cooldown is over. */
  lemma EarlyScan(c: Cooldowns, first: Scan, cooldown: int, key: string) returns (last: Scan)
    requires Emits(c, first, cooldown, key) && LastEmit(c, key) < first.now && cooldown > 0
    ensures last.loads && first.now <= last.now < first.now + cooldown as real && Emits(c, last, cooldown, key)
  {
    var f :| f in EmittedBy(c, first, cooldown) && KeyOf(f) == key;
    var again := LastEmit(c, key) + cooldown as real;
    last := Scan([f], if again < first.now then first.now else again, [true], true, true);
    AloneIsEmitted(c, last, cooldown, f);
  }

  /** The cooldown after an emission holds over every such run exactly when the emitting scan managed to save its state,
      or the file it could not read already held an emission of the key at that time or later. */
  lemma CooldownHoldsExactlyWhenSaved(c: Cooldowns, first: Scan, cooldown: int, key: string)
    requires Emits(c, first, cooldown, key) && cooldown > 0
    ensures KeepsCooldown(c, first, cooldown, key) <==> first.saves || LastEmit(c, key) >= first.now
  {
    EmittedIsFresh(c, first, cooldown, key);
    if first.saves || LastEmit(c, key) >= first.now {
      if first.saves { SavedEmissionIsRemembered(c, first, cooldown, key); }
      forall between, last | InOrder([first] + between + [last]) && NoneOverwritesUnread(between) && last.loads
          && Emits(SavedAfterAll(SavedAfter(c, first, cooldown), between, cooldown), last, cooldown, key)
        ensures last.now - first.now >= cooldown as real
      {
        OrderedParts(first, between, last);
        RememberedKeepsCooldown(SavedAfter(c, first, cooldown), first.now, between, last, cooldown, key);
      }
    } else {
      var last := EarlyScan(c, first, cooldown, key);
      assert SavedAfterAll(SavedAfter(c, first, cooldown), [], cooldown) == c;
      assert InOrder([first] + [] + [last]);
    }
  }

  /** Without a successful save the very next scan that reads the file, however soon, finds the key fresh again, unless
      the emitting scan could not read there that the cooldown still runs. */
  lemma UnsavedEmissionIsForgotten(c: Cooldowns, s: Scan, cooldown: int, key: string, later: real)
    requires Emits(c, s, cooldown, key) && !s.saves && s.now <= later
    ensures Fresh(SavedAfter(c, s, cooldown), key, later, cooldown) <==> s.loads || Fresh(c, key, later, cooldown)
  {
    EmittedIsFresh(c, s, cooldown, key);
  }

  lemma {:induction false} AllFresh(fs: seq<Finding>, now: real, cooldown: int)
    ensures FreshOnes(fs, map[], now, cooldown) == if now >= cooldown as real then fs else []
  {
    if fs != [] { AllFresh(fs[1..], now, cooldown); }
  }

  /** A scan that cannot read the state file finds every key fresh, whatever was emitted a moment ago (but for a clock
      within one cooldown of the epoch), and if it then saves, the cooldowns of all keys but its own are gone. */
  lemma UnreadStateIsForgotten(c: Cooldowns, s: Scan, cooldown: int)
    requires !s.loads
    ensures FreshIn(c, s, cooldown) == if s.now >= cooldown as real then s.findings else []
    ensures s.saves ==> SavedAfter(c, s, cooldown).Keys <= Keys(s.findings)
  {
    AllFresh(s.findings, s.now, cooldown);
    DeliveredIn(FreshIn(c, s, cooldown), s.emits);
    forall k | s.saves && k in SavedAfter(c, s, cooldown) ensures k in Keys(s.findings) {
      assert k in Keys(EmittedBy(c, s, cooldown));
    }
  }

  // ----- pruning -----

  /** The file holds times of past scans only. */
  predicate Past(c: Cooldowns, now: real) {
    forall k :: k in c ==> 0.0 <= c[k] <= now
  }

  /** A run of scans by a clock that starts at the epoch and never goes back. */
  predicate RunsFrom(start: real, scans: seq<Scan>) {
    InOrder(scans) && 0.0 <= start && forall i :: 0 <= i < |scans| ==> start <= scans[i].now
  }

  function EndOf(start: real, scans: seq<Scan>): real {
    if scans == [] then start else scans[|scans| - 1].now
  }

  lemma ScanKeepsPast(c: Cooldowns, s: Scan, cooldown: int, now: real)
    requires Past(c, now) && 0.0 <= now <= s.now
    ensures Past(SavedAfter(c, s, cooldown), s.now)
  {}

  /** Every run keeps the file to times of past scans. */
  lemma {:induction false} RunKeepsPast(c: Cooldowns, start: real, scans: seq<Scan>, cooldown: int)
    requires Past(c, start) && RunsFrom(start, scans)
    ensures Past(SavedAfterAll(c, scans, cooldown), EndOf(start, scans))
    decreases |scans|
  {
    if scans != [] {
      ScanKeepsPast(c, scans[0], cooldown, start);
      RunKeepsPast(SavedAfter(c, scans[0], cooldown), scans[0].now, scans[1..], cooldown);
    }
  }

  /** The saved cooldowns after a scan that does not prune. */
  function UnprunedAfter(c: Cooldowns, s: Scan, cooldown: int): Cooldowns {
    if s.saves then MarkedBy(c, s, cooldown) else c
  }

  /** What each scan of a run sees as fresh, and what it emits. */
  function Decisions(c: Cooldowns, scans: seq<Scan>, cooldown: int): seq<(seq<Finding>, seq<Finding>)>
    decreases |scans|
  {
    if scans == [] then []
    else [(FreshIn(c, scans[0], cooldown), EmittedBy(c, scans[0], cooldown))]
         + Decisions(SavedAfter(c, scans[0], cooldown), scans[1..], cooldown)
  }

  /** The same for a run that never prunes. */
  function UnprunedDecisions(c: Cooldowns, scans: seq<Scan>, cooldown: int): seq<(seq<Finding>, seq<Finding>)>
    decreases |scans|
  {
    if scans == [] then []
    else [(FreshIn(c, scans[0], cooldown), EmittedBy(c, scans[0], cooldown))]
         + UnprunedDecisions(UnprunedAfter(c, scans[0], cooldown), scans[1..], cooldown)
  }

  /** `p` is `u` but for entries that were seven cooldowns old by `now`. */
  predicate PrunedVersion(p: Cooldowns, u: Cooldowns, now: real, cooldown: int) {
    && Past(u, now)
    && (forall k :: k in p ==> k in u && p[k] == u[k])
    && forall k :: k in u && k !in p ==> now - u[k] >= 7.0 * cooldown as real
  }

  lemma SameFreshness(p: Cooldowns, u: Cooldowns, now: real, later: real, cooldown: int, key: string)
    requires PrunedVersion(p, u, now, cooldown) && 0.0 <= now <= later
    ensures Fresh(p, key, later, cooldown) <==> Fresh(u, key, later, cooldown)
  {}

  lemma {:induction false} SameFreshOnes(fs: seq<Finding>, p: Cooldowns, u: Cooldowns, now: real, later: real,
          cooldown: int)
    requires PrunedVersion(p, u, now, cooldown) && 0.0 <= now <= later
    ensures FreshOnes(fs, p, later, cooldown) == FreshOnes(fs, u, later, cooldown)
  {
    if fs != [] {
      SameFreshness(p, u, now, later, cooldown, KeyOf(fs[0]));
      SameFreshOnes(fs[1..], p, u, now, later, cooldown);
    }
  }

  lemma MarkedVersion(p: Cooldowns, u: Cooldowns, emitted: seq<Finding>, now: real, later: real, cooldown: int)
    requires PrunedVersion(p, u, now, cooldown) && 0.0 <= now <= later
    ensures PrunedVersion(Pruned(Marked(p, emitted, later), later, cooldown * 7), Marked(u, emitted, later), later,
        cooldown)
  {
    assert (cooldown * 7) as real == 7.0 * cooldown as real;
  }

  lemma SameDecision(p: Cooldowns, u: Cooldowns, now: real, s: Scan, cooldown: int)
    requires PrunedVersion(p, u, now, cooldown) && 0.0 <= now <= s.now
    ensures FreshIn(p, s, cooldown) == FreshIn(u, s, cooldown) && EmittedBy(p, s, cooldown) == EmittedBy(u, s, cooldown)
    ensures PrunedVersion(SavedAfter(p, s, cooldown), UnprunedAfter(u, s, cooldown), s.now, cooldown)
  {
    SameFreshOnes(s.findings, Loaded(p, s.loads), Loaded(u, s.loads), now, s.now, cooldown);
    if s.saves {
      MarkedVersion(Loaded(p, s.loads), Loaded(u, s.loads), EmittedBy(p, s, cooldown), now, s.now, cooldown);
    }
  }

  lemma {:induction false} SameDecisions(p: Cooldowns, u: Cooldowns, now: real, scans: seq<Scan>, cooldown: int)
    requires PrunedVersion(p, u, now, cooldown) && RunsFrom(now, scans)
    ensures Decisions(p, scans, cooldown) == UnprunedDecisions(u, scans, cooldown)
    decreases |scans|
  {
    if scans != [] {
      SameDecision(p, u, now, scans[0], cooldown);
      SameDecisions(SavedAfter(p, scans[0], cooldown), UnprunedAfter(u, scans[0], cooldown), scans[0].now, scans[1..],
          cooldown);
    }
  }

  /** Over every run, from any file of past times, pruning at seven cooldowns changes no decision of any scan. */
  lemma PruningIsInvisible(c: Cooldowns, start: real, scans: seq<Scan>, cooldown: int)
    requires Past(c, start) && RunsFrom(start, scans)
    ensures Decisions(c, scans, cooldown) == UnprunedDecisions(c, scans, cooldown)
  {
    SameDecisions(c, c, start, scans, cooldown);
  }

  // ----- failed emissions -----

  lemma UnmarkedStaysFresh(c: Cooldowns, emitted: seq<Finding>, now: real, later: real, cooldown: int, key: string)
    requires Past(c, now) && 0.0 <= now <= later && key !in Keys(emitted) && Fresh(c, key, now, cooldown)
    ensures Fresh(Pruned(Marked(c, emitted, now), now, cooldown * 7), key, later, cooldown)
  {
    var m := Marked(c, emitted, now);
    assert Past(m, now) && LastEmit(m, key) == LastEmit(c, key);
    MarkedVersion(c, c, emitted, now, now, cooldown);
    SameFreshness(Pruned(m, now, cooldown * 7), m, now, later, cooldown, key);
  }

  /** After any run from an empty file, a finding that a scan sees as fresh and fails to emit is fresh again at the next
      scan, exactly unless the scan could neither read nor write the file and the next one reads there a cooldown that
      still runs. */
  lemma FailedEmissionIsRetried(scans: seq<Scan>, s: Scan, next: Scan, cooldown: int, key: string)
    requires RunsFrom(0.0, scans + [s, next])
    requires var c := SavedAfterAll(map[], scans, cooldown);
      Fresh(Loaded(c, s.loads), key, s.now, cooldown) && !Emits(c, s, cooldown, key)
    ensures var c := SavedAfterAll(map[], scans, cooldown);
      Fresh(Loaded(SavedAfter(c, s, cooldown), next.loads), key, next.now, cooldown)
      <==> s.loads || s.saves || !next.loads || Fresh(c, key, next.now, cooldown)
  {
    var all, c := scans + [s, next], SavedAfterAll(map[], scans, cooldown);
    assert all[|scans|] == s && all[|scans| + 1] == next && forall i :: 0 <= i < |scans| ==> all[i] == scans[i];
    RunKeepsPast(map[], 0.0, scans, cooldown);
    if s.saves {
      UnmarkedStaysFresh(Loaded(c, s.loads), EmittedBy(c, s, cooldown), s.now, next.now, cooldown, key);
    }
  }

  // ----- the keys of one scan -----

  datatype Item = Item(code: string, daysIdle: int)

  function StaleFindings(items: seq<Item>, staleDays: int): seq<Finding> {
    if items == [] then []
    else
      var here := if items[0].daysIdle < staleDays then [] else [Finding(StaleItem, items[0].code)];
      here + StaleFindings(items[1..], staleDays)
  }

  /** At most one volume finding, then one per stale item. */
  function Collected(volume: Option<Finding>, items: seq<Item>, staleDays: int): seq<Finding> {
    (if volume.Some? then [volume.value] else []) + StaleFindings(items, staleDays)
  }

  predicate DistinctKeys(fs: seq<Finding>) {
    forall i, j :: 0 <= i < j < |fs| ==> KeyOf(fs[i]) != KeyOf(fs[j])
  }

  lemma {:induction false} StaleKeys(items: seq<Item>, staleDays: int)
    requires forall i, j :: 0 <= i < j < |items| ==> items[i].code != items[j].code
    ensures DistinctKeys(StaleFindings(items, staleDays))
    ensures forall f :: f in StaleFindings(items, staleDays) ==>
      f.kind.StaleItem? && exists i :: 0 <= i < |items| && items[i].code == f.subject
  {
    if items != [] {
      StaleKeys(items[1..], staleDays);
      var rest := StaleFindings(items[1..], staleDays);
      forall f | f in rest ensures KeyOf(f) != KeyOf(Finding(StaleItem, items[0].code)) {
        assert KeyOf(f)[|"stale_item:"|..] == f.subject;
        assert KeyOf(Finding(StaleItem, items[0].code))[|"stale_item:"|..] == items[0].code;
        var i :| 0 <= i < |items[1..]| && items[1..][i].code == f.subject;
        assert items[i + 1].code == f.subject;
      }
      forall f | f in rest ensures exists i :: 0 <= i < |items| && items[i].code == f.subject {
        var i :| 0 <= i < |items[1..]| && items[1..][i].code == f.subject;
        assert items[i + 1].code == f.subject;
      }
    }
  }

  /** What a scan reports: its volume finding, if any, and every item idle for the given days or longer. */
  lemma {:induction false} CollectedAre(volume: Option<Finding>, items: seq<Item>, staleDays: int, f: Finding)
    ensures f in Collected(volume, items, staleDays)
            <==> volume == Some(f)
                 || (f.kind == StaleItem && exists i :: 0 <= i < |items| && items[i].code == f.subject
                                                        && items[i].daysIdle >= staleDays)
    decreases |items|
  {
    if items != [] {
      CollectedAre(None, items[1..], staleDays, f);
      if i :| 0 <= i < |items| && items[i].code == f.subject && items[i].daysIdle >= staleDays {
        if i > 0 { assert items[1..][i - 1] == items[i]; }
      }
      if i :| 0 <= i < |items[1..]| && items[1..][i].code == f.subject && items[1..][i].daysIdle >= staleDays {
        assert items[i + 1] == items[1..][i];
      }
    }
  }

  /** GROUP BY item_code gives each item once, so one scan never reports a key twice, and emits none twice. */
  lemma ScanKeysAreDistinct(volume: Option<Finding>, items: seq<Item>, staleDays: int)
    requires volume.Some? ==> !volume.value.kind.StaleItem?
    requires forall i, j :: 0 <= i < j < |items| ==> items[i].code != items[j].code
    ensures DistinctKeys(Collected(volume, items, staleDays))
  {
    StaleKeys(items, staleDays);
    if volume.Some? {
      forall f | f in StaleFindings(items, staleDays) ensures KeyOf(f) != KeyOf(volume.value) {
        assert KeyOf(f)[0] == 's' && KeyOf(volume.value)[0] == 'v';
      }
    }
  }

  lemma {:induction false} DistinctSurvivesFilter(fs: seq<Finding>, c: Cooldowns, now: real, cooldown: int)
    requires DistinctKeys(fs)
    ensures DistinctKeys(FreshOnes(fs, c, now, cooldown))
  {
    if fs != [] {
      DistinctSurvivesFilter(fs[1..], c, now, cooldown);
      FreshOnesAre(fs[1..], c, now, cooldown);
      var rest := FreshOnes(fs[1..], c, now, cooldown);
      forall i | 0 <= i < |rest| ensures KeyOf(rest[i]) != KeyOf(fs[0]) {
        assert rest[i] in fs[1..];
        var k :| 0 <= k < |fs[1..]| && fs[1..][k] == rest[i];
        assert fs[k + 1] == rest[i];
      }
    }
  }

  lemma {:induction false} DistinctSurvivesDelivery(fs: seq<Finding>, emits: seq<bool>)
    requires DistinctKeys(fs)
    ensures DistinctKeys(Delivered(fs, emits))
  {
    if fs != [] && emits != [] {
      DistinctSurvivesDelivery(fs[1..], emits[1..]);
      DeliveredIn(fs[1..], emits[1..]);
      var rest := Delivered(fs[1..], emits[1..]);
      forall i | 0 <= i < |rest| ensures KeyOf(rest[i]) != KeyOf(fs[0]) {
        assert rest[i] in fs[1..];
        var k :| 0 <= k < |fs[1..]| && fs[1..][k] == rest[i];
        assert fs[k + 1] == rest[i];
      }
    }
  }

  /** A scan with distinct keys emits each key at most once. */
  lemma OneEmissionPerScan(c: Cooldowns, s: Scan, cooldown: int)
    requires DistinctKeys(s.findings)
    ensures DistinctKeys(EmittedBy(c, s, cooldown))
  {
    DistinctSurvivesFilter(s.findings, Loaded(c, s.loads), s.now, cooldown);
    DistinctSurvivesDelivery(FreshIn(c, s, cooldown), s.emits);
  }
}
