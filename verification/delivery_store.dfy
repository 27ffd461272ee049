/** The notification tables and their operations (api/notifications/deliveries_repo.py, webhooks_repo.py). */
module DeliveryStore {
  import opened Options
  import opened Queue
  import Like
  import PyText

  datatype StoreError = UnknownWebhook

  /** ORDER BY next_attempt_at ASC, id ASC; NULL sorts first. */
  predicate Earlier(t: Table, a: int, b: int)
    requires a in t.rows && b in t.rows
  {
    var x, y := t.rows[a].nextAt, t.rows[b].nextAt;
    if x == y then a < b else x.None? || (y.Some? && x.value < y.value)
  }

  function InsertDue(t: Table, id: int, ids: seq<int>): seq<int>
    requires id in t.rows && forall i :: 0 <= i < |ids| ==> ids[i] in t.rows
  {
    if ids == [] || Earlier(t, id, ids[0]) then [id] + ids else [ids[0]] + InsertDue(t, id, ids[1..])
  }

  predicate SortedDue(t: Table, ids: seq<int>) {
    && (forall i :: 0 <= i < |ids| ==> ids[i] in t.rows)
    && forall i, j :: 0 <= i < j < |ids| ==> Earlier(t, ids[i], ids[j])
  }

  lemma {:induction false} InsertDueSorts(t: Table, id: int, ids: seq<int>)
    requires id in t.rows && SortedDue(t, ids) && id !in ids
    ensures SortedDue(t, InsertDue(t, id, ids))
    ensures forall x :: x in InsertDue(t, id, ids) <==> x == id || x in ids
  {
    if ids != [] && !Earlier(t, id, ids[0]) {
      InsertDueSorts(t, id, ids[1..]);
      var r := InsertDue(t, id, ids[1..]);
      assert ids == [ids[0]] + ids[1..];
      forall k | 0 <= k < |r| ensures Earlier(t, ids[0], r[k]) { assert r[k] in r; }
    }
  }

  /** The due rows with an id below `n`, in claim order. */
  function SelectDue(t: Table, now: int, n: nat): (ids: seq<int>)
    ensures SortedDue(t, ids)
    ensures forall id :: id in ids <==> 0 <= id < n && IsDue(t, id, now)
  {
    if n == 0 then []
    else
      var rest := SelectDue(t, now, n - 1);
      if IsDue(t, n - 1, now) then
        InsertDueSorts(t, n - 1, rest);
        InsertDue(t, n - 1, rest)
      else rest
  }

  /** `ids` are the first `limit` due rows in claim order. */
  predicate FirstDue(t: Table, now: int, limit: nat, ids: seq<int>) {
    && SortedDue(t, ids) && |ids| <= limit
    && (forall i :: 0 <= i < |ids| ==> IsDue(t, ids[i], now))
    && forall id :: id in t.rows && IsDue(t, id, now) && id !in ids ==>
         |ids| == limit && forall i :: 0 <= i < |ids| ==> Earlier(t, ids[i], id)
  }

  /** The row waits to be sent, its time has come, and its webhook is active. */
  predicate Ready(r: Delivery, webhooks: map<int, bool>, now: int) {
    && (r.status == Queued || r.status == Retrying) && (r.nextAt.Some? ==> r.nextAt.value <= now)
    && r.webhook in webhooks && webhooks[r.webhook] == true
  }

  /** The first of two rows is to be sent before the second: no time before any time, earlier before later, and of two
      with the same time the lower id. */
  predicate SentBefore(a: int, r: Delivery, b: int, s: Delivery) {
    if r.nextAt.Some? && s.nextAt.Some? && r.nextAt.value != s.nextAt.value then r.nextAt.value < s.nextAt.value
    else if r.nextAt.Some? != s.nextAt.Some? then s.nextAt.Some?
    else a < b
  }

  /** The claim takes rows that are ready, in the order of sending, up to the limit; what is ready and left out comes
      after all that were taken. */
  predicate TakesFirst(rows: map<int, Delivery>, webhooks: map<int, bool>, now: int, limit: nat, ids: seq<int>) {
    && |ids| <= limit
    && (forall i :: 0 <= i < |ids| ==> ids[i] in rows && Ready(rows[ids[i]], webhooks, now))
    && (forall i, j :: 0 <= i < j < |ids| ==> SentBefore(ids[i], rows[ids[i]], ids[j], rows[ids[j]]))
    && forall id :: id in rows && Ready(rows[id], webhooks, now) && id !in ids ==>
         |ids| == limit && forall i :: 0 <= i < |ids| ==> SentBefore(ids[i], rows[ids[i]], id, rows[id])
  }

  lemma FirstDueTakesFirst(t: Table, now: int, limit: nat, ids: seq<int>)
    requires FirstDue(t, now, limit, ids)
    ensures TakesFirst(t.rows, t.webhooks, now, limit, ids)
  {
    forall id | id in t.rows && Ready(t.rows[id], t.webhooks, now) && id !in ids
      ensures |ids| == limit && forall i :: 0 <= i < |ids| ==> SentBefore(ids[i], t.rows[ids[i]], id, t.rows[id])
    {
      assert IsDue(t, id, now);
      forall i | 0 <= i < |ids| ensures SentBefore(ids[i], t.rows[ids[i]], id, t.rows[id]) {
        assert Earlier(t, ids[i], id);
      }
    }
    forall i, j | 0 <= i < j < |ids| ensures SentBefore(ids[i], t.rows[ids[i]], ids[j], t.rows[ids[j]]) {
      assert Earlier(t, ids[i], ids[j]);
    }
  }

  /** Matching rows with an id below `n`, by ascending id. */
  function SelectByStatus(t: Table, statuses: seq<Status>, webhook: Option<int>, n: nat): (ids: seq<int>)
    ensures forall id :: id in ids <==> 0 <= id < n && id in t.rows && t.rows[id].status in statuses
                                        && (webhook.Some? ==> t.rows[id].webhook == webhook.value)
    ensures forall i, j :: 0 <= i < j < |ids| ==> ids[i] < ids[j]
  {
    if n == 0 then []
    else
      var rest := SelectByStatus(t, statuses, webhook, n - 1);
      assert forall i :: 0 <= i < |rest| ==> rest[i] in rest;
      if n - 1 in t.rows && t.rows[n - 1].status in statuses
          && (webhook.Some? ==> t.rows[n - 1].webhook == webhook.value)
      then rest + [n - 1] else rest
  }

  function Lower(s: string): string {
    seq(|s|, i requires 0 <= i < |s| => Like.Fold(s[i]))
  }

  /** The status a requested text stands for: only the terminal failures can be retried in bulk. */
  function Retryable(s: string): Option<Status> {
    var s2 := Lower(PyText.Strip(s));
    if s2 == "dead" then Some(Dead) else if s2 == "failure" then Some(Failure) else None
  }

  /** The text names the status, up to case and surrounding space. */
  predicate Names(s: string, x: Status) {
    || (x == Dead && Like.SameText(PyText.Strip(s), "dead"))
    || (x == Failure && Like.SameText(PyText.Strip(s), "failure"))
  }

  predicate Asks(statuses: seq<string>, x: Status) {
    exists i :: 0 <= i < |statuses| && Names(statuses[i], x)
  }

  lemma LowerIs(s: string, word: string)
    requires forall i :: 0 <= i < |word| ==> Like.Fold(word[i]) == word[i]
    ensures Lower(s) == word <==> Like.SameText(s, word)
  {
    if Like.SameText(s, word) { assert forall i :: 0 <= i < |s| ==> Lower(s)[i] == word[i]; }
    if Lower(s) == word { assert forall i :: 0 <= i < |s| ==> Like.Fold(s[i]) == Lower(s)[i] == word[i]; }
  }

  /** What is retried is what is named. */
  lemma RetryableIsNamed(s: string, x: Status)
    ensures Retryable(s) == Some(x) <==> Names(s, x)
  {
    LowerIs(PyText.Strip(s), "dead");
    LowerIs(PyText.Strip(s), "failure");
  }

  lemma AsksIsRetryable(statuses: seq<string>, x: Status)
    ensures Asks(statuses, x) <==> exists i :: 0 <= i < |statuses| && Retryable(statuses[i]) == Some(x)
  {
    forall i | 0 <= i < |statuses| ensures Retryable(statuses[i]) == Some(x) <==> Names(statuses[i], x) {
      RetryableIsNamed(statuses[i], x);
    }
  }

  const BULK_LIMIT_MAX := 5000

  /** The nearest number from one to five thousand. */
  function Clamp(limit: int): (n: nat)
    ensures 1 <= n <= 5000 && (1 <= limit <= 5000 ==> n == limit)
    ensures (limit < 1 ==> n == 1) && (limit > 5000 ==> n == 5000)
  {
    if limit < 1 then 1 else if limit > BULK_LIMIT_MAX then BULK_LIMIT_MAX else limit
  }

  /** `a` is mentioned before `b` is, within the first `n` texts. */
  predicate MentionedFirst(statuses: seq<string>, n: nat, a: Status, b: Status)
    requires n <= |statuses|
  {
    exists k :: 0 <= k < n && Names(statuses[k], a) && forall m :: 0 <= m <= k ==> !Names(statuses[m], b)
  }

  lemma AsksOneMore(statuses: seq<string>, k: nat, x: Status)
    requires k < |statuses|
    ensures Asks(statuses[..k + 1], x) <==> Asks(statuses[..k], x) || Names(statuses[k], x)
  {
    var more, some := statuses[..k + 1], statuses[..k];
    assert forall i :: 0 <= i < k ==> more[i] == some[i];
    if Asks(some, x) {
      var i :| 0 <= i < k && Names(some[i], x);
      assert Names(more[i], x);
    }
    assert more[k] == statuses[k];
  }

  lemma NotAskedBefore(statuses: seq<string>, k: nat, a: Status, b: Status)
    requires k < |statuses| && Asks(statuses[..k], a) && !Asks(statuses[..k], b)
    ensures MentionedFirst(statuses, k + 1, a, b)
  {
    var i :| 0 <= i < k && Names(statuses[..k][i], a);
    forall m | 0 <= m <= i ensures !Names(statuses[m], b) { assert !Names(statuses[..k][m], b); }
  }

  /** The request names the row's status, and its webhook if it names any. */
  predicate RetryAsked(r: Delivery, statuses: seq<string>, webhook: Option<int>) {
    Asks(statuses, r.status) && (webhook.Some? ==> r.webhook == webhook.value)
  }

  /** Keeps the retryable statuses, each once, in the order of their first mention. */
  method EffectiveStatuses(statuses: seq<string>) returns (out: seq<Status>)
    ensures forall x :: x in out <==> Asks(statuses, x)
    ensures forall i, j :: 0 <= i < j < |out| ==> out[i] != out[j]
    ensures forall i, j :: 0 <= i < j < |out| ==> MentionedFirst(statuses, |statuses|, out[i], out[j])
    ensures forall x :: x in out ==> x in {Dead, Failure}
  {
    var seen: set<Status> := {};
    out := [];
    for k := 0 to |statuses|
      invariant forall x :: x in seen <==> x in out
      invariant forall x :: x in out <==> Asks(statuses[..k], x)
      invariant forall x :: x in out ==> x in {Dead, Failure}
      invariant forall i, j :: 0 <= i < j < |out| ==> out[i] != out[j] && MentionedFirst(statuses, k, out[i], out[j])
    {
      var s := Retryable(statuses[k]);
      forall x ensures Asks(statuses[..k + 1], x) <==> Asks(statuses[..k], x) || s == Some(x) {
        RetryableIsNamed(statuses[k], x);
        AsksOneMore(statuses, k, x);
      }
      if s.Some? && s.value !in seen {
        forall i | 0 <= i < |out| ensures MentionedFirst(statuses, k + 1, out[i], s.value) {
          assert out[i] in out;
          NotAskedBefore(statuses, k, out[i], s.value);
        }
        seen := seen + {s.value};
        out := out + [s.value];
      }
    }
    assert statuses[..|statuses|] == statuses;
  }

  lemma EarlierIrreflexive(t: Table, ids: seq<int>)
    requires SortedDue(t, ids)
    ensures Distinct(ids)
  {
    forall i, j | 0 <= i < j < |ids| ensures ids[i] != ids[j] { assert Earlier(t, ids[i], ids[j]); }
  }

  lemma FirstOfDue(t: Table, now: int, n: nat, due: seq<int>, selected: seq<int>)
    requires SortedDue(t, due) && forall id :: id in t.rows ==> (id in due <==> IsDue(t, id, now))
    requires selected == if |due| <= n then due else due[..n]
    ensures FirstDue(t, now, n, selected)
  {
    forall i | 0 <= i < |selected| ensures IsDue(t, selected[i], now) { assert selected[i] == due[i] && due[i] in due; }
    forall id | id in t.rows && IsDue(t, id, now) && id !in selected
      ensures |selected| == n && forall i :: 0 <= i < |selected| ==> Earlier(t, selected[i], id)
    {
      var k :| 0 <= k < |due| && due[k] == id;
      assert k >= |selected|;
    }
  }

  /** The rows in flight since the cutoff or before. */
  function StaleIds(rows: map<int, Delivery>, cutoff: int): set<int> {
    set id | id in rows && rows[id].status.InFlight? && rows[id].attemptedAt <= cutoff
  }

  /** `works` says whether the database lets a transaction through; if not, nothing has happened. The code swallows the
      error, but for a recording, which raises. */
  class Store {
    var rows: map<int, Delivery>
    var webhooks: map<int, bool>
    var nextId: int

    ghost function Contents(): Table
      reads this
    {
      Table(rows, webhooks, nextId)
    }

    ghost predicate Valid()
      reads this
    {
      nextId >= 1 && forall id :: id in rows ==> 0 <= id < nextId
    }

    constructor ()
      ensures Valid() && rows == map[] && webhooks == map[] && nextId == 1
    {
      rows, webhooks, nextId := map[], map[], 1;
    }

    /** The foreign key refuses a delivery for a webhook that does not exist. */
    method EnqueueDelivery(webhook: int, now: int) returns (r: Result<int, StoreError>)
      requires Valid()
      modifies this
      ensures Valid()
      ensures webhook in old(webhooks) ==> r == Ok(old(nextId)) && r.value !in old(rows)
                                           && Contents() == Enqueue(old(Contents()), webhook, now)
                                           && rows == old(rows)[r.value := Delivery(webhook, Queued, 1, Some(now), now)]
      ensures webhook !in old(webhooks) ==> r == Err(UnknownWebhook) && Contents() == old(Contents())
    {
      if webhook !in webhooks {
        return Err(UnknownWebhook);
      }
      rows := rows[nextId := Delivery(webhook, Queued, 1, Some(now), now)];
      nextId := nextId + 1;
      r := Ok(nextId - 1);
    }

    method ClaimDueDeliveries(now: int, limit: int, works: bool) returns (claimed: seq<Claim>)
      requires Valid()
      modifies this
      ensures Valid()
      ensures works ==> FirstDue(old(Contents()), now, if limit < 1 then 1 else limit, Ids(claimed))
      ensures works ==> TakesFirst(old(rows), webhooks, now, if limit < 1 then 1 else limit, Ids(claimed))
      ensures !works ==> claimed == []
      ensures claimed == ClaimsOf(old(Contents()), Ids(claimed))
      ensures Contents() == MarkClaimed(old(Contents()), Ids(claimed), now)
      ensures rows.Keys == old(rows).Keys && webhooks == old(webhooks)
      ensures forall id :: id in rows ==> var was := old(rows)[id];
        rows[id] == if id in Ids(claimed) then was.(status := InFlight, attemptedAt := now) else was
      ensures forall c :: c in claimed ==> c.id in rows && c.attempt == rows[c.id].attempt
    {
      var n := if limit < 1 then 1 else limit;
      var table := Table(rows, webhooks, nextId);
      if !works {
        assert MarkClaimed(table, [], now).rows == rows;
        return [];
      }
      var due := SelectDue(table, now, nextId);
      var selected := if |due| <= n then due else due[..n];
      FirstOfDue(table, now, n, due, selected);
      FirstDueTakesFirst(table, now, n, selected);
      EarlierIrreflexive(table, selected);
      rows, claimed := MarkInFlight(table, selected, now);
      assert Ids(claimed) == selected;
    }

    /** The UPDATE of each selected row; a claim is reported only when its row changed. */
    static method MarkInFlight(table: Table, selected: seq<int>, now: int)
      returns (marked: map<int, Delivery>, claimed: seq<Claim>)
      requires Distinct(selected)
      requires forall i :: 0 <= i < |selected| ==>
        selected[i] in table.rows && table.rows[selected[i]].status in {Queued, Retrying}
      ensures marked == MarkClaimed(table, selected, now).rows && claimed == ClaimsOf(table, selected)
    {
      marked, claimed := table.rows, [];
      for i := 0 to |selected|
        invariant marked == MarkClaimed(table, selected[..i], now).rows
        invariant claimed == ClaimsOf(table, selected[..i])
      {
        var id := selected[i];
        assert id !in selected[..i];
        if id in marked && marked[id].status in {Queued, Retrying} {
          marked := marked[id := marked[id].(status := InFlight, attemptedAt := now)];
          claimed := claimed + [Claim(id, table.rows[id].attempt)];
        }
        assert selected[..i + 1] == selected[..i] + [id];
      }
      assert selected[..|selected|] == selected;
    }

    method RecordAttempt(id: int, v: Verdict, now: int, works: bool) returns (raised: bool)
      requires Valid()
      modifies this
      ensures Valid() && raised == !works
      ensures Contents() == if works then Queue.RecordAttempt(old(Contents()), id, v, now) else old(Contents())
    {
      if !works {
        return true;
      }
      if id in rows {
        rows := rows[id :=
          rows[id].(status := v.status, attempt := v.attempt, nextAt := v.nextAt, attemptedAt := now)];
      }
      raised := false;
    }

    /** Returns how many orphans it requeued. */
    method RecoverStaleInFlight(olderThan: int, now: int, works: bool) returns (n: nat)
      requires Valid()
      modifies this
      ensures Valid() && Contents() == if works then Recover(old(Contents()), olderThan, now) else old(Contents())
      ensures rows.Keys == old(rows).Keys
      ensures forall id :: id in rows ==> var was := old(rows)[id];
        rows[id] == if works && was.status == InFlight && was.attemptedAt + olderThan <= now
                    then was.(status := Queued, nextAt := Some(now)) else was
      ensures n == if works then |StaleIds(old(rows), now - olderThan)| else 0
    {
      if !works {
        return 0;
      }
      var cutoff := now - olderThan;
      var stale := StaleIds(rows, cutoff);
      rows := map id | id in rows :: if id in stale then rows[id].(status := Queued, nextAt := Some(now)) else rows[id];
      n := |stale|;
    }

    method ReleaseClaims(ids: seq<int>, works: bool)
      requires Valid()
      modifies this
      ensures Valid() && Contents() == if works then Release(old(Contents()), ids) else old(Contents())
      ensures rows.Keys == old(rows).Keys
      ensures forall id :: id in rows ==> var was := old(rows)[id];
        rows[id] == if works && id in ids && was.status == InFlight then was.(status := Queued) else was
    {
      if ids == [] {
        assert Release(Contents(), ids).rows == rows;
        return;
      }
      if !works {
        return;
      }
      rows := map id | id in rows ::
        if id in ids && rows[id].status.InFlight? then rows[id].(status := Queued) else rows[id];
    }

    method RequeueDelivery(id: int, now: int) returns (found: bool)
      requires Valid()
      modifies this
      ensures Valid() && found == (id in old(rows))
      ensures Contents() == if found then Reset(old(Contents()), [id], now) else old(Contents())
      ensures rows == if found then old(rows)[id := old(rows)[id].(status := Queued, attempt := 1, nextAt := Some(now))]
                      else old(rows)
    {
      if id !in rows {
        return false;
      }
      rows := rows[id := rows[id].(status := Queued, attempt := 1, nextAt := Some(now))];
      found := true;
    }

    /** Resets the oldest matching terminal failures; the ids returned are the rows changed. */
    method RequeueDeliveries(statuses: seq<string>, webhook: Option<int>, limit: int, now: int, works: bool)
      returns (ids: seq<int>)
      requires Valid()
      modifies this
      ensures !works ==> ids == []
      ensures Valid() && Contents() == Reset(old(Contents()), ids, now)
      ensures rows.Keys == old(rows).Keys
      ensures forall id :: id in rows ==>
        rows[id] == if id in ids then old(rows)[id].(status := Queued, attempt := 1, nextAt := Some(now))
                    else old(rows)[id]
      ensures forall id :: id in ids ==> id in old(rows) && RetryAsked(old(rows)[id], statuses, webhook)
                                         && old(rows)[id].status in {Dead, Failure}
      ensures |ids| <= Clamp(limit) && forall i, j :: 0 <= i < j < |ids| ==> ids[i] < ids[j]
      ensures forall id :: works && id in old(rows) && id !in ids && RetryAsked(old(rows)[id], statuses, webhook)
                ==> |ids| == Clamp(limit) && forall i :: 0 <= i < |ids| ==> ids[i] < id
    {
      var eff := EffectiveStatuses(statuses);
      if eff == [] || !works {
        assert Reset(Contents(), [], now).rows == rows;
        return [];
      }
      var n := Clamp(limit);
      var all := SelectByStatus(Table(rows, webhooks, nextId), eff, webhook, nextId);
      ids := if |all| <= n then all else all[..n];
      forall id | id in all && id !in ids ensures |ids| == n && forall i :: 0 <= i < |ids| ==> ids[i] < id {
        var k :| 0 <= k < |all| && all[k] == id;
        assert k >= n;
      }
      rows := map id | id in rows ::
        if id in ids then rows[id].(status := Queued, attempt := 1, nextAt := Some(now)) else rows[id];
    }

    /** Deletes a webhook and, by cascade, its deliveries. */
    method RemoveWebhook(webhook: int) returns (deleted: bool)
      requires Valid()
      modifies this
      ensures Valid() && deleted == (webhook in old(webhooks))
      ensures Contents() == DeleteWebhook(old(Contents()), webhook)
      ensures forall w :: w in webhooks <==> w in old(webhooks) && w != webhook
      ensures forall w :: w in webhooks ==> webhooks[w] == old(webhooks)[w]
      ensures forall id :: id in rows <==> id in old(rows) && old(rows)[id].webhook != webhook
      ensures forall id :: id in rows ==> rows[id] == old(rows)[id]
    {
      deleted := webhook in webhooks;
      webhooks := webhooks - {webhook};
      rows := map id | id in rows && rows[id].webhook != webhook :: rows[id];
    }
  }
}
