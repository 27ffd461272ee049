/** The webhook delivery queue as a protocol: what the SQL statements of api/notifications/deliveries_repo.py do to
    the tables, and how the one worker thread of api/notifications/worker.py, the API and crashes interleave.
    Times are whole microseconds; Timestamps.TextOrderIsTimeOrder justifies comparing them instead of the texts. */
module Queue {
  import opened Options
  import Backoff

  datatype Status = Queued | InFlight | Retrying | Success | Failure | Dead

  predicate Open(s: Status) { s in {Queued, InFlight, Retrying} }

  datatype Delivery = Delivery(webhook: int, status: Status, attempt: int, nextAt: Option<int>, attemptedAt: int)

  /** webhook_deliveries, the active flag of each webhook, and the AUTOINCREMENT counter. */
  datatype Table = Table(rows: map<int, Delivery>, webhooks: map<int, bool>, nextId: int)

  // ----- one transaction each -----

  function Enqueue(t: Table, webhook: int, now: int): Table {
    t.(rows := t.rows[t.nextId := Delivery(webhook, Queued, 1, Some(now), now)], nextId := t.nextId + 1)
  }

  function Recover(t: Table, lease: int, now: int): Table {
    t.(rows := map id | id in t.rows ::
         var r := t.rows[id];
         if r.status.InFlight? && r.attemptedAt <= now - lease then r.(status := Queued, nextAt := Some(now)) else r)
  }

  predicate IsDue(t: Table, id: int, now: int) {
    && id in t.rows
    && var r := t.rows[id];
       && r.status in {Queued, Retrying}
       && (r.nextAt.None? || r.nextAt.value <= now)
       && r.webhook in t.webhooks && t.webhooks[r.webhook]
  }

  function MarkClaimed(t: Table, ids: seq<int>, now: int): Table {
    t.(rows := map id | id in t.rows ::
         if id in ids then t.rows[id].(status := InFlight, attemptedAt := now) else t.rows[id])
  }

  datatype Verdict = Verdict(status: Status, attempt: int, nextAt: Option<int>)

  function RecordAttempt(t: Table, id: int, v: Verdict, now: int): Table {
    if id !in t.rows then t
    else
      var r := t.rows[id].(status := v.status, attempt := v.attempt, nextAt := v.nextAt, attemptedAt := now);
      t.(rows := t.rows[id := r])
  }

  function Release(t: Table, ids: seq<int>): Table {
    t.(rows := map id | id in t.rows ::
         if id in ids && t.rows[id].status.InFlight? then t.rows[id].(status := Queued) else t.rows[id])
  }

  /** A manual retry, of one row or of many. */
  function Reset(t: Table, ids: seq<int>, now: int): Table {
    t.(rows := map id | id in t.rows ::
         if id in ids then t.rows[id].(status := Queued, attempt := 1, nextAt := Some(now)) else t.rows[id])
  }

  function DeleteWebhook(t: Table, webhook: int): Table {
    t.(webhooks := t.webhooks - {webhook},
       rows := map id | id in t.rows && t.rows[id].webhook != webhook :: t.rows[id])
  }

  // ----- the worker's verdict on one send -----

  /** `ok` is DispatchResult.status == "success". */
  datatype Outcome = Outcome(ok: bool, httpStatus: Option<int>, retryAfter: Option<real>)

  /** timedelta(seconds=x), to the nearest microsecond. */
  function Micros(seconds: real): int {
    (seconds * 1_000_000.0 + 0.5).Floor
  }

  function Judge(attempt: int, maxAttempts: int, o: Outcome, random: real, now: int): Verdict {
    if o.ok then Verdict(Success, attempt, None)
    else if o.httpStatus.Some? && 400 <= o.httpStatus.value < 500 then Verdict(Failure, attempt, None)
    else
      match Backoff.NextDelay(attempt, maxAttempts, o.retryAfter, random)
      case None => Verdict(Dead, attempt, None)
      case Some(delay) => Verdict(Retrying, attempt + 1, Some(now + Micros(delay)))
  }

  // ----- interleavings -----

  datatype Claim = Claim(id: int, attempt: int)

  /** Where the worker thread is. `Recovered`: inside a tick, its `now` read and recovery done, nothing claimed yet.
      `Batch`: the claims not finished yet; `sent` holds the result of sending the first one, not recorded yet. */
  datatype Worker = Stopped | Idle | Recovered(now: int) | Batch(claims: seq<Claim>, sent: Option<Outcome>)

  /** `sends` and `lost` count, per delivery and since its last reset, the sends and those whose recording was lost;
      `recorded` counts recordings that reached a row. */
  datatype State = State(table: Table, clock: int, worker: Worker, stopRequested: bool,
                         sends: map<int, nat>, lost: map<int, nat>, recorded: nat)

  datatype Config = Config(maxAttempts: int, batchSize: int, lease: nat)

  datatype Step =
    | Advance(elapsed: nat)
    | EnqueueOne(webhook: int)
    | RetryOne(id: int)
    | RetryBulk(ids: seq<int>)
    | SetActive(webhook: int, active: bool)
    | DropWebhook(webhook: int)
    | Start(recovers: bool)                  // recovery fails on a database error, here and in a tick
    | BeginTick(recovers: bool)
    | ClaimDue(ids: seq<int>)                // empty on a database error, too
    | SendHead(outcome: Outcome)
    | RecordHead(random: real)
    | RecordRaises                           // the tick is abandoned
    | EndBatch
    | RequestStop
    | ReleaseBatch(releases: bool)           // shutdown seen between two sends
    | StopIdle
    | Crash

  function Ids(claims: seq<Claim>): seq<int> {
    seq(|claims|, i requires 0 <= i < |claims| => claims[i].id)
  }

  function Count(m: map<int, nat>, id: int): nat {
    if id in m then m[id] else 0
  }

  predicate Distinct(ids: seq<int>) {
    forall i, j :: 0 <= i < j < |ids| ==> ids[i] != ids[j]
  }

  predicate Enabled(s: State, step: Step, cfg: Config) {
    match step
    case EnqueueOne(w) => w in s.table.webhooks
    case RetryOne(id) => id in s.table.rows
    case RetryBulk(ids) => forall id :: id in ids ==> id in s.table.rows && s.table.rows[id].status in {Dead, Failure}
    case Start(_) => s.worker.Stopped?
    case BeginTick(_) => s.worker.Idle?
    case ClaimDue(ids) =>
      && s.worker.Recovered?
      && Distinct(ids) && |ids| <= (if cfg.batchSize < 1 then 1 else cfg.batchSize)
      && forall id :: id in ids ==> IsDue(s.table, id, s.worker.now)
    case SendHead(_) => s.worker.Batch? && s.worker.claims != [] && s.worker.sent.None?
    case RecordHead(random) => s.worker.Batch? && s.worker.claims != [] && s.worker.sent.Some? && Backoff.Draw(random)
    case RecordRaises => s.worker.Batch? && s.worker.claims != [] && s.worker.sent.Some?
    case EndBatch => s.worker.Batch? && s.worker.claims == []
    case ReleaseBatch(_) => s.worker.Batch? && s.worker.sent.None? && s.stopRequested
    case StopIdle => s.worker.Idle? && s.stopRequested
    case _ => true
  }

  /** The send that was made but not recorded, if any, is lost. */
  function LoseSend(s: State): State {
    if s.worker.Batch? && s.worker.sent.Some? && s.worker.claims != [] then
      var id := s.worker.claims[0].id;
      s.(lost := s.lost[id := Count(s.lost, id) + 1])
    else s
  }

  function ClearCounts(m: map<int, nat>, ids: seq<int>): map<int, nat> {
    map id | id in m :: if id in ids then 0 else m[id]
  }

  function ResetRows(s: State, ids: seq<int>): State {
    s.(table := Reset(s.table, ids, s.clock), sends := ClearCounts(s.sends, ids), lost := ClearCounts(s.lost, ids))
  }

  function ClaimsOf(t: Table, ids: seq<int>): seq<Claim>
    requires forall i :: 0 <= i < |ids| ==> ids[i] in t.rows
  {
    seq(|ids|, i requires 0 <= i < |ids| => Claim(ids[i], t.rows[ids[i]].attempt))
  }

  /** The head of the batch recorded with the verdict `v`. */
  function Recorded(s: State, v: Verdict): State
    requires s.worker.Batch? && s.worker.claims != []
  {
    var c := s.worker.claims[0];
    s.(table := RecordAttempt(s.table, c.id, v, s.clock),
       worker := Batch(s.worker.claims[1..], None),
       recorded := s.recorded + if c.id in s.table.rows then 1 else 0)
  }

  function Apply(s: State, step: Step, cfg: Config): State
    requires Enabled(s, step, cfg)
  {
    match step
    case Advance(elapsed) => s.(clock := s.clock + elapsed)
    case EnqueueOne(w) => s.(table := Enqueue(s.table, w, s.clock))
    case RetryOne(id) => ResetRows(s, [id])
    case RetryBulk(ids) => ResetRows(s, ids)
    case SetActive(w, active) => s.(table := s.table.(webhooks := s.table.webhooks[w := active]))
    case DropWebhook(w) => s.(table := DeleteWebhook(s.table, w))
    case Start(recovers) =>
      s.(table := if recovers then Recover(s.table, 0, s.clock) else s.table, worker := Idle, stopRequested := false)
    case BeginTick(recovers) =>
      s.(table := if recovers then Recover(s.table, cfg.lease, s.clock) else s.table, worker := Recovered(s.clock))
    case ClaimDue(ids) =>
      assert forall i :: 0 <= i < |ids| ==> IsDue(s.table, ids[i], s.worker.now);
      s.(table := MarkClaimed(s.table, ids, s.worker.now), worker := Batch(ClaimsOf(s.table, ids), None))
    case SendHead(outcome) =>
      var id := s.worker.claims[0].id;
      s.(worker := s.worker.(sent := Some(outcome)), sends := s.sends[id := Count(s.sends, id) + 1])
    case RecordHead(random) =>
      Recorded(s, Judge(s.worker.claims[0].attempt, cfg.maxAttempts, s.worker.sent.value, random, s.clock))
    case RecordRaises => LoseSend(s).(worker := Idle)
    case EndBatch => s.(worker := Idle)
    case RequestStop => s.(stopRequested := true)
    case ReleaseBatch(releases) =>
      s.(table := if releases then Release(s.table, Ids(s.worker.claims)) else s.table, worker := Stopped)
    case StopIdle => s.(worker := Stopped)
    case Crash => LoseSend(s).(worker := Stopped)
  }

  predicate Runs(s: State, steps: seq<Step>, cfg: Config)
    decreases |steps|
  {
    steps == [] || (Enabled(s, steps[0], cfg) && Runs(Apply(s, steps[0], cfg), steps[1..], cfg))
  }

  function After(s: State, steps: seq<Step>, cfg: Config): State
    requires Runs(s, steps, cfg)
    decreases |steps|
  {
    if steps == [] then s else After(Apply(s, steps[0], cfg), steps[1..], cfg)
  }

  // ----- what every reachable state satisfies -----

  /** A configured maximum below one still allows the one attempt every delivery starts with. */
  function Cap(cfg: Config): int {
    if cfg.maxAttempts < 1 then 1 else cfg.maxAttempts
  }

  /** Backoff.MAX_BACKOFF_SEC in microseconds. */
  const LONGEST_WAIT: nat := 3_600_000_000

  /** Only a retrying row waits, and at most the longest backoff from its last attempt. */
  predicate RowOk(r: Delivery, cap: int, clock: int) {
    && 1 <= r.attempt <= cap
    && (r.status.Dead? ==> r.attempt == cap)
    && (r.status.Retrying? ==> r.attempt >= 2)
    && (Open(r.status) <==> r.nextAt.Some?)
    && (r.status in {Queued, InFlight} ==> r.nextAt.value <= clock)
    && (r.status.Retrying? ==> r.attemptedAt <= r.nextAt.value <= r.attemptedAt + LONGEST_WAIT)
    && r.attemptedAt <= clock
  }

  predicate JustSent(w: Worker, id: int) {
    w.Batch? && w.sent.Some? && w.claims != [] && w.claims[0].id == id
  }

  /** An attempt number counts the sends so far, except the lost ones. */
  predicate SendsOk(s: State, id: int)
    requires id in s.table.rows
  {
    var r := s.table.rows[id];
    Count(s.sends, id) <= Count(s.lost, id) + r.attempt - if Open(r.status) && !JustSent(s.worker, id) then 1 else 0
  }

  predicate ClaimOk(t: Table, c: Claim, cap: int) {
    && 1 <= c.attempt <= cap && c.id < t.nextId
    && (c.id in t.rows ==> t.rows[c.id].status in {InFlight, Queued} && t.rows[c.id].attempt <= c.attempt)
  }

  predicate WorkerOk(s: State, cfg: Config) {
    match s.worker
    case Stopped | Idle => true
    case Recovered(now) => now <= s.clock
    case Batch(claims, sent) =>
      && Distinct(Ids(claims))
      && (sent.Some? ==> claims != [])
      && forall c :: c in claims ==> ClaimOk(s.table, c, Cap(cfg))
  }

  predicate Inv(s: State, cfg: Config) {
    && s.table.nextId >= 0
    && (forall id :: id in s.table.rows ==> 0 <= id < s.table.nextId && RowOk(s.table.rows[id], Cap(cfg), s.clock))
    && (forall id :: id in s.table.rows ==> SendsOk(s, id))
    && (forall id :: id in s.sends ==> id < s.table.nextId)
    && (forall id :: id in s.lost ==> id < s.table.nextId)
    && WorkerOk(s, cfg)
  }

  /** A fresh database, whatever webhooks are registered, and no worker yet. */
  predicate Init(s: State) {
    s.table.rows == map[] && s.table.nextId == 1 && s.worker.Stopped? && s.sends == map[] && s.lost == map[]
  }

  lemma DistinctHead(claims: seq<Claim>)
    requires claims != [] && Distinct(Ids(claims))
    ensures Distinct(Ids(claims[1..]))
    ensures forall c :: c in claims[1..] ==> c.id != claims[0].id
  {
    var ids, tail := Ids(claims), Ids(claims[1..]);
    assert forall i :: 0 <= i < |tail| ==> tail[i] == ids[i + 1];
    forall c | c in claims[1..] ensures c.id != claims[0].id {
      var i :| 0 <= i < |claims[1..]| && claims[1..][i] == c;
      assert ids[0] == claims[0].id && ids[i + 1] == c.id;
    }
  }

  /** What a verdict at `now` on a send of attempt `attempt` can be. */
  predicate Fits(v: Verdict, attempt: int, cap: int, now: int) {
    && 1 <= attempt <= v.attempt <= cap
    && (if v.status.Retrying? then v.attempt == attempt + 1 && v.nextAt.Some?
        && now <= v.nextAt.value <= now + LONGEST_WAIT
        else v.status in {Success, Failure, Dead} && v.attempt == attempt && v.nextAt.None?)
    && (v.status.Dead? ==> v.attempt == cap)
  }

  lemma MicrosBounds(seconds: real)
    requires 0.0 <= seconds <= Backoff.MAX_BACKOFF_SEC
    ensures 0 <= Micros(seconds) <= LONGEST_WAIT
  {}

  lemma JudgeFits(attempt: int, cfg: Config, o: Outcome, random: real, now: int)
    requires 1 <= attempt <= Cap(cfg) && Backoff.Draw(random)
    ensures Fits(Judge(attempt, cfg.maxAttempts, o, random, now), attempt, Cap(cfg), now)
  {
    Backoff.DelayBounds(attempt, cfg.maxAttempts, o.retryAfter, random);
    var delay := Backoff.NextDelay(attempt, cfg.maxAttempts, o.retryAfter, random);
    if delay.Some? { MicrosBounds(delay.value); }
  }

  predicate ClientError(o: Outcome) {
    o.httpStatus.Some? && 400 <= o.httpStatus.value <= 499
  }

  /** The wait in microseconds is within the schedule, but for rounding. */
  ghost predicate WaitsAsScheduled(attempt: int, retryAfter: Option<real>, wait: int) {
    exists delay: real :: Backoff.WithinSchedule(attempt, retryAfter, delay)
                          && delay * 1_000_000.0 - 0.5 <= wait as real <= delay * 1_000_000.0 + 0.5
  }

  /** What a send with this outcome owes its row: success for a good one, failure for a client error, else another
      attempt while there are any left, after the scheduled wait, and `dead` when there are none. */
  ghost predicate Settles(v: Verdict, attempt: int, maxAttempts: int, o: Outcome, now: int) {
    && (v.status.Success? <==> o.ok)
    && (v.status.Failure? <==> !o.ok && ClientError(o))
    && (v.status.Retrying? <==> !o.ok && !ClientError(o) && attempt < maxAttempts)
    && (v.status.Dead? <==> !o.ok && !ClientError(o) && attempt >= maxAttempts)
    && v.attempt == (if v.status.Retrying? then attempt + 1 else attempt)
    && (v.nextAt.Some? <==> v.status.Retrying?)
    && (v.status.Retrying? ==> WaitsAsScheduled(attempt, o.retryAfter, v.nextAt.value - now))
  }

  lemma MicrosRounds(seconds: real)
    ensures seconds * 1_000_000.0 - 0.5 <= Micros(seconds) as real <= seconds * 1_000_000.0 + 0.5
  {}

  /** The verdict settles the send. */
  lemma JudgeSettles(attempt: int, maxAttempts: int, o: Outcome, random: real, now: int)
    requires Backoff.Draw(random)
    ensures Settles(Judge(attempt, maxAttempts, o, random, now), attempt, maxAttempts, o, now)
  {
    var delay := Backoff.NextDelay(attempt, maxAttempts, o.retryAfter, random);
    if delay.Some? {
      Backoff.DelayIsWithinSchedule(attempt, maxAttempts, o.retryAfter, random);
      MicrosRounds(delay.value);
      assert WaitsAsScheduled(attempt, o.retryAfter, Micros(delay.value));
    }
  }

  lemma RecordedKeepsInv(s: State, v: Verdict, cfg: Config)
    requires Inv(s, cfg) && s.worker.Batch? && s.worker.claims != [] && s.worker.sent.Some?
    requires Fits(v, s.worker.claims[0].attempt, Cap(cfg), s.clock)
    ensures Inv(Recorded(s, v), cfg)
  {
    var c, t := s.worker.claims[0], Recorded(s, v);
    DistinctHead(s.worker.claims);
    assert c in s.worker.claims && ClaimOk(s.table, c, Cap(cfg));
    forall id | id in t.table.rows ensures SendsOk(t, id) { assert SendsOk(s, id); }
    forall d | d in t.worker.claims ensures ClaimOk(t.table, d, Cap(cfg)) {
      assert d in s.worker.claims && ClaimOk(s.table, d, Cap(cfg));
    }
  }

  lemma RecordHeadKeepsInv(s: State, random: real, cfg: Config)
    requires Inv(s, cfg) && Enabled(s, RecordHead(random), cfg)
    ensures Inv(Apply(s, RecordHead(random), cfg), cfg)
  {
    var c := s.worker.claims[0];
    assert c in s.worker.claims && ClaimOk(s.table, c, Cap(cfg));
    JudgeFits(c.attempt, cfg, s.worker.sent.value, random, s.clock);
    RecordedKeepsInv(s, Judge(c.attempt, cfg.maxAttempts, s.worker.sent.value, random, s.clock), cfg);
  }

  lemma ClaimKeepsInv(s: State, ids: seq<int>, cfg: Config)
    requires Inv(s, cfg) && Enabled(s, ClaimDue(ids), cfg)
    ensures Inv(Apply(s, ClaimDue(ids), cfg), cfg)
  {
    var t := Apply(s, ClaimDue(ids), cfg);
    assert Ids(t.worker.claims) == ids;
    forall id | id in t.table.rows ensures SendsOk(t, id) { assert SendsOk(s, id); }
    forall c | c in t.worker.claims ensures ClaimOk(t.table, c, Cap(cfg)) { assert IsDue(s.table, c.id, s.worker.now); }
  }

  lemma ResetKeepsInv(s: State, ids: seq<int>, cfg: Config)
    requires Inv(s, cfg)
    ensures Inv(ResetRows(s, ids), cfg)
  {
    var t := ResetRows(s, ids);
    forall id | id in t.table.rows ensures SendsOk(t, id) { assert SendsOk(s, id); }
    if s.worker.Batch? {
      forall c | c in t.worker.claims ensures ClaimOk(t.table, c, Cap(cfg)) { assert ClaimOk(s.table, c, Cap(cfg)); }
    }
  }

  lemma RecoverKeepsInv(s: State, lease: nat, worker: Worker, stop: bool, cfg: Config)
    requires Inv(s, cfg) && !s.worker.Batch? && (worker == Idle || worker == Recovered(s.clock))
    ensures Inv(s.(table := Recover(s.table, lease, s.clock), worker := worker, stopRequested := stop), cfg)
  {
    var t := s.(table := Recover(s.table, lease, s.clock), worker := worker, stopRequested := stop);
    forall id | id in t.table.rows ensures SendsOk(t, id) { assert SendsOk(s, id); }
  }

  lemma SendKeepsInv(s: State, outcome: Outcome, cfg: Config)
    requires Inv(s, cfg) && Enabled(s, SendHead(outcome), cfg)
    ensures Inv(Apply(s, SendHead(outcome), cfg), cfg)
  {
    var t := Apply(s, SendHead(outcome), cfg);
    var head := s.worker.claims[0];
    assert head in s.worker.claims && ClaimOk(s.table, head, Cap(cfg));
    forall id | id in t.table.rows ensures SendsOk(t, id) { assert SendsOk(s, id); }
    assert WorkerOk(t, cfg);
  }

  lemma LoseSendKeepsInv(s: State, worker: Worker, cfg: Config)
    requires Inv(s, cfg) && (worker == Idle || worker == Stopped)
    ensures Inv(LoseSend(s).(worker := worker), cfg)
  {
    var t := LoseSend(s).(worker := worker);
    if s.worker.Batch? && s.worker.claims != [] {
      assert s.worker.claims[0] in s.worker.claims && ClaimOk(s.table, s.worker.claims[0], Cap(cfg));
    }
    forall id | id in t.table.rows ensures SendsOk(t, id) {
      assert SendsOk(s, id);
    }
  }

  lemma TableStepKeepsInv(s: State, table: Table, worker: Worker, cfg: Config)
    requires s.worker.Batch? ==> s.worker.sent.None? || worker == s.worker
    requires worker == s.worker || worker.Stopped? || worker.Idle?
    requires Inv(s, cfg)
    requires table.nextId == s.table.nextId
    requires forall id :: id in table.rows ==>
      id in s.table.rows
      && (table.rows[id] == s.table.rows[id]
          || (s.table.rows[id].status.InFlight? && table.rows[id] == s.table.rows[id].(status := Queued)))
    ensures Inv(s.(table := table, worker := worker), cfg)
  {
    var t := s.(table := table, worker := worker);
    forall id | id in t.table.rows ensures SendsOk(t, id) { assert SendsOk(s, id); }
    if worker.Batch? {
      forall c | c in t.worker.claims ensures ClaimOk(t.table, c, Cap(cfg)) { assert ClaimOk(s.table, c, Cap(cfg)); }
    }
  }

  lemma EnqueueKeepsInv(s: State, webhook: int, cfg: Config)
    requires Inv(s, cfg)
    ensures Inv(s.(table := Enqueue(s.table, webhook, s.clock)), cfg)
  {
    var t := s.(table := Enqueue(s.table, webhook, s.clock));
    forall id | id in t.table.rows ensures SendsOk(t, id) {
      if id in s.table.rows {
        assert SendsOk(s, id);
      } else {
        assert id == s.table.nextId && id !in s.sends && Count(t.sends, id) == 0;
      }
    }
    if s.worker.Batch? {
      forall c | c in t.worker.claims ensures ClaimOk(t.table, c, Cap(cfg)) { assert ClaimOk(s.table, c, Cap(cfg)); }
    }
  }

  lemma AdvanceKeepsInv(s: State, elapsed: nat, cfg: Config)
    requires Inv(s, cfg)
    ensures Inv(s.(clock := s.clock + elapsed), cfg)
  {
    var t := s.(clock := s.clock + elapsed);
    forall id | id in t.table.rows ensures SendsOk(t, id) { assert SendsOk(s, id); }
  }

  lemma StopFlagKeepsInv(s: State, cfg: Config)
    requires Inv(s, cfg)
    ensures Inv(s.(stopRequested := true), cfg)
  {
    var t := s.(stopRequested := true);
    forall id | id in t.table.rows ensures SendsOk(t, id) { assert SendsOk(s, id); }
  }

  lemma NoRecoveryKeepsInv(s: State, worker: Worker, stop: bool, cfg: Config)
    requires Inv(s, cfg) && !s.worker.Batch? && (worker == Idle || worker == Recovered(s.clock))
    ensures Inv(s.(worker := worker, stopRequested := stop), cfg)
  {
    var t := s.(worker := worker, stopRequested := stop);
    forall id | id in t.table.rows ensures SendsOk(t, id) { assert SendsOk(s, id); }
  }

  /** Every step of the protocol keeps the invariant. */
  lemma StepKeepsInv(s: State, step: Step, cfg: Config)
    requires Inv(s, cfg) && Enabled(s, step, cfg)
    ensures Inv(Apply(s, step, cfg), cfg)
  {
    match step
    case Advance(elapsed) => AdvanceKeepsInv(s, elapsed, cfg);
    case EnqueueOne(w) => EnqueueKeepsInv(s, w, cfg);
    case RetryOne(id) => ResetKeepsInv(s, [id], cfg);
    case RetryBulk(ids) => ResetKeepsInv(s, ids, cfg);
    case SetActive(w, active) =>
      TableStepKeepsInv(s, s.table.(webhooks := s.table.webhooks[w := active]), s.worker, cfg);
    case DropWebhook(w) => TableStepKeepsInv(s, DeleteWebhook(s.table, w), s.worker, cfg);
    case Start(recovers) =>
      if recovers { RecoverKeepsInv(s, 0, Idle, false, cfg); } else { NoRecoveryKeepsInv(s, Idle, false, cfg); }
    case BeginTick(recovers) =>
      if recovers { RecoverKeepsInv(s, cfg.lease, Recovered(s.clock), s.stopRequested, cfg); }
      else { NoRecoveryKeepsInv(s, Recovered(s.clock), s.stopRequested, cfg); }
    case ClaimDue(ids) => ClaimKeepsInv(s, ids, cfg);
    case SendHead(outcome) => SendKeepsInv(s, outcome, cfg);
    case RecordHead(random) => RecordHeadKeepsInv(s, random, cfg);
    case RecordRaises => LoseSendKeepsInv(s, Idle, cfg);
    case EndBatch => TableStepKeepsInv(s, s.table, Idle, cfg);
    case RequestStop => StopFlagKeepsInv(s, cfg);
    case ReleaseBatch(releases) =>
      TableStepKeepsInv(s, if releases then Release(s.table, Ids(s.worker.claims)) else s.table, Stopped, cfg);
    case StopIdle => TableStepKeepsInv(s, s.table, Stopped, cfg);
    case Crash => LoseSendKeepsInv(s, Stopped, cfg);
  }

  lemma {:induction false} RunKeepsInv(s: State, steps: seq<Step>, cfg: Config)
    requires Inv(s, cfg) && Runs(s, steps, cfg)
    ensures Inv(After(s, steps, cfg), cfg)
    decreases |steps|
  {
    if steps != [] {
      StepKeepsInv(s, steps[0], cfg);
      RunKeepsInv(Apply(s, steps[0], cfg), steps[1..], cfg);
    }
  }

  /** In every state that any interleaving reaches: attempts stay within the maximum, `dead` means they are used up,
      since its last reset a delivery was sent at most that often, not counting sends whose recording was lost. A queued
      row is due at once, and no row waits longer than the longest backoff from its last attempt. */
  lemma ReachableStatesAreSound(s: State, steps: seq<Step>, cfg: Config, id: int)
    requires Init(s) && Runs(s, steps, cfg) && id in After(s, steps, cfg).table.rows
    ensures var t := After(s, steps, cfg);
            var r := t.table.rows[id];
            && 1 <= r.attempt <= Cap(cfg)
            && (r.status.Dead? ==> r.attempt == Cap(cfg))
            && (r.status.Retrying? ==> r.attempt >= 2)
            && (Open(r.status) <==> r.nextAt.Some?)
            && (r.status in {Queued, InFlight} ==> r.nextAt.value <= t.clock)
            && (r.status.Retrying? ==> r.attemptedAt <= r.nextAt.value <= r.attemptedAt + 3_600_000_000)
            && Count(t.sends, id) <= Cap(cfg) + Count(t.lost, id)
  {
    RunKeepsInv(s, steps, cfg);
    assert SendsOk(After(s, steps, cfg), id);
  }

  // ----- counting the sends of a run -----

  /** The delivery the worker is about to send, or has just sent. */
  predicate AtHead(s: State, id: int) {
    s.worker.Batch? && s.worker.claims != [] && s.worker.claims[0].id == id
  }

  /** How often the run sends the delivery. */
  function SendsIn(s: State, steps: seq<Step>, cfg: Config, id: int): nat
    requires Runs(s, steps, cfg)
    decreases |steps|
  {
    if steps == [] then 0
    else (if steps[0].SendHead? && AtHead(s, id) then 1 else 0) + SendsIn(Apply(s, steps[0], cfg), steps[1..], cfg, id)
  }

  /** How often it does and then crashes, or cannot record the result. */
  function LossesIn(s: State, steps: seq<Step>, cfg: Config, id: int): nat
    requires Runs(s, steps, cfg)
    decreases |steps|
  {
    if steps == [] then 0
    else
      (if (steps[0].RecordRaises? || steps[0].Crash?) && AtHead(s, id) && s.worker.sent.Some? then 1 else 0)
      + LossesIn(Apply(s, steps[0], cfg), steps[1..], cfg, id)
  }

  predicate Resets(step: Step, id: int) {
    step == RetryOne(id) || (step.RetryBulk? && id in step.ids)
  }

  lemma {:induction false} CountsAreSends(s: State, steps: seq<Step>, cfg: Config, id: int)
    requires Runs(s, steps, cfg) && forall step :: step in steps ==> !Resets(step, id)
    ensures Count(After(s, steps, cfg).sends, id) == Count(s.sends, id) + SendsIn(s, steps, cfg, id)
    ensures Count(After(s, steps, cfg).lost, id) == Count(s.lost, id) + LossesIn(s, steps, cfg, id)
    decreases |steps|
  {
    if steps != [] {
      assert !Resets(steps[0], id) && forall step :: step in steps[1..] ==> step in steps;
      CountsAreSends(Apply(s, steps[0], cfg), steps[1..], cfg, id);
    }
  }

  /** At least once, and hardly more: over any run in which nobody asks for another retry a delivery is sent at most as
      often as attempts are allowed, plus the times its result was lost. */
  lemma SendsAreBounded(s: State, steps: seq<Step>, cfg: Config, id: int)
    requires Init(s) && Runs(s, steps, cfg) && id in After(s, steps, cfg).table.rows
    requires forall step :: step in steps ==> !Resets(step, id)
    ensures SendsIn(s, steps, cfg, id) <= Cap(cfg) + LossesIn(s, steps, cfg, id)
  {
    ReachableStatesAreSound(s, steps, cfg, id);
    CountsAreSends(s, steps, cfg, id);
  }

  // ----- batches and recovery -----

  predicate Holds(s: State, id: int) {
    s.worker.Batch? && id in Ids(s.worker.claims)
  }

  lemma HeldTail(claims: seq<Claim>, id: int)
    requires claims != [] && Distinct(Ids(claims)) && id in Ids(claims[1..])
    ensures id != claims[0].id
  {
    DistinctHead(claims);
    var i :| 0 <= i < |Ids(claims[1..])| && Ids(claims[1..])[i] == id;
    assert claims[1..][i] in claims[1..];
  }

  lemma HeldIsNotTerminal(s: State, cfg: Config, id: int)
    requires Inv(s, cfg) && Holds(s, id) && id in s.table.rows
    ensures s.table.rows[id].status in {InFlight, Queued}
  {
    var i :| 0 <= i < |Ids(s.worker.claims)| && Ids(s.worker.claims)[i] == id;
    assert s.worker.claims[i] in s.worker.claims;
    assert ClaimOk(s.table, s.worker.claims[i], Cap(cfg));
  }

  /** A batch never holds a delivery twice, and no recovery, no claim and no other row's outcome touches a row the
      batch still holds: until the worker is done with it, it stays claimed, unless the API resets or deletes it. */
  lemma HeldRowsAreLeftAlone(s: State, step: Step, cfg: Config, id: int)
    requires Inv(s, cfg) && Enabled(s, step, cfg)
    requires Holds(s, id) && Holds(Apply(s, step, cfg), id) && id in s.table.rows
    ensures Distinct(Ids(s.worker.claims))
    ensures !step.Start? && !step.BeginTick? && !step.ClaimDue?
    ensures var t := Apply(s, step, cfg).table;
            || (id in t.rows && t.rows[id] == s.table.rows[id])
            || step == DropWebhook(s.table.rows[id].webhook)
            || step == RetryOne(id)
  {
    if step.RecordHead? { DistinctHead(s.worker.claims); HeldTail(s.worker.claims, id); }
    if step.RetryBulk? && id in step.ids { HeldIsNotTerminal(s, cfg, id); }
  }

  predicate HoldsThroughout(s: State, steps: seq<Step>, cfg: Config, id: int)
    requires Runs(s, steps, cfg)
    decreases |steps|
  {
    Holds(s, id) && (steps == [] || HoldsThroughout(Apply(s, steps[0], cfg), steps[1..], cfg, id))
  }

  /** Over any run in which the batch holds a delivery throughout, whoever else is at work, its row stays exactly as it
      was, unless the API resets it or deletes its webhook. */
  lemma {:induction false} HeldRowStaysTheSame(s: State, steps: seq<Step>, cfg: Config, id: int)
    requires Inv(s, cfg) && Runs(s, steps, cfg) && HoldsThroughout(s, steps, cfg, id) && id in s.table.rows
    requires RetryOne(id) !in steps && DropWebhook(s.table.rows[id].webhook) !in steps
    ensures var t := After(s, steps, cfg).table; id in t.rows && t.rows[id] == s.table.rows[id]
    decreases |steps|
  {
    if steps != [] {
      var u := Apply(s, steps[0], cfg);
      assert steps[0] in steps && forall step :: step in steps[1..] ==> step in steps;
      assert Holds(u, id);
      HeldRowsAreLeftAlone(s, steps[0], cfg, id);
      StepKeepsInv(s, steps[0], cfg);
      HeldRowStaysTheSame(u, steps[1..], cfg, id);
    }
  }

  predicate LeaseOver(r: Delivery, cfg: Config, now: int) {
    r.status.InFlight? && r.attemptedAt + cfg.lease <= now
  }

  /** A row in flight that no batch holds is queued again, due at once, by the first tick after its lease; no other row
      changes then. */
  lemma LeaseFreesOrphans(s: State, cfg: Config, id: int)
    requires Inv(s, cfg) && s.worker.Idle? && id in s.table.rows && LeaseOver(s.table.rows[id], cfg, s.clock)
    ensures var t := Apply(s, BeginTick(true), cfg).table;
            && t.rows[id] == s.table.rows[id].(status := Queued, nextAt := Some(s.clock))
            && (s.table.rows[id].webhook in t.webhooks && t.webhooks[s.table.rows[id].webhook]
                ==> IsDue(t, id, s.clock))
            && t.rows.Keys == s.table.rows.Keys
            && forall other :: other in t.rows && !LeaseOver(s.table.rows[other], cfg, s.clock) ==>
                 t.rows[other] == s.table.rows[other]
  {}

  /** Every row in flight was claimed less than the lease before `since`, and no later claim will be older. */
  predicate NoOldClaims(s: State, since: int, cfg: Config) {
    && since <= s.clock && (s.worker.Recovered? ==> since <= s.worker.now)
    && forall id :: id in s.table.rows && s.table.rows[id].status.InFlight? ==>
         s.table.rows[id].attemptedAt + cfg.lease > since
  }

  lemma StepKeepsNoOldClaims(s: State, step: Step, since: int, cfg: Config)
    requires NoOldClaims(s, since, cfg) && Enabled(s, step, cfg) && cfg.lease > 0
    requires step.RecordHead? ==> Inv(s, cfg)
    ensures NoOldClaims(Apply(s, step, cfg), since, cfg)
  {
    if step.RecordHead? {
      var c := s.worker.claims[0];
      assert c in s.worker.claims && ClaimOk(s.table, c, Cap(cfg));
      JudgeFits(c.attempt, cfg, s.worker.sent.value, step.random, s.clock);
    }
  }

  lemma {:induction false} RunKeepsNoOldClaims(s: State, steps: seq<Step>, since: int, cfg: Config)
    requires Inv(s, cfg) && NoOldClaims(s, since, cfg) && Runs(s, steps, cfg) && cfg.lease > 0
    ensures NoOldClaims(After(s, steps, cfg), since, cfg)
    decreases |steps|
  {
    if steps != [] {
      StepKeepsInv(s, steps[0], cfg);
      StepKeepsNoOldClaims(s, steps[0], since, cfg);
      RunKeepsNoOldClaims(Apply(s, steps[0], cfg), steps[1..], since, cfg);
    }
  }

  /** No claim outlives its lease for good: once a tick has recovered at some time, at every later point of every run
      each row in flight was claimed less than the lease before that time. The lease is at least a minute. */
  lemma NoClaimOutlivesItsLease(s: State, steps: seq<Step>, cfg: Config)
    requires Inv(s, cfg) && s.worker.Idle? && cfg.lease > 0
    requires Runs(s, [BeginTick(true)] + steps, cfg)
    ensures forall id :: id in After(s, [BeginTick(true)] + steps, cfg).table.rows ==>
      var r := After(s, [BeginTick(true)] + steps, cfg).table.rows[id];
      r.status.InFlight? ==> r.attemptedAt + cfg.lease > s.clock
  {
    var all, t := [BeginTick(true)] + steps, Apply(s, BeginTick(true), cfg);
    assert all[1..] == steps;
    StepKeepsInv(s, BeginTick(true), cfg);
    RunKeepsNoOldClaims(t, steps, s.clock, cfg);
  }

  /** A restart whose recovery succeeds leaves no row in flight; those that were are queued, attempt number kept. A
      restart whose recovery fails changes no row, and leaves the orphans to the first tick after their lease. */
  lemma RestartFreesEverything(s: State, cfg: Config, recovers: bool)
    requires Inv(s, cfg)
    ensures Runs(s, [Crash, Start(recovers)], cfg)
    ensures var t := After(s, [Crash, Start(recovers)], cfg).table;
            && t.rows.Keys == s.table.rows.Keys
            && forall id :: id in t.rows ==>
                 t.rows[id] == if recovers && s.table.rows[id].status.InFlight?
                               then s.table.rows[id].(status := Queued, nextAt := Some(s.clock)) else s.table.rows[id]
    ensures var u := After(s, [Crash, Start(recovers)], cfg); u.worker == Idle && !u.stopRequested
  {
    var c := Apply(s, Crash, cfg);
    assert Enabled(c, Start(recovers), cfg) && [Crash, Start(recovers)][1..] == [Start(recovers)]
        && [Start(recovers)][1..] == [];
    assert Runs(c, [Start(recovers)], cfg);
    assert After(s, [Crash, Start(recovers)], cfg) == After(c, [Start(recovers)], cfg)
        == Apply(c, Start(recovers), cfg);
  }

  /** A shutdown between two sends hands every held row back, due at once; a recording takes its row out of flight. */
  lemma BatchGivesRowsBack(s: State, cfg: Config, id: int)
    requires Inv(s, cfg) && Holds(s, id) && id in s.table.rows
    ensures Enabled(s, ReleaseBatch(true), cfg) ==>
      var t := Apply(s, ReleaseBatch(true), cfg).table;
      && t.rows[id] == s.table.rows[id].(status := Queued)
      && (t.rows[id].webhook in t.webhooks && t.webhooks[t.rows[id].webhook] ==> IsDue(t, id, s.clock))
    ensures forall random :: Enabled(s, RecordHead(random), cfg) && id == s.worker.claims[0].id ==>
      !Apply(s, RecordHead(random), cfg).table.rows[id].status.InFlight?
  {
    HeldIsNotTerminal(s, cfg, id);
  }

  // ----- new work -----

  predicate Listening(t: Table, id: int)
    requires id in t.rows
  {
    t.rows[id].webhook in t.webhooks && t.webhooks[t.rows[id].webhook]
  }

  /** Recordings an open row can still take. */
  function Weight(t: Table, id: int, cap: int): int {
    if id in t.rows && Open(t.rows[id].status) then cap - t.rows[id].attempt + 1 else 0
  }

  /** A retry, single or bulk, gives the row all its attempts again, due at once, with nothing sent; no other row
      changes. */
  lemma ResetStartsOver(s: State, ids: seq<int>, cfg: Config, id: int)
    requires Inv(s, cfg) && id in s.table.rows
    ensures var t := ResetRows(s, ids);
      && id in t.table.rows
      && (id !in ids ==> t.table.rows[id] == s.table.rows[id] && Count(t.sends, id) == Count(s.sends, id))
      && (id in ids ==> Weight(t.table, id, Cap(cfg)) == Cap(cfg) && Count(t.sends, id) == 0 == Count(t.lost, id)
                        && (Listening(t.table, id) ==> IsDue(t.table, id, s.clock)))
  {}

  /** An enqueued delivery is a new row with all its attempts, due at once if its webhook is active. */
  lemma EnqueuedIsDue(s: State, webhook: int, cfg: Config)
    requires Inv(s, cfg) && Enabled(s, EnqueueOne(webhook), cfg)
    ensures var t, id := Apply(s, EnqueueOne(webhook), cfg).table, s.table.nextId;
      && id !in s.table.rows && id in t.rows && t.rows[id].webhook == webhook
      && Weight(t, id, Cap(cfg)) == Cap(cfg)
      && (s.table.webhooks[webhook] ==> IsDue(t, id, s.clock))
      && forall other :: other in s.table.rows ==> other in t.rows && t.rows[other] == s.table.rows[other]
  {}

  // ----- draining -----

  function Potential(t: Table, n: int, cap: int): int
    decreases n
  {
    if n <= 0 then 0 else Potential(t, n - 1, cap) + Weight(t, n - 1, cap)
  }

  lemma {:induction false} PotentialMonotone(t: Table, u: Table, n: int, cap: int, id: int, drop: nat)
    requires forall i :: 0 <= i < n ==> Weight(t, i, cap) <= Weight(u, i, cap)
    requires 0 <= id < n ==> Weight(t, id, cap) + drop <= Weight(u, id, cap)
    ensures Potential(t, n, cap) + (if 0 <= id < n then drop else 0) <= Potential(u, n, cap)
    decreases n
  {
    if n > 0 { PotentialMonotone(t, u, n - 1, cap, id, drop); }
  }

  predicate AddsWork(step: Step) {
    step.EnqueueOne? || step.RetryOne? || step.RetryBulk?
  }

  lemma RecordedDrains(s: State, v: Verdict, cfg: Config)
    requires Inv(s, cfg) && s.worker.Batch? && s.worker.claims != []
    requires Fits(v, s.worker.claims[0].attempt, Cap(cfg), s.clock)
    ensures var t := Recorded(s, v);
            Potential(t.table, s.table.nextId, Cap(cfg)) + (t.recorded - s.recorded)
            <= Potential(s.table, s.table.nextId, Cap(cfg))
  {
    var c, t := s.worker.claims[0], Recorded(s, v);
    assert c in s.worker.claims && ClaimOk(s.table, c, Cap(cfg));
    PotentialMonotone(t.table, s.table, s.table.nextId, Cap(cfg), c.id, if c.id in s.table.rows then 1 else 0);
  }

  lemma StepDrains(s: State, step: Step, cfg: Config)
    requires Inv(s, cfg) && Enabled(s, step, cfg) && !AddsWork(step)
    ensures var t := Apply(s, step, cfg);
            && t.table.nextId == s.table.nextId
            && Potential(t.table, t.table.nextId, Cap(cfg)) + (t.recorded - s.recorded)
               <= Potential(s.table, s.table.nextId, Cap(cfg))
  {
    var t := Apply(s, step, cfg);
    var cap, n := Cap(cfg), s.table.nextId;
    if step.RecordHead? {
      var c := s.worker.claims[0];
      assert c in s.worker.claims && ClaimOk(s.table, c, cap);
      JudgeFits(c.attempt, cfg, s.worker.sent.value, step.random, s.clock);
      RecordedDrains(s, Judge(c.attempt, cfg.maxAttempts, s.worker.sent.value, step.random, s.clock), cfg);
    } else {
      PotentialMonotone(t.table, s.table, n, cap, -1, 0);
    }
  }

  lemma {:induction false} PotentialNonNegative(s: State, n: int, cfg: Config)
    requires Inv(s, cfg)
    ensures Potential(s.table, n, Cap(cfg)) >= 0
    decreases n
  {
    if n > 0 { PotentialNonNegative(s, n - 1, cfg); }
  }

  /** Without new work, the recordings of a whole run are paid for by the potential it uses up; so the queue drains. */
  lemma {:induction false} QueueDrains(s: State, steps: seq<Step>, cfg: Config)
    requires Inv(s, cfg) && Runs(s, steps, cfg)
    requires forall step :: step in steps ==> !AddsWork(step)
    ensures var t := After(s, steps, cfg);
            && t.table.nextId == s.table.nextId
            && 0 <= Potential(t.table, t.table.nextId, Cap(cfg))
            && Potential(t.table, t.table.nextId, Cap(cfg)) + (t.recorded - s.recorded)
               <= Potential(s.table, s.table.nextId, Cap(cfg))
    decreases |steps|
  {
    if steps == [] {
      PotentialNonNegative(s, s.table.nextId, cfg);
    } else {
      StepKeepsInv(s, steps[0], cfg);
      StepDrains(s, steps[0], cfg);
      QueueDrains(Apply(s, steps[0], cfg), steps[1..], cfg);
    }
  }

  /** Once the potential is used up, no delivery is open any more. */
  lemma {:induction false} DrainedQueueHasNoOpenRow(s: State, n: int, cfg: Config, id: int)
    requires Inv(s, cfg) && 0 <= id < n && Potential(s.table, n, Cap(cfg)) == 0
    ensures id in s.table.rows ==> !Open(s.table.rows[id].status)
    decreases n
  {
    PotentialNonNegative(s, n - 1, cfg);
    if id < n - 1 { DrainedQueueHasNoOpenRow(s, n - 1, cfg, id); }
  }

  lemma Prepend(s: State, step: Step, steps: seq<Step>, cfg: Config)
    requires Enabled(s, step, cfg) && Runs(Apply(s, step, cfg), steps, cfg)
    ensures Runs(s, [step] + steps, cfg) && After(s, [step] + steps, cfg) == After(Apply(s, step, cfg), steps, cfg)
  {
    assert ([step] + steps)[1..] == steps;
  }

  lemma RestartMakesDue(s: State, cfg: Config, id: int) returns (t: State, u: State, v: State)
    requires Inv(s, cfg) && id in s.table.rows && Open(s.table.rows[id].status) && Listening(s.table, id)
    ensures t == Apply(s, Crash, cfg) && Enabled(t, Start(true), cfg) && u == Apply(t, Start(true), cfg)
    ensures v == Apply(u, Advance(LONGEST_WAIT), cfg)
    ensures v.worker.Idle? && IsDue(v.table, id, v.clock) && v.recorded == s.recorded
  {
    t := Apply(s, Crash, cfg);
    u := Apply(t, Start(true), cfg);
    v := Apply(u, Advance(LONGEST_WAIT), cfg);
    assert RowOk(s.table.rows[id], Cap(cfg), s.clock);
  }

  /** A tick can claim a due row and deliver it. */
  lemma TickDelivers(s: State, cfg: Config, id: int) returns (steps: seq<Step>)
    requires s.worker.Idle? && IsDue(s.table, id, s.clock)
    ensures Runs(s, steps, cfg) && forall step :: step in steps ==> !AddsWork(step)
    ensures var t := After(s, steps, cfg);
      id in t.table.rows && t.table.rows[id].status.Success? && t.recorded == s.recorded + 1
  {
    var good := Outcome(true, Some(200), None);
    var t := Apply(s, BeginTick(true), cfg);
    assert IsDue(t.table, id, t.worker.now);
    var u := Apply(t, ClaimDue([id]), cfg);
    var v := Apply(u, SendHead(good), cfg);
    var a, b, c, d := BeginTick(true), ClaimDue([id]), SendHead(good), RecordHead(0.5);
    Prepend(v, d, [], cfg);
    Prepend(u, c, [d] + [], cfg);
    Prepend(t, b, [c] + ([d] + []), cfg);
    Prepend(s, a, [b] + ([c] + ([d] + [])), cfg);
    steps := [a] + ([b] + ([c] + ([d] + [])));
  }

  /** No open delivery of an active webhook is ever stuck: from every state that satisfies the invariant, even if the
      process dies there, a restart, the longest wait, one tick and one good send deliver it, without a new request. */
  lemma NoOpenRowIsStuck(s: State, cfg: Config, id: int) returns (steps: seq<Step>)
    requires Inv(s, cfg) && id in s.table.rows && Open(s.table.rows[id].status) && Listening(s.table, id)
    ensures Runs(s, steps, cfg) && forall step :: step in steps ==> !AddsWork(step)
    ensures var t := After(s, steps, cfg);
      id in t.table.rows && t.table.rows[id].status.Success? && t.recorded == s.recorded + 1
  {
    var t, u, v := RestartMakesDue(s, cfg, id);
    var rest := TickDelivers(v, cfg, id);
    Prepend(u, Advance(LONGEST_WAIT), rest, cfg);
    Prepend(t, Start(true), [Advance(LONGEST_WAIT)] + rest, cfg);
    Prepend(s, Crash, [Start(true)] + ([Advance(LONGEST_WAIT)] + rest), cfg);
    steps := [Crash] + ([Start(true)] + ([Advance(LONGEST_WAIT)] + rest));
  }

  /** A delivery that failed for good is not lost either: once it is retried, singly or in bulk, it can be delivered. */
  lemma RetriedRowIsDelivered(s: State, cfg: Config, id: int, bulk: bool) returns (steps: seq<Step>)
    requires Inv(s, cfg) && id in s.table.rows && s.table.rows[id].status in {Dead, Failure} && Listening(s.table, id)
    ensures var retry := if bulk then RetryBulk([id]) else RetryOne(id);
      && Runs(s, [retry] + steps, cfg)
      && var t := After(s, [retry] + steps, cfg); id in t.table.rows && t.table.rows[id].status.Success?
  {
    var retry := if bulk then RetryBulk([id]) else RetryOne(id);
    assert Enabled(s, retry, cfg);
    StepKeepsInv(s, retry, cfg);
    steps := NoOpenRowIsStuck(Apply(s, retry, cfg), cfg, id);
    Prepend(s, retry, steps, cfg);
  }
}
