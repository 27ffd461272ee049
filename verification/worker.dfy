/** The dispatch worker (api/notifications/worker.py): one tick, run without interference, is a run of the protocol. */
module DispatchWorker {
  import opened Options
  import opened Queue
  import opened DeliveryStore
  import Backoff

  /** What the world does around one claim: whether shutdown is seen, the send's outcome, the jitter draw, the time that
      passes until the result is recorded, and whether the database lets the recording through. */
  datatype Turn = Turn(stop: bool, outcome: Outcome, random: real, elapsed: nat, records: bool)

  /** Whether the database lets each transaction of a tick through. */
  datatype Database = Database(recovers: bool, claims: bool, releases: bool)

  lemma {:induction false} RunThenStep(s: State, steps: seq<Step>, step: Step, cfg: Config)
    requires Runs(s, steps, cfg) && Enabled(After(s, steps, cfg), step, cfg)
    ensures Runs(s, steps + [step], cfg) && After(s, steps + [step], cfg) == Apply(After(s, steps, cfg), step, cfg)
    decreases |steps|
  {
    if steps == [] {
      assert [] + [step] == [step] && [step][1..] == [];
    } else {
      assert (steps + [step])[1..] == steps[1..] + [step];
      RunThenStep(Apply(s, steps[0], cfg), steps[1..], step, cfg);
    }
  }

  /** The protocol steps of one finished claim. */
  function TurnSteps(turn: Turn): seq<Step> {
    [SendHead(turn.outcome), Advance(turn.elapsed), RecordHead(turn.random)]
  }

  /** `u` is `t` with the head of its batch sent and recorded. */
  ghost predicate TurnDone(t: State, turn: Turn, cfg: Config, u: State)
    requires t.worker.Batch? && t.worker.claims != []
  {
    var c, now := t.worker.claims[0], t.clock + turn.elapsed;
    && u.worker == Batch(t.worker.claims[1..], None) && u.clock == now
    && u.table == Queue.RecordAttempt(t.table, c.id,
        Judge(c.attempt, cfg.maxAttempts, turn.outcome, turn.random, now), now)
  }

  lemma TurnEnabled(t: State, turn: Turn, cfg: Config) returns (one: State, two: State)
    requires t.worker.Batch? && t.worker.claims != [] && t.worker.sent.None? && Backoff.Draw(turn.random)
    ensures Enabled(t, SendHead(turn.outcome), cfg) && one == Apply(t, SendHead(turn.outcome), cfg)
    ensures Enabled(one, Advance(turn.elapsed), cfg) && two == Apply(one, Advance(turn.elapsed), cfg)
    ensures Enabled(two, RecordHead(turn.random), cfg)
        && TurnDone(t, turn, cfg, Apply(two, RecordHead(turn.random), cfg))
  {
    one := Apply(t, SendHead(turn.outcome), cfg);
    two := Apply(one, Advance(turn.elapsed), cfg);
  }

  lemma ThreeSteps(s: State, steps: seq<Step>, a: Step, one: State, b: Step, two: State, c: Step, cfg: Config)
    requires Runs(s, steps, cfg) && Enabled(After(s, steps, cfg), a, cfg) && Enabled(one, b, cfg)
        && Enabled(two, c, cfg)
    requires one == Apply(After(s, steps, cfg), a, cfg) && two == Apply(one, b, cfg)
    ensures Runs(s, steps + [a, b, c], cfg) && After(s, steps + [a, b, c], cfg) == Apply(two, c, cfg)
  {
    RunThenStep(s, steps, a, cfg);
    RunThenStep(s, steps + [a], b, cfg);
    RunThenStep(s, steps + [a] + [b], c, cfg);
    assert steps + [a] + [b] + [c] == steps + [a, b, c];
  }

  lemma TurnRuns(s: State, steps: seq<Step>, turn: Turn, cfg: Config)
    requires Runs(s, steps, cfg) && Backoff.Draw(turn.random)
    requires var w := After(s, steps, cfg).worker; w.Batch? && w.claims != [] && w.sent.None?
    ensures Runs(s, steps + TurnSteps(turn), cfg)
    ensures TurnDone(After(s, steps, cfg), turn, cfg, After(s, steps + TurnSteps(turn), cfg))
  {
    var one, two := TurnEnabled(After(s, steps, cfg), turn, cfg);
    ThreeSteps(s, steps, SendHead(turn.outcome), one, Advance(turn.elapsed), two, RecordHead(turn.random), cfg);
  }

  /** The protocol steps of a claim whose recording raises. */
  function RaiseSteps(turn: Turn): seq<Step> {
    [SendHead(turn.outcome), Advance(turn.elapsed), RecordRaises]
  }

  lemma RaiseRuns(s: State, steps: seq<Step>, turn: Turn, cfg: Config)
    requires Runs(s, steps, cfg) && Backoff.Draw(turn.random)
    requires var w := After(s, steps, cfg).worker; w.Batch? && w.claims != [] && w.sent.None?
    ensures Runs(s, steps + RaiseSteps(turn), cfg)
    ensures var t, u := After(s, steps, cfg), After(s, steps + RaiseSteps(turn), cfg);
            u.table == t.table && u.worker == Idle
  {
    var one, two := TurnEnabled(After(s, steps, cfg), turn, cfg);
    ThreeSteps(s, steps, SendHead(turn.outcome), one, Advance(turn.elapsed), two, RecordRaises, cfg);
  }

  lemma StopRuns(s: State, steps: seq<Step>, releases: bool, cfg: Config)
    requires Runs(s, steps, cfg)
    requires var w := After(s, steps, cfg).worker; w.Batch? && w.sent.None?
    ensures var all := steps + [RequestStop, ReleaseBatch(releases)];
            && Runs(s, all, cfg)
            && var t := After(s, steps, cfg);
               After(s, all, cfg).table == (if releases then Release(t.table, Ids(t.worker.claims)) else t.table)
                   && After(s, all, cfg).worker == Stopped
  {
    RunThenStep(s, steps, RequestStop, cfg);
    RunThenStep(s, steps + [RequestStop], ReleaseBatch(releases), cfg);
    assert steps + [RequestStop, ReleaseBatch(releases)] == steps + [RequestStop] + [ReleaseBatch(releases)];
  }

  /** The table a tick claims from. */
  function TickTable(t: Table, lease: nat, now: int, recovers: bool): Table {
    if recovers then Recover(t, lease, now) else t
  }

  /** What a tick claims: the first due rows, or nothing on a database error. */
  predicate Claims(t: Table, now: int, batchSize: int, claims: bool, ids: seq<int>) {
    if claims then FirstDue(t, now, if batchSize < 1 then 1 else batchSize, ids) else ids == []
  }

  lemma TickBegins(s: State, ids: seq<int>, db: Database, cfg: Config)
    requires s.worker.Idle?
        && Claims(TickTable(s.table, cfg.lease, s.clock, db.recovers), s.clock, cfg.batchSize, db.claims, ids)
    ensures var steps := [BeginTick(db.recovers), ClaimDue(ids)];
            && Runs(s, steps, cfg)
            && var t, r := After(s, steps, cfg), TickTable(s.table, cfg.lease, s.clock, db.recovers);
               && (forall i :: 0 <= i < |ids| ==> ids[i] in r.rows)
               && t == s.(table := MarkClaimed(r, ids, s.clock), worker := Batch(ClaimsOf(r, ids), None))
  {
    RunThenStep(s, [], BeginTick(db.recovers), cfg);
    var r := TickTable(s.table, cfg.lease, s.clock, db.recovers);
    EarlierIrreflexive(r, ids);
    assert [] + [BeginTick(db.recovers)] == [BeginTick(db.recovers)];
    RunThenStep(s, [BeginTick(db.recovers)], ClaimDue(ids), cfg);
    assert [BeginTick(db.recovers)] + [ClaimDue(ids)] == [BeginTick(db.recovers), ClaimDue(ids)];
  }

  class Worker {
    const batchSize: int
    const maxAttempts: int
    const lease: nat
    var alive: bool
    var shutdown: bool

    constructor (batchSize: int, maxAttempts: int, lease: nat)
      ensures this.batchSize == batchSize && this.maxAttempts == maxAttempts && this.lease == lease
      ensures !alive && !shutdown
    {
      this.batchSize, this.maxAttempts, this.lease := batchSize, maxAttempts, lease;
      alive, shutdown := false, false;
    }

    /** Starting twice does nothing; a real start first requeues everything a previous run left in flight, and starts
        even when the database refuses that. */
    method Start(store: Store, now: int, works: bool)
      requires store.Valid() && forall id :: id in store.rows ==> store.rows[id].attemptedAt <= now
      modifies this, store
      ensures store.Valid() && alive
      ensures old(alive) ==> store.Contents() == old(store.Contents()) && shutdown == old(shutdown)
      ensures !old(alive) ==> !shutdown
      ensures !old(alive) ==> store.Contents() == if works then Recover(old(store.Contents()), 0, now)
          else old(store.Contents())
      ensures !old(alive) && works ==> forall id :: id in store.rows ==> !store.rows[id].status.InFlight?
    {
      if alive {
        return;
      }
      var _ := store.RecoverStaleInFlight(0, now, works);
      shutdown := false;
      alive := true;
    }

    function Configuration(): Config {
      Config(maxAttempts, batchSize, lease)
    }

    /** The row has what the send of the claim owes it, and is otherwise as it was. */
    ghost predicate SettledRow(was: Delivery, row: Delivery, c: Claim, o: Outcome, now: int) {
      && Settles(Verdict(row.status, row.attempt, row.nextAt), c.attempt, maxAttempts, o, now)
      && row.webhook == was.webhook && row.attemptedAt == now
    }

    /** _finalize: one recording, which settles the send; it is lost when the database raises. */
    method Finalize(store: Store, c: Claim, turn: Turn, now: int) returns (raised: bool)
      requires store.Valid()
      modifies store
      ensures store.Valid() && raised == !turn.records
      ensures !raised && c.id in old(store.rows) && Backoff.Draw(turn.random) ==>
        c.id in store.rows && SettledRow(old(store.rows)[c.id], store.rows[c.id], c, turn.outcome, now)
      ensures store.rows.Keys == old(store.rows).Keys
      ensures forall id :: id in store.rows && (raised || id != c.id) ==> store.rows[id] == old(store.rows)[id]
      ensures store.Contents() ==
        if raised then old(store.Contents())
        else Queue.RecordAttempt(old(store.Contents()), c.id,
                                 Judge(c.attempt, maxAttempts, turn.outcome, turn.random, now), now)
    {
      var o, works := turn.outcome, turn.records;
      if Backoff.Draw(turn.random) { JudgeSettles(c.attempt, maxAttempts, o, turn.random, now); }
      if o.ok {
        raised := store.RecordAttempt(c.id, Verdict(Success, c.attempt, None), now, works);
        return;
      }
      if o.httpStatus.Some? && 400 <= o.httpStatus.value < 500 {
        raised := store.RecordAttempt(c.id, Verdict(Failure, c.attempt, None), now, works);
        return;
      }
      var delay := Backoff.NextDelay(c.attempt, maxAttempts, o.retryAfter, turn.random);
      if delay.None? {
        raised := store.RecordAttempt(c.id, Verdict(Dead, c.attempt, None), now, works);
        return;
      }
      var next := Some(now + Micros(delay.value));
      raised := store.RecordAttempt(c.id, Verdict(Retrying, c.attempt + 1, next), now, works);
    }

    /** How a batch or tick ended after `done` of `n` claims: with all of them done; stopped by shutdown, the rest
        handed back; or abandoned by a recording that raised. */
    predicate Ended(turns: seq<Turn>, done: nat, n: nat, raised: bool, w: Queue.Worker, finished: Queue.Worker)
      requires done <= n <= |turns|
    {
      && (forall i :: 0 <= i < done ==> !turns[i].stop && turns[i].records)
      && (if done == n then !raised && w == finished
          else if turns[done].stop then !raised && w == Stopped
          else raised && !turns[done].records && w == Idle)
    }

    /** The loop of a tick over its batch; `begun` are the protocol steps that led here from `s`. */
    method DispatchBatch(store: Store, claimed: seq<Claim>, now: int, turns: seq<Turn>, db: Database,
                         ghost s: State, ghost begun: seq<Step>)
      returns (done: nat, raised: bool, ghost steps: seq<Step>)
      requires store.Valid() && |turns| >= |claimed|
      requires forall i :: 0 <= i < |turns| ==> Backoff.Draw(turns[i].random)
      requires Runs(s, begun, Configuration())
      requires var t := After(s, begun, Configuration());
               t.table == store.Contents() && t.clock == now && t.worker == Batch(claimed, None)
      modifies store
      ensures store.Valid() && done <= |claimed|
      ensures Runs(s, steps, Configuration()) && begun <= steps
      ensures After(s, steps, Configuration()).table == store.Contents()
      ensures Ended(turns, done, |claimed|, raised, After(s, steps, Configuration()).worker, Batch([], None))
    {
      ghost var cfg := Configuration();
      steps := begun;
      var clock := now;
      done, raised := 0, false;
      for i := 0 to |claimed|
        invariant done == i && !raised && store.Valid()
        invariant Runs(s, steps, cfg) && begun <= steps
        invariant After(s, steps, cfg).table == store.Contents()
        invariant After(s, steps, cfg).clock == clock
        invariant After(s, steps, cfg).worker == Batch(claimed[i..], None)
        invariant forall k :: 0 <= k < i ==> !turns[k].stop && turns[k].records
      {
        if turns[i].stop {
          StopRuns(s, steps, db.releases, cfg);
          steps := steps + [RequestStop, ReleaseBatch(db.releases)];
          store.ReleaseClaims(Ids(claimed[i..]), db.releases);
          return;
        }
        if turns[i].records { TurnRuns(s, steps, turns[i], cfg); } else { RaiseRuns(s, steps, turns[i], cfg); }
        steps := steps + if turns[i].records then TurnSteps(turns[i]) else RaiseSteps(turns[i]);
        clock := clock + turns[i].elapsed;
        raised := Finalize(store, claimed[i], turns[i], clock);
        if raised {
          return;
        }
        done := done + 1;
      }
    }

    /** Recovers, claims the first due rows and works through them; `s` is the protocol state at the start, `ids`
        the batch and `steps` the protocol steps taken. Once shutdown is seen, the rest of the batch is handed back; a
        recording that raises abandons the tick, the rest left in flight until the lease is over. */
    method TickOnce(store: Store, now: int, turns: seq<Turn>, db: Database, ghost s: State)
      returns (done: nat, raised: bool, ghost ids: seq<int>, ghost steps: seq<Step>)
      requires store.Valid() && s.table == store.Contents() && s.clock == now && s.worker == Idle
      requires |turns| >= (if batchSize < 1 then 1 else batchSize)
      requires forall i :: 0 <= i < |turns| ==> Backoff.Draw(turns[i].random)
      modifies store
      ensures store.Valid() && done <= |ids| <= |turns|
      ensures Claims(TickTable(old(store.Contents()), lease, now, db.recovers), now, batchSize, db.claims, ids)
      ensures Runs(s, steps, Configuration()) && [BeginTick(db.recovers), ClaimDue(ids)] <= steps
      ensures After(s, steps, Configuration()).table == store.Contents()
      ensures Ended(turns, done, |ids|, raised, After(s, steps, Configuration()).worker, Idle)
    {
      var _ := store.RecoverStaleInFlight(lease, now, db.recovers);
      var claimed := store.ClaimDueDeliveries(now, batchSize, db.claims);
      ids := Ids(claimed);
      TickBegins(s, ids, db, Configuration());
      ghost var begun := [BeginTick(db.recovers), ClaimDue(ids)];
      done, raised, steps := DispatchBatch(store, claimed, now, turns, db, s, begun);
      if done == |claimed| {
        RunThenStep(s, steps, EndBatch, Configuration());
        steps := steps + [EndBatch];
      }
    }
  }
}
