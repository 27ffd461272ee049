/** Automation runs: the process-wide guard (api/materials/automation.py) over the run history
    (api/materials/runs.py). */
module Automation {
  import opened Options

  datatype RunStatus = Running | Succeeded | Failed

  datatype Run = Run(automation: bool, status: RunStatus, startedAt: int)

  datatype RunId = RunId(table: string, id: int)

  /** One run-history table per dataset, in one map, with the AUTOINCREMENT counter of each. */
  datatype Runs = Runs(rows: map<RunId, Run>, last: map<string, int>)

  datatype TriggerError = Disabled | NoEntryPoint | AlreadyRunning(table: string)

  const STALE_RUNNING_SEC := 6 * 3600

  predicate Active(r: Run) { r.automation && r.status.Running? }

  predicate Stale(r: Run, now: int) { Active(r) && r.startedAt <= now - STALE_RUNNING_SEC }

  predicate AllActiveStale(rs: Runs, now: int) {
    forall id :: id in rs.rows && Active(rs.rows[id]) ==> Stale(rs.rows[id], now)
  }

  /** Reaps the stale runs of one table. */
  function Reap(rs: Runs, table: string, now: int): Runs {
    rs.(rows := map id | id in rs.rows ::
          if id.table == table && Stale(rs.rows[id], now) then rs.rows[id].(status := Failed) else rs.rows[id])
  }

  function ReapTables(rs: Runs, tables: seq<string>, now: int): Runs {
    rs.(rows := map id | id in rs.rows ::
          if id.table in tables && Stale(rs.rows[id], now) then rs.rows[id].(status := Failed) else rs.rows[id])
  }

  predicate HasActive(rs: Runs, table: string) {
    exists id :: id in rs.rows && id.table == table && Active(rs.rows[id])
  }

  function Last(rs: Runs, table: string): int {
    if table in rs.last then rs.last[table] else 0
  }

  function NewId(rs: Runs, table: string): RunId {
    RunId(table, Last(rs, table) + 1)
  }

  function Insert(rs: Runs, table: string, r: Run): Runs {
    Runs(rs.rows[NewId(rs, table) := r], rs.last[table := Last(rs, table) + 1])
  }

  function Finish(rs: Runs, id: RunId, ok: bool): Runs {
    if id in rs.rows then rs.(rows := rs.rows[id := rs.rows[id].(status := if ok then Succeeded else Failed)]) else rs
  }

  /** The registered tables hold every run, and ids are handed out in order. */
  predicate WellFormed(rs: Runs, tables: seq<string>) {
    forall id :: id in rs.rows ==> id.table in tables && id.id <= Last(rs, id.table)
  }

  predicate AtMostOneActive(rs: Runs) {
    forall a, b :: a in rs.rows && b in rs.rows && Active(rs.rows[a]) && Active(rs.rows[b]) ==> a == b
  }

  /** What is active after reaping is what was active and not stale. */
  lemma ReapedActive(rs: Runs, tables: seq<string>, now: int)
    requires WellFormed(rs, tables)
    ensures WellFormed(ReapTables(rs, tables, now), tables)
    ensures forall id :: id in rs.rows ==>
      (Active(ReapTables(rs, tables, now).rows[id]) <==> Active(rs.rows[id]) && !Stale(rs.rows[id], now))
  {}

  class RunStore {
    var runs: Runs
    const tables: seq<string>

    constructor (tables: seq<string>)
      ensures this.tables == tables && runs == Runs(map[], map[])
    {
      this.tables := tables;
      runs := Runs(map[], map[]);
    }

    /** The run is under an id never used before, and its table is active from now on; every other run is as before. */
    method StartRun(table: string, now: int) returns (id: RunId)
      requires WellFormed(runs, tables) && table in tables
      modifies this
      ensures WellFormed(runs, tables)
      ensures id.table == table && id !in old(runs).rows && id.id > Last(old(runs), table)
      ensures table !in old(runs).last ==> id.id == 1
      ensures HasActive(runs, table) && !AllActiveStale(runs, now)
      ensures forall other :: other in runs.rows && other != id <==> other in old(runs).rows
      ensures forall other :: other in old(runs).rows ==> runs.rows[other] == old(runs).rows[other]
      ensures (forall other :: other in old(runs).rows ==> !Active(old(runs).rows[other])) ==> AtMostOneActive(runs)
      ensures runs == Insert(old(runs), table, Run(true, Running, now)) && id == NewId(old(runs), table)
    {
      var n := Last(runs, table) + 1;
      id := RunId(table, n);
      runs := Runs(runs.rows[id := Run(true, Running, now)], runs.last[table := n]);
      assert Active(runs.rows[id]);
    }

    /** The run is not active any more, so when it was the only one a trigger can start the next; no other run
        changes. */
    method FinishRun(id: RunId, ok: bool)
      modifies this
      ensures runs.rows.Keys == old(runs).rows.Keys && runs.last == old(runs).last
      ensures id in runs.rows ==>
        runs.rows[id] == old(runs).rows[id].(status := if ok then Succeeded else Failed) && !Active(runs.rows[id])
      ensures forall other :: other in runs.rows && other != id ==> runs.rows[other] == old(runs).rows[other]
      ensures AtMostOneActive(old(runs)) && id in runs.rows && Active(old(runs).rows[id]) ==>
        forall table :: !HasActive(runs, table)
      ensures runs == Finish(old(runs), id, ok)
    {
      if id in runs.rows {
        runs := runs.(rows := runs.rows[id := runs.rows[id].(status := if ok then Succeeded else Failed)]);
      }
    }

    /** Exactly the automation runs of the registered tables that have been running for six hours fail. */
    method ReapStaleRunningAll(now: int)
      modifies this
      ensures runs == ReapTables(old(runs), tables, now)
      ensures runs.rows.Keys == old(runs).rows.Keys && runs.last == old(runs).last
      ensures forall id :: id in runs.rows ==> var was := old(runs).rows[id];
        runs.rows[id] == if id.table in tables && was.automation && was.status.Running? && now - was.startedAt >= 21600
                         then was.(status := Failed) else was
    {
      for i := 0 to |tables|
        invariant runs == ReapTables(old(runs), tables[..i], now)
      {
        assert tables[..i + 1] == tables[..i] + [tables[i]];
        runs := Reap(runs, tables[i], now);
        assert runs.rows == ReapTables(old(runs), tables[..i + 1], now).rows;
      }
      assert tables[..|tables|] == tables;
    }

    /** The first dataset with an active automation. */
    method ActiveAutomationDataset() returns (active: Option<string>)
      ensures active.None? <==> forall i :: 0 <= i < |tables| ==> !HasActive(runs, tables[i])
      ensures active.Some? ==> active.value in tables && HasActive(runs, active.value)
    {
      for i := 0 to |tables|
        invariant forall j :: 0 <= j < i ==> !HasActive(runs, tables[j])
      {
        if HasActive(runs, tables[i]) {
          return Some(tables[i]);
        }
      }
      active := None;
    }

    /** Starts a run exactly when the feature is on, the bot exists, and every active run is stale. */
    method TriggerAutomation(table: string, enabled: bool, entryPoint: bool, now: int) 
      returns (r: Result<RunId, TriggerError>)
      requires WellFormed(runs, tables) && table in tables
      modifies this
      ensures WellFormed(runs, tables)
      ensures r.Ok? <==> enabled && entryPoint && AllActiveStale(old(runs), now)
      ensures r.Ok? ==> r.value !in old(runs).rows
      ensures r.Ok? ==> runs == Insert(ReapTables(old(runs), tables, now), table, Run(true, Running, now))
      ensures !enabled ==> r == Err(Disabled)
      ensures enabled && !entryPoint ==> r == Err(NoEntryPoint)
      ensures r.Err? ==> runs == if enabled && entryPoint then ReapTables(old(runs), tables, now) else old(runs)
      ensures r.Err? && r.error.AlreadyRunning? ==> HasActive(runs, r.error.table)
    {
      if !enabled {
        return Err(Disabled);
      }
      if !entryPoint {
        return Err(NoEntryPoint);
      }
      ReapStaleRunningAll(now);
      var active := ActiveAutomationDataset();
      ReapedActive(old(runs), tables, now);
      if active.Some? {
        return Err(AlreadyRunning(active.value));
      }
      assert forall id :: id in runs.rows && Active(runs.rows[id]) ==> HasActive(runs, id.table);
      var id := StartRun(table, now);
      r := Ok(id);
    }
  }

  // ----- interleavings of triggers and workers -----

  /** The trigger that holds the lock: reaping table after table, then checking table after table, then inserting. */
  datatype Holder = Reaping(table: string, next: nat) | Checking(table: string, next: nat)

  datatype State = State(runs: Runs, clock: int, lock: Option<Holder>)

  datatype Step =
    | Acquire(table: string)
    | ReapNext
    | CheckNext
    | InsertRun
    | Abandon                                // a statement of the trigger raises, which frees the lock
    | FinishRun(id: RunId, ok: bool)         // any worker thread, at any time, for any run
    | RecordBackup(table: string)
    | Wait(elapsed: nat)

  predicate Enabled(s: State, step: Step, tables: seq<string>) {
    match step
    case Acquire(table) => s.lock.None? && table in tables
    case ReapNext => s.lock.Some? && s.lock.value.Reaping? && s.lock.value.next < |tables|
    case CheckNext => s.lock.Some? && s.lock.value.Checking? && s.lock.value.next < |tables|
    case InsertRun => s.lock.Some? && s.lock.value.Checking? && s.lock.value.next >= |tables|
    case RecordBackup(table) => table in tables
    case _ => true
  }

  function Apply(s: State, step: Step, tables: seq<string>): State
    requires Enabled(s, step, tables)
  {
    match step
    case Acquire(table) => s.(lock := Some(if tables == [] then Checking(table, 0) else Reaping(table, 0)))
    case ReapNext =>
      var h := s.lock.value;
      s.(runs := Reap(s.runs, tables[h.next], s.clock),
         lock := Some(if h.next + 1 < |tables| then Reaping(h.table, h.next + 1) else Checking(h.table, 0)))
    case CheckNext =>
      var h := s.lock.value;
      // an active run refuses the trigger and frees the lock
      s.(lock := if HasActive(s.runs, tables[h.next]) then None else Some(Checking(h.table, h.next + 1)))
    case InsertRun => s.(runs := Insert(s.runs, s.lock.value.table, Run(true, Running, s.clock)), lock := None)
    case Abandon => s.(lock := None)
    case FinishRun(id, ok) => s.(runs := Finish(s.runs, id, ok))
    case RecordBackup(table) => s.(runs := Insert(s.runs, table, Run(false, Succeeded, s.clock)))
    case Wait(elapsed) => s.(clock := s.clock + elapsed)
  }

  predicate Steps(s: State, steps: seq<Step>, tables: seq<string>)
    decreases |steps|
  {
    steps == [] || (Enabled(s, steps[0], tables) && Steps(Apply(s, steps[0], tables), steps[1..], tables))
  }

  function After(s: State, steps: seq<Step>, tables: seq<string>): State
    requires Steps(s, steps, tables)
    decreases |steps|
  {
    if steps == [] then s else After(Apply(s, steps[0], tables), steps[1..], tables)
  }

  /** While a trigger checks, the tables it has passed stay without an active run. */
  predicate Inv(s: State, tables: seq<string>) {
    && WellFormed(s.runs, tables)
    && AtMostOneActive(s.runs)
    && (s.lock.Some? ==> s.lock.value.table in tables)
    && (s.lock.Some? && s.lock.value.Checking? ==>
          s.lock.value.next <= |tables| && forall i :: 0 <= i < s.lock.value.next ==> !HasActive(s.runs, tables[i]))
  }

  lemma NoNewActive(rs: Runs, us: Runs, tables: seq<string>)
    requires AtMostOneActive(rs)
    requires forall id :: id in us.rows && Active(us.rows[id]) ==> id in rs.rows && Active(rs.rows[id])
    ensures AtMostOneActive(us)
    ensures forall t :: HasActive(us, t) ==> HasActive(rs, t)
  {}

  lemma InsertKeepsInv(s: State, tables: seq<string>)
    requires Inv(s, tables) && Enabled(s, InsertRun, tables)
    ensures Inv(Apply(s, InsertRun, tables), tables)
  {
    forall id | id in s.runs.rows ensures !Active(s.runs.rows[id]) {
      var i :| 0 <= i < |tables| && tables[i] == id.table;
      assert !HasActive(s.runs, tables[i]);
    }
  }

  lemma StepKeepsInv(s: State, step: Step, tables: seq<string>)
    requires Inv(s, tables) && Enabled(s, step, tables)
    ensures Inv(Apply(s, step, tables), tables)
  {
    match step
    case InsertRun => InsertKeepsInv(s, tables);
    case ReapNext => NoNewActive(s.runs, Apply(s, step, tables).runs, tables);
    case FinishRun(id, ok) => NoNewActive(s.runs, Apply(s, step, tables).runs, tables);
    case RecordBackup(table) => NoNewActive(s.runs, Apply(s, step, tables).runs, tables);
    case _ =>
  }

  /** Whatever triggers, workers and clocks do, at most one automation is running over all datasets. */
  lemma {:induction false} AtMostOneAutomationRuns(s: State, steps: seq<Step>, tables: seq<string>)
    requires Inv(s, tables) && Steps(s, steps, tables)
    ensures Inv(After(s, steps, tables), tables) && AtMostOneActive(After(s, steps, tables).runs)
    decreases |steps|
  {
    if steps != [] {
      StepKeepsInv(s, steps[0], tables);
      AtMostOneAutomationRuns(Apply(s, steps[0], tables), steps[1..], tables);
    }
  }

  // ----- a trigger that nothing interrupts -----

  lemma Prepend(s: State, step: Step, steps: seq<Step>, tables: seq<string>)
    requires Enabled(s, step, tables) && Steps(Apply(s, step, tables), steps, tables)
    ensures Steps(s, [step] + steps, tables)
    ensures After(s, [step] + steps, tables) == After(Apply(s, step, tables), steps, tables)
  {
    assert ([step] + steps)[1..] == steps;
  }

  lemma {:induction false} StepsConcat(s: State, a: seq<Step>, b: seq<Step>, tables: seq<string>)
    requires Steps(s, a, tables) && Steps(After(s, a, tables), b, tables)
    ensures Steps(s, a + b, tables) && After(s, a + b, tables) == After(After(s, a, tables), b, tables)
    decreases |a|
  {
    if a == [] {
      assert a + b == b;
    } else {
      StepsConcat(Apply(s, a[0], tables), a[1..], b, tables);
      assert a + b == [a[0]] + (a[1..] + b);
      Prepend(s, a[0], a[1..] + b, tables);
    }
  }

  lemma ReapOneMore(rs: Runs, tables: seq<string>, now: int)
    requires tables != []
    ensures ReapTables(Reap(rs, tables[0], now), tables[1..], now) == ReapTables(rs, tables, now)
  {
    assert ReapTables(Reap(rs, tables[0], now), tables[1..], now).rows == ReapTables(rs, tables, now).rows;
  }

  lemma {:induction false} ReapAll(s: State, tables: seq<string>) returns (steps: seq<Step>)
    requires s.lock.Some? && s.lock.value.Reaping? && s.lock.value.next < |tables|
    ensures Steps(s, steps, tables)
    ensures After(s, steps, tables) == s.(runs := ReapTables(s.runs, tables[s.lock.value.next..], s.clock),
                                          lock := Some(Checking(s.lock.value.table, 0)))
    decreases |tables| - s.lock.value.next
  {
    var n, t := s.lock.value.next, Apply(s, ReapNext, tables);
    assert tables[n..][0] == tables[n] && tables[n..][1..] == tables[n + 1..];
    ReapOneMore(s.runs, tables[n..], s.clock);
    var rest := [];
    if n + 1 < |tables| {
      rest := ReapAll(t, tables);
    } else {
      assert ReapTables(t.runs, [], s.clock).rows == t.runs.rows;
    }
    Prepend(s, ReapNext, rest, tables);
    steps := [ReapNext] + rest;
  }

  /** The checks free the lock at the first active table, and else come to their end. */
  lemma {:induction false} CheckAll(s: State, tables: seq<string>) returns (steps: seq<Step>)
    requires s.lock.Some? && s.lock.value.Checking? && s.lock.value.next <= |tables|
    ensures Steps(s, steps, tables)
    ensures var free := forall i :: s.lock.value.next <= i < |tables| ==> !HasActive(s.runs, tables[i]);
      After(s, steps, tables) == s.(lock := if free then Some(Checking(s.lock.value.table, |tables|)) else None)
    decreases |tables| - s.lock.value.next
  {
    if s.lock.value.next == |tables| {
      steps := [];
    } else {
      var t, rest := Apply(s, CheckNext, tables), [];
      if t.lock.Some? { rest := CheckAll(t, tables); }
      Prepend(s, CheckNext, rest, tables);
      steps := [CheckNext] + rest;
    }
  }

  lemma ActiveSomewhere(rs: Runs, tables: seq<string>, now: int)
    requires WellFormed(rs, tables)
    ensures AllActiveStale(rs, now)
            <==> forall i :: 0 <= i < |tables| ==> !HasActive(ReapTables(rs, tables, now), tables[i])
  {
    var us := ReapTables(rs, tables, now);
    ReapedActive(rs, tables, now);
    if !AllActiveStale(rs, now) {
      var id :| id in rs.rows && Active(rs.rows[id]) && !Stale(rs.rows[id], now);
      var i :| 0 <= i < |tables| && tables[i] == id.table;
      assert id in us.rows && Active(us.rows[id]) && HasActive(us, tables[i]);
    }
  }

  /** A trigger that nothing interrupts can take a free lock, runs to its end and frees it again; it leaves just what
      RunStore.TriggerAutomation leaves. */
  lemma TriggerRuns(s: State, table: string, tables: seq<string>) returns (steps: seq<Step>)
    requires s.lock.None? && table in tables && WellFormed(s.runs, tables)
    ensures Steps(s, steps, tables)
    ensures var reaped := ReapTables(s.runs, tables, s.clock);
      After(s, steps, tables) ==
        s.(runs := if !AllActiveStale(s.runs, s.clock) then reaped
                   else Insert(reaped, table, Run(true, Running, s.clock)))
  {
    var t := Apply(s, Acquire(table), tables);
    var reaping := ReapAll(t, tables);
    assert tables[0..] == tables;
    var u := After(t, reaping, tables);
    var checking := CheckAll(u, tables);
    var v := After(u, checking, tables);
    ActiveSomewhere(s.runs, tables, s.clock);
    var last := if v.lock.Some? then [InsertRun] else [];
    if v.lock.Some? { Prepend(v, InsertRun, [], tables); assert [InsertRun] + [] == last; }
    StepsConcat(u, checking, last, tables);
    StepsConcat(t, reaping, checking + last, tables);
    Prepend(s, Acquire(table), reaping + (checking + last), tables);
    steps := [Acquire(table)] + (reaping + (checking + last));
  }

  /** After the steps a run of the table is active under an id not used in `s`. */
  predicate Started(s: State, steps: seq<Step>, table: string, tables: seq<string>) {
    && Steps(s, steps, tables)
    && var rows, id := After(s, steps, tables).runs.rows, NewId(s.runs, table);
       id in rows && Active(rows[id])
  }

  lemma StartsNewRun(s: State, first: Step, table: string, tables: seq<string>) returns (steps: seq<Step>)
    requires s.lock.None? && table in tables && Enabled(s, first, tables) && !first.Acquire?
    requires var t := Apply(s, first, tables);
      WellFormed(t.runs, tables) && AllActiveStale(t.runs, t.clock) && t.runs.last == s.runs.last
    ensures Started(s, [first] + steps, table, tables)
  {
    steps := TriggerRuns(Apply(s, first, tables), table, tables);
    Prepend(s, first, steps, tables);
  }

  /** A run that is never finished blocks nothing for longer than the stale window: six hours later a trigger starts a
      new run. */
  lemma TriggerAfterStaleWindow(s: State, table: string, tables: seq<string>) returns (steps: seq<Step>)
    requires s.lock.None? && table in tables && WellFormed(s.runs, tables)
    requires forall id :: id in s.runs.rows ==> s.runs.rows[id].startedAt <= s.clock
    ensures Started(s, [Wait(21600)] + steps, table, tables)
  {
    steps := StartsNewRun(s, Wait(21600), table, tables);
  }

  /** Once the one active run is finished, a trigger starts the next at once. */
  lemma TriggerAfterFinish(s: State, id: RunId, ok: bool, table: string, tables: seq<string>)
    returns (steps: seq<Step>)
    requires s.lock.None? && table in tables && WellFormed(s.runs, tables) && AtMostOneActive(s.runs)
    requires id in s.runs.rows && Active(s.runs.rows[id])
    ensures Started(s, [FinishRun(id, ok)] + steps, table, tables)
  {
    steps := StartsNewRun(s, FinishRun(id, ok), table, tables);
  }

  /** The trigger holding the lock will find nothing active: what is active is stale, in a table not reaped yet. */
  predicate WillStart(s: State, tables: seq<string>) {
    && s.lock.Some?
    && match s.lock.value
       case Reaping(_, next) =>
         && next < |tables| && AllActiveStale(s.runs, s.clock)
         && forall i :: 0 <= i < next ==> !HasActive(s.runs, tables[i])
       case Checking(_, _) => forall i :: 0 <= i < |tables| ==> !HasActive(s.runs, tables[i])
  }

  lemma StepKeepsWillStart(s: State, step: Step, tables: seq<string>)
    requires Inv(s, tables) && Enabled(s, step, tables) && WillStart(s, tables) && !step.InsertRun? && !step.Abandon?
    ensures WillStart(Apply(s, step, tables), tables)
  {
    var t := Apply(s, step, tables);
    if !step.CheckNext? && !step.Wait? && !step.Acquire? {
      NoNewActive(s.runs, t.runs, tables);
      if step.ReapNext? {
        assert !HasActive(t.runs, tables[s.lock.value.next]);
      }
    }
  }

  /** A trigger that takes the lock when every active run is past the stale window does start a new run before it
      gives the lock back, whatever happens meanwhile, unless a statement of a trigger raises. */
  lemma {:induction false} StaleRunsDoNotBlockTriggers(s: State, steps: seq<Step>, tables: seq<string>)
    requires Inv(s, tables) && Steps(s, steps, tables)
    requires WillStart(s, tables) && After(s, steps, tables).lock.None? && Abandon !in steps
    ensures exists i :: 0 <= i < |steps| && steps[i] == InsertRun
    decreases |steps|
  {
    if steps[0] != InsertRun {
      StepKeepsInv(s, steps[0], tables);
      StepKeepsWillStart(s, steps[0], tables);
      StaleRunsDoNotBlockTriggers(Apply(s, steps[0], tables), steps[1..], tables);
      var i :| 0 <= i < |steps[1..]| && steps[1..][i] == InsertRun;
      assert steps[i + 1] == InsertRun;
    }
  }

  /** Taking the lock after the stale window puts a trigger into that position. */
  lemma AcquireAfterStaleWindow(s: State, table: string, tables: seq<string>)
    requires Inv(s, tables) && Enabled(s, Acquire(table), tables) && AllActiveStale(s.runs, s.clock)
    ensures WillStart(Apply(s, Acquire(table), tables), tables)
  {}
}
