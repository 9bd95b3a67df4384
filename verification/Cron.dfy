/** The cron engine's timer, deferral and flush (exoclaw_tools_cron/service.py). */
module Cron {
  import opened Basics

  datatype Schedule =
    | At(atMs: Option<int>)
    | Every(everyMs: Option<int>)
    | Expression(expr: string, tz: Option<string>)

  datatype WakeMode = Now | NextHeartbeat

  datatype Job = Job(
    enabled: bool,
    schedule: Schedule,
    deleteAfterRun: bool,
    wake: WakeMode,
    nextRun: Option<int>,
    lastRun: Option<int>,
    lastOk: Option<bool>)

  datatype CallKind = Timer | Flush
  datatype Call = Call(id: string, kind: CallKind)

  /**
   * The service: job objects by id, the store's job list, the deferred queue, how often the clock was read,
   * and every `on_job` call made so far.
   */
  datatype Service = Service(table: map<string, Job>, jobs: seq<string>, deferred: seq<string>, readings: nat, calls: seq<Call>)

  /** What the service cannot see into: the clock, the cron-expression library, the callback's outcome. */
  datatype World = World(clock: nat -> int, cronNext: (Schedule, int) -> Option<int>, succeeds: (string, nat) -> bool)

  /** The clock never runs backwards and the library answers with a time strictly after the reference. */
  ghost predicate Sane(w: World) {
    && (forall i, j :: 0 <= i <= j ==> w.clock(i) <= w.clock(j))
    && (forall s, t :: w.cronNext(s, t).Some? ==> w.cronNext(s, t).value > t)
  }

  function ComputeNextRun(w: World, s: Schedule, now: int): Option<int> {
    match s
    case At(at) => if at.Some? && at.value != 0 && at.value > now then at else None
    case Every(every) => if every.Some? && every.value > 0 then Some(now + every.value) else None
    case Expression(expr, _) => if expr != "" then w.cronNext(s, now) else None
  }

  predicate IsDue(j: Job, now: int) {
    j.enabled && j.nextRun.Some? && j.nextRun.value != 0 && now >= j.nextRun.value
  }

  function DueAmong(table: map<string, Job>, ids: seq<string>, now: int): seq<string> {
    if ids == [] then []
    else (if ids[0] in table && IsDue(table[ids[0]], now) then [ids[0]] else []) + DueAmong(table, ids[1..], now)
  }

  function Without(ids: seq<string>, id: string): seq<string> {
    if ids == [] then [] else (if ids[0] == id then [] else [ids[0]]) + Without(ids[1..], id)
  }

  // ----- One job -----

  function Defer(w: World, s: Service, id: string): Service
    requires id in s.table
  {
    var j, now := s.table[id], w.clock(s.readings);
    var next := if j.schedule.At? then None else ComputeNextRun(w, j.schedule, now);
    s.(deferred := s.deferred + [id], readings := s.readings + 1,
       table := s.table[id := j.(lastRun := Some(now), enabled := j.enabled && !j.schedule.At?, nextRun := next)])
  }

  function Execute(w: World, s: Service, id: string): Service
    requires id in s.table
  {
    var j := s.table[id].(lastOk := Some(w.succeeds(id, |s.calls|)), lastRun := Some(w.clock(s.readings)));
    var called := s.(calls := s.calls + [Call(id, Timer)]);
    if j.schedule.At? && j.deleteAfterRun then
      called.(readings := s.readings + 2, table := s.table[id := j], jobs := Without(s.jobs, id))
    else if j.schedule.At? then
      called.(readings := s.readings + 2, table := s.table[id := j.(enabled := false, nextRun := None)])
    else
      called.(readings := s.readings + 3, table := s.table[id := j.(nextRun := ComputeNextRun(w, j.schedule, w.clock(s.readings + 2)))])
  }

  function Handle(w: World, s: Service, id: string): Service
    requires id in s.table
  {
    if s.table[id].wake.NextHeartbeat? then Defer(w, s, id) else Execute(w, s, id)
  }

  function HandleAll(w: World, s: Service, ids: seq<string>): (r: Service)
    requires forall i :: 0 <= i < |ids| ==> ids[i] in s.table
    ensures r.table.Keys == s.table.Keys
    decreases |ids|
  {
    if ids == [] then s else HandleAll(w, Handle(w, s, ids[0]), ids[1..])
  }

  function FlushOne(w: World, s: Service, id: string): Service
    requires id in s.table
  {
    var j := s.table[id].(lastOk := Some(w.succeeds(id, |s.calls|)), lastRun := Some(w.clock(s.readings)));
    s.(calls := s.calls + [Call(id, Flush)], readings := s.readings + 2, table := s.table[id := j],
       jobs := if j.schedule.At? && j.deleteAfterRun then Without(s.jobs, id) else s.jobs)
  }

  function FlushAll(w: World, s: Service, ids: seq<string>): (r: Service)
    requires forall i :: 0 <= i < |ids| ==> ids[i] in s.table
    ensures r.table.Keys == s.table.Keys
    decreases |ids|
  {
    if ids == [] then s else FlushAll(w, FlushOne(w, s, ids[0]), ids[1..])
  }

  // ----- A timer tick and a flush -----

  predicate Known(s: Service) {
    && (forall i :: 0 <= i < |s.jobs| ==> s.jobs[i] in s.table)
    && QueueKnown(s)
    && (forall i, j :: 0 <= i < j < |s.jobs| ==> s.jobs[i] != s.jobs[j])
  }

  lemma {:induction false} DueAreKnown(table: map<string, Job>, ids: seq<string>, now: int)
    ensures forall id :: id in DueAmong(table, ids, now) <==> id in ids && id in table && IsDue(table[id], now)
  {
    if ids != [] {
      DueAreKnown(table, ids[1..], now);
    }
  }

  function TickNow(w: World, s: Service): int { w.clock(s.readings) }

  function DueNow(w: World, s: Service): (r: seq<string>)
    ensures forall id :: id in r <==> id in s.jobs && id in s.table && IsDue(s.table[id], TickNow(w, s))
  {
    DueAreKnown(s.table, s.jobs, TickNow(w, s));
    DueAmong(s.table, s.jobs, TickNow(w, s))
  }

  predicate Armed(j: Job) {
    j.enabled && j.nextRun.Some? && j.nextRun.value != 0
  }

  /** The earliest next run of an enabled job. */
  function NextWake(table: map<string, Job>, ids: seq<string>): Option<int> {
    if ids == [] then None
    else
      var rest := NextWake(table, ids[1..]);
      if ids[0] in table && Armed(table[ids[0]]) && (rest.None? || table[ids[0]].nextRun.value < rest.value)
      then table[ids[0]].nextRun
      else rest
  }

  function Handled(w: World, s: Service): Service {
    HandleAll(w, s.(readings := s.readings + 1), DueNow(w, s))
  }

  /** Arming the timer reads the clock once more when there is a job to wait for. */
  function Tick(w: World, s: Service): Service {
    var t := Handled(w, s);
    if NextWake(t.table, t.jobs).Some? then t.(readings := t.readings + 1) else t
  }

  predicate QueueKnown(s: Service) {
    forall i :: 0 <= i < |s.deferred| ==> s.deferred[i] in s.table
  }

  function FlushDeferred(w: World, s: Service): Service
    requires QueueKnown(s)
  {
    if s.deferred == [] then s else FlushAll(w, s.(deferred := []), s.deferred)
  }

  // ----- The store file -----

  /** One job as the file keeps it. */
  datatype Saved = Saved(id: string, job: Job)

  function StoreOf(table: map<string, Job>, ids: seq<string>): seq<Saved> {
    if ids == [] then []
    else (if ids[0] in table then [Saved(ids[0], table[ids[0]])] else []) + StoreOf(table, ids[1..])
  }

  function IdsIn(file: seq<Saved>): seq<string> {
    if file == [] then [] else [file[0].id] + IdsIn(file[1..])
  }

  function RowsIn(file: seq<Saved>): map<string, Job> {
    if file == [] then map[] else RowsIn(file[1..])[file[0].id := file[0].job]
  }

  lemma OneMoreSaved(saved: Saved, rest: seq<Saved>)
    ensures IdsIn([saved] + rest) == [saved.id] + IdsIn(rest)
    ensures RowsIn([saved] + rest) == RowsIn(rest)[saved.id := saved.job]
  {
    assert ([saved] + rest)[1..] == rest;
  }

  /** Loading what was saved gives back the job list and every listed job. */
  lemma {:induction false} SavedStoreReloads(table: map<string, Job>, ids: seq<string>)
    requires forall i :: 0 <= i < |ids| ==> ids[i] in table
    ensures IdsIn(StoreOf(table, ids)) == ids
    ensures forall id :: id in RowsIn(StoreOf(table, ids)) <==> id in ids
    ensures forall id :: id in ids ==> RowsIn(StoreOf(table, ids))[id] == table[id]
  {
    hide IdsIn, RowsIn;
    if ids == [] {
      NothingSaved();
    } else {
      var rest := ids[1..];
      SavedStoreReloads(table, rest);
      OneMoreSaved(Saved(ids[0], table[ids[0]]), StoreOf(table, rest));
      assert [ids[0]] + rest == ids;
      assert forall id :: id in ids <==> id == ids[0] || id in rest;
    }
  }

  // ----- Starting -----

  /** `_recompute_next_runs`: every enabled job is scheduled afresh from `now`. */
  function Recompute(w: World, table: map<string, Job>, ids: seq<string>, now: int): (r: map<string, Job>)
    ensures r.Keys == table.Keys
    decreases |ids|
  {
    if ids == [] then table
    else Recompute(w, Rescheduled(w, table, ids[0], now), ids[1..], now)
  }

  function Rescheduled(w: World, table: map<string, Job>, id: string, now: int): (r: map<string, Job>)
    ensures r.Keys == table.Keys
  {
    if id in table && table[id].enabled
    then table[id := table[id].(nextRun := ComputeNextRun(w, table[id].schedule, now))]
    else table
  }

  function Started(w: World, s: Service): Service {
    var t := s.(readings := s.readings + 1, table := Recompute(w, s.table, s.jobs, TickNow(w, s)));
    if NextWake(t.table, t.jobs).Some? then t.(readings := t.readings + 1) else t
  }

  /** A new process on the file that the old one left: the queue was in memory only. */
  function Restarted(w: World, s: Service): Service {
    var rows := StoreOf(s.table, s.jobs);
    Started(w, Service(RowsIn(rows), IdsIn(rows), [], s.readings, []))
  }

  lemma NothingSaved()
    ensures IdsIn([]) == [] && RowsIn([]) == map[]
  {
  }

  // ----- The service object -----

  class CronService {
    const world: World
    var table: map<string, Job>
    var jobs: seq<string>
    var deferred: seq<string>
    var readings: nat
    var calls: seq<Call>
    var file: Option<seq<Saved>>
    var fileTime: nat
    var knownTime: nat
    /** How long the timer sleeps before the next tick. */
    var delay: Option<int>

    /** Nobody else has written the store file since this service did. */
    predicate Unedited()
      reads this
    {
      file.Some? ==> fileTime == knownTime
    }

    ghost function Abs(): Service
      reads this
    {
      Service(table, jobs, deferred, readings, calls)
    }

    /** What the service works on once it has looked at the file. */
    ghost function Loaded(): Service
      reads this
    {
      if Unedited() then Abs()
      else Abs().(jobs := IdsIn(file.value), table := table + RowsIn(file.value))
    }

    /** A new process: nothing in memory but what the file says. */
    constructor Open(world: World, rows: seq<Saved>, time: nat, readings: nat)
      ensures this.world == world && Abs() == Service(RowsIn(rows), IdsIn(rows), [], readings, []) && Unedited()
    {
      this.world, table, jobs, deferred, this.readings, calls := world, RowsIn(rows), IdsIn(rows), [], readings, [];
      file, fileTime, knownTime, delay := Some(rows), time, time, None;
    }

    constructor (world: World, table: map<string, Job>, jobs: seq<string>)
      ensures this.world == world && Abs() == Service(table, jobs, [], 0, []) && Unedited()
    {
      this.world, this.table, this.jobs, deferred, readings, calls := world, table, jobs, [], 0, [];
      file, fileTime, knownTime, delay := None, 0, 0, None;
    }

    /** Reloads the jobs if the file's time is not the one this service left. */
    method LoadStore()
      modifies this`table, this`jobs
      ensures Abs() == old(Loaded())
    {
      if file.Some? && fileTime != knownTime {
        jobs, table := IdsIn(file.value), table + RowsIn(file.value);
      }
    }

    method SaveStore()
      modifies this`file, this`fileTime, this`knownTime
      ensures file == Some(StoreOf(table, jobs)) && Unedited()
    {
      var i := 0;
      var rows: seq<Saved> := [];
      while i < |jobs|
        invariant 0 <= i <= |jobs|
        invariant rows + StoreOf(table, jobs[i..]) == StoreOf(table, jobs)
      {
        SaveStep(rows, table, jobs, i);
        if jobs[i] in table {
          rows := rows + [Saved(jobs[i], table[jobs[i]])];
        }
        i := i + 1;
      }
      assert jobs[i..] == [] && rows + [] == rows;
      file, fileTime := Some(rows), fileTime + 1;
      knownTime := fileTime;
    }

    /** Sleeps until the earliest next run, not at all if that is past; without one there is no timer. */
    method ArmTimer()
      modifies this`delay, this`readings
      ensures var wake := NextWake(table, jobs);
        && (wake.None? ==> delay == None && readings == old(readings))
        && (wake.Some? ==> delay == Some(Max(0, wake.value - world.clock(old(readings)))) && readings == old(readings) + 1)
    {
      delay := None;
      var wake := NextWake(table, jobs);
      if wake.Some? {
        var now := NowMs();
        delay := Some(Max(0, wake.value - now));
      }
    }

    method NowMs() returns (t: int)
      modifies this`readings
      ensures t == world.clock(old(readings)) && readings == old(readings) + 1
    {
      t := world.clock(readings);
      readings := readings + 1;
    }

    /** The callback: the service only learns whether it raised. */
    method OnJob(id: string, kind: CallKind) returns (ok: bool)
      modifies this`calls
      ensures calls == old(calls) + [Call(id, kind)] && ok == world.succeeds(id, |old(calls)|)
    {
      ok := world.succeeds(id, |calls|);
      calls := calls + [Call(id, kind)];
    }

    method RemoveFromStore(id: string)
      modifies this`jobs
      ensures jobs == Without(old(jobs), id)
    {
      var kept := OthersThan(jobs, id);
      jobs := kept;
    }

    method DeferJob(id: string)
      requires id in table
      modifies this`table, this`deferred, this`readings
      ensures Abs() == Defer(world, old(Abs()), id)
    {
      deferred := deferred + [id];
      var now := NowMs();
      var j := table[id].(lastRun := Some(now));
      if j.schedule.At? {
        j := j.(enabled := false, nextRun := None);
      } else {
        j := j.(nextRun := ComputeNextRun(world, j.schedule, now));
      }
      table := table[id := j];
    }

    method ExecuteJob(id: string)
      requires id in table
      modifies this`table, this`jobs, this`readings, this`calls
      ensures Abs() == Execute(world, old(Abs()), id)
    {
      var start := NowMs();
      var ok := OnJob(id, Timer);
      var j := table[id].(lastOk := Some(ok), lastRun := Some(start));
      var _ := NowMs();
      if j.schedule.At? {
        if j.deleteAfterRun {
          RemoveFromStore(id);
        } else {
          j := j.(enabled := false, nextRun := None);
        }
      } else {
        var now := NowMs();
        j := j.(nextRun := ComputeNextRun(world, j.schedule, now));
      }
      table := table[id := j];
    }

    /** Start: load, schedule every enabled job afresh, save, arm. */
    method Start()
      modifies this
      ensures Abs() == Started(world, old(Loaded()))
      ensures Unedited() && file == Some(StoreOf(table, jobs))
    {
      hide Recompute, StoreOf, IdsIn, RowsIn, NextWake;
      LoadStore();
      RecomputeNextRuns();
      SaveStore();
      ArmTimer();
    }

    method RecomputeNextRuns()
      modifies this`table, this`readings
      ensures table == Recompute(world, old(table), jobs, world.clock(old(readings)))
      ensures readings == old(readings) + 1
    {
      hide Rescheduled;
      var now := NowMs();
      var i := 0;
      assert jobs[0..] == jobs;
      while i < |jobs|
        invariant 0 <= i <= |jobs|
        invariant readings == old(readings) + 1
        invariant Recompute(world, table, jobs[i..], now) == Recompute(world, old(table), jobs, now)
      {
        RecomputeStep(world, table, jobs, i, now);
        if jobs[i] in table && table[jobs[i]].enabled {
          var j := table[jobs[i]];
          table := table[jobs[i] := j.(nextRun := ComputeNextRun(world, j.schedule, now))];
        }
        i := i + 1;
      }
      assert jobs[i..] == [];
    }

    /** A tick under the lock: load, handle what is due, save, arm. */
    method OnTimer()
      modifies this
      ensures Abs() == Tick(world, old(Loaded()))
      ensures Unedited() && file == Some(StoreOf(table, jobs))
      ensures var wake, t := NextWake(table, jobs), Handled(world, old(Loaded()));
        delay == if wake.None? then None else Some(Max(0, wake.value - world.clock(t.readings)))
    {
      hide HandleAll, DueAmong, StoreOf, IdsIn, RowsIn, NextWake;
      LoadStore();
      HandleDue();
      SaveStore();
      ArmTimer();
    }

    method HandleDue()
      modifies this`table, this`jobs, this`deferred, this`readings, this`calls
      ensures Abs() == Handled(world, old(Abs()))
    {
      hide Defer, Execute, DueAmong, IsDue;
      ghost var before := Abs();
      var now := NowMs();
      var due := DueAmong(table, jobs, now);
      assert due == DueNow(world, before);
      var i := 0;
      assert due[0..] == due;
      while i < |due|
        invariant 0 <= i <= |due|
        invariant forall k :: 0 <= k < |due| ==> due[k] in table
        invariant HandleAll(world, Abs(), due[i..]) == Handled(world, before)
      {
        assert due[i..][0] == due[i] && due[i..][1..] == due[i + 1..];
        if table[due[i]].wake.NextHeartbeat? {
          DeferJob(due[i]);
        } else {
          ExecuteJob(due[i]);
        }
        i := i + 1;
      }
      assert due[i..] == [];
    }

    /** A flush under the lock: load, call every queued job, save; without a queue not even the file is looked at. */
    method Flush() returns (fired: nat)
      requires QueueKnown(Abs())
      modifies this
      ensures fired == |old(deferred)|
      ensures fired == 0 ==> Abs() == old(Abs()) && file == old(file)
      ensures fired > 0 ==> QueueKnown(old(Loaded())) && Abs() == FlushDeferred(world, old(Loaded()))
      ensures fired > 0 ==> Unedited() && file == Some(StoreOf(table, jobs))
    {
      hide FlushAll;
      if deferred == [] {
        return 0;
      }
      LoadStore();
      fired := FireBatch();
      SaveStore();
    }

    method FireBatch() returns (fired: nat)
      requires QueueKnown(Abs()) && deferred != []
      modifies this`table, this`jobs, this`deferred, this`readings, this`calls
      ensures Abs() == FlushDeferred(world, old(Abs()))
      ensures fired == |old(deferred)|
    {
      ghost var before := Abs();
      var batch := deferred;
      deferred := [];
      var i := 0;
      assert batch[0..] == batch;
      while i < |batch|
        invariant 0 <= i <= |batch|
        invariant forall k :: 0 <= k < |batch| ==> batch[k] in table
        invariant FlushAll(world, Abs(), batch[i..]) == FlushDeferred(world, before)
      {
        assert batch[i..][0] == batch[i] && batch[i..][1..] == batch[i + 1..];
        FlushJob(batch[i]);
        i := i + 1;
      }
      assert batch[i..] == [];
      fired := |batch|;
    }

    method FlushJob(id: string)
      requires id in table
      modifies this`table, this`jobs, this`readings, this`calls
      ensures Abs() == FlushOne(world, old(Abs()), id)
    {
      var start := NowMs();
      var ok := OnJob(id, CallKind.Flush);
      var j := table[id].(lastOk := Some(ok), lastRun := Some(start));
      var _ := NowMs();
      if j.schedule.At? && j.deleteAfterRun {
        RemoveFromStore(id);
      }
      table := table[id := j];
    }
  }

  method OthersThan(ids: seq<string>, id: string) returns (kept: seq<string>)
    ensures kept == Without(ids, id)
  {
    kept := [];
    var i := 0;
    assert ids[0..] == ids;
    while i < |ids|
      invariant 0 <= i <= |ids|
      invariant kept + Without(ids[i..], id) == Without(ids, id)
    {
      WithoutStep(kept, ids, i, id);
      if ids[i] != id {
        kept := kept + [ids[i]];
      }
      i := i + 1;
    }
    WithoutEnd(kept, ids[i..], id);
  }

  lemma WithoutStep(kept: seq<string>, ids: seq<string>, i: nat, id: string)
    requires i < |ids|
    ensures kept + Without(ids[i..], id) == (if ids[i] != id then kept + [ids[i]] else kept) + Without(ids[i + 1..], id)
  {
    assert ids[i..][0] == ids[i] && ids[i..][1..] == ids[i + 1..];
    var rest := Without(ids[i + 1..], id);
    Assoc(kept, [ids[i]], rest);
    assert [] + rest == rest;
  }

  lemma WithoutEnd(kept: seq<string>, rest: seq<string>, id: string)
    requires rest == []
    ensures kept + Without(rest, id) == kept
  {
  }

  lemma SaveStep(rows: seq<Saved>, table: map<string, Job>, ids: seq<string>, i: nat)
    requires i < |ids|
    ensures rows + StoreOf(table, ids[i..]) ==
      (if ids[i] in table then rows + [Saved(ids[i], table[ids[i]])] else rows) + StoreOf(table, ids[i + 1..])
  {
    assert ids[i..][1..] == ids[i + 1..];
    if ids[i] in table {
      Assoc(rows, [Saved(ids[i], table[ids[i]])], StoreOf(table, ids[i + 1..]));
    }
  }

  lemma RecomputeStep(w: World, table: map<string, Job>, ids: seq<string>, i: nat, now: int)
    requires i < |ids|
    ensures Recompute(w, table, ids[i..], now) == Recompute(w, Rescheduled(w, table, ids[i], now), ids[i + 1..], now)
    ensures Rescheduled(w, table, ids[i], now) ==
      if ids[i] in table && table[ids[i]].enabled
      then table[ids[i] := table[ids[i]].(nextRun := ComputeNextRun(w, table[ids[i]].schedule, now))]
      else table
  {
    assert ids[i..][0] == ids[i] && ids[i..][1..] == ids[i + 1..];
  }
}
