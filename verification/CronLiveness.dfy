/** What start and tick leave in the schedule: every repeating job has a next run, so the timer wakes for it. */
module CronLiveness {
  import opened Basics
  import opened Cron
  import opened CronRuns

  // ----- The next run, told by the clock readings of a step -----

  /** Due again one interval after reading `k` of the clock, or when the library says at that reading. */
  predicate ScheduledAt(w: World, j: Job, k: nat) {
    match j.schedule
    case At(at) => if at.Some? && at.value != 0 && at.value > w.clock(k) then j.nextRun == at else j.nextRun.None?
    case Every(every) =>
      if every.Some? && every.value > 0 then j.nextRun == Some(w.clock(k) + every.value) else j.nextRun.None?
    case Expression(expr, _) => if expr != "" then j.nextRun == w.cronNext(j.schedule, w.clock(k)) else j.nextRun.None?
  }

  /** Scheduled at one of the readings `first`, ..., `last`. */
  predicate Scheduled(w: World, j: Job, first: nat, last: nat) {
    exists k :: first <= k <= last && ScheduledAt(w, j, k)
  }

  /** A repeating job with a positive interval is due again between one interval after the first and after the last reading. */
  lemma ScheduledWithinTheStep(w: World, j: Job, first: nat, last: nat, n: int)
    requires Sane(w) && Scheduled(w, j, first, last) && j.schedule == Every(Some(n)) && n > 0
    ensures j.nextRun.Some? && w.clock(first) + n <= j.nextRun.value <= w.clock(last) + n
  {
    var k :| first <= k <= last && ScheduledAt(w, j, k);
    assert w.clock(first) <= w.clock(k) <= w.clock(last);
  }

  lemma ComputedIsScheduled(w: World, j: Job, k: nat)
    ensures ScheduledAt(w, j.(nextRun := ComputeNextRun(w, j.schedule, w.clock(k))), k)
  {
  }

  // ----- Start -----

  /** After start every enabled listed job is scheduled at the one reading that start makes. */
  lemma StartSchedules(w: World, s: Service, id: string)
    requires id in s.jobs && id in s.table && s.table[id].enabled
    ensures var t := Started(w, s);
      id in t.jobs && id in t.table && t.table[id].enabled && SamePlan(t.table[id], s.table[id]) &&
      ScheduledAt(w, t.table[id], s.readings)
  {
    hide ComputeNextRun, Recompute, NextWake, ScheduledAt;
    var now := w.clock(s.readings);
    RecomputeIs(w, s.table, s.jobs, now);
    ComputedIsScheduled(w, s.table[id], s.readings);
  }

  // ----- Ticks -----

  predicate Repeats(j: Job) { !j.schedule.At? }

  /** What one turn of a tick leaves in the job's record. */
  predicate Recorded(w: World, s: Service, id: string, t: Service)
    requires id in s.table && id in t.table
  {
    && t.table[id].lastRun == Some(w.clock(s.readings))
    && (s.table[id].wake.NextHeartbeat? ==> t.calls == s.calls && t.table[id].lastOk == s.table[id].lastOk)
    && (!s.table[id].wake.NextHeartbeat? ==>
          t.calls == s.calls + [Call(id, Timer)] && t.table[id].lastOk == Some(w.succeeds(id, |s.calls|)))
  }

  lemma HandleSchedules(w: World, s: Service, id: string)
    requires id in s.table
    ensures var t := Handle(w, s, id);
      && s.readings < t.readings && t.table.Keys == s.table.Keys && Recorded(w, s, id, t)
      && (forall x :: x in t.jobs <==>
            (x in s.jobs && (x != id || !s.table[id].schedule.At? || !s.table[id].deleteAfterRun || s.table[id].wake.NextHeartbeat?)))
      && (Repeats(s.table[id]) ==> Scheduled(w, t.table[id], s.readings, t.readings - 1) &&
                                   t.table[id].enabled == s.table[id].enabled && t.jobs == s.jobs)
  {
    hide ComputeNextRun, ScheduledAt, Without;
    var j := s.table[id];
    var t := Handle(w, s, id);
    WithoutKeeps(s.jobs, id);
    if j.wake.NextHeartbeat? {
      ComputedIsScheduled(w, j.(lastRun := Some(w.clock(s.readings))), s.readings);
      assert Repeats(j) ==> ScheduledAt(w, t.table[id], s.readings);
    } else {
      ComputedIsScheduled(w, j.(lastOk := Some(w.succeeds(id, |s.calls|)), lastRun := Some(w.clock(s.readings))), s.readings + 2);
      assert Repeats(j) ==> ScheduledAt(w, t.table[id], s.readings + 2);
    }
  }

  /** A flushed job is called once, records when and with what outcome, and keeps its schedule. */
  lemma FlushRecords(w: World, s: Service, id: string)
    requires id in s.table
    ensures var t := FlushOne(w, s, id);
      && t.calls == s.calls + [Call(id, CallKind.Flush)] && t.table.Keys == s.table.Keys
      && t.table[id].lastRun == Some(w.clock(s.readings)) && t.table[id].lastOk == Some(w.succeeds(id, |s.calls|))
      && SameTiming(t.table[id], s.table[id]) && (forall x :: x in s.table && x != id ==> t.table[x] == s.table[x])
      && forall x :: x in t.jobs <==> x in s.jobs && (x != id || !s.table[id].schedule.At? || !s.table[id].deleteAfterRun)
  {
    WithoutKeeps(s.jobs, id);
  }

  lemma LaterToo(w: World, j: Job, first: nat, last: nat, earlier: nat, later: nat)
    requires Scheduled(w, j, first, last) && earlier <= first && last <= later
    ensures Scheduled(w, j, earlier, later)
  {
    var k :| first <= k <= last && ScheduledAt(w, j, k);
  }

  /** Every repeating job that a tick handles is scheduled at one of its readings and stays as enabled as it was. */
  lemma {:induction false} AllScheduled(w: World, s: Service, ids: seq<string>, id: string)
    requires Sane(w) && Distinct(ids) && id in ids && (forall i :: 0 <= i < |ids| ==> ids[i] in s.table)
    requires id in s.table && Repeats(s.table[id])
    ensures var t := HandleAll(w, s, ids);
      && s.readings < t.readings && id in t.table && t.table[id].enabled == s.table[id].enabled
      && Scheduled(w, t.table[id], s.readings, t.readings - 1)
    decreases |ids|
  {
    hide Handle, Scheduled, Sane, JobsHandled, CallsHandled, Recorded, SamePlan;
    var u := Handle(w, s, ids[0]);
    HandleSchedules(w, s, ids[0]);
    HandleOneJob(w, s, ids[0], w.clock(s.readings));
    assert Distinct(ids[1..]) && ids[0] !in ids[1..];
    AllHandled(w, u, ids[1..], w.clock(u.readings));
    var t := HandleAll(w, u, ids[1..]);
    assert t.readings >= u.readings by {
      NotLess(u, ids[1..], w.clock(u.readings), t);
    }
    if id == ids[0] {
      OthersStay(u, ids[1..], w.clock(u.readings), t, id);
      LaterToo(w, t.table[id], s.readings, u.readings - 1, s.readings, t.readings - 1);
    } else {
      assert id !in [ids[0]];
      OthersStay(s, [ids[0]], w.clock(s.readings), u, id);
      AllScheduled(w, u, ids[1..], id);
      LaterToo(w, t.table[id], u.readings, t.readings - 1, s.readings, t.readings - 1);
    }
  }

  lemma NotLess(s: Service, ids: seq<string>, now: int, t: Service)
    requires JobsHandled(s, ids, now, t)
    ensures t.readings >= s.readings
  {
  }

  lemma OthersStay(s: Service, ids: seq<string>, now: int, t: Service, id: string)
    requires JobsHandled(s, ids, now, t) && id in s.table && id !in ids
    ensures id in t.table && t.table[id] == s.table[id]
  {
  }

  /** After a tick every repeating job that was due is scheduled at one of the readings of that tick. */
  lemma TickSchedules(w: World, s: Service, id: string)
    requires Sane(w) && Known(s) && id in DueNow(w, s) && Repeats(s.table[id])
    ensures var t := Tick(w, s);
      && id in t.table && t.table[id].enabled && SamePlan(t.table[id], s.table[id])
      && s.readings < t.readings && Scheduled(w, t.table[id], s.readings, t.readings - 1)
  {
    hide Sane, HandleAll, NextWake, Scheduled, JobsHandled, CallsHandled, SamePlan, Tick;
    DueDistinct(s.table, s.jobs, TickNow(w, s));
    var s1 := s.(readings := s.readings + 1);
    AllScheduled(w, s1, DueNow(w, s), id);
    var t := Handled(w, s);
    TickIsHandled(w, s);
    LaterToo(w, t.table[id], s1.readings, t.readings - 1, s.readings, Tick(w, s).readings - 1);
    TickHandles(w, s);
    SamePlans(s, DueNow(w, s), TickNow(w, s), Tick(w, s));
  }

  lemma TickIsHandled(w: World, s: Service)
    ensures Tick(w, s) == Handled(w, s).(readings := Tick(w, s).readings) && Tick(w, s).readings >= Handled(w, s).readings
  {
    hide HandleAll, NextWake, DueNow;
  }

  // ----- Runs -----

  /** An enabled job whose schedule always has a next time. */
  predicate Recurring(w: World, j: Job, answers: Schedule -> bool) {
    j.enabled && match j.schedule
    case At(_) => false
    case Every(every) => every.Some? && every.value > 0
    case Expression(expr, _) => expr != "" && answers(j.schedule)
  }

  /** The schedules for which the library always has an answer. */
  ghost predicate Answering(w: World, answers: Schedule -> bool) {
    forall s, t :: answers(s) ==> w.cronNext(s, t).Some?
  }

  ghost predicate AllArmed(w: World, s: Service, answers: Schedule -> bool) {
    forall id :: id in s.jobs && id in s.table && Recurring(w, s.table[id], answers) ==> Armed(s.table[id])
  }

  /** After the epoch a scheduled recurring job is armed. */
  lemma ScheduledIsArmed(w: World, j: Job, first: nat, last: nat, answers: Schedule -> bool)
    requires Sane(w) && w.clock(0) >= 0 && Answering(w, answers)
    requires Scheduled(w, j, first, last) && Recurring(w, j, answers)
    ensures Armed(j)
  {
    var k :| first <= k <= last && ScheduledAt(w, j, k);
    assert w.clock(0) <= w.clock(k);
  }

  lemma StartArms(w: World, s: Service, answers: Schedule -> bool)
    requires Sane(w) && w.clock(0) >= 0 && Answering(w, answers) && Known(s)
    ensures AllArmed(w, Started(w, s), answers)
  {
    hide Sane, ScheduledAt, Started, Answering, Armed;
    var t := Started(w, s);
    StartKeeps(w, s);
    forall id | id in t.jobs && id in t.table && Recurring(w, t.table[id], answers)
      ensures Armed(t.table[id])
    {
      StartSchedules(w, s, id);
      assert Scheduled(w, t.table[id], s.readings, s.readings);
      ScheduledIsArmed(w, t.table[id], s.readings, s.readings, answers);
    }
  }

  lemma StartKeeps(w: World, s: Service)
    ensures var t := Started(w, s);
      && t.jobs == s.jobs && t.deferred == s.deferred && t.calls == s.calls && t.table.Keys == s.table.Keys
      && forall id :: id in s.table ==> t.table[id].enabled == s.table[id].enabled
  {
    hide ComputeNextRun, Recompute, NextWake;
    RecomputeIs(w, s.table, s.jobs, w.clock(s.readings));
  }

  lemma TickKeepsArmed(w: World, s: Service, answers: Schedule -> bool)
    requires Sane(w) && w.clock(0) >= 0 && Answering(w, answers) && Known(s) && AllArmed(w, s, answers)
    ensures AllArmed(w, Tick(w, s), answers)
  {
    hide Sane, Tick, Scheduled, Answering, CallsHandled, IsDue, Armed;
    var t := Tick(w, s);
    TickHandles(w, s);
    forall id | id in t.jobs && id in t.table && Recurring(w, t.table[id], answers)
      ensures Armed(t.table[id])
    {
      if id in DueNow(w, s) {
        TickSchedules(w, s, id);
        ScheduledIsArmed(w, t.table[id], s.readings, t.readings - 1, answers);
      }
    }
  }

  lemma FlushKeepsArmed(w: World, s: Service, answers: Schedule -> bool)
    requires Known(s) && AllArmed(w, s, answers)
    ensures AllArmed(w, FlushDeferred(w, s), answers)
  {
    hide FlushAll, CallsFlushed;
    if s.deferred != [] {
      FlushAllFlushes(w, s.(deferred := []), s.deferred);
      var t := FlushDeferred(w, s);
      forall id | id in t.jobs && id in t.table && Recurring(w, t.table[id], answers)
        ensures Armed(t.table[id])
      {
        assert SameTiming(t.table[id], s.table[id]);
      }
    }
  }

  lemma {:induction false} RunKeepsArmed(w: World, r: Run, events: seq<Event>, t: Run, answers: Schedule -> bool)
    requires Sane(w) && w.clock(0) >= 0 && Answering(w, answers)
    requires AllArmed(w, r.service, answers) && Reaches(w, r, events, t)
    ensures AllArmed(w, t.service, answers)
    decreases |events|
  {
    hide Sane, Answering, AllArmed, Known, Tick, FlushDeferred;
    if events != [] {
      match events[0] {
        case TimerTick => TickKeepsArmed(w, r.service, answers);
        case HeartbeatFlush => FlushKeepsArmed(w, r.service, answers);
      }
      RunKeepsArmed(w, Apply(w, r, events[0]), events[1..], t, answers);
    }
  }

  /**
   * In every state that a started service reaches, every enabled job that repeats, by an interval or by an
   * expression the library answers, has a next run, and the timer is armed for no later than that.
   */
  lemma RepeatingJobsStayArmed(w: World, s: Service, events: seq<Event>, t: Run, answers: Schedule -> bool, id: string)
    requires Sane(w) && w.clock(0) >= 0 && Answering(w, answers) && Known(s)
    requires Reaches(w, Run(Started(w, s), []), events, t)
    requires id in t.service.jobs && id in t.service.table && Recurring(w, t.service.table[id], answers)
    ensures Armed(t.service.table[id])
    ensures var wake := NextWake(t.service.table, t.service.jobs);
      wake.Some? && wake.value <= t.service.table[id].nextRun.value
  {
    hide Sane, Answering, Known, Started, Reaches;
    StartArms(w, s, answers);
    RunKeepsArmed(w, Run(Started(w, s), []), events, t, answers);
    WakesFor(t.service.table, t.service.jobs, id);
  }

  lemma {:induction false} WakesFor(table: map<string, Job>, ids: seq<string>, id: string)
    requires id in ids && id in table && Armed(table[id])
    ensures NextWake(table, ids).Some? && NextWake(table, ids).value <= table[id].nextRun.value
  {
    if id != ids[0] {
      WakesFor(table, ids[1..], id);
    } else if id in ids[1..] {
      WakesFor(table, ids[1..], id);
    }
  }

  /** A tick at or after the next run of an armed listed job finds it due. */
  lemma TickFindsIt(w: World, s: Service, id: string)
    requires id in s.jobs && id in s.table && Armed(s.table[id]) && TickNow(w, s) >= s.table[id].nextRun.value
    ensures id in DueNow(w, s)
  {
  }
}
