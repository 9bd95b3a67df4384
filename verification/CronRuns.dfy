/** What ticks and flushes keep over whole runs: no occurrence lost, none doubled, none too early. */
module CronRuns {
  import opened Basics
  import opened Cron

  // ----- Reading the record of calls -----

  function CallsOf(calls: seq<Call>, kind: CallKind): seq<string> {
    if calls == [] then []
    else CallsOf(calls[..|calls| - 1], kind) + (if calls[|calls| - 1].kind == kind then [calls[|calls| - 1].id] else [])
  }

  /** The ids of `ids` whose wake mode is, or is not, `next-heartbeat`, in order. */
  function Select(table: map<string, Job>, ids: seq<string>, heartbeat: bool): seq<string> {
    if ids == [] then []
    else (if ids[0] in table && table[ids[0]].wake.NextHeartbeat? == heartbeat then [ids[0]] else []) + Select(table, ids[1..], heartbeat)
  }

  lemma CallsSnoc(calls: seq<Call>, c: Call, kind: CallKind)
    ensures CallsOf(calls + [c], kind) == CallsOf(calls, kind) + if c.kind == kind then [c.id] else []
  {
    assert (calls + [c])[..|calls|] == calls;
  }

  // ----- Removing from the job list -----

  predicate Distinct(ids: seq<string>) {
    forall i, j :: 0 <= i < j < |ids| ==> ids[i] != ids[j]
  }

  lemma {:induction false} WithoutKeeps(ids: seq<string>, id: string)
    ensures forall x :: x in Without(ids, id) <==> x in ids && x != id
    ensures Distinct(ids) ==> Distinct(Without(ids, id))
  {
    if ids != [] {
      WithoutKeeps(ids[1..], id);
      if Distinct(ids) {
        assert Distinct(ids[1..]);
        assert ids[0] !in ids[1..];
      }
    }
  }

  lemma {:induction false} DueDistinct(table: map<string, Job>, ids: seq<string>, now: int)
    requires Distinct(ids)
    ensures Distinct(DueAmong(table, ids, now))
  {
    if ids != [] {
      assert Distinct(ids[1..]) && ids[0] !in ids[1..];
      DueDistinct(table, ids[1..], now);
      DueAreKnown(table, ids[1..], now);
    }
  }

  // ----- One tick -----

  /** The job cannot fire again at `now`, nor, if it repeats, before its interval has passed. */
  predicate Advanced(j: Job, now: int) {
    match j.schedule
    case At(_) => !j.enabled
    case Every(every) => j.nextRun.Some? ==> every.Some? && every.value > 0 && j.nextRun.value >= now + every.value
    case Expression(_, _) => j.nextRun.Some? ==> j.nextRun.value > now
  }

  lemma AdvancedIsNotDue(j: Job, now: int)
    requires Advanced(j, now)
    ensures !IsDue(j, now)
  {
  }

  predicate SamePlan(a: Job, b: Job) {
    a.schedule == b.schedule && a.wake == b.wake && a.deleteAfterRun == b.deleteAfterRun
  }

  /** What handling `ids`, all due at `now`, does to the jobs. */
  ghost predicate JobsHandled(s: Service, ids: seq<string>, now: int, t: Service) {
    && t.table.Keys == s.table.Keys
    && (forall id :: id in s.table ==> SamePlan(t.table[id], s.table[id]))
    && (forall id :: id in s.table && id !in ids ==> t.table[id] == s.table[id])
    && (forall id :: id in t.jobs ==> id in s.jobs)
    && (forall id :: id in s.jobs && id !in ids ==> id in t.jobs)
    && (forall id :: id in ids && id in t.jobs && id in t.table ==> Advanced(t.table[id], now))
    && (Distinct(s.jobs) ==> Distinct(t.jobs))
    && t.readings >= s.readings
  }

  /** What it does to the record of calls and the queue. */
  predicate CallsHandled(s: Service, ids: seq<string>, t: Service) {
    && CallsOf(t.calls, Timer) == CallsOf(s.calls, Timer) + Select(s.table, ids, false)
    && CallsOf(t.calls, CallKind.Flush) == CallsOf(s.calls, CallKind.Flush)
    && t.deferred == s.deferred + Select(s.table, ids, true)
  }

  lemma HandleOneJob(w: World, s: Service, id: string, now: int)
    requires Sane(w) && id in s.table && now <= w.clock(s.readings)
    ensures var t := Handle(w, s, id); JobsHandled(s, [id], now, t) && now <= w.clock(t.readings)
  {
    if s.table[id].wake.NextHeartbeat? {
      DeferOneJob(w, s, id, now);
    } else {
      ExecuteOneJob(w, s, id, now);
    }
  }

  lemma DeferOneJob(w: World, s: Service, id: string, now: int)
    requires Sane(w) && id in s.table && now <= w.clock(s.readings)
    ensures var t := Defer(w, s, id); JobsHandled(s, [id], now, t) && now <= w.clock(t.readings)
  {
    assert w.clock(s.readings) <= w.clock(s.readings + 1);
  }

  lemma ExecuteOneJob(w: World, s: Service, id: string, now: int)
    requires Sane(w) && id in s.table && now <= w.clock(s.readings)
    ensures var t := Execute(w, s, id); JobsHandled(s, [id], now, t) && now <= w.clock(t.readings)
  {
    hide Without;
    var t := Execute(w, s, id);
    WithoutKeeps(s.jobs, id);
    assert w.clock(s.readings) <= w.clock(s.readings + 2) && w.clock(s.readings) <= w.clock(t.readings);
  }

  lemma SelectOne(table: map<string, Job>, id: string, heartbeat: bool)
    requires id in table
    ensures Select(table, [id], heartbeat) == if table[id].wake.NextHeartbeat? == heartbeat then [id] else []
  {
    assert [id][1..] == [];
  }

  lemma HandleOneCall(w: World, s: Service, id: string)
    requires id in s.table
    ensures CallsHandled(s, [id], Handle(w, s, id))
  {
    hide CallsOf, Select, Without;
    CallsSnoc(s.calls, Call(id, Timer), Timer);
    CallsSnoc(s.calls, Call(id, Timer), CallKind.Flush);
    SelectOne(s.table, id, true);
    SelectOne(s.table, id, false);
  }

  lemma {:induction false} SelectSame(a: map<string, Job>, b: map<string, Job>, ids: seq<string>, heartbeat: bool)
    requires a.Keys == b.Keys && forall id :: id in a ==> SamePlan(a[id], b[id])
    ensures Select(a, ids, heartbeat) == Select(b, ids, heartbeat)
  {
    if ids != [] {
      SelectSame(a, b, ids[1..], heartbeat);
    }
  }

  lemma SelectCons(table: map<string, Job>, id: string, rest: seq<string>, heartbeat: bool)
    requires id in table
    ensures Select(table, [id] + rest, heartbeat) == Select(table, [id], heartbeat) + Select(table, rest, heartbeat)
  {
    SelectOne(table, id, heartbeat);
    assert ([id] + rest)[1..] == rest;
  }

  lemma JobsThen(s: Service, id: string, t: Service, rest: seq<string>, now: int, u: Service)
    requires id in s.table && id !in rest
    requires JobsHandled(s, [id], now, t) && JobsHandled(t, rest, now, u)
    ensures JobsHandled(s, [id] + rest, now, u)
  {
    var all := [id] + rest;
    assert forall x :: x in all <==> x == id || x in rest;
    forall x | x in s.table
      ensures SamePlan(u.table[x], s.table[x])
    {
      assert SamePlan(t.table[x], s.table[x]) && SamePlan(u.table[x], t.table[x]);
    }
    assert id in [id];
  }

  lemma CallsThen(s: Service, id: string, t: Service, rest: seq<string>, u: Service)
    requires id in s.table && t.table.Keys == s.table.Keys
    requires forall x :: x in s.table ==> SamePlan(s.table[x], t.table[x])
    requires CallsHandled(s, [id], t) && CallsHandled(t, rest, u)
    ensures CallsHandled(s, [id] + rest, u)
  {
    hide CallsOf, Select;
    SelectSame(s.table, t.table, rest, true);
    SelectSame(s.table, t.table, rest, false);
    SelectCons(s.table, id, rest, true);
    SelectCons(s.table, id, rest, false);
    Assoc(CallsOf(s.calls, Timer), Select(s.table, [id], false), Select(s.table, rest, false));
    Assoc(s.deferred, Select(s.table, [id], true), Select(s.table, rest, true));
  }

  lemma {:induction false} AllHandled(w: World, s: Service, ids: seq<string>, now: int)
    requires Sane(w) && now <= w.clock(s.readings) && Distinct(ids)
    requires forall i :: 0 <= i < |ids| ==> ids[i] in s.table
    ensures JobsHandled(s, ids, now, HandleAll(w, s, ids))
    ensures CallsHandled(s, ids, HandleAll(w, s, ids))
    decreases |ids|
  {
    hide Handle, JobsHandled, CallsHandled, Sane;
    if ids == [] {
      NothingHandled(s, now);
    } else {
      var t := Handle(w, s, ids[0]);
      HandleOneJob(w, s, ids[0], now);
      HandleOneCall(w, s, ids[0]);
      SamePlans(s, [ids[0]], now, t);
      var u := HandleAll(w, t, ids[1..]);
      AllHandled(w, t, ids[1..], now);
      JobsThen(s, ids[0], t, ids[1..], now, u);
      CallsThen(s, ids[0], t, ids[1..], u);
      assert [ids[0]] + ids[1..] == ids;
    }
  }

  lemma SamePlans(s: Service, ids: seq<string>, now: int, t: Service)
    requires JobsHandled(s, ids, now, t)
    ensures t.table.Keys == s.table.Keys
    ensures forall x :: x in s.table ==> SamePlan(s.table[x], t.table[x]) && SamePlan(t.table[x], s.table[x])
  {
    forall x | x in s.table
      ensures SamePlan(s.table[x], t.table[x]) && SamePlan(t.table[x], s.table[x])
    {
      assert SamePlan(t.table[x], s.table[x]);
    }
  }

  lemma NothingHandled(s: Service, now: int)
    ensures JobsHandled(s, [], now, s) && CallsHandled(s, [], s)
  {
  }

  /** One tick: every due job is called or queued once, in order. */
  lemma TickHandles(w: World, s: Service)
    requires Sane(w) && Known(s)
    ensures JobsHandled(s, DueNow(w, s), TickNow(w, s), Tick(w, s))
    ensures CallsHandled(s, DueNow(w, s), Tick(w, s))
  {
    hide Sane, JobsHandled, CallsHandled, HandleAll, NextWake;
    var now, due := TickNow(w, s), DueNow(w, s);
    DueDistinct(s.table, s.jobs, now);
    ClockMoves(w, s.readings);
    var s1 := s.(readings := s.readings + 1);
    AllHandled(w, s1, due, now);
    LaterReading(s, s1, due, now, Handled(w, s), Tick(w, s));
  }

  /** Reading the clock changes nothing else. */
  lemma LaterReading(s: Service, s1: Service, ids: seq<string>, now: int, t: Service, t1: Service)
    requires s1 == s.(readings := s.readings + 1) && t1 == t.(readings := t1.readings) && t1.readings >= t.readings
    requires JobsHandled(s1, ids, now, t) && CallsHandled(s1, ids, t)
    ensures JobsHandled(s, ids, now, t1) && CallsHandled(s, ids, t1)
  {
  }

  lemma {:induction false} NoneDue(table: map<string, Job>, ids: seq<string>, now: int)
    requires forall id :: id in ids && id in table ==> !IsDue(table[id], now)
    ensures DueAmong(table, ids, now) == []
  {
    if ids != [] {
      assert ids[0] in ids;
      NoneDue(table, ids[1..], now);
    }
  }

  /** After a tick nothing is due at the tick's own time, and the service stays consistent. */
  lemma TickLeavesNothingDue(w: World, s: Service)
    requires Sane(w) && Known(s)
    ensures Known(Tick(w, s))
    ensures DueAmong(Tick(w, s).table, Tick(w, s).jobs, TickNow(w, s)) == []
  {
    hide Sane, Tick, CallsHandled;
    var now, due, t := TickNow(w, s), DueNow(w, s), Tick(w, s);
    TickHandles(w, s);
    forall id | id in t.jobs && id in t.table
      ensures !IsDue(t.table[id], now)
    {
      if id in due {
        AdvancedIsNotDue(t.table[id], now);
      }
    }
    NoneDue(t.table, t.jobs, now);
    KnownAfter(s, due, now, t);
  }

  lemma KnownAfter(s: Service, due: seq<string>, now: int, t: Service)
    requires Known(s) && JobsHandled(s, due, now, t) && CallsHandled(s, due, t)
    ensures Known(t)
  {
    hide CallsOf, Select;
    forall i | 0 <= i < |t.jobs|
      ensures t.jobs[i] in t.table
    {
      assert t.jobs[i] in t.jobs;
    }
    SelectKnown(s.table, due, true);
  }

  lemma {:induction false} SelectKnown(table: map<string, Job>, ids: seq<string>, heartbeat: bool)
    ensures forall i :: 0 <= i < |Select(table, ids, heartbeat)| ==> Select(table, ids, heartbeat)[i] in table
  {
    if ids != [] {
      SelectKnown(table, ids[1..], heartbeat);
    }
  }

  lemma ClockMoves(w: World, r: nat)
    requires Sane(w)
    ensures w.clock(r) <= w.clock(r + 1)
  {
  }

  // ----- One flush -----

  predicate SameTiming(a: Job, b: Job) {
    SamePlan(a, b) && a.enabled == b.enabled && a.nextRun == b.nextRun
  }

  ghost predicate JobsFlushed(s: Service, t: Service) {
    && t.table.Keys == s.table.Keys
    && (forall id :: id in s.table ==> SameTiming(t.table[id], s.table[id]))
    && (forall id :: id in t.jobs ==> id in s.jobs)
    && (Distinct(s.jobs) ==> Distinct(t.jobs))
    && t.readings >= s.readings && t.deferred == s.deferred
  }

  predicate CallsFlushed(s: Service, ids: seq<string>, t: Service) {
    && CallsOf(t.calls, Timer) == CallsOf(s.calls, Timer)
    && CallsOf(t.calls, CallKind.Flush) == CallsOf(s.calls, CallKind.Flush) + ids
  }

  lemma FlushOneFlushes(w: World, s: Service, id: string)
    requires id in s.table
    ensures JobsFlushed(s, FlushOne(w, s, id)) && CallsFlushed(s, [id], FlushOne(w, s, id))
  {
    hide CallsOf, Without;
    WithoutKeeps(s.jobs, id);
    CallsSnoc(s.calls, Call(id, CallKind.Flush), Timer);
    CallsSnoc(s.calls, Call(id, CallKind.Flush), CallKind.Flush);
  }

  lemma JobsFlushedThen(s: Service, t: Service, u: Service)
    requires JobsFlushed(s, t) && JobsFlushed(t, u)
    ensures JobsFlushed(s, u)
  {
    forall id | id in s.table
      ensures SameTiming(u.table[id], s.table[id])
    {
      assert SameTiming(t.table[id], s.table[id]) && SameTiming(u.table[id], t.table[id]);
    }
  }

  lemma {:induction false} FlushAllFlushes(w: World, s: Service, ids: seq<string>)
    requires forall i :: 0 <= i < |ids| ==> ids[i] in s.table
    ensures JobsFlushed(s, FlushAll(w, s, ids)) && CallsFlushed(s, ids, FlushAll(w, s, ids))
    decreases |ids|
  {
    hide FlushOne, JobsFlushed, CallsOf;
    if ids == [] {
      NothingFlushed(s);
    } else {
      var t := FlushOne(w, s, ids[0]);
      FlushOneFlushes(w, s, ids[0]);
      assert t.table.Keys == s.table.Keys by {
        KeysStay(s, t);
      }
      FlushAllFlushes(w, t, ids[1..]);
      JobsFlushedThen(s, t, FlushAll(w, t, ids[1..]));
      Assoc(CallsOf(s.calls, CallKind.Flush), [ids[0]], ids[1..]);
      assert [ids[0]] + ids[1..] == ids;
    }
  }

  lemma KeysStay(s: Service, t: Service)
    requires JobsFlushed(s, t)
    ensures t.table.Keys == s.table.Keys
  {
  }

  lemma NothingFlushed(s: Service)
    ensures JobsFlushed(s, s) && CallsFlushed(s, [], s)
  {
  }

  // ----- Runs -----

  /** A due occurrence seen by a tick at time `at`. */
  datatype Occurrence = Occurrence(id: string, at: int, heartbeat: bool)

  datatype Run = Run(service: Service, ledger: seq<Occurrence>)

  datatype Event = TimerTick | HeartbeatFlush

  function Occurrences(table: map<string, Job>, ids: seq<string>, at: int): (r: seq<Occurrence>)
    requires forall i :: 0 <= i < |ids| ==> ids[i] in table
    ensures |r| == |ids| && forall i :: 0 <= i < |ids| ==> r[i] == Occurrence(ids[i], at, table[ids[i]].wake.NextHeartbeat?)
  {
    seq(|ids|, i requires 0 <= i < |ids| => Occurrence(ids[i], at, table[ids[i]].wake.NextHeartbeat?))
  }

  function Apply(w: World, r: Run, e: Event): Run
    requires Known(r.service)
  {
    match e
    case TimerTick =>
      Run(Tick(w, r.service), r.ledger + Occurrences(r.service.table, DueNow(w, r.service), TickNow(w, r.service)))
    case HeartbeatFlush => Run(FlushDeferred(w, r.service), r.ledger)
  }

  ghost predicate Reaches(w: World, r: Run, events: seq<Event>, t: Run)
    decreases |events|
  {
    if events == [] then r == t
    else Known(r.service) && Reaches(w, Apply(w, r, events[0]), events[1..], t)
  }

  /** The ids of the ledger's occurrences that were called at once, or queued, in order. */
  function IdsOf(ledger: seq<Occurrence>, heartbeat: bool): seq<string> {
    if ledger == [] then []
    else (if ledger[0].heartbeat == heartbeat then [ledger[0].id] else []) + IdsOf(ledger[1..], heartbeat)
  }

  /** Every occurrence is one call at once, or one queue entry that a flush called once or has yet to call. */
  predicate Accounted(r: Run) {
    && CallsOf(r.service.calls, Timer) == IdsOf(r.ledger, false)
    && CallsOf(r.service.calls, CallKind.Flush) + r.service.deferred == IdsOf(r.ledger, true)
  }

  /** Two occurrences of one job are an interval apart; a one-shot job has at most one. */
  predicate SpacedAt(table: map<string, Job>, ledger: seq<Occurrence>, i: nat, k: nat)
    requires i < k < |ledger|
  {
    ledger[i].id == ledger[k].id && ledger[k].id in table ==>
      match table[ledger[k].id].schedule
      case At(_) => false
      case Every(every) => every.Some? && ledger[k].at >= ledger[i].at + every.value
      case Expression(_, _) => ledger[k].at > ledger[i].at
  }

  ghost predicate Spaced(r: Run) {
    forall i, k :: 0 <= i < k < |r.ledger| ==> SpacedAt(r.service.table, r.ledger, i, k)
  }

  /** A job that has occurred and is still listed has moved on from that occurrence. */
  predicate MovedOn(r: Run, i: nat)
    requires i < |r.ledger|
  {
    var o := r.ledger[i];
    o.id in r.service.jobs && o.id in r.service.table ==> Advanced(r.service.table[o.id], o.at)
  }

  ghost predicate Inv(w: World, r: Run) {
    && Known(r.service) && Accounted(r) && Spaced(r)
    && (forall i :: 0 <= i < |r.ledger| ==> MovedOn(r, i) && r.ledger[i].at <= w.clock(r.service.readings))
  }

  lemma {:induction false} IdsJoin(a: seq<Occurrence>, b: seq<Occurrence>, heartbeat: bool)
    ensures IdsOf(a + b, heartbeat) == IdsOf(a, heartbeat) + IdsOf(b, heartbeat)
  {
    if a == [] {
      assert a + b == b;
    } else {
      assert (a + b)[1..] == a[1..] + b;
      IdsJoin(a[1..], b, heartbeat);
      Assoc(if a[0].heartbeat == heartbeat then [a[0].id] else [], IdsOf(a[1..], heartbeat), IdsOf(b, heartbeat));
    }
  }

  lemma {:induction false} IdsOfOccurrences(table: map<string, Job>, ids: seq<string>, at: int, heartbeat: bool)
    requires forall i :: 0 <= i < |ids| ==> ids[i] in table
    ensures IdsOf(Occurrences(table, ids, at), heartbeat) == Select(table, ids, heartbeat)
  {
    if ids != [] {
      IdsOfOccurrences(table, ids[1..], at, heartbeat);
      assert Occurrences(table, ids, at)[1..] == Occurrences(table, ids[1..], at);
    }
  }

  lemma TickAccounts(w: World, r: Run)
    requires Sane(w) && Inv(w, r)
    ensures Accounted(Apply(w, r, TimerTick))
  {
    hide Sane, Tick, Spaced, CallsOf, IdsOf, Select, Occurrences, JobsHandled;
    var s := r.service;
    var due, now := DueNow(w, s), TickNow(w, s);
    TickHandles(w, s);
    var added := Occurrences(s.table, due, now);
    IdsJoin(r.ledger, added, false);
    IdsJoin(r.ledger, added, true);
    IdsOfOccurrences(s.table, due, now, false);
    IdsOfOccurrences(s.table, due, now, true);
    Assoc(CallsOf(s.calls, CallKind.Flush), s.deferred, Select(s.table, due, true));
  }

  /** A job due now that has occurred before has waited its interval. */
  lemma DueAfterInterval(j: Job, at: int, now: int)
    requires Advanced(j, at) && IsDue(j, now)
    ensures match j.schedule
      case At(_) => false
      case Every(every) => every.Some? && now >= at + every.value
      case Expression(_, _) => now > at
  {
  }

  /** A job due at this tick keeps its distance from each of its earlier occurrences. */
  lemma NewAfterOld(r: Run, id: string, now: int, plan: Job, i: nat)
    requires Known(r.service) && id in r.service.jobs && IsDue(r.service.table[id], now)
    requires SamePlan(plan, r.service.table[id])
    requires i < |r.ledger| && MovedOn(r, i) && r.ledger[i].id == id
    ensures match plan.schedule
      case At(_) => false
      case Every(every) => every.Some? && now >= r.ledger[i].at + every.value
      case Expression(_, _) => now > r.ledger[i].at
  {
    DueAfterInterval(r.service.table[id], r.ledger[i].at, now);
  }

  lemma OldStaySpaced(s: Service, ledger: seq<Occurrence>, t: Service, longer: seq<Occurrence>, i: nat, k: nat)
    requires i < k < |ledger| && ledger <= longer && SpacedAt(s.table, ledger, i, k)
    requires t.table.Keys == s.table.Keys && forall x :: x in s.table ==> SamePlan(t.table[x], s.table[x])
    ensures SpacedAt(t.table, longer, i, k)
  {
    assert ledger[k].id in s.table ==> SamePlan(t.table[ledger[k].id], s.table[ledger[k].id]);
  }

  lemma TickSpaces(w: World, r: Run)
    requires Sane(w) && Inv(w, r)
    ensures Spaced(Apply(w, r, TimerTick))
  {
    hide Sane, Tick, Accounted, JobsHandled, CallsHandled, SamePlan, IsDue;
    var s, t := r.service, Apply(w, r, TimerTick);
    var due, now := DueNow(w, s), TickNow(w, s);
    TickHandles(w, s);
    SamePlans(s, due, now, t.service);
    DueDistinct(s.table, s.jobs, now);
    var n := |r.ledger|;
    forall i, k | 0 <= i < k < |t.ledger|
      ensures SpacedAt(t.service.table, t.ledger, i, k)
    {
      if k < n {
        OldStaySpaced(s, r.ledger, t.service, t.ledger, i, k);
      } else if i < n && t.ledger[i].id == t.ledger[k].id {
        assert t.ledger[k].id == due[k - n] && due[k - n] in due;
        NewAfterOld(r, due[k - n], now, t.service.table[due[k - n]], i);
      }
    }
  }

  lemma TickMovesOn(w: World, r: Run, i: nat)
    requires Sane(w) && Inv(w, r) && i < |Apply(w, r, TimerTick).ledger|
    ensures var t := Apply(w, r, TimerTick); MovedOn(t, i) && t.ledger[i].at <= w.clock(t.service.readings)
  {
    hide Tick, Accounted, Spaced, CallsHandled, Known, Advanced;
    var s, t := r.service, Apply(w, r, TimerTick);
    var due, now := DueNow(w, s), TickNow(w, s);
    TickHandles(w, s);
    assert w.clock(s.readings) <= w.clock(t.service.readings);
    var n := |r.ledger|;
    var id := t.ledger[i].id;
    if i < n {
      OldMovesOn(r, due, now, t, i);
    } else {
      assert id == due[i - n] && id in due;
    }
  }

  lemma OldMovesOn(r: Run, due: seq<string>, now: int, t: Run, i: nat)
    requires i < |r.ledger| && MovedOn(r, i) && r.ledger <= t.ledger && r.ledger[i].at <= now
    requires JobsHandled(r.service, due, now, t.service)
    ensures MovedOn(t, i)
  {
    hide Advanced;
    var id := r.ledger[i].id;
    if id in due && id in t.service.jobs && id in t.service.table {
      AdvancedEarlier(t.service.table[id], now, r.ledger[i].at);
    }
  }

  lemma AdvancedEarlier(j: Job, now: int, at: int)
    requires Advanced(j, now) && at <= now
    ensures Advanced(j, at)
  {
  }

  lemma FlushKeeps(w: World, r: Run)
    requires Sane(w) && Inv(w, r)
    ensures Inv(w, Apply(w, r, HeartbeatFlush))
    ensures var t := Apply(w, r, HeartbeatFlush);
      t.service.deferred == [] && CallsOf(t.service.calls, CallKind.Flush) == IdsOf(r.ledger, true)
  {
    hide FlushAll, CallsOf, IdsOf;
    var s, t := r.service, Apply(w, r, HeartbeatFlush);
    assert forall a: seq<string> :: a + [] == a;
    if s.deferred != [] {
      FlushAllFlushes(w, s.(deferred := []), s.deferred);
      forall i, k | 0 <= i < k < |t.ledger|
        ensures SpacedAt(t.service.table, t.ledger, i, k)
      {
        assert SpacedAt(s.table, r.ledger, i, k);
        assert t.ledger[k].id in s.table ==> SameTiming(t.service.table[t.ledger[k].id], s.table[t.ledger[k].id]);
      }
      forall i | 0 <= i < |t.ledger|
        ensures MovedOn(t, i) && t.ledger[i].at <= w.clock(t.service.readings)
      {
        assert MovedOn(r, i);
        assert t.ledger[i].id in s.table ==> SameTiming(t.service.table[t.ledger[i].id], s.table[t.ledger[i].id]);
        assert w.clock(s.readings) <= w.clock(t.service.readings);
      }
      forall i | 0 <= i < |t.service.jobs|
        ensures t.service.jobs[i] in t.service.table
      {
        assert t.service.jobs[i] in t.service.jobs;
      }
    }
  }

  lemma {:induction false} RunKeeps(w: World, r: Run, events: seq<Event>, t: Run)
    requires Sane(w) && Inv(w, r) && Reaches(w, r, events, t)
    ensures Inv(w, t)
    decreases |events|
  {
    if events != [] {
      var u := Apply(w, r, events[0]);
      match events[0] {
        case TimerTick =>
          TickLeavesNothingDue(w, r.service);
          TickAccounts(w, r);
          TickSpaces(w, r);
          forall i | 0 <= i < |u.ledger|
            ensures MovedOn(u, i) && u.ledger[i].at <= w.clock(u.service.readings)
          {
            TickMovesOn(w, r, i);
          }
        case HeartbeatFlush => FlushKeeps(w, r);
      }
      RunKeeps(w, u, events[1..], t);
    }
  }

  predicate Fresh(r: Run) {
    Known(r.service) && r.service.deferred == [] && r.service.calls == [] && r.ledger == []
  }

  /**
   * Over every run: the immediate calls are the immediate occurrences in order; the calls made by flushes, then
   * the queue, are the deferred occurrences in order; a repeating job never occurs again within its interval
   * and a one-shot job occurs at most once.
   */
  lemma EveryOccurrenceOnce(w: World, r: Run, events: seq<Event>, t: Run)
    requires Sane(w) && Fresh(r) && Reaches(w, r, events, t)
    ensures Accounted(t) && Spaced(t) && Known(t.service)
  {
    RunKeeps(w, r, events, t);
  }

  /** A flush empties the queue: afterwards every deferred occurrence so far has been called. */
  lemma FlushCallsAllDeferred(w: World, r: Run, events: seq<Event>, t: Run)
    requires Sane(w) && Fresh(r) && Reaches(w, r, events, t)
    ensures Known(t.service)
    ensures var u := Apply(w, t, HeartbeatFlush);
      u.service.deferred == [] && CallsOf(u.service.calls, CallKind.Flush) == IdsOf(t.ledger, true)
  {
    RunKeeps(w, r, events, t);
    FlushKeeps(w, t);
  }

  // ----- The timer misses nothing -----

  /** The time the timer is armed for is exactly when something is due: before it nothing, from it on something. */
  lemma {:induction false} WakeIsFirstDue(table: map<string, Job>, ids: seq<string>, now: int)
    ensures var wake := NextWake(table, ids);
      DueAmong(table, ids, now) != [] <==> wake.Some? && now >= wake.value
  {
    if ids != [] {
      WakeIsFirstDue(table, ids[1..], now);
    }
  }

  // ----- A restart -----

  /** What scheduling afresh does to one job. */
  function Afresh(w: World, j: Job, now: int): Job {
    if j.enabled then j.(nextRun := ComputeNextRun(w, j.schedule, now)) else j
  }

  lemma {:induction false} RecomputeIs(w: World, table: map<string, Job>, ids: seq<string>, now: int)
    ensures var r := Recompute(w, table, ids, now);
      forall id :: id in table ==> r[id] == if id in ids then Afresh(w, table[id], now) else table[id]
    decreases |ids|
  {
    hide ComputeNextRun;
    if ids != [] {
      var next := Rescheduled(w, table, ids[0], now);
      RecomputeIs(w, next, ids[1..], now);
      assert forall id :: id in ids <==> id == ids[0] || id in ids[1..];
    }
  }

  /** The new process has the same jobs, each scheduled afresh, and nothing in its queue. */
  lemma RestartKeepsJobs(w: World, s: Service)
    requires Known(s)
    ensures var u := Restarted(w, s); Fresh(Run(u, [])) && u.jobs == s.jobs && u.readings >= s.readings + 1
    ensures forall id :: id in s.jobs ==>
      id in s.table && id in Restarted(w, s).table &&
      Restarted(w, s).table[id] == Afresh(w, s.table[id], w.clock(s.readings))
    ensures forall id :: id in Restarted(w, s).table ==> id in s.jobs
  {
    hide Afresh, Recompute, NextWake, StoreOf, IdsIn, RowsIn;
    SavedStoreReloads(s.table, s.jobs);
    var rows := RowsIn(StoreOf(s.table, s.jobs));
    RecomputeIs(w, rows, s.jobs, w.clock(s.readings));
    forall id | id in s.jobs
      ensures id in s.table
    {
    }
  }

  /** A job scheduled afresh is still an interval away from everything it did before, and a one-shot job stays done. */
  lemma AfreshMovesOn(w: World, j: Job, at: int, now: int)
    requires Sane(w) && Advanced(j, at) && at <= now
    ensures Advanced(Afresh(w, j, now), at)
  {
  }

  /**
   * A restart loses exactly the queue: the deferred occurrences of the old process are those its flushes called and
   * then those still queued, and the new process starts with no queue. Every job is kept and keeps its distance
   * from its earlier occurrences; an enabled one-shot job is armed again if and only if its time is still ahead.
   */
  lemma RestartLosesExactlyTheQueue(w: World, r: Run, events: seq<Event>, t: Run)
    requires Sane(w) && Fresh(r) && Reaches(w, r, events, t)
    ensures Known(t.service)
    ensures IdsOf(t.ledger, true) == CallsOf(t.service.calls, CallKind.Flush) + t.service.deferred
    ensures var u := Restarted(w, t.service);
      && Fresh(Run(u, [])) && u.jobs == t.service.jobs
      && (forall i :: 0 <= i < |t.ledger| ==> MovedOn(Run(u, t.ledger), i))
      && (forall id :: id in u.jobs ==> id in t.service.table && id in u.table && SamePlan(u.table[id], t.service.table[id]))
    ensures forall id :: id in t.service.jobs && t.service.table[id].schedule.At? && t.service.table[id].enabled ==>
      var at := t.service.table[id].schedule.atMs;
      Armed(Restarted(w, t.service).table[id]) <==> at.Some? && at.value != 0 && at.value > w.clock(t.service.readings)
  {
    hide Sane, Accounted, Spaced, Reaches, Restarted, Advanced;
    FreshInv(w, r);
    RunKeeps(w, r, events, t);
    AccountedFor(t);
    var s, u := t.service, Restarted(w, t.service);
    RestartKeepsJobs(w, s);
    var now := w.clock(s.readings);
    forall i | 0 <= i < |t.ledger|
      ensures MovedOn(Run(u, t.ledger), i)
    {
      var o := t.ledger[i];
      assert MovedOn(t, i);
      if o.id in u.jobs {
        AfreshMovesOn(w, s.table[o.id], o.at, now);
      }
    }
  }

  lemma AccountedFor(t: Run)
    requires Accounted(t)
    ensures IdsOf(t.ledger, true) == CallsOf(t.service.calls, CallKind.Flush) + t.service.deferred
  {
  }

  lemma {:induction false} IdOccurred(ledger: seq<Occurrence>, heartbeat: bool, id: string) returns (i: nat)
    requires id in IdsOf(ledger, heartbeat)
    ensures i < |ledger| && ledger[i].id == id
  {
    if ledger[0].id == id {
      i := 0;
    } else {
      var k := IdOccurred(ledger[1..], heartbeat, id);
      i := k + 1;
    }
  }

  /** The job is gone or disabled, and has not occurred. */
  predicate Dormant(r: Run, id: string) {
    && (id in r.service.jobs && id in r.service.table ==> !r.service.table[id].enabled)
    && forall k :: 0 <= k < |r.ledger| ==> r.ledger[k].id != id
  }

  lemma TickStaysDormant(w: World, r: Run, id: string)
    requires Sane(w) && Inv(w, r) && Dormant(r, id)
    ensures Dormant(Apply(w, r, TimerTick), id)
  {
    hide Sane, Inv, Tick, Accounted, Spaced, CallsHandled;
    InvIsKnown(w, r);
    var s, t := r.service, Apply(w, r, TimerTick);
    TickHandles(w, s);
    assert id !in DueNow(w, s);
  }

  lemma InvIsKnown(w: World, r: Run)
    requires Inv(w, r)
    ensures Known(r.service)
  {
  }

  lemma FlushStaysDormant(w: World, r: Run, id: string)
    requires Known(r.service) && Dormant(r, id)
    ensures Dormant(Apply(w, r, HeartbeatFlush), id)
  {
    hide FlushAll, CallsFlushed;
    var s := r.service;
    if s.deferred != [] {
      FlushAllFlushes(w, s.(deferred := []), s.deferred);
      var t := FlushDeferred(w, s);
      assert id in s.table ==> SameTiming(t.table[id], s.table[id]);
    }
  }

  lemma {:induction false} RunStaysDormant(w: World, r: Run, events: seq<Event>, t: Run, id: string)
    requires Sane(w) && Inv(w, r) && Reaches(w, r, events, t) && Dormant(r, id)
    ensures Dormant(t, id)
    decreases |events|
  {
    hide Sane, Inv, Dormant, Apply;
    if events != [] {
      var u := Apply(w, r, events[0]);
      assert Reaches(w, u, [], u);
      assert [events[0]][1..] == [];
      assert Reaches(w, r, [events[0]], u);
      RunKeeps(w, r, [events[0]], u);
      match events[0] {
        case TimerTick => TickStaysDormant(w, r, id);
        case HeartbeatFlush => FlushStaysDormant(w, r, id);
      }
      RunStaysDormant(w, u, events[1..], t, id);
    }
  }

  /** A one-shot job that a restart finds in the queue is never called: it does not come due again. */
  lemma QueuedOneShotIsLost(w: World, r: Run, events: seq<Event>, t: Run, id: string, more: seq<Event>, v: Run)
    requires Sane(w) && Fresh(r) && Reaches(w, r, events, t)
    requires id in t.service.deferred && id in t.service.table && t.service.table[id].schedule.At?
    requires Reaches(w, Run(Restarted(w, t.service), []), more, v)
    ensures id !in CallsOf(v.service.calls, Timer) && id !in CallsOf(v.service.calls, CallKind.Flush)
    ensures forall k :: 0 <= k < |v.ledger| ==> v.ledger[k].id != id
  {
    hide Sane, Accounted, Spaced, Reaches, Restarted, IdsOf, CallsOf;
    FreshInv(w, r);
    RunKeeps(w, r, events, t);
    AccountedFor(t);
    RestartKeepsJobs(w, t.service);
    var i := IdOccurred(t.ledger, true, id);
    assert MovedOn(t, i);
    var start := Run(Restarted(w, t.service), []);
    assert Dormant(start, id);
    FreshInv(w, start);
    RunStaysDormant(w, start, more, v, id);
    RunKeeps(w, start, more, v);
    NeverCalled(v, id);
  }

  lemma FreshInv(w: World, r: Run)
    requires Fresh(r)
    ensures Inv(w, r)
  {
  }

  lemma NeverCalled(v: Run, id: string)
    requires Accounted(v) && Dormant(v, id)
    ensures id !in CallsOf(v.service.calls, Timer) && id !in CallsOf(v.service.calls, CallKind.Flush)
  {
    hide IdsOf, CallsOf;
    if id in CallsOf(v.service.calls, Timer) {
      var i := IdOccurred(v.ledger, false, id);
    }
    if id in CallsOf(v.service.calls, CallKind.Flush) {
      assert id in CallsOf(v.service.calls, CallKind.Flush) + v.service.deferred;
      var i := IdOccurred(v.ledger, true, id);
    }
  }
}
