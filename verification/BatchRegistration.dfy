/** When a new member may join a batch of the durable store: exactly until some workflow has decided to announce. */
module BatchRegistration {
  import opened Basics
  import opened FileOrder
  import opened BatchDirectory
  import opened BatchProtocol

  // ----- What a registration puts at risk -----

  /** Every member is complete on disk and every workflow has finished. */
  predicate Ended(t: State) {
    t.dir.Present? && AllDone(t.dir.tasks) && AllFinished(t) && t.stale == {}
  }

  predicate Told(t: State) {
    t.dir.Present? && exists i :: 0 <= i < |t.published| && Full(t.published[i], t.dir.tasks)
  }

  /** However the run goes on after the registration, once it is over the full batch has been announced. */
  ghost predicate Safe(s: State, task: string, route: Route) {
    forall events, t :: Reaches(Joined(s, task, route), events, t) && Ended(t) ==> Told(t)
  }

  lemma UndecidedIsSafe(s: State, task: string, route: Route)
    requires Inv(s) && s.dir.Present? && !s.dir.announced && task !in s.dir.tasks && Undecided(s)
    ensures Safe(s, task, route)
  {
    assert Apply(s, Register(task, route)) == Joined(s, task, route);
    RegisterKeeps(s, task, route);
    forall events, t | Reaches(Joined(s, task, route), events, t) && Ended(t)
      ensures Told(t)
    {
      RunKeeps(Joined(s, task, route), events, t);
      EndedIsTold(t);
    }
  }

  lemma EndedIsTold(t: State)
    requires Inv(t) && Ended(t)
    ensures Told(t)
  {
    assert Full(t.published[0], t.dir.tasks);
  }

  // ----- A run that ends without the announcement -----

  /** Of the workflow's journal only decisions on the smaller batch are left. */
  predicate Small(s: State, f: nat, n: nat)
    requires f in s.flows && s.dir.Present?
  {
    var w := s.flows[f];
    && w.done.Done?
    && (w.journal.Some? ==> w.journal.value.Decided?)
    && (!w.phase.Idle? ==> w.journal.Some?)
    && (Decides(s, f) ==> w.journal.value.snapshot.total <= n)
    && (w.phase.Published? || w.phase.Marked? ==> Decides(s, f))
    && (w.phase.Marked? ==> w.marked)
  }

  /** The batch has outgrown every announcement made or decided; only `task`, the work of `g`, is not complete. */
  ghost predicate Outgrown(s: State, n: nat, task: string, g: nat) {
    && s.dir.Present? && |s.dir.tasks| > n && task in s.dir.tasks && s.stale == {}
    && (forall name :: name in s.dir.tasks && name != task ==> s.dir.tasks[name].Done?)
    && (s.dir.tasks[task].Done? || (g in s.flows && s.flows[g].task == task && s.flows[g].journal.None?))
    && (forall f :: f in s.flows ==> Small(s, f, n))
    && (forall i :: 0 <= i < |s.published| ==> s.published[i].total <= n)
  }

  predicate Advance(e: Event, f: nat) {
    match e
    case Record(h) => h == f
    case Replay(h) => h == f
    case Publish(h) => h == f
    case Mark(h) => h == f
    case Finish(h) => h == f
    case _ => false
  }

  /** What the step changes: this workflow's phase, and its journal if it records. */
  lemma AdvanceMoves(s: State, e: Event, f: nat)
    requires Advance(e, f) && Enabled(s, e) && f in s.flows && s.dir.Present?
    ensures var t := Apply(s, e);
      && t.flows.Keys == s.flows.Keys
      && (forall h :: h in s.flows && h != f ==> t.flows[h] == s.flows[h])
      && t.dir.Present? && (s.dir.announced ==> t.dir.announced)
  {
  }

  lemma MoreKeys(a: map<string, Member>, b: map<string, Member>)
    requires a.Keys <= b.Keys
    ensures |a| <= |b|
  {
    SubsetSize(a.Keys, b.Keys);
    assert |a| == |a.Keys| && |b| == |b.Keys|;
  }

  lemma RecordStaysOutgrown(s: State, f: nat, n: nat, task: string, g: nat)
    requires Outgrown(s, n, task, g) && Enabled(s, Record(f)) && s.dir.announced
    ensures Outgrown(Apply(s, Record(f)), n, task, g) && !Decides(Apply(s, Record(f)), f)
  {
    var t := Apply(s, Record(f));
    assert Small(s, f, n);
    MoreKeys(s.dir.tasks, t.dir.tasks);
    AnnounceExactlyWhenFull(t.dir);
    forall h | h in t.flows
      ensures Small(t, h, n)
    {
      assert Small(s, h, n);
    }
  }

  lemma StepStaysOutgrown(s: State, e: Event, f: nat, n: nat, task: string, g: nat)
    requires Outgrown(s, n, task, g) && Advance(e, f) && Enabled(s, e) && !e.Record?
    ensures Outgrown(Apply(s, e), n, task, g) && Apply(s, e).flows[f].journal == s.flows[f].journal
  {
    var t := Apply(s, e);
    assert Small(s, f, n);
    forall h | h in t.flows
      ensures Small(t, h, n)
    {
      assert Small(s, h, n);
    }
  }

  lemma Unroll(s: State, e: Event, rest: seq<Event>, t: State)
    requires Enabled(s, e) && Reaches(Apply(s, e), rest, t)
    ensures Reaches(s, [e] + rest, t)
  {
    assert ([e] + rest)[1..] == rest;
  }

  lemma {:induction false} Chain(s: State, a: seq<Event>, u: State, b: seq<Event>, t: State)
    requires Reaches(s, a, u) && Reaches(u, b, t)
    ensures Reaches(s, a + b, t)
    decreases |a|
  {
    hide Apply, Enabled;
    if a == [] {
      assert a + b == b;
    } else {
      Chain(Apply(s, a[0]), a[1..], u, b, t);
      Unroll(s, a[0], a[1..] + b, t);
      assert [a[0]] + (a[1..] + b) == a + b;
    }
  }

  function Work(p: Phase): nat {
    match p
    case Idle => 4
    case Recorded => 3
    case Published => 2
    case Marked => 1
    case Finished => 0
  }

  function NextEvent(s: State, f: nat): Event
    requires f in s.flows
  {
    match s.flows[f].phase
    case Idle => if s.flows[f].journal.None? then Record(f) else Replay(f)
    case Recorded => if Decides(s, f) then Publish(f) else Finish(f)
    case Published => Mark(f)
    case _ => Finish(f)
  }

  lemma NextIsEnabled(s: State, f: nat, n: nat)
    requires f in s.flows && s.dir.Present? && Small(s, f, n) && !s.flows[f].phase.Finished?
    ensures var e := NextEvent(s, f);
      && Enabled(s, e) && Advance(e, f) && Apply(s, e).flows.Keys == s.flows.Keys
      && Work(Apply(s, e).flows[f].phase) < Work(s.flows[f].phase)
      && (e.Record? <==> s.flows[f].journal.None?)
      && (s.flows[f].phase.Published? && !s.flows[f].marked ==> Apply(s, e).dir == Marking(s.dir))
  {
  }

  /** The workflow runs to its end; if it had decided, it leaves the sentinel behind. */
  lemma {:induction false} FinishOne(s: State, f: nat, n: nat, task: string, g: nat) returns (events: seq<Event>, t: State)
    requires Outgrown(s, n, task, g) && f in s.flows
    requires s.dir.announced || Pending(s.flows[f])
    ensures Reaches(s, events, t) && Outgrown(t, n, task, g) && t.dir.announced
    ensures t.flows.Keys == s.flows.Keys && t.flows[f].phase.Finished?
    ensures forall h :: h in s.flows && h != f ==> t.flows[h] == s.flows[h]
    decreases Work(s.flows[f].phase)
  {
    hide Outgrown, Apply, Enabled, Small, Reaches;
    if s.flows[f].phase.Finished? {
      Stay(s);
      return [], s;
    }
    SmallOf(s, f, n, task, g);
    NextIsEnabled(s, f, n);
    var e := NextEvent(s, f);
    AdvanceMoves(s, e, f);
    if e.Record? {
      RecordStaysOutgrown(s, f, n, task, g);
    } else {
      StepStaysOutgrown(s, e, f, n, task, g);
    }
    DecisionCarries(s, f, n);
    var rest: seq<Event>;
    rest, t := FinishOne(Apply(s, e), f, n, task, g);
    events := [e] + rest;
    Unroll(s, e, rest, t);
  }

  lemma Stay(s: State)
    ensures Reaches(s, [], s)
  {
  }

  lemma SmallOf(s: State, f: nat, n: nat, task: string, g: nat)
    requires Outgrown(s, n, task, g) && f in s.flows
    ensures s.dir.Present? && Small(s, f, n)
  {
  }

  /** A decision not yet marked is still there after the next step, or the sentinel is. */
  lemma DecisionCarries(s: State, f: nat, n: nat)
    requires f in s.flows && s.dir.Present? && Small(s, f, n) && !s.flows[f].phase.Finished?
    requires Enabled(s, NextEvent(s, f))
    ensures var t := Apply(s, NextEvent(s, f));
      Pending(s.flows[f]) ==> t.dir.Present? && (t.dir.announced || (f in t.flows && Pending(t.flows[f])))
  {
  }

  lemma {:induction false} FinishAll(s: State, todo: set<nat>, n: nat, task: string, g: nat) returns (events: seq<Event>, t: State)
    requires Outgrown(s, n, task, g) && s.dir.Present? && s.dir.announced && todo <= s.flows.Keys
    requires forall f :: f in s.flows && f !in todo ==> s.flows[f].phase.Finished?
    ensures Reaches(s, events, t) && Outgrown(t, n, task, g) && AllFinished(t)
    decreases todo
  {
    hide Outgrown, Reaches;
    if todo == {} {
      Stay(s);
      return [], s;
    }
    var f :| f in todo;
    var first, u := FinishOne(s, f, n, task, g);
    SmallOf(u, f, n, task, g);
    var rest: seq<Event>;
    rest, t := FinishAll(u, todo - {f}, n, task, g);
    events := first + rest;
    Chain(s, first, u, rest, t);
  }

  lemma OutgrownIsSilent(t: State, n: nat, task: string, g: nat)
    requires Outgrown(t, n, task, g) && AllFinished(t)
    ensures Ended(t) && !Told(t)
  {
    if g in t.flows {
      assert Small(t, g, n);
    }
  }

  lemma {:induction false} SomeFree(used: set<nat>) returns (g: nat)
    ensures g !in used && forall f :: f in used ==> f < g
    decreases used
  {
    if used == {} {
      g := 0;
    } else {
      var x :| x in used;
      var h := SomeFree(used - {x});
      g := if h > x then h else x + 1;
      assert forall f :: f in used ==> f == x || f in used - {x};
    }
  }

  /** With the new member's workflow started, the batch has outgrown the decision. */
  lemma JoinOutgrows(s: State, f: nat, task: string, route: Route, done: Member, g: nat)
    requires Inv(s) && s.dir.Present? && !s.dir.announced && task !in s.dir.tasks
    requires f in s.flows && Decides(s, f) && done.Done? && g !in s.flows
    ensures Enabled(Joined(s, task, route), Spawn(g, task, done))
    ensures Outgrown(Apply(Joined(s, task, route), Spawn(g, task, done)), |s.dir.tasks|, task, g)
    ensures Pending(s.flows[f])
  {
    var u := Apply(Joined(s, task, route), Spawn(g, task, done));
    assert FlowFits(s, f);
    assert u.dir.tasks == s.dir.tasks[task := Registered];
    forall h | h in u.flows
      ensures Small(u, h, |s.dir.tasks|)
    {
      if h != g {
        assert FlowFits(s, h);
      }
    }
  }

  /** A member that joins after a decision to announce can complete without ever being announced. */
  lemma LateRegistrationIsSilenced(s: State, f: nat, task: string, route: Route, done: Member)
    returns (events: seq<Event>, t: State)
    requires Inv(s) && s.dir.Present? && !s.dir.announced && task !in s.dir.tasks
    requires f in s.flows && Decides(s, f) && done.Done?
    ensures Reaches(Joined(s, task, route), events, t) && Ended(t) && !Told(t)
  {
    hide Inv, Outgrown, Reaches, Enabled, Ended, Told;
    var g := SomeFree(s.flows.Keys);
    var n := |s.dir.tasks|;
    var s0 := Joined(s, task, route);
    JoinOutgrows(s, f, task, route, done, g);
    var s1 := Apply(s0, Spawn(g, task, done));
    var first, s2 := FinishOne(s1, f, n, task, g);
    SmallOf(s2, f, n, task, g);
    var rest: seq<Event>;
    rest, t := FinishAll(s2, s2.flows.Keys, n, task, g);
    Chain(s1, first, s2, rest, t);
    events := [Spawn(g, task, done)] + (first + rest);
    Unroll(s0, Spawn(g, task, done), first + rest, t);
    OutgrownIsSilent(t, n, task, g);
  }

  /**
   * In every reachable state without the sentinel, a new member is safe to register if and only if no workflow
   * holds a decision to announce.
   */
  lemma RegistrationIsSafeExactlyWhenUndecided(events: seq<Event>, s: State, task: string, route: Route)
    requires Reaches(INITIAL, events, s) && s.dir.Present? && !s.dir.announced && task !in s.dir.tasks
    ensures Safe(s, task, route) <==> Undecided(s)
  {
    hide Inv, Reaches, Ended, Told;
    RunKeeps(INITIAL, events, s) by {
      InitialInv();
    }
    if Undecided(s) {
      UndecidedIsSafe(s, task, route);
    } else {
      var f :| f in s.flows && Decides(s, f);
      var more, t := LateRegistrationIsSilenced(s, f, task, route, Done(Completed, "", None));
      assert Reaches(Joined(s, task, route), more, t) && Ended(t) && !Told(t);
    }
  }

  lemma InitialInv()
    ensures Inv(INITIAL)
  {
  }

  /** Such a state is reached as soon as the only registered member completes. */
  lemma DecidedStateIsReached(route: Route, done: Member) returns (events: seq<Event>, s: State)
    requires done.Done?
    ensures Reaches(INITIAL, events, s) && s.dir.Present? && !s.dir.announced && !Undecided(s)
    ensures forall other: string :: other != "a" ==> other !in s.dir.tasks
  {
    var s1 := Apply(INITIAL, Register("a", route));
    var s2 := Apply(s1, Spawn(0, "a", done));
    s := Apply(s2, Record(0));
    events := [Register("a", route), Spawn(0, "a", done), Record(0)];
    assert s.dir.tasks == map["a" := done];
    AnnounceExactlyWhenFull(s.dir);
    assert Decides(s, 0);
    assert events[1..][1..][1..] == [];
    assert events[1..][0] == Spawn(0, "a", done) && events[1..][1..][0] == Record(0);
    assert Reaches(s2, events[1..][1..], s);
    assert Reaches(s1, events[1..], s);
  }

  // ----- When an announced id may be reused -----

  lemma {:induction false} FinishStale(s: State, todo: set<nat>) returns (events: seq<Event>, t: State)
    requires s.dir.Present? && todo == s.stale
    ensures Reaches(s, events, t)
    ensures t == s.(stale := {}, dir := if todo == {} then s.dir else Marking(s.dir))
    decreases todo
  {
    hide Reaches;
    if todo == {} {
      Stay(s);
      return [], s;
    }
    var f :| f in todo;
    var u := Apply(s, StaleMark(f));
    var rest: seq<Event>;
    rest, t := FinishStale(u, todo - {f});
    events := [StaleMark(f)] + rest;
    Unroll(s, StaleMark(f), rest, t);
  }

  /** What a reuse leaves: one registered member, the workflows that have not recorded, and the old decisions. */
  lemma ReuseLeaves(s: State, task: string, route: Route)
    requires Inv(s) && s.dir.Present? && s.dir.announced
    ensures var u := Joined(s, task, route);
      && u.dir.Present? && u.dir.tasks == map[task := Registered] && !u.dir.announced && u.published == []
      && (forall f :: f in u.flows ==>
            f in s.flows && u.flows[f] == s.flows[f] && At(u, f, Idle) && u.flows[f].journal.None? && u.flows[f].done.Done?)
  {
    var u := Joined(s, task, route);
    forall f | f in u.flows
      ensures At(u, f, Idle) && u.flows[f].done.Done?
    {
      assert FlowFits(s, f);
    }
  }

  /** An old decision to announce leaves its sentinel in the new run, which then ends unannounced. */
  lemma OldDecisionSilences(s: State, f: nat, task: string, route: Route, done: Member)
    returns (events: seq<Event>, t: State)
    requires Inv(s) && s.dir.Present? && s.dir.announced && done.Done?
    requires f in s.flows && Pending(s.flows[f])
    ensures Reaches(Joined(s, task, route), events, t) && Ended(t) && !Told(t)
  {
    hide Inv, Outgrown, Reaches, Enabled, Ended, Told;
    var s0 := Joined(s, task, route);
    ReuseLeaves(s, task, route);
    var first, s1 := FinishStale(s0, s0.stale);
    assert f in s0.stale;
    var g := SomeFree(s1.flows.Keys);
    SpawnedIsOutgrown(s1, task, done, g);
    var s2 := Apply(s1, Spawn(g, task, done));
    var rest: seq<Event>;
    rest, t := FinishAll(s2, s2.flows.Keys, 0, task, g);
    Unroll(s1, Spawn(g, task, done), rest, t);
    events := first + ([Spawn(g, task, done)] + rest);
    Chain(s0, first, s1, [Spawn(g, task, done)] + rest, t);
    OutgrownIsSilent(t, 0, task, g);
  }

  lemma SpawnedIsOutgrown(s: State, task: string, done: Member, g: nat)
    requires s.dir.Present? && s.dir.announced && s.dir.tasks == map[task := Registered]
    requires s.published == [] && s.stale == {} && g !in s.flows && done.Done?
    requires forall f :: f in s.flows ==> s.flows[f].phase.Idle? && s.flows[f].journal.None? && s.flows[f].done.Done?
    ensures Enabled(s, Spawn(g, task, done))
    ensures var t := Apply(s, Spawn(g, task, done)); Outgrown(t, 0, task, g) && t.dir == s.dir
  {
  }

  /** A workflow that records only after the new run was announced makes that announcement incomplete. */
  lemma OldRecordSilences(s: State, f: nat, task: string, route: Route, done: Member)
    returns (events: seq<Event>, t: State)
    requires Inv(s) && s.dir.Present? && s.dir.announced && done.Done?
    requires forall h :: h in s.flows ==> !Pending(s.flows[h])
    requires f in s.flows && s.flows[f].journal.None? && s.flows[f].task != task
    ensures Reaches(Joined(s, task, route), events, t) && Ended(t) && !Told(t)
  {
    hide Inv, Outgrown, Reaches, Enabled, Ended, Told, Apply;
    var s0 := Joined(s, task, route);
    ReuseLeaves(s, task, route);
    NothingStale(s);
    var g := SomeFree(s0.flows.Keys);
    var first, s1 := AnnouncesAlone(s0, task, done, g);
    LateRecordOutgrows(s1, task, g, f);
    var s2 := Apply(s1, Record(f));
    var rest: seq<Event>;
    rest, t := FinishAll(s2, s2.flows.Keys, 1, task, g);
    Unroll(s1, Record(f), rest, t);
    events := first + ([Record(f)] + rest);
    Chain(s0, first, s1, [Record(f)] + rest, t);
    OutgrownIsSilent(t, 1, task, g);
  }

  lemma NothingStale(s: State)
    requires Inv(s)
    ensures s.stale == {}
  {
  }

  /** The only member runs and is announced, while nothing else moves. */
  lemma AnnouncesAlone(s: State, task: string, done: Member, g: nat) returns (events: seq<Event>, t: State)
    requires s.dir.Present? && !s.dir.announced && s.dir.tasks == map[task := Registered]
    requires s.published == [] && g !in s.flows && done.Done?
    ensures Reaches(s, events, t)
    ensures t.dir == s.dir.(tasks := map[task := done], announced := true) && t.stale == s.stale
    ensures |t.published| == 1 && t.published[0].total == 1
    ensures t.flows.Keys == s.flows.Keys + {g} && Small(t, g, 1) && t.flows[g].journal.Some?
    ensures forall h :: h in s.flows ==> t.flows[h] == s.flows[h]
  {
    hide Reaches, Apply, Enabled, Small;
    AloneRecords(s, task, done, g);
    var s1 := Apply(s, Spawn(g, task, done));
    var s2 := Apply(s1, Record(g));
    AloneAnnounces(s2, g);
    var s3 := Apply(s2, Publish(g));
    t := Apply(s3, Mark(g));
    Stay(t);
    Unroll(s3, Mark(g), [], t);
    Unroll(s2, Publish(g), [Mark(g)] + [], t);
    Unroll(s1, Record(g), [Publish(g)] + ([Mark(g)] + []), t);
    events := [Spawn(g, task, done)] + ([Record(g)] + ([Publish(g)] + ([Mark(g)] + [])));
    Unroll(s, Spawn(g, task, done), [Record(g)] + ([Publish(g)] + ([Mark(g)] + [])), t);
  }

  lemma AloneRecords(s: State, task: string, done: Member, g: nat)
    requires s.dir.Present? && !s.dir.announced && s.dir.tasks == map[task := Registered]
    requires g !in s.flows && done.Done?
    ensures Enabled(s, Spawn(g, task, done))
    ensures Enabled(Apply(s, Spawn(g, task, done)), Record(g))
    ensures var t := Apply(Apply(s, Spawn(g, task, done)), Record(g));
      && t.dir == s.dir.(tasks := map[task := done]) && t.stale == s.stale && t.published == s.published
      && t.flows.Keys == s.flows.Keys + {g} && At(t, g, Recorded) && Pending(t.flows[g])
      && t.flows[g].done.Done? && t.flows[g].journal.value.snapshot.total == 1
      && forall h :: h in s.flows ==> t.flows[h] == s.flows[h]
  {
    hide Listed, RowsOf, TasksIn;
    var dir := Recording(s.dir, task, done);
    assert dir.tasks == map[task := done];
    AnnounceExactlyWhenFull(dir);
  }

  lemma AloneAnnounces(s: State, g: nat)
    requires s.dir.Present? && At(s, g, Recorded) && Pending(s.flows[g]) && s.flows[g].done.Done?
    ensures Enabled(s, Publish(g)) && Enabled(Apply(s, Publish(g)), Mark(g))
    ensures var t := Apply(Apply(s, Publish(g)), Mark(g)); var snapshot := s.flows[g].journal.value.snapshot;
      && t.dir == s.dir.(announced := true) && t.stale == s.stale && t.published == s.published + [snapshot]
      && t.flows.Keys == s.flows.Keys && t.flows[g].journal.Some? && Small(t, g, snapshot.total)
      && forall h :: h in s.flows && h != g ==> t.flows[h] == s.flows[h]
  {
  }

  lemma LateRecordOutgrows(s: State, task: string, g: nat, f: nat)
    requires s.dir.Present? && s.dir.announced && s.dir.tasks.Keys == {task} && s.dir.tasks[task].Done? && s.stale == {}
    requires |s.published| == 1 && s.published[0].total == 1
    requires At(s, f, Idle) && s.flows[f].journal.None? && s.flows[f].task != task && s.flows[f].done.Done?
    requires g in s.flows && f != g && Small(s, g, 1)
    requires forall h :: h in s.flows && h != g ==> s.flows[h].phase.Idle? && s.flows[h].journal.None? && s.flows[h].done.Done?
    ensures Enabled(s, Record(f)) && Outgrown(Apply(s, Record(f)), 1, task, g)
    ensures Apply(s, Record(f)).dir.Present? && Apply(s, Record(f)).dir.announced
  {
    hide Listed, RowsOf;
    var t := Apply(s, Record(f));
    assert t.dir.tasks.Keys == {task, s.flows[f].task};
    assert |t.dir.tasks| == |t.dir.tasks.Keys|;
    AnnounceExactlyWhenFull(t.dir);
    forall h | h in t.flows
      ensures Small(t, h, 1)
    {
    }
  }

  lemma ReusableIsSafe(s: State, task: string, route: Route)
    requires Inv(s) && s.dir.Present? && s.dir.announced && MayReuse(s, task)
    ensures Safe(s, task, route)
  {
    hide Reaches, Joined;
    assert Apply(s, Register(task, route)) == Joined(s, task, route);
    RegisterKeeps(s, task, route);
    forall events, t | Reaches(Joined(s, task, route), events, t) && Ended(t)
      ensures Told(t)
    {
      RunKeeps(Joined(s, task, route), events, t);
      EndedIsTold(t);
    }
  }

  /**
   * In every reachable state with the sentinel, reusing the id is safe if and only if no workflow has yet to write
   * the sentinel and none that has yet to record belongs to another member.
   */
  lemma ReuseIsSafeExactlyWhen(events: seq<Event>, s: State, task: string, route: Route)
    requires Reaches(INITIAL, events, s) && s.dir.Present? && s.dir.announced
    ensures Safe(s, task, route) <==> MayReuse(s, task)
  {
    hide Inv, Reaches, Ended, Told, Joined;
    RunKeeps(INITIAL, events, s) by {
      InitialInv();
    }
    NothingStale(s);
    var done := Done(Completed, "", None);
    if MayReuse(s, task) {
      ReusableIsSafe(s, task, route);
    } else if f :| f in s.flows && Pending(s.flows[f]) {
      var more, t := OldDecisionSilences(s, f, task, route, done);
      assert Reaches(Joined(s, task, route), more, t) && Ended(t) && !Told(t);
    } else {
      var f :| f in s.flows && s.flows[f].journal.None? && s.flows[f].task != task;
      var more, t := OldRecordSilences(s, f, task, route, done);
      assert Reaches(Joined(s, task, route), more, t) && Ended(t) && !Told(t);
    }
  }

  lemma FirstRegistration(route: Route)
    ensures Enabled(INITIAL, Register("a", route))
    ensures Apply(INITIAL, Register("a", route)) == State(Present(Some(route), map["a" := Registered], false), map[], [], [], {})
  {
  }

  lemma LosesItsMark(s: State, f: nat, task: string)
    requires s.dir.Present? && At(s, f, Recorded) && Pending(s.flows[f])
    ensures Enabled(s, Publish(f)) && Enabled(Apply(s, Publish(f)), MarkLost(f))
    ensures var t := Apply(Apply(s, Publish(f)), MarkLost(f)); t.dir.Present? && t.dir.announced && !MayReuse(t, task)
  {
    var t := Apply(Apply(s, Publish(f)), MarkLost(f));
    assert Pending(t.flows[f]);
  }

  /** An unsafe one is reached when the only member's workflow crashes after the sentinel, before its mark is journaled. */
  lemma UnsafeReuseIsReached(route: Route, done: Member, task: string) returns (events: seq<Event>, s: State)
    requires done.Done?
    ensures Reaches(INITIAL, events, s) && s.dir.Present? && s.dir.announced && !MayReuse(s, task)
  {
    hide Reaches, Apply, Enabled;
    FirstRegistration(route);
    var s1 := Apply(INITIAL, Register("a", route));
    AloneRecords(s1, "a", done, 0);
    var s2 := Apply(s1, Spawn(0, "a", done));
    var s3 := Apply(s2, Record(0));
    LosesItsMark(s3, 0, task);
    var s4 := Apply(s3, Publish(0));
    s := Apply(s4, MarkLost(0));
    Stay(s);
    Unroll(s4, MarkLost(0), [], s);
    Unroll(s3, Publish(0), [MarkLost(0)] + [], s);
    Unroll(s2, Record(0), [Publish(0)] + ([MarkLost(0)] + []), s);
    var tail := [Record(0)] + ([Publish(0)] + ([MarkLost(0)] + []));
    Unroll(s1, Spawn(0, "a", done), tail, s);
    events := [Register("a", route)] + ([Spawn(0, "a", done)] + tail);
    Unroll(INITIAL, Register("a", route), [Spawn(0, "a", done)] + tail, s);
  }
}
