/** What an announcement of the in-memory store says, told from the events of the run alone. */
module MemoryContents {
  import opened Basics
  import opened FileOrder
  import opened BatchDirectory
  import opened MemoryBatch
  import BatchContents

  // ----- What the events say -----

  predicate Reuses(s: State, e: Event) { e.Register? && s.entry.announced }

  /** Where in the events the present run of the batch began, `past` of them lying before `s`. */
  function Begun(s: State, events: seq<Event>, past: nat, begun: nat): (b: nat)
    requires begun <= past
    ensures b <= past + |events|
    decreases |events|
  {
    if events == [] || !Enabled(s, events[0]) then begun
    else Begun(Apply(s, events[0]), events[1..], past + 1, if Reuses(s, events[0]) then past else begun)
  }

  function FirstRoute(run: seq<Event>): Option<Route> {
    if run == [] then None else if run[0].Register? then Some(run[0].route) else FirstRoute(run[1..])
  }

  predicate RegistersIn(run: seq<Event>, task: string) {
    exists i :: 0 <= i < |run| && run[i].Register? && run[i].task == task
  }

  predicate CompletesIn(run: seq<Event>, task: string) {
    exists i :: 0 <= i < |run| && run[i].Complete? && run[i].task == task
  }

  /** The first completion of each task, in the order in which they came. */
  function Completions(run: seq<Event>): seq<Member> {
    if run == [] then []
    else
      var before, e := run[..|run| - 1], run[|run| - 1];
      Completions(before) + if e.Complete? && !CompletesIn(before, e.task) then [e.done] else []
  }

  /** The counters have the route of the first registration and tell the completions in order. */
  predicate Tells(c: Counters, run: seq<Event>) {
    && FirstRoute(run) == Some(c.route)
    && |c.results| == |Completions(run)|
    && forall i :: 0 <= i < |c.results| ==> BatchContents.Tells(c.results[i], Completions(run)[i])
  }

  // ----- The invariant -----

  ghost predicate Told(s: State, run: seq<Event>) {
    && (s.entry.counters.None? ==> FirstRoute(run).None? && Completions(run) == [])
    && (s.entry.counters.Some? ==> Tells(s.entry.counters.value, run))
    && (forall task :: task in s.entry.registered <==> RegistersIn(run, task))
    && (forall task :: task in s.entry.completed <==> CompletesIn(run, task))
    && (forall i :: 0 <= i < |s.waiting| ==> s.entry.counters == Some(s.waiting[i]))
    && (forall i :: 0 <= i < |s.published| ==> s.entry.counters == Some(s.published[i]))
  }

  lemma {:induction false} FirstRouteGrows(a: seq<Event>, e: Event)
    ensures FirstRoute(a + [e]) ==
      if FirstRoute(a).Some? then FirstRoute(a) else if e.Register? then Some(e.route) else None
  {
    if a == [] {
      assert ([] + [e])[1..] == [];
    } else {
      assert (a + [e])[1..] == a[1..] + [e];
      FirstRouteGrows(a[1..], e);
    }
  }

  lemma InGrows(a: seq<Event>, e: Event, task: string)
    ensures RegistersIn(a + [e], task) <==> RegistersIn(a, task) || (e.Register? && e.task == task)
    ensures CompletesIn(a + [e], task) <==> CompletesIn(a, task) || (e.Complete? && e.task == task)
  {
    if RegistersIn(a, task) {
      var i :| 0 <= i < |a| && a[i].Register? && a[i].task == task;
      assert (a + [e])[i] == a[i];
    }
    if CompletesIn(a, task) {
      var i :| 0 <= i < |a| && a[i].Complete? && a[i].task == task;
      assert (a + [e])[i] == a[i];
    }
    assert (a + [e])[|a|] == e;
  }

  lemma CompletionsGrow(a: seq<Event>, e: Event)
    ensures Completions(a + [e]) ==
      Completions(a) + if e.Complete? && !CompletesIn(a, e.task) then [e.done] else []
  {
    hide CompletesIn;
    assert (a + [e])[..|a|] == a;
  }

  lemma RunGrows(run: seq<Event>, e: Event)
    ensures FirstRoute(run + [e]) ==
      if FirstRoute(run).Some? then FirstRoute(run) else if e.Register? then Some(e.route) else None
    ensures Completions(run + [e]) ==
      Completions(run) + if e.Complete? && !CompletesIn(run, e.task) then [e.done] else []
    ensures forall task :: RegistersIn(run + [e], task) <==> RegistersIn(run, task) || (e.Register? && e.task == task)
    ensures forall task :: CompletesIn(run + [e], task) <==> CompletesIn(run, task) || (e.Complete? && e.task == task)
  {
    hide RegistersIn, CompletesIn;
    FirstRouteGrows(run, e);
    CompletionsGrow(run, e);
    forall task
      ensures RegistersIn(run + [e], task) <==> RegistersIn(run, task) || (e.Register? && e.task == task)
      ensures CompletesIn(run + [e], task) <==> CompletesIn(run, task) || (e.Complete? && e.task == task)
    {
      InGrows(run, e, task);
    }
  }

  lemma ResultTells(done: Member)
    requires done.Done?
    ensures BatchContents.Tells(ResultOf(done), done)
  {
  }

  lemma CompleteTells(s: State, run: seq<Event>, e: Event)
    requires Inv(s) && Told(s, run) && Enabled(s, e) && e.Complete?
    ensures Told(Apply(s, e), run + [e])
  {
    hide FirstRoute, Completions, RegistersIn, CompletesIn, ResultOf, BatchContents.Tells;
    RunGrows(run, e);
    ResultTells(e.done);
    if e.task !in s.entry.completed {
      assert s.waiting == [] && s.published == [];
    }
  }

  lemma RegisterTells(s: State, run: seq<Event>, e: Event)
    requires Inv(s) && Told(s, run) && Enabled(s, e) && e.Register? && !Reuses(s, e)
    ensures Told(Apply(s, e), run + [e])
  {
    hide FirstRoute, Completions, RegistersIn, CompletesIn, BatchContents.Tells;
    RunGrows(run, e);
  }

  lemma ReuseTells(s: State, e: Event)
    requires Inv(s) && Enabled(s, e) && Reuses(s, e)
    ensures Told(Apply(s, e), [e])
  {
    hide BatchContents.Tells;
    RunGrows([], e);
    assert [] + [e] == [e];
  }

  lemma OtherTells(s: State, run: seq<Event>, e: Event)
    requires Inv(s) && Told(s, run) && Enabled(s, e) && !e.Register? && !e.Complete?
    ensures Told(Apply(s, e), run + [e])
  {
    hide FirstRoute, Completions, RegistersIn, CompletesIn, BatchContents.Tells;
    RunGrows(run, e);
  }

  lemma StepTells(s: State, run: seq<Event>, e: Event)
    requires Inv(s) && Told(s, run) && Enabled(s, e)
    ensures Told(Apply(s, e), if Reuses(s, e) then [e] else run + [e])
  {
    hide Inv, Told, Enabled, Apply;
    if e.Complete? {
      CompleteTells(s, run, e);
    } else if e.Register? {
      if Reuses(s, e) {
        ReuseTells(s, e);
      } else {
        RegisterTells(s, run, e);
      }
    } else {
      OtherTells(s, run, e);
    }
  }

  lemma {:induction false} RunTells(s: State, past: seq<Event>, begun: nat, events: seq<Event>, t: State)
    requires begun <= |past| && Inv(s) && Told(s, past[begun..]) && Reaches(s, events, t)
    ensures Told(t, (past + events)[Begun(s, events, |past|, begun)..])
    decreases |events|
  {
    hide Inv, Told, Enabled, Apply, Reuses;
    if events == [] {
      assert past + events == past;
    } else {
      var e := events[0];
      StepTells(s, past[begun..], e);
      StepKeeps(s, e);
      assert (past + [e])[|past|..] == [e] && (past + [e])[begun..] == past[begun..] + [e];
      RunTells(Apply(s, e), past + [e], if Reuses(s, e) then |past| else begun, events[1..], t);
      assert (past + [e]) + events[1..] == past + events;
    }
  }

  lemma InitialTold()
    ensures Inv(INITIAL) && Told(INITIAL, [])
  {
  }

  /**
   * In every interleaving, every announcement goes to the route of the first registration of its run and tells the
   * first completion of every registered task, in the order in which they came.
   */
  lemma AnnouncementsAreTruthful(events: seq<Event>, t: State, i: nat)
    requires Reaches(INITIAL, events, t) && i < |t.published|
    ensures var run := events[Begun(INITIAL, events, 0, 0)..];
      Tells(t.published[i], run) && forall task :: RegistersIn(run, task) <==> CompletesIn(run, task)
  {
    hide Reaches, Begun, Tells, RegistersIn, CompletesIn;
    InitialTold();
    assert events == [] + events;
    var none: seq<Event> := [];
    assert none[0..] == none;
    RunTells(INITIAL, [], 0, events, t);
    RunKeeps(INITIAL, events, t);
    FullyCompleted(t);
  }

  lemma FullyCompleted(t: State)
    requires Inv(t) && t.published != []
    ensures t.entry.completed == t.entry.registered
  {
  }
}
