/** What an announcement says, told from the events of the run alone. */
module BatchContents {
  import opened Basics
  import opened FileOrder
  import opened BatchDirectory
  import opened BatchProtocol

  // ----- What the events say -----

  /** The registration replaces a run that has been announced. */
  predicate Reuses(s: State, e: Event) {
    e.Register? && s.dir.Present? && s.dir.announced
  }

  /** Where in the events the present run of the batch began, `past` of them lying before `s`. */
  function Begun(s: State, events: seq<Event>, past: nat, begun: nat): (b: nat)
    requires begun <= past
    ensures b <= past + |events|
    decreases |events|
  {
    if events == [] || !Enabled(s, events[0]) then begun
    else Begun(Apply(s, events[0]), events[1..], past + 1, if Reuses(s, events[0]) then past else begun)
  }

  function FirstRoute(events: seq<Event>): Option<Route> {
    if events == [] then None
    else if events[0].Register? then Some(events[0].route)
    else FirstRoute(events[1..])
  }

  predicate RegistersIn(events: seq<Event>, task: string) {
    exists i :: 0 <= i < |events| && events[i].Register? && events[i].task == task
  }

  /** The member and the completion that workflow `f` was last started for. */
  function StartedFor(events: seq<Event>, f: nat): Option<(string, Member)> {
    if events == [] then None
    else
      var e := events[|events| - 1];
      if e.Spawn? && e.flow == f then Some((e.task, e.done)) else StartedFor(events[..|events| - 1], f)
  }

  /** What the last event writes into a member file, whether or not the process survives it. */
  function WrittenLast(events: seq<Event>): Option<(string, Member)>
    requires events != []
  {
    var e := events[|events| - 1];
    if e.Record? || e.RecordLost? then StartedFor(events[..|events| - 1], e.flow) else None
  }

  /** The completion last written for `task` since event `begun`. */
  function Completion(events: seq<Event>, begun: nat, task: string): Option<Member> {
    if |events| <= begun then None
    else
      var w := WrittenLast(events);
      if w.Some? && w.value.0 == task then Some(w.value.1) else Completion(events[..|events| - 1], begun, task)
  }

  /** A row tells a completion: its title, its status, and its path or that there is no file. */
  predicate Tells(r: Result, done: Member) {
    && done.Done? && r.title == done.title && r.status == done.status
    && (done.path.Some? && done.path.value != "" ==> r.path == done.path.value)
    && (done.path.None? || done.path.value == "" ==> r.path == "(no file)")
  }

  /** Every row tells the completion written last for its task. */
  predicate RowsTold(events: seq<Event>, begun: nat, rows: seq<Row>) {
    forall i :: 0 <= i < |rows| ==>
      var done := Completion(events, begun, rows[i].task);
      done.Some? && Tells(rows[i].result, done.value)
  }

  predicate DecidedAt(events: seq<Event>, begun: nat, k: nat, snapshot: Snapshot) {
    begun <= k < |events| && events[k].Record? && RowsTold(events[..k + 1], begun, snapshot.results)
  }

  /** The snapshot has the route of the run's first registration and the rows of some decision in the run. */
  ghost predicate Truthful(events: seq<Event>, begun: nat, snapshot: Snapshot) {
    && begun <= |events| && FirstRoute(events[begun..]) == Some(snapshot.route)
    && exists k :: DecidedAt(events, begun, k, snapshot)
  }

  // ----- The invariant -----

  /** The directory is what the events made it. */
  ghost predicate DirectoryTold(s: State, past: seq<Event>, begun: nat) {
    && begun <= |past|
    && (s.dir.Absent? ==> NothingRegistered(past, begun))
    && (s.dir.Present? ==>
      && FirstRoute(past[begun..]).Some? && s.dir.meta == FirstRoute(past[begun..])
      && (forall task :: task in s.dir.tasks <==> RegistersIn(past[begun..], task))
      && (forall task :: if task in s.dir.tasks then s.dir.tasks[task] == Or(Completion(past, begun, task))
                        else Completion(past, begun, task).None?))
  }

  function Or(m: Option<Member>): Member { if m.Some? then m.value else Registered }

  ghost predicate FlowTold(s: State, past: seq<Event>, begun: nat, f: nat)
    requires f in s.flows
  {
    var w := s.flows[f];
    && StartedFor(past, f) == Some((w.task, w.done))
    && (Decides(s, f) ==> Truthful(past, begun, w.journal.value.snapshot))
  }

  ghost predicate Told(s: State, past: seq<Event>, begun: nat) {
    && DirectoryTold(s, past, begun)
    && (forall f :: f in s.flows ==> FlowTold(s, past, begun, f))
    && (forall i :: 0 <= i < |s.published| ==> Truthful(past, begun, s.published[i]))
  }

  // ----- One more event -----

  lemma {:induction false} FirstRouteGrows(a: seq<Event>, e: Event)
    ensures FirstRoute(a + [e]) ==
      if FirstRoute(a).Some? then FirstRoute(a) else if e.Register? then Some(e.route) else None
  {
    if a == [] {
      assert ([] + [e])[1..] == [];
    } else {
      assert (a + [e])[1..] == a[1..] + [e];
      FirstRouteGrows(a[1..], e);
    }
  }

  lemma RegistersGrow(a: seq<Event>, e: Event, task: string)
    ensures RegistersIn(a + [e], task) <==> RegistersIn(a, task) || (e.Register? && e.task == task)
  {
    if RegistersIn(a, task) {
      var i :| 0 <= i < |a| && a[i].Register? && a[i].task == task;
      assert (a + [e])[i] == a[i];
    }
    if e.Register? && e.task == task {
      assert (a + [e])[|a|] == e;
    }
  }

  lemma SuffixGrows(past: seq<Event>, begun: nat, e: Event)
    requires begun <= |past|
    ensures (past + [e])[begun..] == past[begun..] + [e] && (past + [e])[..|past|] == past
  {
  }

  lemma StartedForGrows(past: seq<Event>, e: Event, f: nat)
    ensures StartedFor(past + [e], f) == if e.Spawn? && e.flow == f then Some((e.task, e.done)) else StartedFor(past, f)
  {
    assert (past + [e])[..|past|] == past;
  }

  lemma CompletionGrows(past: seq<Event>, begun: nat, e: Event, task: string)
    requires begun <= |past|
    ensures var w := if e.Record? || e.RecordLost? then StartedFor(past, e.flow) else None;
      Completion(past + [e], begun, task) == if w.Some? && w.value.0 == task then Some(w.value.1) else Completion(past, begun, task)
  {
    hide StartedFor;
    assert (past + [e])[..|past|] == past;
  }

  lemma NothingYet(past: seq<Event>, task: string)
    ensures Completion(past, |past|, task) == None
  {
  }

  lemma TruthStays(past: seq<Event>, begun: nat, e: Event, snapshot: Snapshot)
    requires Truthful(past, begun, snapshot)
    ensures Truthful(past + [e], begun, snapshot)
  {
    hide RowsTold, FirstRoute;
    SuffixGrows(past, begun, e);
    FirstRouteGrows(past[begun..], e);
    var k :| DecidedAt(past, begun, k, snapshot);
    assert (past + [e])[..k + 1] == past[..k + 1];
    assert DecidedAt(past + [e], begun, k, snapshot);
  }

  // ----- Rows -----

  lemma {:induction false} RowsAreResults(tasks: map<string, Member>, files: seq<string>)
    ensures forall i :: 0 <= i < |RowsOf(tasks, files)| ==>
      var row := RowsOf(tasks, files)[i];
      row.task in tasks && tasks[row.task].Done? && Tells(row.result, tasks[row.task])
  {
    if files != [] {
      RowsAreResults(tasks, files[1..]);
    }
  }

  /** A decision on a directory that the events made tells the truth about them. */
  lemma DecisionIsTruthful(s: State, past: seq<Event>, begun: nat)
    requires DirectoryTold(s, past, begun) && s.dir.Present? && begun < |past| && past[|past| - 1].Record?
    ensures Truthful(past, begun, Deciding(s.dir).snapshot)
  {
    hide FirstRoute, Completion, RegistersIn, RowsOf, Listed, Tells;
    var snapshot := Deciding(s.dir).snapshot;
    RowsAreResults(s.dir.tasks, Listed(s.dir.tasks.Keys));
    assert past[..|past|] == past;
    assert DecidedAt(past, begun, |past| - 1, snapshot);
  }

  // ----- Steps -----

  /** A workflow that keeps its member, completion and decision. */
  lemma FlowStays(s: State, past: seq<Event>, begun: nat, e: Event, t: State, f: nat)
    requires f in s.flows && FlowTold(s, past, begun, f) && f in t.flows
    requires t.flows[f] == s.flows[f].(phase := t.flows[f].phase, marked := t.flows[f].marked)
    requires !(e.Spawn? && e.flow == f)
    ensures FlowTold(t, past + [e], begun, f)
  {
    hide Truthful, StartedFor;
    StartedForGrows(past, e, f);
    if Decides(s, f) {
      TruthStays(past, begun, e, s.flows[f].journal.value.snapshot);
    }
  }

  /** No member file is written and no member registered. */
  lemma DirectoryStays(s: State, past: seq<Event>, begun: nat, e: Event, t: State)
    requires DirectoryTold(s, past, begun) && !e.Register? && !e.Record? && !e.RecordLost?
    requires t.dir.Present? <==> s.dir.Present?
    requires s.dir.Present? ==> t.dir == s.dir.(announced := t.dir.announced)
    ensures DirectoryTold(t, past + [e], begun)
  {
    hide FirstRoute, Completion, RegistersIn;
    SuffixGrows(past, begun, e);
    FirstRouteGrows(past[begun..], e);
    forall task
      ensures RegistersIn(past[begun..] + [e], task) <==> RegistersIn(past[begun..], task)
      ensures Completion(past + [e], begun, task) == Completion(past, begun, task)
    {
      RegistersGrow(past[begun..], e, task);
      CompletionGrows(past, begun, e, task);
    }
  }

  /** Steps that write no member file. */
  lemma QuietTells(s: State, past: seq<Event>, begun: nat, e: Event)
    requires Inv(s) && Told(s, past, begun) && Enabled(s, e)
    requires !e.Register? && !e.Record? && !e.RecordLost? && !e.Spawn?
    ensures Told(Apply(s, e), past + [e], begun)
  {
    hide DirectoryTold, FlowTold, Truthful, FlowFits;
    var t := Apply(s, e);
    PresentToo(s, e);
    DirectoryStays(s, past, begun, e, t);
    forall f | f in t.flows
      ensures FlowTold(t, past + [e], begun, f)
    {
      FlowStays(s, past, begun, e, t, f);
    }
    forall i | 0 <= i < |t.published|
      ensures Truthful(past + [e], begun, t.published[i])
    {
      if e.Publish? {
        FlowTells(s, past, begun, e.flow);
      }
      TruthStays(past, begun, e, t.published[i]);
    }
  }

  lemma FlowTells(s: State, past: seq<Event>, begun: nat, f: nat)
    requires Decides(s, f) && FlowTold(s, past, begun, f)
    ensures Truthful(past, begun, s.flows[f].journal.value.snapshot)
  {
  }

  lemma PresentToo(s: State, e: Event)
    requires Inv(s) && Enabled(s, e) && !e.Register? && !e.Record? && !e.RecordLost? && !e.Spawn?
    ensures var t := Apply(s, e);
      && (t.dir.Present? <==> s.dir.Present?)
      && (s.dir.Present? ==> t.dir == s.dir.(announced := t.dir.announced))
      && t.flows.Keys == s.flows.Keys
      && (forall f :: f in s.flows ==> t.flows[f] == s.flows[f].(phase := t.flows[f].phase, marked := t.flows[f].marked))
  {
    hide FlowFits, Full;
  }

  lemma SpawnTells(s: State, past: seq<Event>, begun: nat, e: Event)
    requires Told(s, past, begun) && Enabled(s, e) && e.Spawn?
    ensures Told(Apply(s, e), past + [e], begun)
  {
    hide DirectoryTold, Truthful;
    var t := Apply(s, e);
    DirectoryStays(s, past, begun, e, t);
    StartedForGrows(past, e, e.flow);
    forall f | f in t.flows
      ensures FlowTold(t, past + [e], begun, f)
    {
      if f != e.flow {
        FlowStays(s, past, begun, e, t, f);
      }
    }
    forall i | 0 <= i < |t.published|
      ensures Truthful(past + [e], begun, t.published[i])
    {
      TruthStays(past, begun, e, t.published[i]);
    }
  }

  /** The member file is written, with or without the journal entry. */
  lemma WriteTells(s: State, past: seq<Event>, begun: nat, e: Event, t: State)
    requires DirectoryTold(s, past, begun) && s.dir.Present? && (e.Record? || e.RecordLost?)
    requires e.flow in s.flows && FlowTold(s, past, begun, e.flow)
    requires s.flows[e.flow].task in s.dir.tasks
    requires t.dir == Recording(s.dir, s.flows[e.flow].task, s.flows[e.flow].done)
    ensures DirectoryTold(t, past + [e], begun)
  {
    hide FirstRoute, Completion, RegistersIn, Truthful, StartedFor;
    SuffixGrows(past, begun, e);
    FirstRouteGrows(past[begun..], e);
    var w := s.flows[e.flow];
    forall task
      ensures RegistersIn(past[begun..] + [e], task) <==> RegistersIn(past[begun..], task)
      ensures Completion(past + [e], begun, task) == if task == w.task then Some(w.done) else Completion(past, begun, task)
    {
      RegistersGrow(past[begun..], e, task);
      CompletionGrows(past, begun, e, task);
    }
  }

  lemma RecordTells(s: State, past: seq<Event>, begun: nat, e: Event)
    requires Inv(s) && Told(s, past, begun) && Enabled(s, e) && (e.Record? || e.RecordLost?)
    ensures Told(Apply(s, e), past + [e], begun)
  {
    hide DirectoryTold, Truthful, Deciding, Recording;
    var t := Apply(s, e);
    WritesRegistered(s, e);
    WriteTells(s, past, begun, e, t);
    DirectoryBegan(s, past, begun);
    forall f | f in t.flows
      ensures FlowTold(t, past + [e], begun, f)
    {
      if e.Record? && f == e.flow {
        StartedForGrows(past, e, f);
        DecisionIsTruthful(t, past + [e], begun);
      } else {
        FlowStays(s, past, begun, e, t, f);
      }
    }
    forall i | 0 <= i < |t.published|
      ensures Truthful(past + [e], begun, t.published[i])
    {
      TruthStays(past, begun, e, t.published[i]);
    }
  }

  lemma WritesRegistered(s: State, e: Event)
    requires Inv(s) && Enabled(s, e) && (e.Record? || e.RecordLost?)
    ensures e.flow in s.flows && s.dir.Present? && s.flows[e.flow].task in s.dir.tasks
    ensures Apply(s, e).dir == Recording(s.dir, s.flows[e.flow].task, s.flows[e.flow].done)
    ensures Apply(s, e).dir.Present?
  {
    assert FlowFits(s, e.flow);
  }

  lemma DirectoryBegan(s: State, past: seq<Event>, begun: nat)
    requires DirectoryTold(s, past, begun)
    ensures begun <= |past|
  {
  }

  /** A registration into the present run. */
  lemma RegisterTells(s: State, past: seq<Event>, begun: nat, e: Event)
    requires Inv(s) && Told(s, past, begun) && Enabled(s, e) && e.Register? && !Reuses(s, e)
    ensures Told(Apply(s, e), past + [e], begun)
  {
    hide DirectoryTold, Truthful, FlowFits;
    var t := Apply(s, e);
    RegisterDirectory(s, past, begun, e);
    forall f | f in t.flows
      ensures FlowTold(t, past + [e], begun, f)
    {
      FlowStays(s, past, begun, e, t, f);
    }
    forall i | 0 <= i < |t.published|
      ensures Truthful(past + [e], begun, t.published[i])
    {
      TruthStays(past, begun, e, t.published[i]);
    }
  }

  lemma RegisterDirectory(s: State, past: seq<Event>, begun: nat, e: Event)
    requires DirectoryTold(s, past, begun) && Enabled(s, e) && e.Register? && !Reuses(s, e)
    ensures DirectoryTold(Apply(s, e), past + [e], begun)
  {
    hide FirstRoute, Completion, RegistersIn;
    SuffixGrows(past, begun, e);
    FirstRouteGrows(past[begun..], e);
    forall task
      ensures RegistersIn(past[begun..] + [e], task) <==> RegistersIn(past[begun..], task) || task == e.task
      ensures Completion(past + [e], begun, task) == Completion(past, begun, task)
    {
      RegistersGrow(past[begun..], e, task);
      CompletionGrows(past, begun, e, task);
    }
  }

  /** Before the first registration. */
  ghost predicate NothingRegistered(past: seq<Event>, begun: nat)
    requires begun <= |past|
  {
    FirstRoute(past[begun..]).None? && forall task :: !RegistersIn(past[begun..], task) && Completion(past, begun, task).None?
  }

  /** A registration that starts a new run. */
  lemma ReuseTells(s: State, past: seq<Event>, begun: nat, e: Event)
    requires Inv(s) && Told(s, past, begun) && Enabled(s, e) && Reuses(s, e)
    ensures Told(Apply(s, e), past + [e], |past|)
  {
    hide FlowFits, Truthful, Full;
    var t := Apply(s, e);
    assert (past + [e])[|past|..] == [e] && [e][0] == e;
    assert t.dir.tasks == map[e.task := Registered];
    forall task
      ensures RegistersIn([e], task) <==> task == e.task
      ensures Completion(past + [e], |past|, task) == None
    {
      assert [e][0] == e;
      CompletionGrows(past, |past|, e, task);
    }
    forall f | f in t.flows
      ensures FlowTold(t, past + [e], |past|, f)
    {
      assert FlowTold(s, past, begun, f);
      StartedForGrows(past, e, f);
    }
  }

  lemma StepTells(s: State, past: seq<Event>, begun: nat, e: Event)
    requires Inv(s) && Told(s, past, begun) && Enabled(s, e)
    ensures Told(Apply(s, e), past + [e], if Reuses(s, e) then |past| else begun)
  {
    hide Inv, Told, Enabled, Apply;
    if e.Register? {
      if Reuses(s, e) {
        ReuseTells(s, past, begun, e);
      } else {
        RegisterTells(s, past, begun, e);
      }
    } else if e.Spawn? {
      SpawnTells(s, past, begun, e);
    } else if e.Record? || e.RecordLost? {
      RecordTells(s, past, begun, e);
    } else {
      QuietTells(s, past, begun, e);
    }
  }

  lemma {:induction false} RunTells(s: State, past: seq<Event>, begun: nat, events: seq<Event>, t: State)
    requires begun <= |past| && Inv(s) && Told(s, past, begun) && Reaches(s, events, t)
    ensures Told(t, past + events, Begun(s, events, |past|, begun))
    decreases |events|
  {
    hide Inv, Told, Enabled, Apply, Reuses;
    if events == [] {
      assert past + events == past;
    } else {
      var e := events[0];
      StepTells(s, past, begun, e);
      StepKeeps(s, e);
      RunTells(Apply(s, e), past + [e], if Reuses(s, e) then |past| else begun, events[1..], t);
      assert (past + [e]) + events[1..] == past + events;
    }
  }

  lemma InitialTold()
    ensures Inv(INITIAL) && Told(INITIAL, [], 0)
  {
    forall task
      ensures !RegistersIn([], task) && Completion([], 0, task).None?
    {
    }
  }

  // ----- What every run guarantees -----

  /**
   * In every run, every announcement has the route of the first registration of its run, and each of its rows
   * tells the completion that had been written last for that task when some workflow of the run decided.
   */
  lemma AnnouncementsAreTruthful(events: seq<Event>, t: State, i: nat)
    requires Reaches(INITIAL, events, t) && i < |t.published|
    ensures Truthful(events, Begun(INITIAL, events, 0, 0), t.published[i])
  {
    hide Inv, Reaches, Truthful, DirectoryTold, Begun;
    InitialTold();
    RunTells(INITIAL, [], 0, events, t);
    assert [] + events == events;
  }

  /** The directory holds exactly the members that the run registered, each with the completion written last for it. */
  lemma DirectoryIsToldByEvents(events: seq<Event>, t: State, task: string)
    requires Reaches(INITIAL, events, t) && t.dir.Present?
    ensures var begun := Begun(INITIAL, events, 0, 0);
      && begun <= |events| && t.dir.meta == FirstRoute(events[begun..])
      && (task in t.dir.tasks <==> RegistersIn(events[begun..], task))
      && (task in t.dir.tasks ==> t.dir.tasks[task] == Or(Completion(events, begun, task)))
  {
    hide Inv, Reaches, Truthful, Begun, FlowTold;
    InitialTold();
    RunTells(INITIAL, [], 0, events, t);
    assert [] + events == events;
  }

  /**
   * Once every member's workflow has finished, the full batch has been announced at least once, and every
   * announcement lists the members that the run registered, with their own results and to the run's own route.
   */
  lemma FinishedBatchWasAnnounced(events: seq<Event>, t: State)
    requires Reaches(INITIAL, events, t) && t.dir.Present? && AllFinished(t)
    requires forall task :: task in t.dir.tasks ==> exists f :: f in t.flows && t.flows[f].task == task
    ensures t.dir.announced && t.published != [] && AllDone(t.dir.tasks)
    ensures forall i :: 0 <= i < |t.published| ==>
      Full(t.published[i], t.dir.tasks) && Truthful(events, Begun(INITIAL, events, 0, 0), t.published[i])
    ensures forall task :: task in t.dir.tasks <==> RegistersIn(events[Begun(INITIAL, events, 0, 0)..], task)
  {
    hide Reaches, Truthful, Begun, RegistersIn, Completion, FirstRoute;
    RunKeeps(INITIAL, events, t);
    forall i | 0 <= i < |t.published|
      ensures Truthful(events, Begun(INITIAL, events, 0, 0), t.published[i])
    {
      AnnouncementsAreTruthful(events, t, i);
    }
    forall task
      ensures task in t.dir.tasks <==> RegistersIn(events[Begun(INITIAL, events, 0, 0)..], task)
    {
      DirectoryIsToldByEvents(events, t, task);
    }
    forall task | task in t.dir.tasks
      ensures t.dir.tasks[task].Done?
    {
      var f :| f in t.flows && t.flows[f].task == task;
      assert FlowFits(t, f);
    }
  }
}
