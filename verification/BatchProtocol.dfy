/** Crash-safe announcement: workflows, a step journal, publish and mark over the batch directory. */
module BatchProtocol {
  import opened Basics
  import opened FileOrder
  import opened BatchDirectory

  /** Where a workflow stands in this process. `Finished` is durable, the rest is lost in a crash. */
  datatype Phase = Idle | Recorded | Published | Marked | Finished

  /** A completion workflow for one member; `journal` is the recorded result of its decide step, `marked` that of its mark. */
  datatype Flow = Flow(task: string, done: Member, journal: Option<Decision>, marked: bool, phase: Phase)

  /** A decision to announce whose mark has not been journaled: the sentinel is still to be written. */
  predicate Pending(w: Flow) {
    !w.phase.Finished? && !w.marked && w.journal.Some? && w.journal.value.Decided? && w.journal.value.announce
  }

  datatype State = State(
    dir: Directory,
    flows: map<nat, Flow>,
    published: seq<Snapshot>,          // announcements of the current run of this batch id
    history: seq<seq<Snapshot>>,       // announcements of its earlier runs
    stale: set<nat>)                   // workflows of earlier runs that have yet to write their sentinel

  datatype Event =
    | Register(task: string, route: Route)
    | Spawn(flow: nat, task: string, done: Member)
    | Record(flow: nat)                // the decide step, journaled
    | RecordLost(flow: nat)            // its file is written, then the process crashes before the journal entry
    | Replay(flow: nat)                // the decide step answered from the journal
    | Publish(flow: nat)
    | Mark(flow: nat)
    | MarkLost(flow: nat)              // the sentinel is written, then the process crashes
    | Finish(flow: nat)
    | StaleMark(flow: nat)             // a workflow of an earlier run announces that run, leaves the sentinel here, ends
    | Crash

  function Crashed(s: State): State {
    s.(flows := map f | f in s.flows :: if s.flows[f].phase.Finished? then s.flows[f] else s.flows[f].(phase := Idle))
  }

  predicate AllFinished(s: State) {
    forall f :: f in s.flows ==> s.flows[f].phase.Finished?
  }

  predicate Undecided(s: State) {
    forall f :: f in s.flows ==> !Decides(s, f)
  }

  /** No workflow has yet to write the sentinel, and none that has yet to record would bring a foreign member file. */
  predicate MayReuse(s: State, task: string) {
    && s.stale == {}
    && forall f :: f in s.flows ==> !Pending(s.flows[f]) && (s.flows[f].journal.None? ==> s.flows[f].task == task)
  }

  /**
   * A new member may come at any time until some workflow has decided to announce, between completions too; a
   * registration repeated is harmless; an announced batch id is reused when `MayReuse`.
   */
  predicate MayRegister(s: State, task: string) {
    || s.dir.Absent?
    || (!s.dir.announced && (task in s.dir.tasks || Undecided(s)))
    || (s.dir.announced && MayReuse(s, task))
  }

  predicate At(s: State, f: nat, phase: Phase) {
    f in s.flows && s.flows[f].phase == phase
  }

  predicate Decides(s: State, f: nat) {
    f in s.flows && s.flows[f].journal.Some? && s.flows[f].journal.value.Decided? && s.flows[f].journal.value.announce
  }

  function Moved(s: State, f: nat, phase: Phase): State
    requires f in s.flows
  {
    s.(flows := s.flows[f := s.flows[f].(phase := phase)])
  }

  /** The mark step writes the sentinel, unless it is answered from the journal. */
  function Signed(s: State, f: nat): State
    requires f in s.flows
  {
    s.(dir := if s.flows[f].marked then s.dir else Marking(s.dir),
       flows := s.flows[f := s.flows[f].(phase := Marked, marked := true)])
  }

  predicate Enabled(s: State, e: Event) {
    match e
    case Register(task, _) => MayRegister(s, task)
    case Spawn(f, task, done) => f !in s.flows && s.dir.Present? && task in s.dir.tasks && done.Done?
    case Record(f) => At(s, f, Idle) && s.flows[f].journal.None?
    case RecordLost(f) => At(s, f, Idle) && s.flows[f].journal.None?
    case Replay(f) => At(s, f, Idle) && s.flows[f].journal.Some?
    case Publish(f) => At(s, f, Recorded) && Decides(s, f)
    case Mark(f) => At(s, f, Published)
    case MarkLost(f) => At(s, f, Published)
    case Finish(f) => At(s, f, Marked) || (At(s, f, Recorded) && !Decides(s, f))
    case StaleMark(f) => f in s.stale
    case Crash => true
  }

  /** The workflows of a run that is being replaced which have not recorded yet: they will write into the new one. */
  function Unrecorded(flows: map<nat, Flow>): map<nat, Flow> {
    map f | f in flows && flows[f].journal.None? :: flows[f]
  }

  /** The registration as the code performs it, whatever the workflows are doing. */
  function Joined(s: State, task: string, route: Route): State {
    if s.dir.Present? && s.dir.announced then
      State(Registering(s.dir, task, route), Unrecorded(s.flows), [], s.history + [s.published],
            s.stale + set f | f in s.flows && Pending(s.flows[f]))
    else s.(dir := Registering(s.dir, task, route))
  }

  function Apply(s: State, e: Event): State
    requires Enabled(s, e)
  {
    match e
    case Register(task, route) => Joined(s, task, route)
    case Spawn(f, task, done) => s.(flows := s.flows[f := Flow(task, done, None, false, Idle)])
    case Record(f) =>
      var dir := Recording(s.dir, s.flows[f].task, s.flows[f].done);
      s.(dir := dir, flows := s.flows[f := s.flows[f].(journal := Some(Deciding(dir)), phase := Recorded)])
    case RecordLost(f) => Crashed(s.(dir := Recording(s.dir, s.flows[f].task, s.flows[f].done)))
    case Replay(f) => Moved(s, f, Recorded)
    case Publish(f) => Moved(s, f, Published).(published := s.published + [s.flows[f].journal.value.snapshot])
    case Mark(f) => Signed(s, f)
    case MarkLost(f) => Crashed(s.(dir := Marking(s.dir)))
    case Finish(f) => Moved(s, f, Phase.Finished)
    case StaleMark(f) => s.(dir := Marking(s.dir), stale := s.stale - {f})
    case Crash => Crashed(s)
  }

  const INITIAL := State(Absent, map[], [], [], {})

  ghost predicate Reaches(s: State, events: seq<Event>, t: State)
    decreases |events|
  {
    if events == [] then s == t
    else Enabled(s, events[0]) && Reaches(Apply(s, events[0]), events[1..], t)
  }

  // ----- The invariant -----

  /** A workflow that has not finished and will decide, or has decided, to announce. */
  predicate Owes(s: State, f: nat) {
    f in s.flows && !s.flows[f].phase.Finished? && (s.flows[f].journal.None? || Decides(s, f))
  }

  ghost predicate SomeoneOwes(s: State) {
    exists f :: Owes(s, f)
  }

  /** The snapshot is of the whole batch, every member in file order. */
  predicate Full(snapshot: Snapshot, tasks: map<string, Member>) {
    snapshot.total == snapshot.completed == |tasks| && TasksIn(snapshot.results) == Listed(tasks.Keys)
  }

  /** One workflow against the directory. */
  predicate FlowFits(s: State, f: nat)
    requires f in s.flows && s.dir.Present?
  {
    var w := s.flows[f];
    && w.task in s.dir.tasks && w.done.Done?
    && (w.journal.Some? ==> w.journal.value.Decided? && s.dir.tasks[w.task].Done?)
    && (w.phase.Recorded? || w.phase.Published? || w.phase.Marked? || w.phase.Finished? ==> w.journal.Some?)
    && (w.phase.Published? || w.phase.Marked? ==> Decides(s, f) && s.published != [])
    && (Decides(s, f) ==> AllDone(s.dir.tasks) && Full(w.journal.value.snapshot, s.dir.tasks))
    && (w.phase.Marked? || (w.phase.Finished? && Decides(s, f)) || w.marked ==> s.dir.announced)
    && (w.marked ==> Decides(s, f))
  }

  ghost predicate Inv(s: State) {
    && (s.dir.Absent? ==> s.flows == map[] && s.published == [])
    && (s.dir.Present? ==>
      && s.dir.tasks != map[]
      && (forall f :: f in s.flows ==> FlowFits(s, f))
      && (forall i :: 0 <= i < |s.published| ==> Full(s.published[i], s.dir.tasks))
      && (s.published != [] ==> !Undecided(s))
      && (s.dir.announced ==> s.published != [])
      && (AllDone(s.dir.tasks) && !s.dir.announced ==> SomeoneOwes(s)))
    && (forall i :: 0 <= i < |s.history| ==> s.history[i] != [])
    && s.stale == {}
  }

  lemma RegisterKeeps(s: State, task: string, route: Route)
    requires Inv(s) && Enabled(s, Register(task, route))
    ensures Inv(Apply(s, Register(task, route)))
  {
    var t := Apply(s, Register(task, route));
    assert task in t.dir.tasks;
    if s.dir.Present? && !s.dir.announced && task !in s.dir.tasks {
      assert !t.dir.tasks[task].Done?;
      forall f | f in s.flows
        ensures FlowFits(t, f)
      {
        assert FlowFits(s, f);
      }
    } else if s.dir.Present? && !s.dir.announced {
      assert t.dir.tasks == s.dir.tasks;
      RepeatKeeps(s, t);
    } else {
      assert t.dir.tasks == map[task := Registered];
      assert !t.dir.tasks[task].Done?;
      forall f | f in t.flows
        ensures FlowFits(t, f)
      {
        assert FlowFits(s, f);
      }
    }
  }

  /** Only the routing differs. */
  lemma RepeatKeeps(s: State, t: State)
    requires Inv(s) && s.dir.Present? && t.dir.Present? && t == s.(dir := t.dir)
    requires t.dir.tasks == s.dir.tasks && t.dir.announced == s.dir.announced
    ensures Inv(t)
  {
    forall f | f in s.flows
      ensures FlowFits(t, f)
    {
      assert FlowFits(s, f);
    }
    if AllDone(s.dir.tasks) && !s.dir.announced {
      var f :| Owes(s, f);
      assert Owes(t, f);
    }
    if s.published != [] {
      StillDecided(s, t);
    }
  }

  /** Decisions are journaled: they outlast every step that keeps the workflows. */
  lemma StillDecided(s: State, t: State)
    requires !Undecided(s)
    requires forall f :: f in s.flows && Decides(s, f) ==> f in t.flows && t.flows[f].journal == s.flows[f].journal
    ensures !Undecided(t)
  {
    var f :| f in s.flows && Decides(s, f);
    assert Decides(t, f);
  }

  lemma SpawnKeeps(s: State, e: Event)
    requires Inv(s) && e.Spawn? && Enabled(s, e)
    ensures Inv(Apply(s, e))
  {
    var t := Apply(s, e);
    forall f | f in t.flows
      ensures FlowFits(t, f)
    {
      assert f != e.flow ==> FlowFits(s, f);
    }
    if AllDone(t.dir.tasks) {
      assert Owes(t, e.flow);
    }
    if s.published != [] {
      StillDecided(s, t);
    }
  }

  /** Writing one more completion keeps every other workflow's facts. */
  lemma RecordingKeepsFit(s: State, f: nat, dir: Directory, g: nat)
    requires Inv(s) && s.dir.Present? && f in s.flows && g in s.flows
    requires dir == Recording(s.dir, s.flows[f].task, s.flows[f].done)
    ensures FlowFits(s.(dir := dir), g)
    ensures dir.tasks.Keys == s.dir.tasks.Keys && |dir.tasks| == |s.dir.tasks|
    ensures AllDone(s.dir.tasks) ==> AllDone(dir.tasks)
  {
    assert FlowFits(s, f) && FlowFits(s, g);
    assert dir.tasks.Keys == s.dir.tasks.Keys;
    assert |dir.tasks| == |dir.tasks.Keys| && |s.dir.tasks| == |s.dir.tasks.Keys|;
  }

  lemma RecordFits(s: State, f: nat, g: nat)
    requires Inv(s) && Enabled(s, Record(f)) && g in s.flows
    ensures FlowFits(Apply(s, Record(f)), g)
  {
    var t := Apply(s, Record(f));
    RecordingKeepsFit(s, f, t.dir, g);
    AnnounceExactlyWhenFull(t.dir);
  }

  lemma RecordKeeps(s: State, f: nat)
    requires Inv(s) && Enabled(s, Record(f))
    ensures Inv(Apply(s, Record(f)))
  {
    hide FlowFits, Full, Recording, Deciding;
    var t := Apply(s, Record(f));
    RecordOwes(s, f);
    RecordStaysFull(s, f);
    forall g | g in t.flows
      ensures FlowFits(t, g)
    {
      RecordFits(s, f, g);
    }
    if s.published != [] {
      StillDecided(s, t);
    }
  }

  lemma RecordOwes(s: State, f: nat)
    requires Inv(s) && Enabled(s, Record(f))
    ensures var t := Apply(s, Record(f));
      t.dir.Present? && t.dir.tasks != map[] && t.dir.announced == s.dir.announced &&
      (AllDone(t.dir.tasks) && !t.dir.announced ==> SomeoneOwes(t))
  {
    hide FlowFits, Full;
    var t := Apply(s, Record(f));
    RecordingKeepsFit(s, f, t.dir, f);
    if AllDone(t.dir.tasks) && !t.dir.announced {
      AnnounceExactlyWhenFull(t.dir);
      assert Owes(t, f);
    }
  }

  lemma RecordStaysFull(s: State, f: nat)
    requires Inv(s) && Enabled(s, Record(f))
    ensures var t := Apply(s, Record(f));
      t.dir.Present? && forall i :: 0 <= i < |t.published| ==> Full(t.published[i], t.dir.tasks)
  {
    hide FlowFits;
    RecordingKeepsFit(s, f, Apply(s, Record(f)).dir, f);
  }

  lemma CrashKeeps(s: State)
    requires Inv(s)
    ensures Inv(Crashed(s))
  {
    var t := Crashed(s);
    if s.dir.Present? {
      forall f | f in t.flows
        ensures FlowFits(t, f)
      {
        assert FlowFits(s, f);
      }
      if AllDone(s.dir.tasks) && !s.dir.announced {
        var f :| Owes(s, f);
        assert Owes(t, f);
      }
      if s.published != [] {
        StillDecided(s, t);
      }
    } else {
      assert t.flows == map[];
    }
  }

  lemma WrittenKeeps(s: State, f: nat)
    requires Inv(s) && Enabled(s, RecordLost(f))
    ensures Inv(s.(dir := Recording(s.dir, s.flows[f].task, s.flows[f].done)))
  {
    hide FlowFits;
    var t := s.(dir := Recording(s.dir, s.flows[f].task, s.flows[f].done));
    forall g | g in s.flows
      ensures FlowFits(t, g)
    {
      RecordingKeepsFit(s, f, t.dir, g);
    }
    RecordingKeepsFit(s, f, t.dir, f);
    assert Owes(t, f);
    if s.published != [] {
      StillDecided(s, t);
    }
  }

  lemma RecordLostKeeps(s: State, f: nat)
    requires Inv(s) && Enabled(s, RecordLost(f))
    ensures Inv(Apply(s, RecordLost(f)))
  {
    hide Inv, Recording;
    WrittenKeeps(s, f);
    CrashKeeps(s.(dir := Recording(s.dir, s.flows[f].task, s.flows[f].done)));
  }

  /** A workflow that only moves to another phase. */
  lemma MoveFits(s: State, f: nat, phase: Phase, g: nat)
    requires Inv(s) && f in s.flows && s.flows[f].journal.Some? && g in s.flows
    requires phase.Published? || phase.Marked? ==> Decides(s, f) && s.published != []
    requires phase.Marked? || (phase.Finished? && Decides(s, f)) ==> s.dir.announced
    ensures s.dir.Present? && FlowFits(Moved(s, f, phase), g)
  {
    assert FlowFits(s, g);
  }

  lemma MoveKeeps(s: State, f: nat, phase: Phase)
    requires Inv(s) && f in s.flows && s.flows[f].journal.Some?
    requires phase.Published? || phase.Marked? ==> Decides(s, f) && s.published != []
    requires phase.Marked? || (phase.Finished? && Decides(s, f)) ==> s.dir.announced
    ensures Inv(Moved(s, f, phase))
  {
    hide FlowFits;
    var t := Moved(s, f, phase);
    forall g | g in t.flows
      ensures FlowFits(t, g)
    {
      MoveFits(s, f, phase, g);
    }
    if AllDone(s.dir.tasks) && !s.dir.announced {
      var g :| Owes(s, g);
      assert Owes(t, g);
    }
    if s.published != [] {
      StillDecided(s, t);
    }
  }

  lemma PublishedKeeps(s: State, f: nat)
    requires Inv(s) && Enabled(s, Publish(f))
    ensures Inv(Apply(s, Publish(f)))
  {
    hide Full;
    var s' := s.(published := s.published + [s.flows[f].journal.value.snapshot]);
    assert FlowFits(s, f);
    forall g | g in s.flows
      ensures FlowFits(s', g)
    {
      assert FlowFits(s, g);
    }
    if AllDone(s.dir.tasks) && !s.dir.announced {
      var g :| Owes(s, g);
      assert Owes(s', g);
    }
    assert Decides(s', f);
    MoveKeeps(s', f, Published);
  }

  lemma MarkingKeeps(s: State, f: nat)
    requires Inv(s) && At(s, f, Published)
    ensures Inv(s.(dir := Marking(s.dir)))
  {
    var t := s.(dir := Marking(s.dir));
    assert FlowFits(s, f);
    forall g | g in s.flows
      ensures FlowFits(t, g)
    {
      assert FlowFits(s, g);
    }
    assert Decides(t, f);
  }

  lemma SignedKeeps(s: State, f: nat)
    requires Inv(s) && At(s, f, Published)
    ensures Inv(Signed(s, f))
  {
    var u, t := s.(dir := Marking(s.dir)), Signed(s, f);
    MarkingKeeps(s, f);
    assert FlowFits(s, f) && FlowFits(u, f);
    assert t.dir == u.dir;
    forall g | g in t.flows
      ensures FlowFits(t, g)
    {
      assert FlowFits(u, g);
    }
    StillDecided(u, t);
  }

  lemma StepKeeps(s: State, e: Event)
    requires Inv(s) && Enabled(s, e)
    ensures Inv(Apply(s, e))
  {
    match e
    case Register(task, route) => RegisterKeeps(s, task, route);
    case Spawn(_, _, _) => SpawnKeeps(s, e);
    case Record(f) => RecordKeeps(s, f);
    case RecordLost(f) => RecordLostKeeps(s, f);
    case Replay(f) => MoveKeeps(s, f, Recorded);
    case Publish(f) => PublishedKeeps(s, f);
    case Mark(f) => SignedKeeps(s, f);
    case MarkLost(f) =>
      MarkingKeeps(s, f);
      CrashKeeps(s.(dir := Marking(s.dir)));
    case Finish(f) =>
      assert FlowFits(s, f);
      MoveKeeps(s, f, Phase.Finished);
    case StaleMark(_) =>
    case Crash => CrashKeeps(s);
  }

  lemma {:induction false} RunKeeps(s: State, events: seq<Event>, t: State)
    requires Inv(s) && Reaches(s, events, t)
    ensures Inv(t)
    decreases |events|
  {
    if events != [] {
      StepKeeps(s, events[0]);
      RunKeeps(Apply(s, events[0]), events[1..], t);
    }
  }

  // ----- What every run guarantees -----

  /** All members complete on disk and no sentinel: some unfinished workflow still owes the announcement. */
  lemma FullBatchIsOwed(events: seq<Event>, t: State)
    requires Reaches(INITIAL, events, t)
    requires t.dir.Present? && AllDone(t.dir.tasks) && !t.dir.announced
    ensures exists f :: Owes(t, f)
  {
    RunKeeps(INITIAL, events, t);
  }

  /** The sentinel, and the reuse of the batch id, come only after an announcement of the full batch. */
  lemma SentinelMeansPublished(events: seq<Event>, t: State)
    requires Reaches(INITIAL, events, t)
    ensures t.dir.Present? && t.dir.announced ==> t.published != []
    ensures forall i :: 0 <= i < |t.published| ==> t.dir.Present? && Full(t.published[i], t.dir.tasks)
    ensures forall i :: 0 <= i < |t.history| ==> t.history[i] != []
  {
    RunKeeps(INITIAL, events, t);
  }
}
