/** The in-memory batch store (exoclaw_subagent/batch_store.py), its counters and its announcements. */
module MemoryBatch {
  import opened Basics
  import opened FileOrder
  import opened BatchDirectory

  datatype Counters = Counters(total: nat, completed: nat, results: seq<Result>, route: Route)

  /** What the store holds for one batch id. */
  datatype Entry = Entry(counters: Option<Counters>, registered: set<string>, completed: set<string>, announced: bool)

  const NO_ENTRY := Entry(None, {}, {}, false)

  datatype Outcome = KeyError | Recorded(post: Counters, announce: bool)

  // ----- The lock sections as functions of one entry -----

  function Enrolling(e: Entry, task: string, route: Route): Entry {
    var e := if e.announced then NO_ENTRY else e;
    if task in e.registered then e
    else
      var c := if e.counters.Some? then e.counters.value else Counters(0, 0, [], route);
      e.(registered := e.registered + {task}, counters := Some(c.(total := c.total + 1)))
  }

  function Completing(e: Entry, task: string, done: Member): Entry
    requires done.Done?
  {
    if e.counters.None? || task in e.completed then e
    else
      var c := e.counters.value;
      e.(completed := e.completed + {task},
         counters := Some(c.(completed := c.completed + 1, results := c.results + [ResultOf(done)])))
  }

  function Judging(e: Entry): Outcome {
    if e.counters.None? then KeyError
    else var c := e.counters.value; Recorded(c, c.completed >= c.total && !e.announced)
  }

  /** The counters count what they stand for. */
  predicate Counts(e: Entry) {
    match e.counters
    case None => e.registered == {} && e.completed == {}
    case Some(c) => c.total == |e.registered| && c.completed == |e.completed| == |c.results|
  }

  /** Every lock section keeps the counters exact, for any tasks in any order, repeated or not. */
  lemma SectionsKeepCounts(e: Entry, task: string, route: Route, done: Member)
    requires Counts(e) && done.Done?
    ensures Counts(Enrolling(e, task, route))
    ensures Counts(Completing(e, task, done))
    ensures Enrolling(Enrolling(e, task, route), task, route) == Enrolling(e, task, route)
    ensures Completing(Completing(e, task, done), task, done) == Completing(e, task, done)
  {
  }

  // ----- The store -----

  class InMemoryBatchStore {
    var batches: map<string, Counters>
    var registered: map<string, set<string>>
    var completed: map<string, set<string>>
    var announced: set<string>

    ghost function View(b: string): Entry
      reads this
    {
      Entry(if b in batches then Some(batches[b]) else None,
            if b in registered then registered[b] else {},
            if b in completed then completed[b] else {},
            b in announced)
    }

    ghost predicate Valid()
      reads this
    {
      forall b :: Counts(View(b))
    }

    constructor ()
      ensures Valid()
      ensures forall b :: View(b) == NO_ENTRY
    {
      batches, registered, completed, announced := map[], map[], map[], {};
    }

    /** Frame and counters of a section that touches one batch id. */
    twostate lemma SectionKeepsValid(batch: string)
      requires old(Valid())
      requires Counts(View(batch))
      requires forall b :: b != batch ==> View(b) == old(View(b))
      ensures Valid()
    {
      forall b
        ensures Counts(View(b))
      {
        assert old(Counts(View(b)));
      }
    }

    /** A batch id reused across runs: the stale entry goes. */
    method Forget(batch: string)
      modifies this
      ensures View(batch) == NO_ENTRY
      ensures forall b :: b != batch ==> View(b) == old(View(b))
    {
      announced := announced - {batch};
      batches, registered, completed := batches - {batch}, registered - {batch}, completed - {batch};
    }

    /** `setdefault` on the roster, then the task and the counters. */
    method Enroll(batch: string, task: string, route: Route)
      requires batch !in announced
      modifies this
      ensures View(batch) == Enrolling(old(View(batch)), task, route)
      ensures forall b :: b != batch ==> View(b) == old(View(b))
    {
      if batch !in registered {
        registered := registered[batch := {}];
      }
      if task in registered[batch] {
        return;
      }
      registered := registered[batch := registered[batch] + {task}];
      if batch !in batches {
        batches := batches[batch := Counters(0, 0, [], route)];
      }
      var c := batches[batch];
      batches := batches[batch := c.(total := c.total + 1)];
    }

    method Register(batch: string, task: string, route: Route)
      requires Valid()
      modifies this
      ensures Valid()
      ensures View(batch) == Enrolling(old(View(batch)), task, route)
      ensures forall b :: b != batch ==> View(b) == old(View(b))
    {
      hide Enrolling;
      ghost var before := View(batch);
      assert Counts(before);
      assert Enrolling(before, task, route) == Enrolling(if before.announced then NO_ENTRY else before, task, route)
        && Counts(Enrolling(before, task, route)) by {
        EnrollForgets(before, task, route);
      }
      if batch in announced {
        Forget(batch);
      }
      Enroll(batch, task, route);
      SectionKeepsValid(batch);
    }

    /** The first lock section of `record_completion_and_maybe_announce`. */
    method RecordCompletion(batch: string, task: string, done: Member) returns (r: Outcome)
      requires Valid() && done.Done?
      modifies this
      ensures Valid()
      ensures View(batch) == Completing(old(View(batch)), task, done)
      ensures r == Judging(View(batch))
      ensures forall b :: b != batch ==> View(b) == old(View(b))
    {
      assert Counts(View(batch));
      if batch !in batches {
        return KeyError;
      }
      if batch !in completed {
        completed := completed[batch := {}];
      }
      var c := batches[batch];
      if task !in completed[batch] {
        completed := completed[batch := completed[batch] + {task}];
        c := c.(completed := c.completed + 1, results := c.results + [ResultOf(done)]);
        batches := batches[batch := c];
      }
      SectionKeepsValid(batch);
      r := Recorded(c, c.completed >= c.total && batch !in announced);
    }

    /** The second lock section, after the callback returned. */
    method MarkAnnounced(batch: string)
      requires Valid()
      modifies this
      ensures Valid()
      ensures View(batch) == old(View(batch)).(announced := true)
      ensures forall b :: b != batch ==> View(b) == old(View(b))
    {
      assert Counts(View(batch));
      announced := announced + {batch};
      SectionKeepsValid(batch);
    }
  }

  lemma EnrollForgets(e: Entry, task: string, route: Route)
    requires Counts(e)
    ensures Enrolling(e, task, route) == Enrolling(if e.announced then NO_ENTRY else e, task, route)
    ensures Counts(Enrolling(e, task, route))
  {
  }

  // ----- Interleavings of one batch -----

  /**
   * `waiting` are the calls that decided to announce and have not run the callback yet, `marking` counts those
   * past the callback that have not taken the lock again, `history` the announcements of earlier runs of this id,
   * and `stale` counts the calls of those runs that have yet to mark.
   */
  datatype State = State(
    entry: Entry,
    waiting: seq<Counters>,
    marking: nat,
    published: seq<Counters>,
    replays: nat,
    history: seq<seq<Counters>>,
    stale: nat)

  datatype Event =
    | Register(task: string, route: Route)
    | Complete(task: string, done: Member)
    | Announce(call: nat)
    | Mark
    | StaleMark                        // a call of an earlier run takes the lock again

  const INITIAL := State(NO_ENTRY, [], 0, [], 0, [], 0)

  /** Nobody has decided to announce this run of the batch. */
  predicate Undecided(s: State) {
    s.waiting == [] && s.published == []
  }

  /** No call is between its decision and its mark. */
  predicate Quiet(s: State) {
    s.waiting == [] && s.marking == 0 && s.stale == 0
  }

  /**
   * A new member may come at any time until some call has decided to announce, between completions too; a
   * registration repeated is harmless; the id is reused once no call is still to mark.
   */
  predicate MayRegister(s: State, task: string) {
    if s.entry.announced then Quiet(s) else task in s.entry.registered || Undecided(s)
  }

  /** Only registered tasks complete, some of them again. */
  predicate Enabled(s: State, e: Event) {
    match e
    case Register(task, _) => MayRegister(s, task)
    case Complete(task, done) => task in s.entry.registered && done.Done?
    case Announce(call) => call < |s.waiting|
    case Mark => s.marking > 0
    case StaleMark => s.stale > 0
  }

  /** The registration as the code performs it, whatever the other calls are doing. */
  function Joined(s: State, task: string, route: Route): State {
    if s.entry.announced then
      State(Enrolling(s.entry, task, route), [], 0, [], 0, s.history + [s.published], s.stale + |s.waiting| + s.marking)
    else s.(entry := Enrolling(s.entry, task, route))
  }

  function Apply(s: State, e: Event): State
    requires Enabled(s, e)
  {
    match e
    case Register(task, route) => Joined(s, task, route)
    case Complete(task, done) =>
      var after := Completing(s.entry, task, done);
      var d := Judging(after);
      s.(entry := after,
         replays := s.replays + if task in s.entry.completed then 1 else 0,
         waiting := if d.Recorded? && d.announce then s.waiting + [d.post] else s.waiting)
    case Announce(call) =>
      s.(waiting := s.waiting[..call] + s.waiting[call + 1..], marking := s.marking + 1,
         published := s.published + [s.waiting[call]])
    case Mark => s.(marking := s.marking - 1, entry := s.entry.(announced := true))
    case StaleMark => s.(stale := s.stale - 1, entry := s.entry.(announced := true))
  }

  ghost predicate Reaches(s: State, events: seq<Event>, t: State)
    decreases |events|
  {
    if events == [] then s == t
    else Enabled(s, events[0]) && Reaches(Apply(s, events[0]), events[1..], t)
  }

  predicate Full(c: Counters, e: Entry) {
    c.total == c.completed == |c.results| == |e.registered|
  }

  ghost predicate Inv(s: State) {
    && Counts(s.entry)
    && s.entry.completed <= s.entry.registered
    && (s.entry.completed == s.entry.registered != {} ==> 1 <= |s.waiting| + |s.published| <= 1 + s.replays)
    && (s.entry.completed != s.entry.registered || s.entry.registered == {} ==> Undecided(s))
    && (s.marking > 0 || s.entry.announced <==> s.published != [])
    && (forall i :: 0 <= i < |s.waiting| ==> Full(s.waiting[i], s.entry))
    && (forall i :: 0 <= i < |s.published| ==> Full(s.published[i], s.entry))
    && (forall i :: 0 <= i < |s.history| ==> s.history[i] != [])
    && s.stale == 0
  }

  lemma CompleteKeeps(s: State, task: string, done: Member)
    requires Inv(s) && Enabled(s, Complete(task, done))
    ensures Inv(Apply(s, Complete(task, done)))
  {
    var t := Apply(s, Complete(task, done));
    var r, c := t.entry.registered, t.entry.completed;
    SubsetSize(c, r);
    if task in s.entry.completed {
      assert t.entry == s.entry;
    } else {
      assert s.entry.completed != s.entry.registered;
      assert |r| == t.entry.counters.value.total && |c| == t.entry.counters.value.completed;
    }
  }

  lemma RegisterKeeps(s: State, task: string, route: Route)
    requires Inv(s) && Enabled(s, Register(task, route))
    ensures Inv(Apply(s, Register(task, route)))
  {
    if !s.entry.announced && task !in s.entry.registered {
      assert task !in s.entry.completed;
    }
  }

  lemma AnnounceKeeps(s: State, call: nat)
    requires Inv(s) && call < |s.waiting|
    ensures Inv(Apply(s, Announce(call)))
  {
  }

  lemma StepKeeps(s: State, e: Event)
    requires Inv(s) && Enabled(s, e)
    ensures Inv(Apply(s, e))
  {
    match e
    case Register(task, route) => RegisterKeeps(s, task, route);
    case Complete(task, done) => CompleteKeeps(s, task, done);
    case Announce(call) => AnnounceKeeps(s, call);
    case Mark =>
    case StaleMark =>
  }

  lemma {:induction false} RunKeeps(s: State, events: seq<Event>, t: State)
    requires Inv(s) && Reaches(s, events, t)
    ensures Inv(t)
    decreases |events|
  {
    hide Inv, Enabled, Apply;
    if events != [] {
      StepKeeps(s, events[0]);
      RunKeeps(Apply(s, events[0]), events[1..], t);
    }
  }

  /** Counters are exact, announcements are of the full batch, none is made before it is full, every earlier run had one. */
  lemma AnnouncementsAreFull(events: seq<Event>, t: State)
    requires Reaches(INITIAL, events, t)
    ensures Counts(t.entry)
    ensures forall i :: 0 <= i < |t.published| ==> Full(t.published[i], t.entry)
    ensures t.published != [] ==> t.entry.completed == t.entry.registered
    ensures forall i :: 0 <= i < |t.history| ==> t.history[i] != []
  {
    RunKeeps(INITIAL, events, t);
  }

  /** With no call left half way, a complete batch was announced, and exactly once unless a completion was replayed. */
  lemma AnnouncedOnce(events: seq<Event>, t: State)
    requires Reaches(INITIAL, events, t) && t.waiting == []
    requires t.entry.registered != {} && t.entry.completed == t.entry.registered
    ensures 1 <= |t.published| <= 1 + t.replays
    ensures t.replays == 0 ==> |t.published| == 1
  {
    RunKeeps(INITIAL, events, t);
  }

  // ----- When a new member may join -----

  /** The batch is complete and no call is half way. */
  predicate Ended(t: State) {
    t.entry.registered != {} && t.entry.completed == t.entry.registered && Quiet(t)
  }

  predicate Told(t: State) {
    exists i :: 0 <= i < |t.published| && Full(t.published[i], t.entry)
  }

  /** However the run goes on after the registration, once it is over the full batch has been announced. */
  ghost predicate Safe(s: State, task: string, route: Route) {
    forall events, t :: Reaches(Joined(s, task, route), events, t) && Ended(t) ==> Told(t)
  }

  lemma UndecidedIsSafe(s: State, task: string, route: Route)
    requires Inv(s) && !s.entry.announced && task !in s.entry.registered && Undecided(s)
    ensures Safe(s, task, route)
  {
    assert Apply(s, Register(task, route)) == Joined(s, task, route);
    RegisterKeeps(s, task, route);
    forall events, t | Reaches(Joined(s, task, route), events, t) && Ended(t)
      ensures Told(t)
    {
      RunKeeps(Joined(s, task, route), events, t);
      assert Full(t.published[0], t.entry);
    }
  }

  lemma Unroll(s: State, e: Event, rest: seq<Event>, t: State)
    requires Enabled(s, e) && Reaches(Apply(s, e), rest, t)
    ensures Reaches(s, [e] + rest, t)
  {
    assert ([e] + rest)[1..] == rest;
  }

  /** Every announcement made or decided is of a batch of at most `n`. */
  predicate AllSmall(cs: seq<Counters>, n: nat) {
    forall i :: 0 <= i < |cs| ==> cs[i].total <= n
  }

  /** Calls half way go through to their mark; the new member completes behind the last of them. */
  lemma {:induction false} RunsSilent(s: State, n: nat, task: string, done: Member) returns (events: seq<Event>, t: State)
    requires done.Done? && s.entry.counters.Some? && |s.entry.registered| > n && AllSmall(s.waiting, n) && AllSmall(s.published, n)
    requires task in s.entry.registered && s.entry.completed + {task} == s.entry.registered
    requires s.entry.announced || s.waiting != [] || s.marking > 0 || s.stale > 0
    ensures Reaches(s, events, t) && Ended(t) && AllSmall(t.published, n) && |t.entry.registered| > n
    decreases |s.waiting|, s.marking, s.stale
  {
    hide Reaches;
    var rest: seq<Event>;
    if s.waiting != [] {
      rest, t := RunsSilent(Apply(s, Announce(0)), n, task, done);
      events := [Announce(0)] + rest;
      Unroll(s, Announce(0), rest, t);
    } else if s.marking > 0 {
      rest, t := RunsSilent(Apply(s, Mark), n, task, done);
      events := [Mark] + rest;
      Unroll(s, Mark, rest, t);
    } else if s.stale > 0 {
      rest, t := RunsSilent(Apply(s, StaleMark), n, task, done);
      events := [StaleMark] + rest;
      Unroll(s, StaleMark, rest, t);
    } else {
      t := Apply(s, Complete(task, done));
      Arrived(t);
      events := [Complete(task, done)] + [];
      Unroll(s, Complete(task, done), [], t);
    }
  }

  lemma Arrived(t: State)
    ensures Reaches(t, [], t)
  {
  }

  /** A member that joins after a decision to announce can complete without ever being announced. */
  lemma LateRegistrationIsSilenced(s: State, task: string, route: Route, done: Member) returns (events: seq<Event>, t: State)
    requires Inv(s) && !s.entry.announced && task !in s.entry.registered && !Undecided(s) && done.Done?
    ensures Reaches(Joined(s, task, route), events, t) && Ended(t) && !Told(t)
  {
    hide Reaches;
    var n := |s.entry.registered|;
    var u := Joined(s, task, route);
    assert u.entry.registered == s.entry.registered + {task};
    events, t := RunsSilent(u, n, task, done);
  }

  /** In every reachable un-announced state a new member is safe to register if and only if no call has decided to announce. */
  lemma RegistrationIsSafeExactlyWhenUndecided(events: seq<Event>, s: State, task: string, route: Route)
    requires Reaches(INITIAL, events, s) && !s.entry.announced && task !in s.entry.registered
    ensures Safe(s, task, route) <==> Undecided(s)
  {
    hide Reaches, Ended, Told, Joined;
    RunKeeps(INITIAL, events, s);
    if Undecided(s) {
      UndecidedIsSafe(s, task, route);
    } else {
      var more, t := LateRegistrationIsSilenced(s, task, route, Done(Completed, "", None));
      assert Reaches(Joined(s, task, route), more, t) && Ended(t) && !Told(t);
    }
  }

  // ----- When an announced id may be reused -----

  /** A call of the earlier run that marks after the reuse silences the new run. */
  lemma StaleMarkSilences(s: State, task: string, route: Route, done: Member) returns (events: seq<Event>, t: State)
    requires s.entry.announced && !Quiet(s) && done.Done?
    ensures Reaches(Joined(s, task, route), events, t) && Ended(t) && !Told(t)
  {
    hide Reaches;
    var u := Joined(s, task, route);
    assert u.entry.registered == {task} && u.entry.completed == {};
    events, t := RunsSilent(u, 0, task, done);
  }

  /** Such a call exists when a completion is reported twice before the first report has announced. */
  lemma OverlappingCallsAreReached(route: Route, done: Member) returns (events: seq<Event>, s: State)
    requires done.Done?
    ensures Reaches(INITIAL, events, s) && s.entry.announced && !Quiet(s)
  {
    var s1 := Apply(INITIAL, Register("a", route));
    var s2 := Apply(s1, Complete("a", done));
    var s3 := Apply(s2, Complete("a", done));
    var s4 := Apply(s3, Announce(0));
    s := Apply(s4, Mark);
    Arrived(s);
    Unroll(s4, Mark, [], s);
    Unroll(s3, Announce(0), [Mark] + [], s);
    Unroll(s2, Complete("a", done), [Announce(0)] + ([Mark] + []), s);
    Unroll(s1, Complete("a", done), [Complete("a", done)] + ([Announce(0)] + ([Mark] + [])), s);
    events := [Register("a", route)] + ([Complete("a", done)] + ([Complete("a", done)] + ([Announce(0)] + ([Mark] + []))));
    Unroll(INITIAL, Register("a", route), events[1..], s);
    assert events[1..] == [Complete("a", done)] + ([Complete("a", done)] + ([Announce(0)] + ([Mark] + [])));
  }

  /** In every reachable announced state the id is safe to reuse if and only if no call is still to mark. */
  lemma ReuseIsSafeExactlyWhenQuiet(events: seq<Event>, s: State, task: string, route: Route)
    requires Reaches(INITIAL, events, s) && s.entry.announced
    ensures Safe(s, task, route) <==> Quiet(s)
  {
    hide Reaches, Ended, Told, Joined;
    RunKeeps(INITIAL, events, s);
    if Quiet(s) {
      QuietIsSafe(s, task, route);
    } else {
      var more, t := StaleMarkSilences(s, task, route, Done(Completed, "", None));
      assert Reaches(Joined(s, task, route), more, t) && Ended(t) && !Told(t);
    }
  }

  lemma QuietIsSafe(s: State, task: string, route: Route)
    requires Inv(s) && s.entry.announced && Quiet(s)
    ensures Safe(s, task, route)
  {
    hide Enrolling, Reaches;
    assert Apply(s, Register(task, route)) == Joined(s, task, route);
    RegisterKeeps(s, task, route);
    forall events, t | Reaches(Joined(s, task, route), events, t) && Ended(t)
      ensures Told(t)
    {
      RunKeeps(Joined(s, task, route), events, t);
      assert Full(t.published[0], t.entry);
    }
  }

  // ----- Agreement with the durable store -----

  /** The entry and the directory describe the same batch. */
  predicate Agrees(e: Entry, d: Directory) {
    match d
    case Absent => e == NO_ENTRY
    case Present(_, tasks, announced) =>
      e.registered == tasks.Keys && e.completed == DoneTasks(tasks) && e.announced == announced && e.counters.Some?
  }

  /** Registering keeps the two stores in step. */
  lemma RegisteringAgrees(e: Entry, d: Directory, task: string, route: Route)
    requires Agrees(e, d) && Counts(e)
    ensures Agrees(Enrolling(e, task, route), Registering(d, task, route))
  {
    var there := Registering(d, task, route);
    var tasks := if d.Present? && !d.announced then d.tasks else map[];
    assert DoneTasks(there.tasks) == DoneTasks(tasks);
  }

  /** Completing a registered task keeps the two stores in step. */
  lemma CompletingAgrees(e: Entry, d: Directory, task: string, done: Member)
    requires Agrees(e, d) && Counts(e) && done.Done? && task in e.registered
    ensures Agrees(Completing(e, task, done), Recording(d, task, done))
  {
    var there := Recording(d, task, done);
    assert DoneTasks(there.tasks) == DoneTasks(d.tasks) + {task};
    assert there.tasks.Keys == d.tasks.Keys;
  }

  /** Stores in step report the same counts and take the same decision. */
  lemma DecidingAgrees(e: Entry, d: Directory)
    requires Agrees(e, d) && Counts(e) && d.Present? && d.tasks != map[]
    ensures var here, there := Judging(e), Deciding(d);
      && here.post.total == there.snapshot.total
      && here.post.completed == there.snapshot.completed == |here.post.results| == |there.snapshot.results|
      && here.announce == there.announce
  {
    hide RowsOf, Listed;
    RowsCount(d.tasks);
    assert |d.tasks| == |d.tasks.Keys|;
    CompletedAllMeansAllDone(d.tasks);
  }
}
