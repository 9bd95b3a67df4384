/** The batch directory of the durable store and its three steps (exoclaw_executor_dbos/batch_store.py). */
module BatchDirectory {
  import opened Basics
  import opened FileOrder

  datatype Status = Completed | Failed
  datatype Route = Route(channel: string, chat: string, session: Option<string>)

  /** Contents of one member file. */
  datatype Member = Registered | Done(status: Status, title: string, path: Option<string>)

  /** What is on disk for one batch: the metadata, one file per sanitised task name, the sentinel. */
  datatype Directory =
    | Absent
    | Present(meta: Option<Route>, tasks: map<string, Member>, announced: bool)

  datatype Result = Result(title: string, status: Status, path: string)

  /** A result and the member file it was read from. */
  datatype Row = Row(task: string, result: Result)

  datatype Snapshot = Snapshot(total: nat, completed: nat, results: seq<Row>, route: Route)

  datatype Decision = Missing | Decided(snapshot: Snapshot, announce: bool)

  const DEFAULT_ROUTE := Route("cli", "direct", None)

  function DoneTasks(tasks: map<string, Member>): set<string> {
    set t | t in tasks && tasks[t].Done?
  }

  predicate AllDone(tasks: map<string, Member>) {
    forall t :: t in tasks ==> tasks[t].Done?
  }

  function ResultOf(done: Member): Result
    requires done.Done?
  {
    Result(done.title, done.status, if done.path.None? || done.path.value == "" then "(no file)" else done.path.value)
  }

  /** The rows of the completed members among `files`, in that order. */
  function RowsOf(tasks: map<string, Member>, files: seq<string>): seq<Row> {
    if files == [] then []
    else
      (if files[0] in tasks && tasks[files[0]].Done? then [Row(files[0], ResultOf(tasks[files[0]]))] else []) +
      RowsOf(tasks, files[1..])
  }

  function TasksIn(rows: seq<Row>): seq<string> {
    if rows == [] then [] else [rows[0].task] + TasksIn(rows[1..])
  }

  function Summary(tasks: map<string, Member>, meta: Option<Route>): Snapshot {
    Snapshot(|tasks|, |DoneTasks(tasks)|, RowsOf(tasks, Listed(tasks.Keys)),
             if meta.Some? then meta.value else DEFAULT_ROUTE)
  }

  // ----- The steps as functions -----

  function Registering(dir: Directory, task: string, route: Route): Directory {
    var clean := if dir.Present? && !dir.announced then dir else Present(None, map[], false);
    var meta := if clean.meta.Some? then clean.meta else Some(route);
    Present(meta, if task in clean.tasks then clean.tasks else clean.tasks[task := Registered], false)
  }

  /** The directory after the member file is written. */
  function Recording(dir: Directory, task: string, done: Member): Directory {
    if dir.Absent? then dir else dir.(tasks := dir.tasks[task := done])
  }

  function Deciding(dir: Directory): Decision {
    if dir.Absent? then Missing
    else
      var s := Summary(dir.tasks, dir.meta);
      Decided(s, s.completed >= s.total && !dir.announced && s.total > 0)
  }

  function Marking(dir: Directory): Directory {
    if dir.Absent? then dir else dir.(announced := true)
  }

  lemma CompletedAllMeansAllDone(tasks: map<string, Member>)
    ensures |DoneTasks(tasks)| <= |tasks|
    ensures |DoneTasks(tasks)| >= |tasks| <==> AllDone(tasks)
  {
    var done := DoneTasks(tasks);
    assert done <= tasks.Keys;
    SubsetSize(done, tasks.Keys);
    if AllDone(tasks) {
      assert done == tasks.Keys;
    }
    if |done| >= |tasks| {
      assert done == tasks.Keys;
      assert forall t :: t in tasks ==> t in done;
    }
  }

  lemma {:induction false} SubsetSize(a: set<string>, b: set<string>)
    requires a <= b
    ensures |a| <= |b|
    ensures |a| == |b| ==> a == b
    decreases a
  {
    if a != {} {
      var x :| x in a;
      SubsetSize(a - {x}, b - {x});
      assert a == (a - {x}) + {x} && b == (b - {x}) + {x};
    }
  }

  lemma {:induction false} AllRows(tasks: map<string, Member>, files: seq<string>)
    requires AllDone(tasks) && forall i :: 0 <= i < |files| ==> files[i] in tasks
    ensures TasksIn(RowsOf(tasks, files)) == files
  {
    hide ResultOf;
    if files != [] {
      AllRows(tasks, files[1..]);
      assert RowsOf(tasks, files)[1..] == RowsOf(tasks, files[1..]);
    }
  }

  lemma ListedAreKeys(tasks: map<string, Member>)
    ensures forall i :: 0 <= i < |Listed(tasks.Keys)| ==> Listed(tasks.Keys)[i] in tasks
  {
    ListedIsSorted(tasks.Keys);
    assert forall i :: 0 <= i < |Listed(tasks.Keys)| ==> Listed(tasks.Keys)[i] in Listed(tasks.Keys);
  }

  /** A decision to announce is taken exactly when every member file is done and no sentinel stands; it lists them all in file order. */
  lemma AnnounceExactlyWhenFull(dir: Directory)
    requires dir.Present?
    ensures Deciding(dir).announce <==> dir.tasks != map[] && AllDone(dir.tasks) && !dir.announced
    ensures var s := Deciding(dir).snapshot;
      Deciding(dir).announce ==> s.total == s.completed == |dir.tasks| && TasksIn(s.results) == Listed(dir.tasks.Keys)
  {
    hide RowsOf, TasksIn, Listed;
    CompletedAllMeansAllDone(dir.tasks);
    if Deciding(dir).announce {
      ListedAreKeys(dir.tasks);
      AllRows(dir.tasks, Listed(dir.tasks.Keys));
    }
  }

  // ----- The steps as they touch the disk -----

  class Workspace {
    var dir: Directory

    constructor ()
      ensures dir == Absent
    {
      dir := Absent;
    }

    method RegisterStep(task: string, route: Route)
      modifies this
      ensures dir == Registering(old(dir), task, route)
    {
      if dir.Present? && dir.announced {
        dir := Absent;
      }
      if dir.Absent? {
        dir := Present(None, map[], false);
      }
      if dir.meta.None? {
        dir := dir.(meta := Some(route));
      }
      if task !in dir.tasks {
        dir := dir.(tasks := dir.tasks[task := Registered]);
      }
    }

    method RecordStep(task: string, done: Member) returns (d: Decision)
      requires done.Done?
      modifies this
      ensures dir == Recording(old(dir), task, done)
      ensures d == Deciding(dir)
    {
      if dir.Absent? {
        return Missing;
      }
      dir := dir.(tasks := dir.tasks[task := done]);
      var total, completed, results := ReadMembers(dir.tasks);
      var announce := completed >= total && !dir.announced && total > 0;
      d := Decided(Snapshot(total, completed, results, if dir.meta.Some? then dir.meta.value else DEFAULT_ROUTE), announce);
    }

    method MarkStep()
      modifies this
      ensures dir == Marking(old(dir))
    {
      if dir.Present? {
        dir := dir.(announced := true);
      }
    }
  }

  /** The loop over the member files in file order. */
  method ReadMembers(tasks: map<string, Member>) returns (total: nat, completed: nat, results: seq<Row>)
    ensures total == |tasks|
    ensures completed == |DoneTasks(tasks)|
    ensures results == RowsOf(tasks, Listed(tasks.Keys))
  {
    hide DoneTasks, Listed, RowsOf, ResultOf;
    total, completed, results := 0, 0, [];
    var files := Listed(tasks.Keys);
    ListedIsSorted(tasks.Keys);
    ListedAreKeys(tasks);
    assert files[0..] == files;
    NoRows(tasks, results, files);
    while total < |files|
      invariant total <= |files|
      invariant results + RowsOf(tasks, files[total..]) == RowsOf(tasks, files)
      invariant completed == |results|
      decreases |files| - total
    {
      OneMoreFile(tasks, results, files, total);
      var member := tasks[files[total]];
      if member.Done? {
        completed, results := completed + 1, results + [Row(files[total], ResultOf(member))];
      }
      total := total + 1;
    }
    NoRows(tasks, results, files[total..]);
    RowsCount(tasks);
  }

  lemma NoRows(tasks: map<string, Member>, results: seq<Row>, files: seq<string>)
    ensures files == [] ==> results + RowsOf(tasks, files) == results
    ensures [] + RowsOf(tasks, files) == RowsOf(tasks, files)
  {
  }

  lemma OneMoreFile(tasks: map<string, Member>, results: seq<Row>, files: seq<string>, i: nat)
    requires i < |files| && files[i] in tasks
    ensures results + RowsOf(tasks, files[i..]) ==
      (if tasks[files[i]].Done? then results + [Row(files[i], ResultOf(tasks[files[i]]))] else results) + RowsOf(tasks, files[i + 1..])
  {
    hide ResultOf;
    assert files[i..][1..] == files[i + 1..];
    if tasks[files[i]].Done? {
      Assoc(results, [Row(files[i], ResultOf(tasks[files[i]]))], RowsOf(tasks, files[i + 1..]));
    }
  }

  function DoneIn(tasks: map<string, Member>, files: seq<string>): set<string> {
    set t | t in files && t in tasks && tasks[t].Done?
  }

  /** There are as many rows as completed members. */
  lemma {:induction false} RowsAndDone(tasks: map<string, Member>, files: seq<string>)
    requires forall i, j :: 0 <= i < j < |files| ==> files[i] != files[j]
    ensures |RowsOf(tasks, files)| == |DoneIn(tasks, files)|
  {
    hide ResultOf;
    if files == [] {
      assert DoneIn(tasks, files) == {};
    } else {
      RowsAndDone(tasks, files[1..]);
      var rest := DoneIn(tasks, files[1..]);
      assert files[0] !in files[1..];
      assert DoneIn(tasks, files) == if files[0] in tasks && tasks[files[0]].Done? then rest + {files[0]} else rest;
    }
  }

  lemma RowsCount(tasks: map<string, Member>)
    ensures |RowsOf(tasks, Listed(tasks.Keys))| == |DoneTasks(tasks)| && |Listed(tasks.Keys)| == |tasks|
  {
    hide Listed, RowsOf, FileBefore;
    var files := Listed(tasks.Keys);
    ListedIsSorted(tasks.Keys);
    forall i, j | 0 <= i < j < |files|
      ensures files[i] != files[j]
    {
      SortedAreDistinct(files[i], files[j]);
    }
    RowsAndDone(tasks, files);
    assert DoneIn(tasks, files) == DoneTasks(tasks);
    assert |tasks.Keys| == |tasks|;
  }

  lemma SortedAreDistinct(a: string, b: string)
    requires FileBefore(a, b)
    ensures a != b
  {
    Irreflexive(a + SUFFIX);
  }
}
