/** What appends and consolidations keep over whole runs: conservation, pairing in the tail, progress. */
module ConsolidationRuns {
  import opened Basics
  import opened History
  import opened Consolidation

  // ----- Groups and cuts -----

  /** No call is left open just before index `i`. */
  predicate Closed(log: seq<Msg>, i: nat)
    requires i <= |log|
  {
    i == 0 || !Calling(log[i - 1])
  }

  /** The last message of a group does not call. */
  lemma GroupCloses(group: seq<Msg>)
    requires group != [] && Whole(group)
    ensures !Calling(group[GroupLength(group[0]) - 1])
  {
  }

  /** A whole prefix of an orderly log leaves an orderly rest. */
  lemma {:induction false} OrderlyRest(log: seq<Msg>, k: nat)
    requires k <= |log| && Orderly(log) && Whole(log[..k])
    ensures Orderly(log[k..])
    decreases k
  {
    if k == 0 {
      assert log[0..] == log;
    } else {
      var p := log[..k];
      var g := GroupLength(log[0]);
      assert p[0] == log[0] && g <= k;
      assert p[g..] == log[g..][..k - g];
      OrderlyRest(log[g..], k - g);
      assert log[g..][k - g..] == log[k..];
    }
  }

  lemma {:induction false} WholeJoin(a: seq<Msg>, b: seq<Msg>)
    requires Whole(a) && Whole(b)
    ensures Whole(a + b)
    decreases |a|
  {
    hide Answered;
    if a == [] {
      assert a + b == b;
    } else {
      var g := GroupLength(a[0]);
      assert (a + b)[0] == a[0] && (a + b)[g..] == a[g..] + b;
      WholeJoin(a[g..], b);
      if Calling(a[0]) {
        assert a[1..][..|a[0].calls|] == (a + b)[1..][..|a[0].calls|];
        AnsweredPrefix(a[0].calls, a[1..], (a + b)[1..]);
      }
    }
  }

  lemma AnsweredPrefix(calls: seq<ToolCall>, r: seq<Msg>, t: seq<Msg>)
    requires Answered(calls, r) && |calls| <= |t| && r[..|calls|] == t[..|calls|]
    ensures Answered(calls, t)
  {
    hide AskedFor, RepliesTo;
    assert forall i :: 0 <= i < |calls| ==> r[i] == r[..|calls|][i] == t[..|calls|][i] == t[i];
  }

  predicate AllTools(log: seq<Msg>, i: nat, j: nat)
    requires i <= j <= |log|
  {
    forall k :: i <= k < j ==> log[k].role.Tool?
  }

  lemma {:induction false} WalkThroughTools(log: seq<Msg>, i: nat, j: nat, total: nat)
    requires i <= j <= total <= |log| && AllTools(log, i, j)
    ensures Walk(log, i, total) == Walk(log, j, total)
    decreases j - i
  {
    if i < j {
      WalkThroughTools(log, i + 1, j, total);
    }
  }

  lemma FirstGroup(rest: seq<Msg>)
    requires rest != [] && Whole(rest)
    ensures Whole(rest[..GroupLength(rest[0])])
  {
    var g := GroupLength(rest[0]);
    var group := rest[..g];
    assert group[0] == rest[0] && group[g..] == [];
    if Calling(rest[0]) {
      var n := |rest[0].calls|;
      assert group[1..] == rest[1..g] && g == n + 1;
      assert rest[1..g] == rest[1..][..n] && group[1..][..n] == group[1..];
      AnsweredPrefix(rest[0].calls, rest[1..], group[1..]);
    }
  }

  lemma GroupTools(rest: seq<Msg>)
    requires rest != [] && Whole(rest)
    ensures var g := GroupLength(rest[0]);
      !rest[0].role.Tool? && g <= |rest| && AllTools(rest, 1, g) && !Calling(rest[g - 1])
  {
    forall k | 1 <= k < GroupLength(rest[0])
      ensures rest[k].role.Tool?
    {
      assert rest[1..][k - 1] == rest[k];
    }
    GroupCloses(rest);
  }

  lemma RestIsWhole(rest: seq<Msg>)
    requires rest != [] && Whole(rest)
    ensures GroupLength(rest[0]) <= |rest| && Whole(rest[GroupLength(rest[0])..])
  {
  }

  lemma Reslice(log: seq<Msg>, s: nat, g: nat, total: nat)
    requires s < total <= |log| && g <= total - s
    ensures log[s..total][..g] == log[s..s + g] && log[s..total][g..] == log[s + g..total]
    ensures forall k :: s <= k < total ==> log[s..total][k - s] == log[k]
  {
  }

  /** The first group of log[s..total] and what follows it. */
  lemma GroupAt(log: seq<Msg>, s: nat, total: nat)
    requires s < total <= |log| && Whole(log[s..total])
    ensures var n := s + GroupLength(log[s]);
      && !log[s].role.Tool? && n <= total && AllTools(log, s + 1, n) && Closed(log, n)
      && Whole(log[s..n]) && Whole(log[n..total])
  {
    hide Whole;
    var rest := log[s..total];
    var g := GroupLength(rest[0]);
    GroupTools(rest);
    FirstGroup(rest);
    RestIsWhole(rest);
    Reslice(log, s, g, total);
    forall k | s + 1 <= k < s + g
      ensures log[k].role.Tool?
    {
      assert rest[k - s] == log[k];
    }
    assert rest[g - 1] == log[s + g - 1];
  }

  lemma WalkStops(log: seq<Msg>, i: nat, total: nat)
    requires i <= total <= |log| && Closed(log, i)
    requires i < total ==> !log[i].role.Tool?
    ensures Walk(log, i, total) == i
  {
  }

  lemma JoinAt(log: seq<Msg>, s: nat, n: nat, b: nat)
    requires s <= n <= b <= |log| && Whole(log[s..n]) && Whole(log[n..b])
    ensures Whole(log[s..b])
  {
    hide Whole;
    assert log[s..b] == log[s..n] + log[n..b];
    WholeJoin(log[s..n], log[n..b]);
  }

  /** The repaired boundary of a whole log ends a group, and every message stepped over is a tool result. */
  lemma {:induction false} RepairEndsGroup(log: seq<Msg>, s: nat, t: nat, total: nat)
    requires s <= t <= total <= |log| && Closed(log, s) && Whole(log[s..total])
    ensures var b := Walk(log, t, total);
      t <= b <= total && AllTools(log, t, b) && Whole(log[s..b])
    decreases total - s
  {
    hide Whole, Walk, Closed;
    if s < total {
      GroupAt(log, s, total);
    }
    if t == s {
      WalkStops(log, s, total);
      NothingIsWhole();
      assert log[s..s] == [];
    } else {
      var n := s + GroupLength(log[s]);
      var t' := if t < n then n else t;
      RepairEndsGroup(log, n, t', total);
      if t < n {
        WalkThroughTools(log, t, n, total);
      }
      JoinAt(log, s, n, Walk(log, t, total));
    }
  }

  lemma NothingIsWhole()
    ensures Whole([])
  {
  }

  /** In an orderly log every tool result comes after a message that called for it, with only tool results between. */
  lemma {:induction false} ResultHasCaller(log: seq<Msg>, i: nat) returns (a: nat)
    requires Orderly(log) && i < |log| && log[i].role.Tool?
    ensures a < i && Calling(log[a]) && AskedFor(log[a].calls, log[i].answers) && AllTools(log, a + 1, i)
    decreases |log|
  {
    hide AskedFor;
    var g := GroupLength(log[0]);
    if i < g {
      a := 0;
      var full := |log| >= g;
      forall k | 1 <= k <= i
        ensures log[k].role.Tool? && AskedFor(log[0].calls, log[k].answers)
      {
        assert full ==> log[1..][k - 1] == log[k];
      }
    } else {
      var a' := ResultHasCaller(log[g..], i - g);
      a := a' + g;
      assert forall k :: a + 1 <= k < i ==> log[k] == log[g..][k - g];
    }
  }

  // ----- Runs -----

  /** A chunk handed to the summariser, and the boundary after repair: [start, end) and [end, next). */
  datatype Chunk = Chunk(start: nat, end: nat, next: nat)

  datatype Run = Run(log: seq<Msg>, st: Sidecar, chunks: seq<Chunk>, entries: seq<string>)

  /** `total` is the message count the consolidation saw when it began; appends may have happened since. */
  datatype Event =
    | Append(messages: seq<Msg>)
    | Consolidate(total: nat)

  predicate Enabled(r: Run, e: Event) {
    match e
    case Append(messages) => Orderly(r.log + messages)
    case Consolidate(total) => total <= |r.log| && Whole(r.log[..total])
  }

  function Apply(r: Run, e: Event, window: int, summarize: seq<Msg> -> Option<string>): Run
    requires Enabled(r, e)
  {
    match e
    case Append(messages) => r.(log := r.log + messages)
    case Consolidate(total) =>
      var st := SummarizeOne(r.st, r.log, total, window, summarize);
      if !Advances(r.st, r.log, total, window, summarize) then r
      else
        var target := Target(r.st, total, window);
        Run(r.log, st, r.chunks + [Chunk(r.st.through, target, st.through)],
            r.entries + [summarize(r.log[r.st.through..target]).value])
  }

  const START := Run([], Sidecar(0, ""), [], [])

  ghost predicate Reaches(r: Run, events: seq<Event>, t: Run, window: int, summarize: seq<Msg> -> Option<string>)
    decreases |events|
  {
    if events == [] then r == t
    else Enabled(r, events[0]) && Reaches(Apply(r, events[0], window, summarize), events[1..], t, window, summarize)
  }

  /** The chunks tile the log up to `through`; what lies between them is tool results only. */
  ghost predicate Tiles(log: seq<Msg>, chunks: seq<Chunk>, through: nat) {
    && through <= |log|
    && (forall i :: 0 <= i < |chunks| ==> ChunkFits(log, chunks, i))
    && through == (if chunks == [] then 0 else chunks[|chunks| - 1].next)
  }

  predicate ChunkFits(log: seq<Msg>, chunks: seq<Chunk>, i: nat)
    requires i < |chunks|
  {
    var c := chunks[i];
    && c.start == (if i == 0 then 0 else chunks[i - 1].next)
    && c.start < c.end <= c.next <= |log|
    && AllTools(log, c.end, c.next)
  }

  ghost predicate Inv(r: Run) {
    && Orderly(r.log)
    && Tiles(r.log, r.chunks, r.st.through)
    && Whole(r.log[..r.st.through])
    && r.st.summary == Rolling(r.entries) && |r.entries| == |r.chunks|
  }

  lemma {:induction false} WholeRest(log: seq<Msg>, k: nat)
    requires k <= |log| && Whole(log) && Whole(log[..k])
    ensures Whole(log[k..])
    decreases k
  {
    if k == 0 {
      assert log[0..] == log;
    } else {
      var p := log[..k];
      var g := GroupLength(log[0]);
      assert p[0] == log[0] && p[g..] == log[g..][..k - g] && log[g..][k - g..] == log[k..];
      WholeRest(log[g..], k - g);
    }
  }

  lemma {:induction false} WholeCloses(log: seq<Msg>)
    requires Whole(log)
    ensures Closed(log, |log|)
    decreases |log|
  {
    if log != [] {
      var g := GroupLength(log[0]);
      WholeCloses(log[g..]);
      GroupCloses(log);
      assert g < |log| ==> log[|log| - 1] == log[g..][|log| - g - 1];
    }
  }

  /** One consolidation of a complete prefix: a chunk, then only tool results, then a group boundary. */
  lemma ConsolidationStep(log: seq<Msg>, through: nat, target: nat, total: nat)
    requires through <= target <= total <= |log| && Whole(log[..through]) && Whole(log[..total])
    ensures var b := Walk(log, target, total);
      target <= b <= total && AllTools(log, target, b) && Whole(log[..b])
  {
    hide Whole, Walk, AllTools;
    assert log[..total][..through] == log[..through] && log[..total][through..] == log[through..total];
    WholeRest(log[..total], through);
    WholeCloses(log[..through]);
    assert through > 0 ==> log[..through][through - 1] == log[through - 1];
    RepairEndsGroup(log, through, target, total);
    var b := Walk(log, target, total);
    assert log[0..through] == log[..through] && log[0..b] == log[..b];
    JoinAt(log, 0, through, b);
  }

  lemma AppendKeeps(r: Run, messages: seq<Msg>, window: int, summarize: seq<Msg> -> Option<string>)
    requires Inv(r) && Enabled(r, Append(messages))
    ensures Inv(Apply(r, Append(messages), window, summarize))
  {
    hide Orderly, Whole;
    var t := r.log + messages;
    assert t[..r.st.through] == r.log[..r.st.through];
    forall i | 0 <= i < |r.chunks|
      ensures ChunkFits(t, r.chunks, i)
    {
      assert ChunkFits(r.log, r.chunks, i);
      assert forall k :: 0 <= k < |r.log| ==> t[k] == r.log[k];
    }
  }

  lemma ConsolidateKeeps(r: Run, total: nat, window: int, summarize: seq<Msg> -> Option<string>)
    requires Inv(r) && Enabled(r, Consolidate(total))
    ensures Inv(Apply(r, Consolidate(total), window, summarize))
  {
    hide Orderly, Whole, Merge, AllTools;
    if Advances(r.st, r.log, total, window, summarize) {
      var t := Apply(r, Consolidate(total), window, summarize);
      var target := Target(r.st, total, window);
      ConsolidationStep(r.log, r.st.through, target, total);
      assert t.entries[..|t.entries| - 1] == r.entries;
      forall i | 0 <= i < |t.chunks|
        ensures ChunkFits(t.log, t.chunks, i)
      {
        if i < |r.chunks| {
          assert ChunkFits(r.log, r.chunks, i);
        }
      }
    }
  }

  lemma {:induction false} RunKeeps(r: Run, events: seq<Event>, t: Run, window: int, summarize: seq<Msg> -> Option<string>)
    requires Inv(r) && Reaches(r, events, t, window, summarize)
    ensures Inv(t)
    decreases |events|
  {
    hide Inv, Apply;
    if events != [] {
      match events[0] {
        case Append(messages) => AppendKeeps(r, messages, window, summarize);
        case Consolidate(total) => ConsolidateKeeps(r, total, window, summarize);
      }
      RunKeeps(Apply(r, events[0], window, summarize), events[1..], t, window, summarize);
    }
  }

  lemma StartInv()
    ensures Inv(START)
  {
    assert START.log[..0] == [];
  }

  predicate In(c: Chunk, i: nat) { c.start <= i < c.end }

  /** Below the boundary an index lies in exactly one chunk or is a skipped tool result; above it in none. */
  lemma {:induction false} TileOf(log: seq<Msg>, chunks: seq<Chunk>, through: nat, i: nat)
    requires Tiles(log, chunks, through) && i < |log|
    ensures forall k :: 0 <= k < |chunks| && In(chunks[k], i) ==> i < through
    ensures forall k, l :: 0 <= k < l < |chunks| ==> !(In(chunks[k], i) && In(chunks[l], i))
    ensures i < through && !log[i].role.Tool? ==> exists k :: 0 <= k < |chunks| && In(chunks[k], i)
    decreases |chunks|
  {
    if chunks != [] {
      var n := |chunks| - 1;
      var before, last := chunks[..n], chunks[n];
      assert ChunkFits(log, chunks, n);
      forall k | 0 <= k < n
        ensures ChunkFits(log, before, k)
      {
        assert ChunkFits(log, chunks, k);
      }
      TileOf(log, before, last.start, i);
      assert forall k :: 0 <= k < n ==> chunks[k] == before[k];
      if i < last.start && !log[i].role.Tool? {
        var k :| 0 <= k < |before| && In(before[k], i);
        assert In(chunks[k], i);
      }
      if last.start <= i < through && !log[i].role.Tool? {
        assert In(chunks[n], i);
      }
    }
  }

  // ----- Chunk sizes -----

  /** A consolidation takes a full window, or everything there was if that is less, and hands exactly that to the summariser. */
  lemma ConsolidationTakesAWindow(r: Run, total: nat, window: int, summarize: seq<Msg> -> Option<string>)
    requires Enabled(r, Consolidate(total)) && window >= 0
    ensures var t := Apply(r, Consolidate(total), window, summarize);
      || (t == r && (window == 0 || total <= r.st.through ||
            summarize(r.log[r.st.through..if total - r.st.through < window then total else r.st.through + window]).None?))
      || (|t.chunks| == |r.chunks| + 1 && |t.entries| == |r.entries| + 1 && t.log == r.log &&
          var c, entry := t.chunks[|r.chunks|], t.entries[|r.entries|];
          && c.start == r.st.through && c.next == t.st.through && c.end <= |r.log|
          && c.end - c.start == (if total - r.st.through < window then total - r.st.through else window)
          && summarize(r.log[c.start..c.end]) == Some(entry))
  {
    hide Walk, Merge;
  }

  // ----- What the model is shown -----

  /** Where log message `i` stands in what `transform` emits: behind the preamble, if there is one. */
  function Place(st: Sidecar, i: nat): int {
    (if st.summary == "" then 0 else 1) + i - st.through
  }

  predicate Shows(view: seq<Item>, st: Sidecar, i: nat, m: Msg) {
    0 <= Place(st, i) < |view| && view[Place(st, i)] == Logged(m)
  }

  /** The summary's text comes first exactly when there is one, then every message from the boundary on and nothing else. */
  lemma ViewShowsTheTail(st: Sidecar, log: seq<Msg>)
    requires st.through <= |log|
    ensures var view := View(st, log);
      && |view| == Place(st, |log|)
      && (forall i :: st.through <= i < |log| ==> Shows(view, st, i, log[i]))
      && ((view != [] && view[0].Preamble?) <==> st.summary != "")
      && (st.summary != "" ==> view[0].text == "## Previous Session Summary\n" + st.summary)
  {
  }

  lemma Asked(calls: seq<ToolCall>, id: Option<string>)
    requires AskedFor(calls, id)
    ensures exists k :: 0 <= k < |calls| && calls[k].id == id
  {
  }

  lemma ThroughInside(t: Run)
    requires Inv(t)
    ensures t.st.through <= |t.log|
  {
  }

  /**
   * Conservation: every message that is not a tool result is in exactly one summarised chunk or in the tail
   * the model still sees, never in both; what boundary repair skips are tool results; and the summary holds
   * every chunk's entry in order.
   */
  lemma NothingButToolResultsIsSkipped(events: seq<Event>, t: Run, window: int, summarize: seq<Msg> -> Option<string>, i: nat)
    requires Reaches(START, events, t, window, summarize) && i < |t.log|
    ensures t.st.through <= |t.log|
    ensures forall k, l :: 0 <= k < l < |t.chunks| ==> !(In(t.chunks[k], i) && In(t.chunks[l], i))
    ensures (exists k :: 0 <= k < |t.chunks| && In(t.chunks[k], i)) ==> i < t.st.through
    ensures !t.log[i].role.Tool? ==> i >= t.st.through || exists k :: 0 <= k < |t.chunks| && In(t.chunks[k], i)
    ensures Strip(t.st.summary) == Joined(t.entries) && |t.entries| == |t.chunks|
    ensures !t.log[i].role.Tool? && (forall k :: 0 <= k < |t.chunks| ==> !In(t.chunks[k], i)) ==>
      i >= t.st.through && Shows(View(t.st, t.log), t.st, i, t.log[i])
  {
    hide Orderly, Whole, Strip, Shows, View;
    ViewShowsTheTail(t.st, t.log) by {
      StartInv();
      RunKeeps(START, events, t, window, summarize);
    }
    StartInv();
    RunKeeps(START, events, t, window, summarize);
    TileOf(t.log, t.chunks, t.st.through, i);
    RollingKeepsEveryEntry(t.entries);
  }

  /** Tail closure: the caller of every tool result the model still sees is in the view too, and in front of it. */
  lemma TailIsClosed(events: seq<Event>, t: Run, window: int, summarize: seq<Msg> -> Option<string>, i: nat) returns (a: nat)
    requires Reaches(START, events, t, window, summarize)
    requires t.st.through <= i < |t.log| && t.log[i].role.Tool?
    ensures t.st.through <= a < i && t.log[a].role.Assistant?
    ensures exists k :: 0 <= k < |t.log[a].calls| && t.log[a].calls[k].id == t.log[i].answers
    ensures t.st.through <= |t.log| && var view := View(t.st, t.log);
      && Shows(view, t.st, a, t.log[a]) && Shows(view, t.st, i, t.log[i])
      && Place(t.st, a) < Place(t.st, i)
  {
    hide Orderly, Whole, Tiles, AllTools, AskedFor, Rolling, Shows, View;
    StartInv();
    RunKeeps(START, events, t, window, summarize);
    ThroughInside(t);
    ViewShowsTheTail(t.st, t.log);
    var n := t.st.through;
    OrderlyRest(t.log, n);
    var a' := ResultHasCaller(t.log[n..], i - n);
    a := n + a';
    Asked(t.log[a].calls, t.log[i].answers);
  }

  /** The boundary never moves back and never passes the end of the log. */
  lemma {:induction false} BoundaryIsMonotone(r: Run, events: seq<Event>, t: Run, window: int, summarize: seq<Msg> -> Option<string>)
    requires Inv(r) && Reaches(r, events, t, window, summarize)
    ensures r.st.through <= t.st.through <= |t.log| && r.log <= t.log
    decreases |events|
  {
    hide Orderly, Whole;
    RunKeeps(r, events, t, window, summarize);
    if events != [] {
      RunKeeps(r, [events[0]], Apply(r, events[0], window, summarize), window, summarize);
      BoundaryIsMonotone(Apply(r, events[0], window, summarize), events[1..], t, window, summarize);
    }
  }

  // ----- Exactly when a consolidation conserves every message -----

  /**
   * For any log whatever: chunk and new tail together are the old tail exactly when the boundary needed
   * no repair, that is at the end of the log or between two messages that no tool call ties together.
   */
  lemma EveryMessageKeptExactlyWhenUnrepaired(st: Sidecar, log: seq<Msg>, total: nat, window: int,
                                              summarize: seq<Msg> -> Option<string>)
    requires total <= |log| && Advances(st, log, total, window, summarize)
    ensures var target := Target(st, total, window);
      var after := SummarizeOne(st, log, total, window, summarize);
      log[st.through..target] + log[after.through..] == log[st.through..] <==>
      target == total || !(log[target].role.Tool? || Calling(log[target - 1]))
  {
    hide Merge;
    var target := Target(st, total, window);
    var b := Walk(log, target, total);
    assert log[st.through..] == log[st.through..target] + log[target..];
    if b != target {
      assert |log[st.through..target] + log[b..]| < |log[st.through..]|;
    }
  }

  /** A boundary that splits a call from its two results loses the second result. */
  lemma SkippedResultExample()
    ensures var call := Msg(Assistant, Absent, [ToolCall(Some("a"), ""), ToolCall(Some("b"), "")], None);
      var log := [call, Msg(Tool, Text("1"), [], Some("a")), Msg(Tool, Text("2"), [], Some("b"))];
      var after := SummarizeOne(Sidecar(0, ""), log, 3, 2, chunk => Some("entry"));
      Whole(log) && after.through == 3 && log[0..2] + log[after.through..] != log
  {
    var call := Msg(Assistant, Absent, [ToolCall(Some("a"), ""), ToolCall(Some("b"), "")], None);
    var log := [call, Msg(Tool, Text("1"), [], Some("a")), Msg(Tool, Text("2"), [], Some("b"))];
    var results := log[1..][..2];
    assert results[0].answers == Some("a") && results[1].answers == Some("b");
    assert call.calls[0].id == Some("a") && call.calls[1].id == Some("b");
    assert RepliesTo(results, Some("a")) && RepliesTo(results, Some("b"));
    assert AskedFor(call.calls, Some("a")) && AskedFor(call.calls, Some("b"));
    assert log[3..] == [];
    assert Walk(log, 3, 3) == 3;
    assert |log[0..2] + log[3..]| == 2;
  }
}
