/** Rolling-summary consolidation over an append-only log (exoclaw_conversation/summarizing_policy.py). */
module Consolidation {
  import opened Basics
  import opened History

  predicate Calling(m: Msg) { m.role.Assistant? && m.calls != [] }

  // ----- One summarised chunk -----

  datatype Sidecar = Sidecar(through: nat, summary: string)

  /** `_repair_boundary`: forward over tool results and whatever follows a calling assistant. */
  function Walk(log: seq<Msg>, i: nat, total: nat): (r: nat)
    requires total <= |log|
    ensures i <= r && (i <= total ==> r <= total)
    decreases total - i
  {
    if i < total && (log[i].role.Tool? || (i > 0 && Calling(log[i - 1]))) then Walk(log, i + 1, total) else i
  }

  /** Where the next chunk ends, before repair. */
  function Target(st: Sidecar, total: nat, window: int): int {
    Min(total, st.through + window)
  }

  predicate Advances(st: Sidecar, log: seq<Msg>, total: nat, window: int, summarize: seq<Msg> -> Option<string>)
    requires total <= |log|
  {
    st.through < Target(st, total, window) && summarize(log[st.through..Target(st, total, window)]).Some?
  }

  /** `_summarize_one_chunk`: the sidecar afterwards. */
  function SummarizeOne(st: Sidecar, log: seq<Msg>, total: nat, window: int,
                        summarize: seq<Msg> -> Option<string>): Sidecar
    requires total <= |log|
  {
    if !Advances(st, log, total, window, summarize) then st
    else
      var target := Target(st, total, window);
      Sidecar(Walk(log, target, total), Merge(st.summary, summarize(log[st.through..target]).value))
  }

  // ----- The rolling summary -----

  function Strip(s: string): (r: string)
    ensures r != "" ==> !Blank(r[0]) && !Blank(r[|r| - 1])
  {
    if s == "" then ""
    else if Blank(s[0]) then Strip(s[1..])
    else if Blank(s[|s| - 1]) then Strip(s[..|s| - 1])
    else s
  }

  function Merge(existing: string, entry: string): string {
    if existing == "" then Strip(entry) else Strip(existing) + "\n\n" + Strip(entry)
  }

  /** The summary after the given chunk entries, oldest first. */
  function Rolling(entries: seq<string>): string {
    if entries == [] then "" else Merge(Rolling(entries[..|entries| - 1]), entries[|entries| - 1])
  }

  /** The stripped entries that are not blank, joined by an empty line. */
  function Joined(entries: seq<string>): string {
    if entries == [] then ""
    else AndThen(Joined(entries[..|entries| - 1]), Strip(entries[|entries| - 1]))
  }

  function AndThen(before: string, last: string): string {
    if last == "" then before else if before == "" then last else before + "\n\n" + last
  }

  predicate Trimmed(s: string) {
    s != "" ==> !Blank(s[0]) && !Blank(s[|s| - 1])
  }

  lemma StripTrimmed(s: string)
    requires Trimmed(s)
    ensures Strip(s) == s && Strip(s + "\n\n") == s
  {
    var t := s + "\n\n";
    assert t[..|t| - 1] == s + "\n" && (s + "\n")[..|s|] == s;
    if s == "" {
      assert t[1..] == "\n" && "\n"[1..] == "";
    } else {
      assert t[0] == s[0] && (s + "\n")[0] == s[0];
      assert Strip(t) == Strip(s + "\n") == Strip(s);
    }
  }

  lemma MergeStep(existing: string, joined: string, entry: string)
    requires Strip(existing) == joined && (existing == "" <==> joined == "")
    ensures var after := AndThen(joined, Strip(entry));
      && Trimmed(after) && Strip(Merge(existing, entry)) == after
      && (Merge(existing, entry) == "" <==> after == "")
  {
    hide Strip;
    var last := Strip(entry);
    StripTrimmed(last);
    StripTrimmed(joined);
    if joined != "" && last != "" {
      var after := joined + "\n\n" + last;
      assert after[0] == joined[0] && after[|after| - 1] == last[|last| - 1];
      StripTrimmed(after);
    } else if joined != "" {
      assert joined + "\n\n" + last == joined + "\n\n";
    }
  }

  /** Nothing non-blank that a chunk contributed is ever lost from the summary, and the order is kept. */
  lemma {:induction false} RollingKeepsEveryEntry(entries: seq<string>)
    ensures Strip(Rolling(entries)) == Joined(entries) && Trimmed(Joined(entries))
    ensures Rolling(entries) == "" <==> Joined(entries) == ""
    decreases |entries|
  {
    hide Strip, Merge;
    if entries == [] {
      StripTrimmed("");
    } else {
      var before := entries[..|entries| - 1];
      RollingKeepsEveryEntry(before);
      MergeStep(Rolling(before), Joined(before), entries[|entries| - 1]);
    }
  }

  // ----- Tool groups -----

  predicate AskedFor(calls: seq<ToolCall>, id: Option<string>) {
    exists k :: 0 <= k < |calls| && calls[k].id == id
  }

  predicate RepliesTo(results: seq<Msg>, id: Option<string>) {
    exists i :: 0 <= i < |results| && results[i].answers == id
  }

  /** The results that open `rest` answer exactly the calls of the message before them. */
  predicate Answered(calls: seq<ToolCall>, rest: seq<Msg>) {
    && |calls| <= |rest|
    && (forall i :: 0 <= i < |calls| ==> rest[i].role.Tool? && AskedFor(calls, rest[i].answers))
    && (forall k :: 0 <= k < |calls| ==> RepliesTo(rest[..|calls|], calls[k].id))
  }

  function GroupLength(m: Msg): nat {
    if Calling(m) then 1 + |m.calls| else 1
  }

  /** Every calling assistant is directly followed by its results, and there are no other results. */
  predicate Whole(log: seq<Msg>) {
    log == [] ||
    (!log[0].role.Tool? && (Calling(log[0]) ==> Answered(log[0].calls, log[1..])) &&
     GroupLength(log[0]) <= |log| && Whole(log[GroupLength(log[0])..]))
  }

  /** A log being written: whole groups, and perhaps a last one whose results are not all there yet. */
  predicate Orderly(log: seq<Msg>) {
    log == [] ||
    (!log[0].role.Tool? &&
     if Calling(log[0]) && |log| < GroupLength(log[0])
     then forall i :: 1 <= i < |log| ==> log[i].role.Tool? && AskedFor(log[0].calls, log[i].answers)
     else (Calling(log[0]) ==> Answered(log[0].calls, log[1..])) && Orderly(log[GroupLength(log[0])..]))
  }

  // ----- The policy object -----

  datatype Item = Preamble(text: string) | Logged(message: Msg)

  function AsItems(messages: seq<Msg>): (r: seq<Item>) {
    seq(|messages|, i requires 0 <= i < |messages| => Logged(messages[i]))
  }

  lemma ItemsSnoc(log: seq<Msg>, from: nat, i: nat)
    requires from <= i < |log|
    ensures AsItems(log[from..i + 1]) == AsItems(log[from..i]) + [Logged(log[i])]
  {
  }

  function View(st: Sidecar, log: seq<Msg>): seq<Item>
    requires st.through <= |log|
  {
    (if st.summary != "" then [Preamble("## Previous Session Summary\n" + st.summary)] else []) + AsItems(log[st.through..])
  }

  class Policy {
    const window: int
    const summarize: seq<Msg> -> Option<string>
    var through: nat
    var summary: string

    ghost function Abs(): Sidecar
      reads this
    {
      Sidecar(through, summary)
    }

    constructor (window: int, summarize: seq<Msg> -> Option<string>)
      ensures this.window == window && this.summarize == summarize && Abs() == Sidecar(0, "")
    {
      this.window, this.summarize, through, summary := window, summarize, 0, "";
    }

    method RepairBoundary(log: seq<Msg>, boundary: nat, total: nat) returns (r: nat)
      requires total <= |log|
      ensures r == Walk(log, boundary, total)
    {
      if boundary >= total {
        return boundary;
      }
      var prev := if boundary > 0 then Some(log[boundary - 1]) else None;
      r := boundary;
      while r < total
        invariant boundary <= r <= total
        invariant prev == if r > 0 then Some(log[r - 1]) else None
        invariant Walk(log, boundary, total) == Walk(log, r, total)
      {
        var curr := log[r];
        if curr.role.Tool? {
          r, prev := r + 1, Some(curr);
          continue;
        }
        if prev.Some? && Calling(prev.value) {
          r, prev := r + 1, Some(curr);
          continue;
        }
        break;
      }
    }

    method SummarizeOneChunk(log: seq<Msg>, total: nat) returns (advanced: bool)
      requires total <= |log|
      modifies this
      ensures Abs() == SummarizeOne(old(Abs()), log, total, window, summarize)
      ensures advanced == Advances(old(Abs()), log, total, window, summarize)
    {
      hide Merge;
      var target := Min(total, through + window);
      if target <= through {
        return false;
      }
      var chunk := log[through..target];
      var entry := summarize(chunk);
      if entry.None? {
        return false;
      }
      var boundary := RepairBoundary(log, target, total);
      through := boundary;
      summary := Merge(summary, entry.value);
      return true;
    }

    method OnTurnComplete(log: seq<Msg>)
      modifies this
      ensures Abs() == if |log| - old(through) < window then old(Abs())
                       else SummarizeOne(old(Abs()), log, |log|, window, summarize)
    {
      if |log| - through < window {
        return;
      }
      var _ := SummarizeOneChunk(log, |log|);
    }

    method RecoverFromOverflow(log: seq<Msg>) returns (advanced: bool)
      modifies this
      ensures Abs() == SummarizeOne(old(Abs()), log, |log|, window, summarize)
      ensures advanced == Advances(old(Abs()), log, |log|, window, summarize)
    {
      advanced := SummarizeOneChunk(log, |log|);
    }

    /** The caller's retry loop: recovery again and again until it reports that nothing is left. */
    method RecoverUntilDone(log: seq<Msg>) returns (rounds: nat)
      requires window > 0 && through <= |log|
      requires forall chunk :: summarize(chunk).Some?
      modifies this
      ensures through == |log|
      ensures old(through) + rounds <= |log|
    {
      rounds := 0;
      while true
        invariant old(through) + rounds <= through <= |log|
        decreases |log| - through
      {
        ghost var before := Abs();
        var advanced := RecoverFromOverflow(log);
        if !advanced {
          assert summarize(log[before.through..before.through]).Some?;
          return;
        }
        rounds := rounds + 1;
      }
    }

    method Transform(log: seq<Msg>) returns (view: seq<Item>)
      requires through <= |log|
      ensures view == View(Abs(), log)
    {
      view := if summary != "" then [Preamble("## Previous Session Summary\n" + summary)] else [];
      ghost var head := view;
      var i := through;
      while i < |log|
        invariant through <= i <= |log|
        invariant view == head + AsItems(log[through..i])
      {
        ItemsSnoc(log, through, i);
        Assoc(head, AsItems(log[through..i]), [Logged(log[i])]);
        view := view + [Logged(log[i])];
        i := i + 1;
      }
    }
  }
}
