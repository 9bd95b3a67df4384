/** The steering mailbox of one session: records appended to a file, taken all at once (exoclaw_executor_dbos/steering.py). */
module Mailbox {
  import opened Basics
  import opened JsonString
  import opened MailboxLines
  import opened MailboxReading

  function Texts(file: Option<string>): Option<seq<string>> {
    if file.None? then Some([]) else Reading(file.value)
  }

  class SteeringInbox {
    /** How much of what is offered one write takes; at least one character. */
    const accepted: nat -> nat
    var live: Option<string>
    var draining: Option<string>
    ghost var liveRecords: seq<string>
    ghost var drainingRecords: seq<string>

    ghost predicate Valid()
      reads this
    {
      && Holds(live, liveRecords) && Holds(draining, drainingRecords)
      && forall n :: n > 0 ==> 0 < accepted(n) <= n
    }

    constructor (accepted: nat -> nat)
      requires forall n :: n > 0 ==> 0 < accepted(n) <= n
      ensures Valid() && live.None? && draining.None? && liveRecords == [] && drainingRecords == []
    {
      this.accepted := accepted;
      live, draining := None, None;
      liveRecords, drainingRecords := [], [];
    }

    method AppendMessage(content: string)
      requires Valid()
      modifies this`live, this`liveRecords
      ensures Valid() && liveRecords == old(liveRecords) + [content]
      ensures live.Some?
    {
      hide Record, Holds;
      var payload := Record(content) + "\n";
      ghost var before := liveRecords;
      ghost var start := if live.None? then "" else live.value;
      HeldText(live, liveRecords);
      if live.None? {
        live := Some("");
      }
      var written: nat := 0;
      assert start + payload[..0] == start;
      while written < |payload|
        invariant written <= |payload| && liveRecords == before
        invariant live == Some(start + payload[..written])
      {
        var n := accepted(|payload| - written);
        WriteStep(start, payload, written, n);
        live := Some(live.value + payload[written..written + n]);
        written := written + n;
      }
      assert payload[..written] == payload;
      liveRecords := liveRecords + [content];
      FileSnoc(before, content);
      HoldsText(live.value, liveRecords);
    }

    /** `None` when a line raises. */
    method DrainMessages() returns (r: Option<seq<string>>)
      requires Valid()
      modifies this
      ensures Valid()
      ensures var a, b := Texts(old(draining)), Texts(old(live));
        && (r.Some? <==> a.Some? && b.Some?)
        && (r.Some? ==> r.value == a.value + b.value && live.None? && draining.None?)
        && (a.None? ==> draining == old(draining) && live == old(live))
        && (a.Some? && b.None? ==> if old(draining).Some? then draining.None? && live == old(live)
                                                          else draining == old(live) && live.None?)
      ensures r.Some? <==> !SomePoison(old(drainingRecords)) && !SomePoison(old(liveRecords))
      ensures r.Some? ==> r.value == WholeOf(old(drainingRecords)) + WholeOf(old(liveRecords))
    {
      hide SplitLines, LoadAll, SomePoison;
      TextsOfRecords(draining, drainingRecords);
      TextsOfRecords(live, liveRecords);
      var both := draining.Some? && live.Some?;
      if draining.None? && live.Some? {
        draining, live := live, None;
        drainingRecords, liveRecords := liveRecords, [];
      }
      var pending: seq<string> := [];
      if draining.Some? {
        var lines := SplitLines(draining.value);
        var texts := LoadLines(lines);
        if texts.None? {
          return None;
        }
        pending := texts.value;
        draining, drainingRecords := None, [];
      }
      if both {
        var lines := SplitLines(live.value);
        var texts := LoadLines(lines);
        if texts.None? {
          return None;
        }
        pending := pending + texts.value;
        live, liveRecords := None, [];
      }
      return Some(pending);
    }

    method LoadLines(lines: seq<string>) returns (r: Option<seq<string>>)
      ensures r == LoadAll(lines)
    {
      hide Load;
      var pending: seq<string> := [];
      var i := 0;
      assert lines[0..] == lines;
      PrefixedByNothing(LoadAll(lines));
      while i < |lines|
        invariant 0 <= i <= |lines|
        invariant Prefixed(pending, LoadAll(lines[i..])) == LoadAll(lines)
      {
        LoadStep(pending, lines, i);
        var record := Load(lines[i]);
        if record.Raises? {
          return None;
        }
        if record.Content? {
          pending := pending + [record.text];
        }
        i := i + 1;
      }
      assert lines[i..] == [] && pending + [] == pending;
      return Some(pending);
    }
  }

  lemma WriteStep(start: string, payload: string, written: nat, n: nat)
    requires written + n <= |payload|
    ensures (start + payload[..written]) + payload[written..written + n] == start + payload[..written + n]
  {
  }

  /** The file holds these records; no file holds none. */
  ghost predicate Holds(file: Option<string>, records: seq<string>) {
    if file.None? then records == [] else file.value == File(records)
  }

  lemma HeldText(file: Option<string>, records: seq<string>)
    requires Holds(file, records)
    ensures File(records) == if file.None? then "" else file.value
  {
  }

  lemma HoldsText(text: string, records: seq<string>)
    requires text == File(records)
    ensures Holds(Some(text), records)
  {
  }

  function Prefixed(pending: seq<string>, rest: Option<seq<string>>): Option<seq<string>> {
    if rest.None? then None else Some(pending + rest.value)
  }

  lemma PrefixedByNothing(r: Option<seq<string>>)
    ensures Prefixed([], r) == r
  {
    if r.Some? {
      assert [] + r.value == r.value;
    }
  }

  lemma LoadStep(pending: seq<string>, lines: seq<string>, i: nat)
    requires i < |lines|
    ensures var record := Load(lines[i]);
      Prefixed(pending, LoadAll(lines[i..])) ==
        if record.Raises? then None
        else Prefixed(if record.Content? then pending + [record.text] else pending, LoadAll(lines[i + 1..]))
  {
    hide Load;
    assert lines[i..][1..] == lines[i + 1..];
    var record, rest := Load(lines[i]), LoadAll(lines[i + 1..]);
    if record.Content? && rest.Some? {
      assert pending + ([record.text] + rest.value) == (pending + [record.text]) + rest.value;
    } else if rest.Some? {
      assert [] + rest.value == rest.value;
    }
  }

  /** What a file of these records gives a drain. */
  lemma TextsOfRecords(file: Option<string>, records: seq<string>)
    requires Holds(file, records)
    ensures Texts(file) == if SomePoison(records) then None else Some(WholeOf(records))
  {
    hide Reading, SomePoison;
    if file.Some? {
      FileReads(records);
    } else {
      NothingHeld();
    }
  }

  lemma NothingHeld()
    ensures !SomePoison([]) && WholeOf([]) == []
  {
  }
}
