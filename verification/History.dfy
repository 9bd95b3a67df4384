/** A chat history and its size estimate (exoclaw_conversation/context.py). */
module History {
  import opened Basics

  datatype Role = System | User | Assistant | Tool
  datatype Content = Absent | Text(text: string) | Parts(texts: seq<string>)
  datatype ToolCall = ToolCall(id: Option<string>, arguments: string)

  /** `answers` is the `tool_call_id` of a tool result. */
  datatype Msg = Msg(role: Role, content: Content, calls: seq<ToolCall>, answers: Option<string>)

  const CHARS_PER_TOKEN := 3

  function TextLength(texts: seq<string>): nat {
    if texts == [] then 0 else TextLength(texts[..|texts| - 1]) + |texts[|texts| - 1]|
  }

  function ArgumentLength(calls: seq<ToolCall>): nat {
    if calls == [] then 0 else ArgumentLength(calls[..|calls| - 1]) + |calls[|calls| - 1].arguments|
  }

  function ContentLength(c: Content): nat {
    match c
    case Absent => 0
    case Text(t) => |t|
    case Parts(ts) => TextLength(ts)
  }

  function Weight(m: Msg): nat {
    ContentLength(m.content) + ArgumentLength(m.calls)
  }

  function Total(ms: seq<Msg>): nat {
    if ms == [] then 0 else Total(ms[..|ms| - 1]) + Weight(ms[|ms| - 1])
  }

  function Estimate(ms: seq<Msg>): nat { Total(ms) / CHARS_PER_TOKEN }

  method EstimateTokens(ms: seq<Msg>) returns (tokens: nat)
    ensures tokens == Estimate(ms)
  {
    var total: nat := 0;
    for i := 0 to |ms|
      invariant total == Total(ms[..i])
    {
      assert ms[..i + 1][..i] == ms[..i];
      var m := ms[i];
      match m.content {
        case Absent =>
        case Text(t) => total := total + |t|;
        case Parts(ts) =>
          var n: nat := 0;
          for k := 0 to |ts|
            invariant n == TextLength(ts[..k])
          {
            assert ts[..k + 1][..k] == ts[..k];
            n := n + |ts[k]|;
          }
          assert ts[..|ts|] == ts;
          total := total + n;
      }
      var n: nat := 0;
      for k := 0 to |m.calls|
        invariant n == ArgumentLength(m.calls[..k])
      {
        assert m.calls[..k + 1][..k] == m.calls[..k];
        n := n + |m.calls[k].arguments|;
      }
      assert m.calls[..|m.calls|] == m.calls;
      total := total + n;
    }
    assert ms[..|ms|] == ms;
    tokens := total / CHARS_PER_TOKEN;
  }

  // ----- The estimate as a measure -----

  /** Every text in the history: contents, parts of contents, and arguments of calls. */
  function AllText(ms: seq<Msg>): string {
    if ms == [] then "" else TextOf(ms[0].content) + Concat(Arguments(ms[0].calls)) + AllText(ms[1..])
  }

  function TextOf(c: Content): string {
    match c case Absent => "" case Text(t) => t case Parts(ts) => Concat(ts)
  }

  function Arguments(calls: seq<ToolCall>): seq<string> {
    seq(|calls|, i requires 0 <= i < |calls| => calls[i].arguments)
  }

  lemma {:induction false} TextLengthIs(texts: seq<string>)
    ensures TextLength(texts) == |Concat(texts)|
    decreases |texts|
  {
    if texts != [] {
      var n := |texts| - 1;
      TextLengthIs(texts[..n]);
      ConcatSnoc(texts[..n], texts[n]);
      assert texts[..n] + [texts[n]] == texts;
    }
  }

  lemma {:induction false} ArgumentLengthIs(calls: seq<ToolCall>)
    ensures ArgumentLength(calls) == |Concat(Arguments(calls))|
    decreases |calls|
  {
    if calls != [] {
      var n := |calls| - 1;
      ArgumentLengthIs(calls[..n]);
      ConcatSnoc(Arguments(calls[..n]), calls[n].arguments);
      assert Arguments(calls[..n]) + [calls[n].arguments] == Arguments(calls);
    }
  }

  lemma ContentLengthIs(c: Content)
    ensures ContentLength(c) == |TextOf(c)|
  {
    if c.Parts? {
      TextLengthIs(c.texts);
    }
  }

  lemma {:induction false} TotalCons(m: Msg, ms: seq<Msg>)
    ensures Total([m] + ms) == Weight(m) + Total(ms)
    decreases |ms|
  {
    hide Weight;
    if ms == [] {
      assert [m] + ms == [m] && [m][..0] == [];
    } else {
      var n := |ms| - 1;
      assert ([m] + ms)[..|ms|] == [m] + ms[..n];
      TotalCons(m, ms[..n]);
    }
  }

  lemma {:induction false} TotalIsTextLength(ms: seq<Msg>)
    ensures Total(ms) == |AllText(ms)|
  {
    if ms != [] {
      var m := ms[0];
      TotalIsTextLength(ms[1..]);
      TotalCons(m, ms[1..]);
      assert [m] + ms[1..] == ms;
      ArgumentLengthIs(m.calls);
      ContentLengthIs(m.content);
    }
  }

  /** One token for every three characters of text in the history, rounded down. */
  lemma EstimateCountsEverything(ms: seq<Msg>)
    ensures 3 * Estimate(ms) <= |AllText(ms)| < 3 * Estimate(ms) + 3
  {
    TotalIsTextLength(ms);
  }

  lemma {:induction false} TotalOfUpdate(ms: seq<Msg>, i: nat, m: Msg)
    requires i < |ms|
    ensures Total(ms[i := m]) == Total(ms) - Weight(ms[i]) + Weight(m)
  {
    hide Weight;
    var n := |ms| - 1;
    if i == n {
      assert ms[i := m][..n] == ms[..n];
    } else {
      assert ms[i := m][..n] == ms[..n][i := m];
      TotalOfUpdate(ms[..n], i, m);
    }
  }

  lemma {:induction false} LongerIsHeavier(ms: seq<Msg>, i: nat, j: nat)
    requires i <= j <= |ms|
    ensures Total(ms[..i]) <= Total(ms[..j]) && Estimate(ms[..i]) <= Estimate(ms[..j])
    decreases j
  {
    if i < j {
      LongerIsHeavier(ms, i, j - 1);
      assert ms[..j][..j - 1] == ms[..j - 1];
    }
  }
}
