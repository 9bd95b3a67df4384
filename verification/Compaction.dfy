/** Clearing old tool results to fit a token budget (exoclaw_conversation/context.py). */
module Compaction {
  import opened Basics
  import opened History

  const COMPACTION_MARKER := "[compacted \U{2014} tool output removed to free context]"

  /** `compact_tool_results`, or `truncate_oldest_tool_results` with its placeholder. */
  datatype Pass = Compact | HardClear(placeholder: string)

  function Marker(pass: Pass): string {
    match pass
    case Compact => COMPACTION_MARKER
    case HardClear(placeholder) => placeholder
  }

  /** How many messages from `i` on are not system messages. */
  function Others(ms: seq<Msg>, i: nat): nat
    requires i <= |ms|
    decreases |ms| - i
  {
    if i == |ms| then 0 else (if ms[i].role.System? then 0 else 1) + Others(ms, i + 1)
  }

  /** Among the last four messages that are not system messages. */
  predicate Protected(ms: seq<Msg>, i: nat)
    requires i < |ms|
  {
    !ms[i].role.System? && Others(ms, i) <= 4
  }

  predicate Substantial(pass: Pass, m: Msg) {
    m.role.Tool? && m.content.Text? && |m.content.text| > 100 && m.content.text != COMPACTION_MARKER && m.content.text != Marker(pass)
  }

  predicate Eligible(pass: Pass, ms: seq<Msg>, i: nat)
    requires i < |ms|
  {
    Substantial(pass, ms[i]) && (pass.Compact? ==> !Protected(ms, i))
  }

  /** The eligible positions from `i` on, oldest first. */
  function EligibleFrom(pass: Pass, ms: seq<Msg>, i: nat): seq<nat>
    requires i <= |ms|
    decreases |ms| - i
  {
    if i == |ms| then [] else (if Eligible(pass, ms, i) then [i] else []) + EligibleFrom(pass, ms, i + 1)
  }

  function Targets(pass: Pass, ms: seq<Msg>): seq<nat> { EligibleFrom(pass, ms, 0) }

  function Cleared(m: Msg, marker: string): Msg { m.(content := Text(marker)) }

  /** Every listed message with its content replaced, every other message as it was. */
  function Clear(ms: seq<Msg>, targets: seq<nat>, marker: string): (r: seq<Msg>)
    ensures |r| == |ms|
  {
    seq(|ms|, i requires 0 <= i < |ms| => if i in targets then Cleared(ms[i], marker) else ms[i])
  }

  function After(pass: Pass, ms: seq<Msg>, n: nat): seq<Msg>
    requires n <= |Targets(pass, ms)|
  {
    Clear(ms, Targets(pass, ms)[..n], Marker(pass))
  }

  predicate TooBig(pass: Pass, ms: seq<Msg>, n: nat, budget: int)
    requires n <= |Targets(pass, ms)|
  {
    Estimate(After(pass, ms, n)) > budget
  }

  /** `n` is the least number of oldest-first clearings that fits the budget, or all of them if none does. */
  ghost predicate Least(pass: Pass, ms: seq<Msg>, budget: int, n: nat) {
    && n <= |Targets(pass, ms)|
    && (TooBig(pass, ms, n, budget) ==> n == |Targets(pass, ms)|)
    && forall j :: 0 <= j < n ==> TooBig(pass, ms, j, budget)
  }

  // ----- The eligible positions -----

  predicate Ascending(s: seq<nat>) {
    forall i, j :: 0 <= i < j < |s| ==> s[i] < s[j]
  }

  lemma {:induction false} EligibleFromIs(pass: Pass, ms: seq<Msg>, i: nat)
    requires i <= |ms|
    ensures forall k :: k in EligibleFrom(pass, ms, i) <==> i <= k < |ms| && Eligible(pass, ms, k)
    ensures Ascending(EligibleFrom(pass, ms, i))
    decreases |ms| - i
  {
    hide Eligible;
    if i < |ms| {
      EligibleFromIs(pass, ms, i + 1);
      var rest := EligibleFrom(pass, ms, i + 1);
      assert forall k :: 0 <= k < |rest| ==> rest[k] in rest;
    }
  }

  lemma EligibleSnoc(pass: Pass, ms: seq<Msg>, i: nat, found: seq<nat>)
    requires i < |ms|
    ensures found + EligibleFrom(pass, ms, i) == (if Eligible(pass, ms, i) then found + [i] else found) + EligibleFrom(pass, ms, i + 1)
  {
    hide Eligible;
    assert (found + [i]) + EligibleFrom(pass, ms, i + 1) == found + ([i] + EligibleFrom(pass, ms, i + 1));
    assert [] + EligibleFrom(pass, ms, i + 1) == EligibleFrom(pass, ms, i + 1);
  }

  function NonSystemFrom(ms: seq<Msg>, i: nat): (r: seq<nat>)
    requires i <= |ms|
    ensures |r| == Others(ms, i)
    decreases |ms| - i
  {
    if i == |ms| then [] else (if ms[i].role.System? then [] else [i]) + NonSystemFrom(ms, i + 1)
  }

  lemma {:induction false} NonSystemFromIs(ms: seq<Msg>, i: nat)
    requires i <= |ms|
    ensures forall k :: k in NonSystemFrom(ms, i) <==> i <= k < |ms| && !ms[k].role.System?
    decreases |ms| - i
  {
    if i < |ms| {
      NonSystemFromIs(ms, i + 1);
    }
  }

  function LastFour(s: seq<nat>): seq<nat> {
    if |s| >= 4 then s[|s| - 4..] else s
  }

  lemma LastFourOfLonger(i: nat, rest: seq<nat>)
    ensures |rest| >= 4 ==> LastFour([i] + rest) == LastFour(rest)
    ensures |rest| < 4 ==> LastFour([i] + rest) == [i] + rest
  {
  }

  lemma LastFourBelong(s: seq<nat>, i: nat)
    requires i !in s
    ensures i !in LastFour(s)
  {
  }

  /** Slicing the last four non-system positions keeps exactly the protected ones. */
  lemma {:induction false} LastFourAreProtected(ms: seq<Msg>, i: nat, k: nat)
    requires i <= k < |ms|
    ensures k in LastFour(NonSystemFrom(ms, i)) <==> Protected(ms, k)
    decreases k - i
  {
    hide LastFour;
    var rest := NonSystemFrom(ms, i + 1);
    NonSystemFromIs(ms, i + 1);
    if ms[i].role.System? {
      assert NonSystemFrom(ms, i) == rest;
      if i == k {
        LastFourBelong(rest, i);
      } else {
        LastFourAreProtected(ms, i + 1, k);
      }
    } else {
      LastFourOfLonger(i, rest);
      assert NonSystemFrom(ms, i) == [i] + rest;
      assert ([i] + rest)[0] == i && i in [i] + rest;
      if i == k {
        LastFourBelong(rest, i);
      } else {
        LastFourAreProtected(ms, i + 1, k);
        OthersGrow(ms, i + 1, k);
        FewAreAll(rest);
      }
    }
  }

  lemma FewAreAll(s: seq<nat>)
    ensures |s| < 4 ==> LastFour(s) == s
  {
  }

  lemma {:induction false} OthersGrow(ms: seq<Msg>, i: nat, k: nat)
    requires i <= k <= |ms|
    ensures Others(ms, k) <= Others(ms, i)
    decreases k - i
  {
    if i < k {
      OthersGrow(ms, i + 1, k);
    }
  }

  // ----- The two passes -----

  method ProtectedIndices(ms: seq<Msg>) returns (kept: set<nat>)
    ensures forall i :: 0 <= i < |ms| ==> (i in kept <==> Protected(ms, i))
  {
    hide Protected, LastFour;
    var nonSystem: seq<nat> := [];
    var i := 0;
    while i < |ms|
      invariant 0 <= i <= |ms|
      invariant nonSystem + NonSystemFrom(ms, i) == NonSystemFrom(ms, 0)
    {
      NonSystemStep(ms, i, nonSystem);
      if !ms[i].role.System? {
        nonSystem := nonSystem + [i];
      }
      i := i + 1;
    }
    kept := set k | k in LastFour(nonSystem);
    assert nonSystem == NonSystemFrom(ms, 0);
    forall k | 0 <= k < |ms|
      ensures k in kept <==> Protected(ms, k)
    {
      LastFourAreProtected(ms, 0, k);
    }
  }

  lemma NonSystemStep(ms: seq<Msg>, i: nat, found: seq<nat>)
    requires i < |ms|
    ensures found + NonSystemFrom(ms, i) ==
      (if ms[i].role.System? then found else found + [i]) + NonSystemFrom(ms, i + 1)
  {
    var rest := NonSystemFrom(ms, i + 1);
    Assoc(found, [i], rest);
    assert [] + rest == rest;
  }

  method CompactToolResults(ms: seq<Msg>, budget: int) returns (result: seq<Msg>)
    ensures exists n :: Least(Compact, ms, budget, n) && result == After(Compact, ms, n)
  {
    hide Estimate, Targets, After;
    NothingCleared(Compact, ms);
    var current := EstimateTokens(ms);
    if current <= budget {
      assert Least(Compact, ms, budget, 0);
      return ms;
    }
    var compactable := FindCompactable(ms);
    ghost var n: nat;
    result, n := ClearUntil(Compact, ms, compactable, budget);
  }

  method FindCompactable(ms: seq<Msg>) returns (compactable: seq<nat>)
    ensures compactable == Targets(Compact, ms)
  {
    hide Protected;
    var kept := ProtectedIndices(ms);
    compactable := [];
    var i := 0;
    while i < |ms|
      invariant 0 <= i <= |ms|
      invariant compactable + EligibleFrom(Compact, ms, i) == Targets(Compact, ms)
    {
      EligibleSnoc(Compact, ms, i, compactable);
      if i !in kept {
        if ms[i].role.Tool? && ms[i].content.Text? {
          var content := ms[i].content.text;
          if content != COMPACTION_MARKER && |content| > 100 {
            compactable := compactable + [i];
          }
        }
      }
      i := i + 1;
    }
  }

  method TruncateOldestToolResults(ms: seq<Msg>, target: int, placeholder: string)
    returns (result: seq<Msg>, cleared: nat)
    ensures Least(HardClear(placeholder), ms, target, cleared) && result == After(HardClear(placeholder), ms, cleared)
  {
    hide Estimate, Targets, After;
    NothingCleared(HardClear(placeholder), ms);
    var current := EstimateTokens(ms);
    if current <= target {
      return ms, 0;
    }
    var eligible := FindClearable(ms, placeholder);
    result, cleared := ClearUntil(HardClear(placeholder), ms, eligible, target);
  }

  method FindClearable(ms: seq<Msg>, placeholder: string) returns (eligible: seq<nat>)
    ensures eligible == Targets(HardClear(placeholder), ms)
  {
    eligible := [];
    var i := 0;
    while i < |ms|
      invariant 0 <= i <= |ms|
      invariant eligible + EligibleFrom(HardClear(placeholder), ms, i) == Targets(HardClear(placeholder), ms)
    {
      EligibleSnoc(HardClear(placeholder), ms, i, eligible);
      if ms[i].role.Tool? && ms[i].content.Text? {
        var content := ms[i].content.text;
        if content != placeholder && content != COMPACTION_MARKER && |content| > 100 {
          eligible := eligible + [i];
        }
      }
      i := i + 1;
    }
  }

  /** The clearing loop both passes share. */
  method ClearUntil(pass: Pass, ms: seq<Msg>, targets: seq<nat>, budget: int) returns (result: seq<Msg>, cleared: nat)
    requires targets == Targets(pass, ms)
    ensures Least(pass, ms, budget, cleared) && result == After(pass, ms, cleared)
  {
    hide Estimate, After;
    result, cleared := ms, 0;
    NothingCleared(pass, ms);
    while cleared < |targets|
      invariant cleared <= |targets| && result == After(pass, ms, cleared)
      invariant forall j :: 0 <= j < cleared ==> TooBig(pass, ms, j, budget)
    {
      var tokens := EstimateTokens(result);
      if tokens <= budget {
        return;
      }
      var i := targets[cleared];
      OneMoreCleared(pass, ms, cleared);
      result := result[i := Cleared(result[i], Marker(pass))];
      cleared := cleared + 1;
    }
  }

  lemma NothingCleared(pass: Pass, ms: seq<Msg>)
    ensures After(pass, ms, 0) == ms
  {
  }

  lemma OneMoreCleared(pass: Pass, ms: seq<Msg>, n: nat)
    requires n < |Targets(pass, ms)|
    ensures var i := Targets(pass, ms)[n];
      i < |ms| && i < |After(pass, ms, n)| && After(pass, ms, n)[i] == ms[i] && Eligible(pass, ms, i) &&
      After(pass, ms, n + 1) == After(pass, ms, n)[i := Cleared(ms[i], Marker(pass))]
  {
    hide Eligible;
    var ts := Targets(pass, ms);
    EligibleFromIs(pass, ms, 0);
    assert ts[n] in ts;
    assert ts[n] !in ts[..n];
    assert ts[..n + 1] == ts[..n] + [ts[n]];
  }

  // ----- What a pass achieves -----

  /** The messages behind `i` that are not system messages. */
  function Later(ms: seq<Msg>, i: nat): set<nat> {
    set k: nat | i < k < |ms| && !ms[k].role.System?
  }

  lemma {:induction false} OthersAreLater(ms: seq<Msg>, i: nat)
    requires i < |ms|
    ensures Others(ms, i) == (if ms[i].role.System? then 0 else 1) + |Later(ms, i)|
    decreases |ms| - i
  {
    if i + 1 < |ms| {
      OthersAreLater(ms, i + 1);
      assert Later(ms, i) == if ms[i + 1].role.System? then Later(ms, i + 1) else Later(ms, i + 1) + {i + 1};
    } else {
      assert Later(ms, i) == {};
    }
  }

  /** A compaction clears tool results of more than a hundred characters, not cleared yet, with at least four later messages. */
  lemma CompactionTargets(ms: seq<Msg>, i: nat)
    requires i < |ms|
    ensures i in Targets(Compact, ms) <==>
      ms[i].role.Tool? && ms[i].content.Text? && |ms[i].content.text| > 100 &&
      ms[i].content.text != "[compacted \U{2014} tool output removed to free context]" && |Later(ms, i)| >= 4
  {
    EligibleFromIs(Compact, ms, 0);
    OthersAreLater(ms, i);
  }

  /** Truncation clears every tool result of more than a hundred characters that is not cleared yet, the latest too. */
  lemma TruncationTargets(ms: seq<Msg>, i: nat, placeholder: string)
    requires i < |ms|
    ensures i in Targets(HardClear(placeholder), ms) <==>
      ms[i].role.Tool? && ms[i].content.Text? && |ms[i].content.text| > 100 && ms[i].content.text != placeholder &&
      ms[i].content.text != "[compacted \U{2014} tool output removed to free context]"
  {
    EligibleFromIs(HardClear(placeholder), ms, 0);
  }

  /** Each clearing frees at least the difference between an eligible text and the marker. */
  lemma EachClearingSaves(pass: Pass, ms: seq<Msg>, n: nat)
    requires n < |Targets(pass, ms)| && |Marker(pass)| <= 101
    ensures Estimate(After(pass, ms, n + 1)) + (101 - |Marker(pass)|) / CHARS_PER_TOKEN <= Estimate(After(pass, ms, n))
    ensures pass.Compact? ==> Estimate(After(pass, ms, n + 1)) + 17 <= Estimate(After(pass, ms, n))
  {
    hide Targets, After;
    OneMoreCleared(pass, ms, n);
    var i := Targets(pass, ms)[n];
    TotalOfUpdate(After(pass, ms, n), i, Cleared(ms[i], Marker(pass)));
    assert pass.Compact? ==> |Marker(pass)| == 49;
  }

  /** A compaction never clears more than the excess over the budget can explain. */
  lemma FewClearings(ms: seq<Msg>, budget: int, n: nat)
    requires Least(Compact, ms, budget, n)
    ensures n > 0 ==> budget < Estimate(ms) - 17 * (n - 1)
  {
    if n > 0 {
      SavingsAdd(ms, n - 1);
      assert TooBig(Compact, ms, n - 1, budget);
    }
  }

  lemma {:induction false} SavingsAdd(ms: seq<Msg>, n: nat)
    requires n <= |Targets(Compact, ms)|
    ensures Estimate(After(Compact, ms, n)) <= Estimate(ms) - 17 * n
  {
    if n == 0 {
      NothingCleared(Compact, ms);
    } else {
      SavingsAdd(ms, n - 1);
      EachClearingSaves(Compact, ms, n - 1);
    }
  }

  /** Only eligible messages change, only their content, and a compaction leaves the last four non-system messages alone. */
  lemma OnlyOldResultsChange(pass: Pass, ms: seq<Msg>, n: nat, i: nat)
    requires n <= |Targets(pass, ms)| && i < |ms|
    ensures var r := After(pass, ms, n);
      && |r| == |ms|
      && r[i] == (if i in Targets(pass, ms)[..n] then Cleared(ms[i], Marker(pass)) else ms[i])
      && (r[i] == ms[i] || r[i] == ms[i].(content := Text(match pass
            case Compact => "[compacted \U{2014} tool output removed to free context]"
            case HardClear(placeholder) => placeholder)))
      && (!Eligible(pass, ms, i) ==> r[i] == ms[i])
      && (pass.Compact? && Protected(ms, i) ==> r[i] == ms[i])
  {
    EligibleFromIs(pass, ms, 0);
    assert i in Targets(pass, ms)[..n] ==> i in Targets(pass, ms);
  }

  lemma {:induction false} SameRolesSameProtection(a: seq<Msg>, b: seq<Msg>, i: nat)
    requires |a| == |b| && i <= |a| && forall k :: 0 <= k < |a| ==> a[k].role == b[k].role
    ensures Others(a, i) == Others(b, i)
    decreases |a| - i
  {
    if i < |a| {
      SameRolesSameProtection(a, b, i + 1);
    }
  }

  lemma StillEligible(pass: Pass, ms: seq<Msg>, n: nat, i: nat)
    requires n <= |Targets(pass, ms)| && i < |ms|
    ensures Eligible(pass, After(pass, ms, n), i) <==> Eligible(pass, ms, i) && i !in Targets(pass, ms)[..n]
  {
    SameRolesSameProtection(ms, After(pass, ms, n), i);
  }

  lemma NoneLeft(pass: Pass, ms: seq<Msg>)
    ensures Targets(pass, After(pass, ms, |Targets(pass, ms)|)) == []
  {
    hide After, Eligible, Targets;
    var all := Targets(pass, ms);
    var done := After(pass, ms, |all|);
    assert all[..|all|] == all;
    assert |done| == |ms| by {
      SameLength(pass, ms, |all|);
    }
    TargetsAre(pass, ms);
    TargetsAre(pass, done);
    forall i | 0 <= i < |ms|
      ensures i !in Targets(pass, done)
    {
      StillEligible(pass, ms, |all|, i);
    }
    HeadIsMember(Targets(pass, done));
  }

  lemma HeadIsMember(s: seq<nat>)
    ensures s != [] ==> s[0] in s
  {
  }

  lemma SameLength(pass: Pass, ms: seq<Msg>, n: nat)
    requires n <= |Targets(pass, ms)|
    ensures |After(pass, ms, n)| == |ms|
  {
  }

  lemma TargetsAre(pass: Pass, ms: seq<Msg>)
    ensures forall k :: k in Targets(pass, ms) <==> 0 <= k < |ms| && Eligible(pass, ms, k)
  {
    EligibleFromIs(pass, ms, 0);
  }

  /** Running a pass again with the same budget changes nothing: callers see zero and know it is exhausted. */
  lemma SecondPassClearsNothing(pass: Pass, ms: seq<Msg>, budget: int, n: nat, again: nat)
    requires Least(pass, ms, budget, n) && Least(pass, After(pass, ms, n), budget, again)
    ensures again == 0 && After(pass, After(pass, ms, n), again) == After(pass, ms, n)
  {
    hide After, Targets;
    var done := After(pass, ms, n);
    NothingCleared(pass, done);
    if TooBig(pass, ms, n, budget) {
      NoneLeft(pass, ms);
    }
    assert again > 0 ==> TooBig(pass, done, 0, budget);
  }
}
