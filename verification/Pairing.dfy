/** Emergency shortening of a history keeps tool calls and results paired (exoclaw_conversation/context.py). */
module Pairing {
  import opened Basics
  import opened History

  // ----- Pairing -----

  predicate Calls(m: Msg, id: Option<string>) {
    m.role.Assistant? && exists k :: 0 <= k < |m.calls| && m.calls[k].id == id
  }

  /** Some assistant message of `ms` makes the call `id`. */
  predicate HasParent(ms: seq<Msg>, id: Option<string>) {
    exists k :: 0 <= k < |ms| && Calls(ms[k], id)
  }

  predicate Answers(m: Msg, id: Option<string>) {
    m.role.Tool? && m.answers == id
  }

  predicate Answered(ms: seq<Msg>, id: Option<string>) {
    exists k :: 0 <= k < |ms| && Answers(ms[k], id)
  }

  /** Every tool result follows an assistant message that made the call. */
  ghost predicate ResultsHaveCalls(ms: seq<Msg>) {
    forall i :: 0 <= i < |ms| && ms[i].role.Tool? ==> HasParent(ms[..i], ms[i].answers)
  }

  predicate CallsAnsweredBy(m: Msg, later: seq<Msg>) {
    m.role.Assistant? ==> forall k :: 0 <= k < |m.calls| ==> Answered(later, m.calls[k].id)
  }

  /** Every call an assistant message makes has a later result. */
  predicate CallsHaveResults(ms: seq<Msg>) {
    ms == [] || (CallsAnsweredBy(ms[0], ms[1..]) && CallsHaveResults(ms[1..]))
  }

  lemma ParentIsTheCaller(ms: seq<Msg>, id: Option<string>)
    ensures HasParent(ms, id) <==> exists j, k ::
      0 <= j < |ms| && ms[j].role.Assistant? && 0 <= k < |ms[j].calls| && ms[j].calls[k].id == id
  {
    if HasParent(ms, id) {
      var j :| 0 <= j < |ms| && Calls(ms[j], id);
      var k :| 0 <= k < |ms[j].calls| && ms[j].calls[k].id == id;
    }
    if j, k :| 0 <= j < |ms| && ms[j].role.Assistant? && 0 <= k < |ms[j].calls| && ms[j].calls[k].id == id {
      assert Calls(ms[j], id);
    }
  }

  /** Paired one way: in front of every tool result an assistant message makes its call. */
  lemma PairedResults(ms: seq<Msg>, i: nat)
    requires ResultsHaveCalls(ms) && i < |ms| && ms[i].role.Tool?
    ensures exists j, k :: 0 <= j < i && ms[j].role.Assistant? && 0 <= k < |ms[j].calls| && ms[j].calls[k].id == ms[i].answers
  {
    hide HasParent;
    ParentIsTheCaller(ms[..i], ms[i].answers);
    var j, k :| 0 <= j < |ms[..i]| && ms[..i][j].role.Assistant? && 0 <= k < |ms[..i][j].calls| && ms[..i][j].calls[k].id == ms[i].answers;
    assert ms[j] == ms[..i][j];
  }

  /** Paired the other way: behind every assistant message each of its calls has a tool result. */
  lemma {:induction false} PairedCalls(ms: seq<Msg>, i: nat, k: nat)
    requires CallsHaveResults(ms) && i < |ms| && ms[i].role.Assistant? && k < |ms[i].calls|
    ensures exists j :: i < j < |ms| && ms[j].role.Tool? && ms[j].answers == ms[i].calls[k].id
  {
    if i == 0 {
      assert Answered(ms[1..], ms[0].calls[k].id);
      var j :| 0 <= j < |ms[1..]| && Answers(ms[1..][j], ms[0].calls[k].id);
      assert ms[j + 1] == ms[1..][j];
    } else {
      PairedCalls(ms[1..], i - 1, k);
      assert ms[1..][i - 1] == ms[i];
      var j :| i - 1 < j < |ms[1..]| && ms[1..][j].role.Tool? && ms[1..][j].answers == ms[i].calls[k].id;
      assert ms[j + 1] == ms[1..][j];
    }
  }

  // ----- The parts of a history -----

  function SystemPart(ms: seq<Msg>): (r: seq<Msg>)
    ensures forall i :: 0 <= i < |r| ==> r[i].role.System?
  {
    if ms == [] then [] else (if ms[0].role.System? then [ms[0]] else []) + SystemPart(ms[1..])
  }

  function Conversation(ms: seq<Msg>): (r: seq<Msg>)
    ensures forall i :: 0 <= i < |r| ==> !r[i].role.System?
  {
    if ms == [] then [] else (if ms[0].role.System? then [] else [ms[0]]) + Conversation(ms[1..])
  }

  /** `a` is `b` with some messages left out. */
  predicate InOrder(a: seq<Msg>, b: seq<Msg>) {
    a == [] || (b != [] && ((a[0] == b[0] && InOrder(a[1..], b[1..])) || InOrder(a, b[1..])))
  }

  lemma InOrderOnto(a: seq<Msg>, m: Msg, b: seq<Msg>)
    requires InOrder(a, b)
    ensures InOrder(a, [m] + b) && InOrder([m] + a, [m] + b)
    ensures multiset([m] + b) == multiset{m} + multiset(b)
  {
    assert ([m] + b)[1..] == b && ([m] + a)[1..] == a;
  }

  lemma PartsStep(ms: seq<Msg>)
    requires ms != []
    ensures [ms[0]] + ms[1..] == ms
    ensures SystemPart(ms) == if ms[0].role.System? then [ms[0]] + SystemPart(ms[1..]) else SystemPart(ms[1..])
    ensures Conversation(ms) == if ms[0].role.System? then Conversation(ms[1..]) else [ms[0]] + Conversation(ms[1..])
  {
  }

  /** The two parts together are the whole history, each in its order. */
  lemma {:induction false} PartsAreEverything(ms: seq<Msg>)
    ensures multiset(SystemPart(ms)) + multiset(Conversation(ms)) == multiset(ms)
    ensures InOrder(SystemPart(ms), ms) && InOrder(Conversation(ms), ms)
  {
    if ms != [] {
      hide SystemPart, Conversation, InOrder;
      var m, rest := ms[0], ms[1..];
      PartsAreEverything(rest);
      PartsStep(ms);
      InOrderOnto(SystemPart(rest), m, rest);
      InOrderOnto(Conversation(rest), m, rest);
      assert multiset([m] + SystemPart(rest)) == multiset{m} + multiset(SystemPart(rest));
      assert multiset([m] + Conversation(rest)) == multiset{m} + multiset(Conversation(rest));
    }
  }

  // ----- Dropping orphaned results -----

  /** What the repair loop appends to `kept` while it reads `rest`. */
  function Repaired(kept: seq<Msg>, rest: seq<Msg>): seq<Msg>
    decreases |rest|
  {
    if rest == [] then []
    else if rest[0].role.Tool? && !HasParent(kept, rest[0].answers) then Repaired(kept, rest[1..])
    else [rest[0]] + Repaired(kept + [rest[0]], rest[1..])
  }

  /** The messages of `ms` that are not tool results whose call is missing from everything before them. */
  function Parented(before: seq<Msg>, ms: seq<Msg>): seq<Msg>
    decreases |ms|
  {
    if ms == [] then []
    else (if ms[0].role.Tool? && !HasParent(before, ms[0].answers) then [] else [ms[0]]) + Parented(before + [ms[0]], ms[1..])
  }

  lemma ParentOfAppended(a: seq<Msg>, m: Msg, id: Option<string>)
    ensures HasParent(a + [m], id) <==> HasParent(a, id) || Calls(m, id)
  {
    hide Calls;
    if Calls(m, id) {
      assert (a + [m])[|a|] == m;
    }
    if HasParent(a, id) {
      var k :| 0 <= k < |a| && Calls(a[k], id);
      assert (a + [m])[k] == a[k];
    }
  }

  /** Looking for the parent among the messages kept so far is as good as looking among all earlier ones. */
  lemma {:induction false} RepairLooksFarEnough(kept: seq<Msg>, before: seq<Msg>, rest: seq<Msg>)
    requires forall id :: HasParent(kept, id) <==> HasParent(before, id)
    ensures Repaired(kept, rest) == Parented(before, rest)
    decreases |rest|
  {
    hide HasParent;
    if rest != [] {
      forall id
        ensures HasParent(kept + [rest[0]], id) <==> HasParent(before + [rest[0]], id)
      {
        ParentOfAppended(kept, rest[0], id);
        ParentOfAppended(before, rest[0], id);
      }
      if rest[0].role.Tool? {
        forall id
          ensures HasParent(before + [rest[0]], id) <==> HasParent(before, id)
        {
          ParentOfAppended(before, rest[0], id);
        }
      }
      if rest[0].role.Tool? && !HasParent(kept, rest[0].answers) {
        RepairLooksFarEnough(kept, before + [rest[0]], rest[1..]);
      } else {
        RepairLooksFarEnough(kept + [rest[0]], before + [rest[0]], rest[1..]);
      }
    }
  }

  /** The repair loop. */
  method Repair(ms: seq<Msg>) returns (repaired: seq<Msg>)
    ensures repaired == Parented([], ms)
  {
    hide HasParent, Repaired;
    repaired := [];
    var i := 0;
    assert ms[0..] == ms;
    while i < |ms|
      invariant 0 <= i <= |ms|
      invariant repaired + Repaired(repaired, ms[i..]) == Repaired([], ms)
    {
      RepairStep(repaired, ms, i);
      var m := ms[i];
      var keep := true;
      if m.role.Tool? {
        keep := FindParent(repaired, m.answers);
      }
      if keep {
        repaired := repaired + [m];
      }
      i := i + 1;
    }
    NothingToRepair(repaired, ms[i..]);
    RepairLooksFarEnough([], [], ms);
  }

  lemma NothingToRepair(kept: seq<Msg>, rest: seq<Msg>)
    requires rest == []
    ensures kept + Repaired(kept, rest) == kept
  {
  }

  lemma RepairStep(kept: seq<Msg>, ms: seq<Msg>, i: nat)
    requires i < |ms|
    ensures var next := if ms[i].role.Tool? && !HasParent(kept, ms[i].answers) then kept else kept + [ms[i]];
      kept + Repaired(kept, ms[i..]) == next + Repaired(next, ms[i + 1..])
  {
    hide HasParent;
    assert ms[i..][1..] == ms[i + 1..];
    Assoc(kept, [ms[i]], Repaired(kept + [ms[i]], ms[i + 1..]));
  }

  method FindParent(ms: seq<Msg>, id: Option<string>) returns (found: bool)
    ensures found == HasParent(ms, id)
  {
    for i := 0 to |ms|
      invariant forall k :: 0 <= k < i ==> !Calls(ms[k], id)
    {
      if ms[i].role.Assistant? {
        for k := 0 to |ms[i].calls|
          invariant forall j :: 0 <= j < k ==> ms[i].calls[j].id != id
        {
          if ms[i].calls[k].id == id {
            return true;
          }
        }
      }
    }
    found := false;
  }

  // ----- What the repair guarantees -----

  lemma {:induction false} RepairedHaveCalls(kept: seq<Msg>, rest: seq<Msg>)
    requires ResultsHaveCalls(kept)
    ensures ResultsHaveCalls(kept + Repaired(kept, rest))
    decreases |rest|
  {
    hide HasParent, ResultsHaveCalls;
    if rest == [] {
      assert kept + Repaired(kept, rest) == kept;
    } else if rest[0].role.Tool? && !HasParent(kept, rest[0].answers) {
      RepairedHaveCalls(kept, rest[1..]);
    } else {
      OneMore(kept, rest[0]);
      RepairedHaveCalls(kept + [rest[0]], rest[1..]);
      Assoc(kept, [rest[0]], Repaired(kept + [rest[0]], rest[1..]));
    }
  }

  lemma OneMore(kept: seq<Msg>, m: Msg)
    requires ResultsHaveCalls(kept) && (m.role.Tool? ==> HasParent(kept, m.answers))
    ensures ResultsHaveCalls(kept + [m])
  {
    hide HasParent;
    var r := kept + [m];
    forall i | 0 <= i < |r| && r[i].role.Tool?
      ensures HasParent(r[..i], r[i].answers)
    {
      assert r[..i] == kept[..i];
      assert kept[..|kept|] == kept;
    }
  }

  lemma AnsweredTail(m: Msg, rest: seq<Msg>, id: Option<string>)
    ensures Answered([m] + rest, id) <==> Answers(m, id) || Answered(rest, id)
  {
    var all := [m] + rest;
    assert all[0] == m;
    if Answered(rest, id) {
      var k :| 0 <= k < |rest| && Answers(rest[k], id);
      assert all[k + 1] == rest[k];
    }
    if Answered(all, id) && !Answers(m, id) {
      var k :| 0 <= k < |all| && Answers(all[k], id);
      assert all[k] == rest[k - 1];
    }
  }

  /** A result whose call was kept is kept. */
  lemma {:induction false} AnswersSurvive(kept: seq<Msg>, rest: seq<Msg>, id: Option<string>)
    requires HasParent(kept, id) && Answered(rest, id)
    ensures Answered(Repaired(kept, rest), id)
    decreases |rest|
  {
    hide HasParent, Answered;
    AnsweredSplits(rest, id);
    if rest[0].role.Tool? && !HasParent(kept, rest[0].answers) {
      AnswersSurvive(kept, rest[1..], id);
    } else {
      var next := kept + [rest[0]];
      AnsweredTail(rest[0], Repaired(next, rest[1..]), id);
      ParentOfAppended(kept, rest[0], id);
      if !Answers(rest[0], id) {
        AnswersSurvive(next, rest[1..], id);
      }
    }
  }

  lemma AnsweredSplits(ms: seq<Msg>, id: Option<string>)
    ensures Answered(ms, id) ==> ms != [] && (Answers(ms[0], id) || Answered(ms[1..], id))
  {
    if ms != [] {
      assert [ms[0]] + ms[1..] == ms;
      AnsweredTail(ms[0], ms[1..], id);
    }
  }

  lemma {:induction false} RepairedHaveResults(kept: seq<Msg>, rest: seq<Msg>)
    requires CallsHaveResults(rest)
    ensures CallsHaveResults(Repaired(kept, rest))
    decreases |rest|
  {
    hide HasParent, Answered;
    if rest != [] {
      if rest[0].role.Tool? && !HasParent(kept, rest[0].answers) {
        RepairedHaveResults(kept, rest[1..]);
      } else {
        var next := kept + [rest[0]];
        RepairedHaveResults(next, rest[1..]);
        StillAnswered(kept, rest);
        Prepend(rest[0], Repaired(next, rest[1..]));
      }
    }
  }

  lemma Prepend(m: Msg, later: seq<Msg>)
    requires CallsAnsweredBy(m, later) && CallsHaveResults(later)
    ensures CallsHaveResults([m] + later)
  {
    assert ([m] + later)[1..] == later;
  }

  lemma StillAnswered(kept: seq<Msg>, rest: seq<Msg>)
    requires rest != [] && CallsAnsweredBy(rest[0], rest[1..])
    ensures CallsAnsweredBy(rest[0], Repaired(kept + [rest[0]], rest[1..]))
  {
    hide Answered, HasParent, Repaired;
    var m := rest[0];
    if m.role.Assistant? {
      forall k | 0 <= k < |m.calls|
        ensures Answered(Repaired(kept + [m], rest[1..]), m.calls[k].id)
      {
        assert Calls(m, m.calls[k].id);
        ParentOfAppended(kept, m, m.calls[k].id);
        AnswersSurvive(kept + [m], rest[1..], m.calls[k].id);
      }
    }
  }

  lemma {:induction false} RepairedInOrder(kept: seq<Msg>, rest: seq<Msg>)
    ensures InOrder(Repaired(kept, rest), rest)
    decreases |rest|
  {
    hide HasParent;
    if rest != [] {
      if rest[0].role.Tool? && !HasParent(kept, rest[0].answers) {
        RepairedInOrder(kept, rest[1..]);
      } else {
        RepairedInOrder(kept + [rest[0]], rest[1..]);
        assert Repaired(kept, rest)[1..] == Repaired(kept + [rest[0]], rest[1..]);
      }
    }
  }

  // ----- Filtering and cutting -----

  lemma {:induction false} ConversationAnswers(ms: seq<Msg>, id: Option<string>)
    requires Answered(ms, id)
    ensures Answered(Conversation(ms), id)
  {
    hide Answered;
    AnsweredSplits(ms, id);
    if ms[0].role.System? {
      assert Conversation(ms) == Conversation(ms[1..]);
    } else {
      AnsweredTail(ms[0], Conversation(ms[1..]), id);
    }
    if !Answers(ms[0], id) {
      ConversationAnswers(ms[1..], id);
    }
  }

  lemma ConversationAnswersAll(m: Msg, later: seq<Msg>)
    requires CallsAnsweredBy(m, later)
    ensures CallsAnsweredBy(m, Conversation(later))
  {
    hide Answered;
    if m.role.Assistant? {
      forall k | 0 <= k < |m.calls|
        ensures Answered(Conversation(later), m.calls[k].id)
      {
        ConversationAnswers(later, m.calls[k].id);
      }
    }
  }

  lemma {:induction false} ConversationHasResults(ms: seq<Msg>)
    requires CallsHaveResults(ms)
    ensures CallsHaveResults(Conversation(ms))
  {
    hide CallsAnsweredBy;
    if ms != [] {
      ConversationHasResults(ms[1..]);
      if ms[0].role.System? {
        assert Conversation(ms) == Conversation(ms[1..]);
      } else {
        ConversationAnswersAll(ms[0], ms[1..]);
        Prepend(ms[0], Conversation(ms[1..]));
      }
    }
  }

  lemma {:induction false} SuffixHasResults(ms: seq<Msg>, k: nat)
    requires CallsHaveResults(ms) && k <= |ms|
    ensures CallsHaveResults(ms[k..])
    decreases k
  {
    if k > 0 {
      SuffixHasResults(ms[1..], k - 1);
      assert ms[1..][k - 1..] == ms[k..];
    }
  }

  lemma {:induction false} SuffixInOrder(a: seq<Msg>, ms: seq<Msg>, k: nat)
    requires k <= |ms| && InOrder(a, ms[k..])
    ensures InOrder(a, ms)
    decreases k
  {
    if k > 0 {
      assert ms[1..][k - 1..] == ms[k..];
      SuffixInOrder(a, ms[1..], k - 1);
    }
  }

  /** Messages that call nothing, put in front, leave the pairing as it was. */
  lemma {:induction false} HeadersKeepPairing(head: seq<Msg>, ms: seq<Msg>)
    requires forall i :: 0 <= i < |head| ==> !head[i].role.Assistant? && !head[i].role.Tool?
    ensures CallsHaveResults(ms) ==> CallsHaveResults(head + ms)
    ensures ResultsHaveCalls(ms) ==> ResultsHaveCalls(head + ms)
  {
    hide HasParent;
    if CallsHaveResults(ms) {
      HeadersKeepResults(head, ms);
    }
    if ResultsHaveCalls(ms) {
      forall i | 0 <= i < |head + ms| && (head + ms)[i].role.Tool?
        ensures HasParent((head + ms)[..i], (head + ms)[i].answers)
      {
        assert (head + ms)[..i] == head + ms[..i - |head|];
        ParentBehind(head, ms[..i - |head|], (head + ms)[i].answers);
      }
    }
  }

  lemma ParentBehind(head: seq<Msg>, ms: seq<Msg>, id: Option<string>)
    requires HasParent(ms, id)
    ensures HasParent(head + ms, id)
  {
    var k :| 0 <= k < |ms| && Calls(ms[k], id);
    assert (head + ms)[|head| + k] == ms[k];
  }

  lemma {:induction false} HeadersKeepResults(head: seq<Msg>, ms: seq<Msg>)
    requires forall i :: 0 <= i < |head| ==> !head[i].role.Assistant? && !head[i].role.Tool?
    requires CallsHaveResults(ms)
    ensures CallsHaveResults(head + ms)
  {
    if head == [] {
      assert head + ms == ms;
    } else {
      HeadersKeepResults(head[1..], ms);
      Prepend(head[0], head[1..] + ms);
      assert [head[0]] + (head[1..] + ms) == head + ms;
    }
  }

  // ----- drop_oldest_half -----

  /** The system messages, then the later half of the conversation without orphaned results. */
  function Halved(ms: seq<Msg>): seq<Msg> {
    var conversation := Conversation(ms);
    SystemPart(ms) + Parented([], conversation[|conversation| / 2..])
  }

  lemma PartitionStep(ms: seq<Msg>, i: nat, system: seq<Msg>, nonSystem: seq<Msg>)
    requires i < |ms|
    ensures system + SystemPart(ms[i..]) == (if ms[i].role.System? then system + [ms[i]] else system) + SystemPart(ms[i + 1..])
    ensures nonSystem + Conversation(ms[i..]) == (if ms[i].role.System? then nonSystem else nonSystem + [ms[i]]) + Conversation(ms[i + 1..])
  {
    assert ms[i..][1..] == ms[i + 1..];
    if ms[i].role.System? {
      Assoc(system, [ms[i]], SystemPart(ms[i + 1..]));
    } else {
      Assoc(nonSystem, [ms[i]], Conversation(ms[i + 1..]));
    }
  }

  method Partition(ms: seq<Msg>) returns (system: seq<Msg>, nonSystem: seq<Msg>)
    ensures system == SystemPart(ms) && nonSystem == Conversation(ms)
  {
    hide SystemPart, Conversation;
    system, nonSystem := [], [];
    var i := 0;
    assert ms[0..] == ms;
    while i < |ms|
      invariant 0 <= i <= |ms|
      invariant system + SystemPart(ms[i..]) == SystemPart(ms)
      invariant nonSystem + Conversation(ms[i..]) == Conversation(ms)
    {
      PartitionStep(ms, i, system, nonSystem);
      if ms[i].role.System? {
        system := system + [ms[i]];
      } else {
        nonSystem := nonSystem + [ms[i]];
      }
      i := i + 1;
    }
    PartsOfNothing(ms[i..]);
  }

  lemma PartsOfNothing(ms: seq<Msg>)
    requires ms == []
    ensures SystemPart(ms) == [] && Conversation(ms) == []
  {
  }

  method DropOldestHalf(ms: seq<Msg>) returns (r: seq<Msg>)
    ensures r == Halved(ms)
  {
    var system, nonSystem := Partition(ms);
    var half := |nonSystem| / 2;
    var repaired := Repair(nonSystem[half..]);
    r := system + repaired;
  }

  lemma ParentedIsRepaired(ms: seq<Msg>)
    ensures Parented([], ms) == Repaired([], ms)
  {
    RepairLooksFarEnough([], [], ms);
  }

  /** Repaired messages of a suffix: results have calls always, calls have results if they had. */
  lemma RepairPairs(ms: seq<Msg>)
    ensures ResultsHaveCalls(Parented([], ms))
    ensures CallsHaveResults(ms) ==> CallsHaveResults(Parented([], ms))
    ensures InOrder(Parented([], ms), ms)
  {
    hide CallsHaveResults, Repaired, InOrder;
    ParentedIsRepaired(ms);
    RepairedHaveCalls([], ms);
    assert [] + Repaired([], ms) == Repaired([], ms);
    if CallsHaveResults(ms) {
      RepairedHaveResults([], ms);
    }
    RepairedInOrder([], ms);
  }

  /** Dropping the oldest half: no result without its call, no call without its result, nothing reordered. */
  lemma HalvingKeepsPairing(ms: seq<Msg>)
    requires CallsHaveResults(ms)
    ensures ResultsHaveCalls(Halved(ms)) && CallsHaveResults(Halved(ms))
    ensures SystemPart(Halved(ms)) == SystemPart(ms)
    ensures InOrder(Conversation(Halved(ms)), Conversation(ms))
  {
    hide CallsHaveResults, ResultsHaveCalls, Parented, InOrder, SystemPart, Conversation;
    var conversation := Conversation(ms);
    var half := |conversation| / 2;
    var kept := Parented([], conversation[half..]);
    ConversationHasResults(ms);
    SuffixHasResults(conversation, half);
    RepairPairs(conversation[half..]);
    HeadersKeepPairing(SystemPart(ms), kept);
    SuffixInOrder(kept, conversation, half);
    OnlyConversation(kept, conversation);
    PartsOfJoin(SystemPart(ms), kept);
  }

  lemma {:induction false} OnlyConversation(a: seq<Msg>, b: seq<Msg>)
    requires InOrder(a, b) && forall i :: 0 <= i < |b| ==> !b[i].role.System?
    ensures forall i :: 0 <= i < |a| ==> !a[i].role.System?
    decreases |a| + |b|
  {
    if a != [] {
      if a[0] == b[0] && InOrder(a[1..], b[1..]) {
        OnlyConversation(a[1..], b[1..]);
      } else {
        OnlyConversation(a, b[1..]);
      }
    }
  }

  lemma {:induction false} PartsOfConversation(rest: seq<Msg>)
    requires forall i :: 0 <= i < |rest| ==> !rest[i].role.System?
    ensures SystemPart(rest) == [] && Conversation(rest) == rest
  {
    if rest != [] {
      PartsOfConversation(rest[1..]);
    }
  }

  lemma {:induction false} PartsOfJoin(system: seq<Msg>, rest: seq<Msg>)
    requires forall i :: 0 <= i < |system| ==> system[i].role.System?
    requires forall i :: 0 <= i < |rest| ==> !rest[i].role.System?
    ensures SystemPart(system + rest) == system && Conversation(system + rest) == rest
  {
    if system == [] {
      assert system + rest == rest;
      PartsOfConversation(rest);
    } else {
      assert (system + rest)[1..] == system[1..] + rest;
      PartsOfJoin(system[1..], rest);
      assert [] + rest == rest;
    }
  }

  // ----- summarize_old_chunks -----

  const SUMMARY_PREFIX := "Summary of prior conversation (older messages were summarized to free context):\n\n"

  function SummaryMessage(text: string): Msg {
    Msg(User, Text(SUMMARY_PREFIX + text), [], None)
  }

  /** The oldest `n` of `eligible` are the most that fit `cap`. */
  predicate LongestChunk(eligible: seq<Msg>, cap: int, n: nat) {
    && n <= |eligible|
    && (cap <= 0 ==> n == |eligible|)
    && (cap > 0 && n > 0 ==> Estimate(eligible[..n]) <= cap)
    && (cap > 0 && n < |eligible| ==> Estimate(eligible[..n + 1]) > cap)
  }

  /** `ms` with the oldest `n` conversation messages replaced by a summary. */
  function Summarized(ms: seq<Msg>, n: nat, text: string): seq<Msg>
    requires n <= |Conversation(ms)|
  {
    Parented([], SystemPart(ms) + [SummaryMessage(text)] + Conversation(ms)[n..])
  }

  function EligibleCount(conversation: seq<Msg>, keepRecent: int): nat
    requires |conversation| > keepRecent
  {
    if keepRecent > 0 then |conversation| - keepRecent else |conversation|
  }

  method TakeChunk(eligible: seq<Msg>, cap: int) returns (chunk: seq<Msg>)
    ensures LongestChunk(eligible, cap, |chunk|) && chunk <= eligible
  {
    hide Estimate;
    if cap <= 0 {
      return eligible;
    }
    chunk := [];
    while |chunk| < |eligible|
      invariant chunk <= eligible
      invariant |chunk| > 0 ==> Estimate(chunk) <= cap
    {
      var trial := chunk + [eligible[|chunk|]];
      assert trial == eligible[..|chunk| + 1];
      var tokens := EstimateTokens(trial);
      if tokens > cap {
        break;
      }
      chunk := trial;
    }
    assert chunk == eligible[..|chunk|];
  }

  /** The list is over target and the oldest `n` eligible messages are a non-empty longest chunk with a non-empty summary. */
  predicate Summarizes(ms: seq<Msg>, target: int, summarizer: seq<Msg> -> string, keepRecent: int, cap: int, n: nat) {
    && Estimate(ms) > target && |Conversation(ms)| > keepRecent
    && 0 < n <= EligibleCount(Conversation(ms), keepRecent)
    && LongestChunk(Conversation(ms)[..EligibleCount(Conversation(ms), keepRecent)], cap, n)
    && summarizer(Conversation(ms)[..n]) != ""
  }

  lemma LongestIsUnique(eligible: seq<Msg>, cap: int, m: nat, n: nat)
    requires LongestChunk(eligible, cap, m) && LongestChunk(eligible, cap, n)
    ensures m == n
  {
    hide Estimate;
    if m < n {
      ChunkIsGreatest(eligible, cap, m, n);
    } else if n < m {
      ChunkIsGreatest(eligible, cap, n, m);
    }
  }

  lemma OneSummary(ms: seq<Msg>, target: int, summarizer: seq<Msg> -> string, keepRecent: int, cap: int, m: nat)
    requires |Conversation(ms)| > keepRecent
    requires LongestChunk(Conversation(ms)[..EligibleCount(Conversation(ms), keepRecent)], cap, m)
    ensures forall n: nat :: Summarizes(ms, target, summarizer, keepRecent, cap, n) ==> n == m
  {
    hide LongestChunk, Estimate, Conversation;
    forall n: nat | Summarizes(ms, target, summarizer, keepRecent, cap, n)
      ensures n == m
    {
      LongestIsUnique(Conversation(ms)[..EligibleCount(Conversation(ms), keepRecent)], cap, m, n);
    }
  }

  /** The chunk leaves the recent messages alone, fits a positive cap, and stops only at the cap or at the recent messages. */
  lemma ChunkStopsAtTheRecent(ms: seq<Msg>, target: int, summarizer: seq<Msg> -> string, keepRecent: int, cap: int, n: nat)
    requires Summarizes(ms, target, summarizer, keepRecent, cap, n)
    ensures var c := Conversation(ms); var last := if keepRecent > 0 then |c| - keepRecent else |c|;
      && 0 < n <= last
      && (cap > 0 ==> Estimate(c[..n]) <= cap)
      && (n < last ==> cap > 0 && Estimate(c[..n + 1]) > cap)
  {
    hide Estimate, Conversation;
    var c := Conversation(ms);
    var eligible := c[..EligibleCount(c, keepRecent)];
    assert eligible[..n] == c[..n] && (n < |eligible| ==> eligible[..n + 1] == c[..n + 1]);
  }

  method SummarizeOldChunks(ms: seq<Msg>, target: int, summarizer: seq<Msg> -> string, keepRecent: int,
                            maxInput: Option<int>)
    returns (r: seq<Msg>, summarized: bool)
    ensures !summarized ==> r == ms
    ensures var cap := if maxInput.Some? then maxInput.value else target / 2;
      summarized <==> exists n: nat :: Summarizes(ms, target, summarizer, keepRecent, cap, n)
    ensures var cap := if maxInput.Some? then maxInput.value else target / 2;
      forall n: nat :: Summarizes(ms, target, summarizer, keepRecent, cap, n) ==>
        r == Summarized(ms, n, summarizer(Conversation(ms)[..n]))
  {
    hide Estimate, Parented, Conversation, SystemPart, LongestChunk;
    var tokens := EstimateTokens(ms);
    if tokens <= target {
      return ms, false;
    }
    var system, nonSystem := Partition(ms);
    if |nonSystem| <= keepRecent {
      return ms, false;
    }
    var cut := if keepRecent > 0 then |nonSystem| - keepRecent else |nonSystem|;
    var eligible, tail := nonSystem[..cut], nonSystem[cut..];
    var cap := if maxInput.Some? then maxInput.value else target / 2;
    var chunk := TakeChunk(eligible, cap);
    var remaining := eligible[|chunk|..];
    OneSummary(ms, target, summarizer, keepRecent, cap, |chunk|);
    if chunk == [] {
      return ms, false;
    }
    Prefixes(nonSystem, cut, chunk);
    assert chunk == Conversation(ms)[..|chunk|];
    var text := summarizer(chunk);
    assert Summarizes(ms, target, summarizer, keepRecent, cap, |chunk|) <==> text != "";
    if text == "" {
      return ms, false;
    }
    r := Repair(system + [SummaryMessage(text)] + remaining + tail);
    Assoc(system + [SummaryMessage(text)], remaining, tail);
    assert Summarizes(ms, target, summarizer, keepRecent, cap, |chunk|);
    summarized := true;
  }

  lemma Prefixes(ms: seq<Msg>, cut: nat, chunk: seq<Msg>)
    requires cut <= |ms| && chunk <= ms[..cut]
    ensures chunk == ms[..|chunk|] && ms[..cut][|chunk|..] + ms[cut..] == ms[|chunk|..]
  {
  }

  /** A chunk that stops short could not have held one more message, nor any longer run. */
  lemma ChunkIsGreatest(eligible: seq<Msg>, cap: int, n: nat, longer: nat)
    requires LongestChunk(eligible, cap, n) && n < longer <= |eligible|
    ensures Estimate(eligible[..longer]) > cap
  {
    LongerIsHeavier(eligible, n + 1, longer);
  }

  lemma {:induction false} HeadSurvives(kept: seq<Msg>, head: seq<Msg>, rest: seq<Msg>)
    requires forall i :: 0 <= i < |head| ==> !head[i].role.Tool?
    ensures Repaired(kept, head + rest) == head + Repaired(kept + head, rest)
    decreases |head|
  {
    hide HasParent;
    if head == [] {
      assert head + rest == rest && kept + head == kept;
    } else {
      assert (head + rest)[1..] == head[1..] + rest;
      HeadSurvives(kept + [head[0]], head[1..], rest);
      assert kept + [head[0]] + head[1..] == kept + head;
      Assoc([head[0]], head[1..], Repaired(kept + head, rest));
      assert [head[0]] + head[1..] == head;
    }
  }

  /** Summarising the oldest `n` messages keeps the pairing, the system messages and the order of what remains. */
  lemma SummarizingKeepsPairing(ms: seq<Msg>, n: nat, text: string)
    requires CallsHaveResults(ms) && n <= |Conversation(ms)|
    ensures var r := Summarized(ms, n, text);
      && ResultsHaveCalls(r) && CallsHaveResults(r)
      && SystemPart(r) == SystemPart(ms)
      && Conversation(r) != [] && Conversation(r)[0] == SummaryMessage(text)
      && InOrder(Conversation(r)[1..], Conversation(ms)[n..])
  {
    hide CallsHaveResults, ResultsHaveCalls, Parented, InOrder, SystemPart, Conversation, Repaired;
    var summary, rest := SummaryMessage(text), Conversation(ms)[n..];
    var head := SystemPart(ms) + [summary];
    ConversationHasResults(ms);
    SuffixHasResults(Conversation(ms), n);
    HeadersKeepPairing(head, rest);
    RepairPairs(head + rest);
    ParentedIsRepaired(head + rest);
    HeadSurvives([], head, rest);
    assert [] + head == head;
    var kept := Repaired(head, rest);
    RepairedInOrder(head, rest);
    OnlyConversation(kept, rest);
    Assoc(SystemPart(ms), [summary], kept);
    PartsOfJoin(SystemPart(ms), [summary] + kept);
    assert ([summary] + kept)[1..] == kept;
  }

  // ----- What is kept, and where -----

  /** The message is no tool result, or its call is made in `before` or earlier in `ms`. */
  predicate Keeps(before: seq<Msg>, ms: seq<Msg>, i: nat)
    requires i < |ms|
  {
    ms[i].role.Tool? ==> HasParent(before + ms[..i], ms[i].answers)
  }

  /** The messages kept in front of `i`. */
  function KeptBefore(before: seq<Msg>, ms: seq<Msg>, i: nat): set<nat>
    requires i <= |ms|
  {
    set k: nat | k < i && Keeps(before, ms, k)
  }

  lemma KeepsNext(before: seq<Msg>, ms: seq<Msg>, i: nat)
    requires 0 < i < |ms|
    ensures Keeps(before, ms, i) == Keeps(before + [ms[0]], ms[1..], i - 1)
  {
    hide HasParent;
    assert before + ms[..i] == (before + [ms[0]]) + ms[1..][..i - 1];
  }

  lemma KeptNext(before: seq<Msg>, ms: seq<Msg>, i: nat)
    requires 0 < i <= |ms|
    ensures |KeptBefore(before, ms, i)| ==
      (if Keeps(before, ms, 0) then 1 else 0) + |KeptBefore(before + [ms[0]], ms[1..], i - 1)|
  {
    hide Keeps;
    var rest := KeptBefore(before + [ms[0]], ms[1..], i - 1);
    var moved := set k: nat | k in rest :: k + 1;
    Shifted(rest);
    forall k: nat
      ensures k in KeptBefore(before, ms, i) <==> k in if Keeps(before, ms, 0) then moved + {0} else moved
    {
      if 0 < k < i {
        KeepsNext(before, ms, k);
        assert k - 1 in rest ==> (k - 1) + 1 in moved;
      }
    }
    assert KeptBefore(before, ms, i) == if Keeps(before, ms, 0) then moved + {0} else moved;
  }

  /** Repair keeps exactly these messages, each behind the kept ones that came before it. */
  lemma {:induction false} RepairKeepsTheRest(before: seq<Msg>, ms: seq<Msg>)
    ensures |Parented(before, ms)| == |KeptBefore(before, ms, |ms|)|
    ensures forall i :: 0 <= i < |ms| && Keeps(before, ms, i) ==>
      var at := |KeptBefore(before, ms, i)|; at < |Parented(before, ms)| && Parented(before, ms)[at] == ms[i]
    decreases |ms|
  {
    hide HasParent, Keeps;
    if ms != [] {
      var after := before + [ms[0]];
      var rest := Parented(after, ms[1..]);
      RepairKeepsTheRest(after, ms[1..]);
      KeptNext(before, ms, |ms|);
      ParentedStep(before, ms);
      forall i | 0 <= i < |ms| && Keeps(before, ms, i)
        ensures var at := |KeptBefore(before, ms, i)|; at < |Parented(before, ms)| && Parented(before, ms)[at] == ms[i]
      {
        if i > 0 {
          KeepsNext(before, ms, i);
          KeptNext(before, ms, i);
          assert ms[1..][i - 1] == ms[i];
        }
      }
    }
  }

  lemma ParentedStep(before: seq<Msg>, ms: seq<Msg>)
    requires ms != []
    ensures Parented(before, ms) == (if Keeps(before, ms, 0) then [ms[0]] else []) + Parented(before + [ms[0]], ms[1..])
  {
    hide HasParent;
    assert before + ms[..0] == before;
  }

  /**
   * Dropping the oldest half keeps every system message, and of the later half of the conversation, rounded up,
   * everything but results without their call, in place.
   */
  lemma HalvingKeepsTheLaterHalf(ms: seq<Msg>, i: nat)
    requires var c := Conversation(ms); |c| <= 2 * i + 1 && i < |c|
    ensures var c := Conversation(ms); var half := |c| / 2; var later := c[half..];
      && 2 * |later| - 1 <= |c| <= 2 * |later| && half <= i
      && (Keeps([], later, i - half) ==>
            var at := |SystemPart(ms)| + |KeptBefore([], later, i - half)|;
            at < |Halved(ms)| && Halved(ms)[at] == c[i])
  {
    hide Keeps, Conversation, SystemPart, Parented, KeptBefore;
    var c := Conversation(ms);
    RepairKeepsTheRest([], c[|c| / 2..]);
  }

  /** Summarising replaces nothing but the chunk: system messages, the summary, then every other message that keeps its call. */
  lemma SummarizingKeepsTheRest(ms: seq<Msg>, n: nat, text: string, i: nat)
    requires n <= i < |Conversation(ms)|
    ensures var c := Conversation(ms); var head := SystemPart(ms) + [SummaryMessage(text)];
      && head <= Summarized(ms, n, text)
      && (Keeps(head, c[n..], i - n) ==>
            var at := |head| + |KeptBefore(head, c[n..], i - n)|;
            at < |Summarized(ms, n, text)| && Summarized(ms, n, text)[at] == c[i])
  {
    hide Keeps, Conversation, SystemPart, KeptBefore, HasParent;
    var c := Conversation(ms);
    var head := SystemPart(ms) + [SummaryMessage(text)];
    assert SystemPart(ms) + [SummaryMessage(text)] + c[n..] == head + c[n..];
    NoResultsStay([], head, c[n..]);
    assert [] + head == head;
    RepairKeepsTheRest(head, c[n..]);
  }

  lemma {:induction false} NoResultsStay(before: seq<Msg>, head: seq<Msg>, rest: seq<Msg>)
    requires forall i :: 0 <= i < |head| ==> !head[i].role.Tool?
    ensures Parented(before, head + rest) == head + Parented(before + head, rest)
    decreases |head|
  {
    hide HasParent;
    if head == [] {
      assert head + rest == rest && before + head == before;
    } else {
      assert (head + rest)[0] == head[0] && (head + rest)[1..] == head[1..] + rest;
      NoResultsStay(before + [head[0]], head[1..], rest);
      assert (before + [head[0]]) + head[1..] == before + head;
      Assoc([head[0]], head[1..], Parented(before + head, rest));
      assert [head[0]] + head[1..] == head;
    }
  }
}
