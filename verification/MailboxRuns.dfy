/** Appends, drains and crashes of one mailbox, step by step. */
module MailboxRuns {
  import opened Basics
  import opened MailboxLines
  import opened MailboxReading

  datatype Name = Temp | Live

  /**
   * A drain under way: files still to take, whether the first of them has been read, the texts read so far, and
   * the records among them whose file is gone.
   */
  datatype Phase = Idle | Draining(files: seq<Name>, read: bool, pending: seq<string>, taken: seq<nat>)

  /**
   * Records go by the order in which they were appended. `returned` are the records behind the delivered texts,
   * `lost` those that no file and no result holds any more.
   */
  datatype Box = Box(
    live: Option<seq<nat>>,
    draining: Option<seq<nat>>,
    phase: Phase,
    appended: seq<string>,
    delivered: seq<string>,
    returned: seq<nat>,
    lost: seq<nat>)

  datatype Event = Append(content: string) | Begin | Read | Unlink | Return | Crash

  function Held(file: Option<seq<nat>>): seq<nat> { if file.None? then [] else file.value }

  function Contents(b: Box, name: Name): seq<nat> {
    if name.Temp? then Held(b.draining) else Held(b.live)
  }

  function TextAt(appended: seq<string>, k: nat): string { if k < |appended| then appended[k] else "" }

  function TextsOf(appended: seq<string>, records: seq<nat>): seq<string> {
    if records == [] then [] else [TextAt(appended, records[0])] + TextsOf(appended, records[1..])
  }

  /** The records that are read back as one line, or those that are cut. */
  function Pick(appended: seq<string>, records: seq<nat>, whole: bool): seq<nat> {
    if records == [] then []
    else (if Whole(TextAt(appended, records[0])) == whole then [records[0]] else []) + Pick(appended, records[1..], whole)
  }

  function FileTexts(b: Box, name: Name): seq<string> { TextsOf(b.appended, Contents(b, name)) }

  /** What reading the file gives: its text split into lines and parsed, or an exception. */
  function ReadFile(b: Box, name: Name): Option<seq<string>> { Reading(File(FileTexts(b, name))) }

  /** Appends and drains exclude each other; a crash can come at any time. */
  predicate Enabled(b: Box, e: Event) {
    match e
    case Append(_) => b.phase.Idle?
    case Begin => b.phase.Idle?
    case Read => b.phase.Draining? && b.phase.files != [] && !b.phase.read
    case Unlink => b.phase.Draining? && b.phase.files != [] && b.phase.read
    case Return => b.phase.Draining? && b.phase.files == []
    case Crash => true
  }

  function Taken(b: Box): seq<nat> { if b.phase.Idle? then [] else b.phase.taken }

  /** The drain ends without a result: by a crash or by an exception. */
  function Abandoned(b: Box): Box { b.(phase := Idle, lost := b.lost + Taken(b)) }

  function Unlinked(b: Box): Box
    requires Enabled(b, Unlink)
  {
    var held := Contents(b, b.phase.files[0]);
    var after := b.(
      phase := b.phase.(files := b.phase.files[1..], read := false, taken := b.phase.taken + Pick(b.appended, held, true)),
      lost := b.lost + Pick(b.appended, held, false));
    if b.phase.files[0].Temp? then after.(draining := None) else after.(live := None)
  }

  function Step(b: Box, e: Event): Box
    requires Enabled(b, e)
  {
    match e
    case Append(content) =>
      b.(live := Some(Held(b.live) + [|b.appended|]), appended := b.appended + [content])
    case Begin =>
      if b.draining.Some? then
        b.(phase := Draining([Temp] + (if b.live.Some? then [Live] else []), false, [], []))
      else if b.live.Some? then
        b.(draining := b.live, live := None, phase := Draining([Temp], false, [], []))
      else b.(phase := Draining([], false, [], []))
    case Read =>
      var got := ReadFile(b, b.phase.files[0]);
      if got.None? then Abandoned(b)
      else b.(phase := b.phase.(read := true, pending := b.phase.pending + got.value))
    case Unlink => Unlinked(b)
    case Return =>
      b.(phase := Idle, delivered := b.delivered + b.phase.pending, returned := b.returned + b.phase.taken)
    case Crash => Abandoned(b)
  }

  /** What has been delivered, is about to be, or is still in a file, in that order. */
  function All(b: Box): seq<nat> {
    b.returned + (Taken(b) + (Held(b.draining) + Held(b.live)))
  }

  // ----- The invariant -----

  predicate Ascending(s: seq<nat>) {
    forall i, j :: 0 <= i < j < |s| ==> s[i] < s[j]
  }

  predicate Below(s: seq<nat>, n: nat) {
    forall i :: 0 <= i < |s| ==> s[i] < n
  }

  /** Each record appended is in exactly one place. */
  ghost predicate Conserved(b: Box) {
    forall k: nat :: multiset(All(b))[k] + multiset(b.lost)[k] == if k < |b.appended| then 1 else 0
  }

  predicate Orderly(b: Box) {
    b.phase.Draining? ==>
      && (b.phase.files == [] || b.phase.files == [Temp] || b.phase.files == [Live] || b.phase.files == [Temp, Live])
      && (Temp !in b.phase.files ==> b.draining.None?)
      && (Live !in b.phase.files ==> b.live.None?)
  }

  /** The texts a drain under way should hold. */
  function InHand(b: Box): seq<string>
    requires b.phase.Draining?
  {
    TextsOf(b.appended, b.phase.taken) +
    (if b.phase.read && b.phase.files != [] then WholeOf(FileTexts(b, b.phase.files[0])) else [])
  }

  /** The texts delivered and pending are those of the records they stand for. */
  predicate Faithful(b: Box) {
    b.delivered == TextsOf(b.appended, b.returned) && (b.phase.Draining? ==> b.phase.pending == InHand(b))
  }

  ghost predicate Inv(b: Box) {
    Ascending(All(b)) && Below(All(b), |b.appended|) && Conserved(b) && Orderly(b) && Faithful(b)
  }

  function Empty(): Box { Box(None, None, Idle, [], [], [], []) }

  // ----- Texts and picks -----

  lemma {:induction false} TextsJoin(appended: seq<string>, a: seq<nat>, b: seq<nat>)
    ensures TextsOf(appended, a + b) == TextsOf(appended, a) + TextsOf(appended, b)
  {
    if a == [] {
      assert a + b == b;
    } else {
      assert (a + b)[1..] == a[1..] + b;
      TextsJoin(appended, a[1..], b);
      Assoc([TextAt(appended, a[0])], TextsOf(appended, a[1..]), TextsOf(appended, b));
    }
  }

  lemma {:induction false} TextsStay(appended: seq<string>, content: string, records: seq<nat>)
    requires Below(records, |appended|)
    ensures TextsOf(appended + [content], records) == TextsOf(appended, records)
  {
    if records != [] {
      TextsStay(appended, content, records[1..]);
    }
  }

  lemma {:induction false} PickedTexts(appended: seq<string>, records: seq<nat>)
    ensures TextsOf(appended, Pick(appended, records, true)) == WholeOf(TextsOf(appended, records))
  {
    hide Whole, TextAt;
    if records != [] {
      PickedTexts(appended, records[1..]);
      var first := Pick(appended, [records[0]], true);
      OnePick(appended, records[0]);
      TextsJoin(appended, first, Pick(appended, records[1..], true));
      OneText(appended, records[0]);
    }
  }

  lemma OnePick(appended: seq<string>, k: nat)
    ensures Pick(appended, [k], true) == if Whole(TextAt(appended, k)) then [k] else []
  {
    assert [k][1..] == [];
  }

  lemma OneText(appended: seq<string>, k: nat)
    ensures TextsOf(appended, [k]) == [TextAt(appended, k)] && TextsOf(appended, []) == []
  {
    assert [k][1..] == [];
  }

  lemma {:induction false} PicksCount(appended: seq<string>, records: seq<nat>)
    ensures multiset(Pick(appended, records, true)) + multiset(Pick(appended, records, false)) == multiset(records)
  {
    hide Whole, TextAt;
    if records != [] {
      PicksCount(appended, records[1..]);
      assert records == [records[0]] + records[1..];
    }
  }

  /** Nothing is cut exactly when every text is whole. */
  lemma {:induction false} NoneCut(appended: seq<string>, records: seq<nat>)
    ensures Pick(appended, records, false) == [] <==> WholeLines(TextsOf(appended, records))
    ensures WholeLines(TextsOf(appended, records)) ==> Pick(appended, records, true) == records
  {
    hide Whole, TextAt;
    if records != [] {
      NoneCut(appended, records[1..]);
      WholeFirst(TextsOf(appended, records));
      assert TextsOf(appended, records)[1..] == TextsOf(appended, records[1..]);
    }
  }

  // ----- Steps keep the invariant -----

  lemma Snoc(s: seq<nat>, n: nat)
    requires Ascending(s) && Below(s, n)
    ensures Ascending(s + [n]) && Below(s + [n], n + 1)
  {
  }

  lemma AppendConserves(b: Box, content: string)
    requires Conserved(b) && b.phase.Idle?
    ensures Conserved(Step(b, Append(content)))
  {
    hide All;
    var t, n := Step(b, Append(content)), |b.appended|;
    AllGrows(b, content);
    forall k: nat
      ensures multiset(All(t))[k] + multiset(t.lost)[k] == if k < |t.appended| then 1 else 0
    {
      assert multiset(All(b))[k] + multiset(b.lost)[k] == if k < n then 1 else 0;
    }
  }

  lemma AppendKeeps(b: Box, content: string)
    requires Inv(b) && b.phase.Idle?
    ensures Inv(Step(b, Append(content)))
  {
    hide TextsOf, All, Conserved, Ascending, Below;
    AppendConserves(b, content);
    AllGrows(b, content);
    Snoc(All(b), |b.appended|);
    Parts(b);
    TextsStay(b.appended, content, b.returned);
  }

  lemma Parts(b: Box)
    requires Below(All(b), |b.appended|)
    ensures Below(b.returned, |b.appended|) && Below(Held(b.draining), |b.appended|) && Below(Held(b.live), |b.appended|)
  {
    var a, t, x, y := b.returned, Taken(b), Held(b.draining), Held(b.live);
    forall i | 0 <= i < |a|
      ensures a[i] < |b.appended|
    {
      assert All(b)[i] == a[i];
    }
    forall i | 0 <= i < |x|
      ensures x[i] < |b.appended|
    {
      assert All(b)[|a| + |t| + i] == x[i];
    }
    forall i | 0 <= i < |y|
      ensures y[i] < |b.appended|
    {
      assert All(b)[|a| + |t| + |x| + i] == y[i];
    }
  }

  lemma AllGrows(b: Box, content: string)
    requires b.phase.Idle?
    ensures All(Step(b, Append(content))) == All(b) + [|b.appended|]
    ensures multiset(All(b) + [|b.appended|]) == multiset(All(b)) + multiset([|b.appended|])
  {
  }

  /** Same records in the same places. */
  lemma SameRecords(b: Box, t: Box)
    requires Inv(b) && All(t) == All(b) && t.appended == b.appended && t.lost == b.lost && Orderly(t) && Faithful(t)
    ensures Inv(t)
  {
    hide All, Orderly, Faithful;
  }

  lemma Regroup(a: seq<nat>, t: seq<nat>, x: seq<nat>, y: seq<nat>)
    ensures a + (t + (x + y)) == (a + t) + ([] + (x + y))
    ensures x + [] == x && [] + x == x
  {
  }

  lemma BeginKeeps(b: Box)
    requires Inv(b) && b.phase.Idle?
    ensures Inv(Step(b, Begin))
  {
    hide Ascending, Below, Conserved, WholeOf, FileTexts, Orderly, Faithful, All;
    BeginMoves(b);
    BeginIsFaithful(b);
    SameRecords(b, Step(b, Begin));
  }

  lemma BeginMoves(b: Box)
    requires b.phase.Idle?
    ensures var t := Step(b, Begin);
      All(t) == All(b) && t.appended == b.appended && t.lost == b.lost && Orderly(t)
  {
    Regroup(b.returned, [], Held(b.draining), Held(b.live));
  }

  lemma BeginIsFaithful(b: Box)
    requires b.phase.Idle? && Faithful(b)
    ensures Faithful(Step(b, Begin))
  {
    assert TextsOf(b.appended, []) == [];
  }

  lemma ReturnKeeps(b: Box)
    requires Inv(b) && Enabled(b, Return)
    ensures Inv(Step(b, Return))
  {
    hide Ascending, Below, Conserved, WholeOf, FileTexts, TextsOf;
    var t := Step(b, Return);
    Regroup(b.returned, b.phase.taken, Held(b.draining), Held(b.live));
    TextsJoin(b.appended, b.returned, b.phase.taken);
    assert b.phase.pending == TextsOf(b.appended, b.phase.taken);
    SameRecords(b, t);
  }

  lemma ReadKeeps(b: Box)
    requires Inv(b) && Enabled(b, Read) && ReadFile(b, b.phase.files[0]).Some?
    ensures Inv(Step(b, Read))
  {
    hide Ascending, Below, Conserved, WholeOf, TextsOf, Reading, SomePoison;
    var t := Step(b, Read);
    FileReads(FileTexts(b, b.phase.files[0]));
    assert All(t) == All(b);
    assert FileTexts(t, b.phase.files[0]) == FileTexts(b, b.phase.files[0]);
    assert TextsOf(b.appended, b.phase.taken) + [] == TextsOf(b.appended, b.phase.taken);
    SameRecords(b, t);
  }

  lemma Drop(a: seq<nat>, t: seq<nat>, x: seq<nat>, n: nat)
    requires Ascending(a + (t + x)) && Below(a + (t + x), n)
    ensures Ascending(a + ([] + x)) && Below(a + ([] + x), n)
  {
    var s, r := a + (t + x), a + ([] + x);
    forall i | 0 <= i < |r|
      ensures r[i] == s[if i < |a| then i else i + |t|]
    {
    }
  }

  lemma Counts(a: seq<nat>, t: seq<nat>, x: seq<nat>, lost: seq<nat>)
    ensures multiset(a + (t + x)) + multiset(lost) == multiset(a + ([] + x)) + multiset(lost + t)
  {
    assert multiset(a + (t + x)) == multiset(a) + multiset(t) + multiset(x);
    assert multiset(a + ([] + x)) == multiset(a) + multiset(x);
  }

  lemma AbandonKeeps(b: Box)
    requires Inv(b)
    ensures Inv(Abandoned(b))
  {
    hide TextsOf, FileTexts, WholeOf;
    var t := Abandoned(b);
    var files := Held(b.draining) + Held(b.live);
    Drop(b.returned, Taken(b), files, |b.appended|);
    Counts(b.returned, Taken(b), files, b.lost);
    SameCounts(b, t);
  }

  /** Conservation needs only the two together. */
  lemma SameCounts(b: Box, t: Box)
    requires Conserved(b) && t.appended == b.appended
    requires multiset(All(b)) + multiset(b.lost) == multiset(All(t)) + multiset(t.lost)
    ensures Conserved(t)
  {
    hide All;
    forall k: nat
      ensures multiset(All(t))[k] + multiset(t.lost)[k] == if k < |t.appended| then 1 else 0
    {
      assert (multiset(All(b)) + multiset(b.lost))[k] == multiset(All(b))[k] + multiset(b.lost)[k];
    }
  }

  lemma DropOne(p: seq<nat>, h: nat, q: seq<nat>, n: nat)
    requires Ascending(p + ([h] + q)) && Below(p + ([h] + q), n)
    ensures Ascending(p + q) && Below(p + q, n)
  {
    Drop(p, [h], q, n);
    assert [] + q == q;
  }

  /** Leaving out the cut records keeps the order. */
  lemma {:induction false} PickInPlace(appended: seq<string>, p: seq<nat>, x: seq<nat>, q: seq<nat>, n: nat)
    requires Ascending(p + (x + q)) && Below(p + (x + q), n)
    ensures Ascending(p + (Pick(appended, x, true) + q)) && Below(p + (Pick(appended, x, true) + q), n)
    decreases |x|
  {
    hide Ascending, Below, Whole, TextAt;
    if x != [] {
      var rest := x[1..];
      assert x + q == [x[0]] + (rest + q);
      if Whole(TextAt(appended, x[0])) {
        assert p + (x + q) == (p + [x[0]]) + (rest + q);
        PickInPlace(appended, p + [x[0]], rest, q, n);
        assert p + (([x[0]] + Pick(appended, rest, true)) + q) == (p + [x[0]]) + (Pick(appended, rest, true) + q);
      } else {
        DropOne(p, x[0], rest + q, n);
        PickInPlace(appended, p, rest, q, n);
        assert [] + Pick(appended, rest, true) == Pick(appended, rest, true);
      }
    }
  }

  /** Where the records are before and after an unlink: the file's records stand behind those taken. */
  lemma UnlinkMoves(b: Box)
    requires Orderly(b) && Enabled(b, Unlink)
    ensures var x := Contents(b, b.phase.files[0]);
      var y := if b.phase.files[0].Temp? then Held(b.live) else [];
      && All(b) == (b.returned + b.phase.taken) + (x + y)
      && All(Unlinked(b)) == (b.returned + b.phase.taken) + (Pick(b.appended, x, true) + y)
      && Orderly(Unlinked(b))
  {
    hide Pick;
    var x := Contents(b, b.phase.files[0]);
    var y := if b.phase.files[0].Temp? then Held(b.live) else [];
    Places(b.returned, b.phase.taken, x, Pick(b.appended, x, true), y);
  }

  lemma Places(a: seq<nat>, t: seq<nat>, x: seq<nat>, p: seq<nat>, y: seq<nat>)
    ensures a + (t + (x + y)) == (a + t) + (x + y)
    ensures a + ((t + p) + ([] + y)) == (a + t) + (p + y)
    ensures [] + x == x && x + [] == x && p + [] == p
  {
  }

  lemma UnlinkKeeps(b: Box)
    requires Inv(b) && Enabled(b, Unlink)
    ensures Inv(Step(b, Unlink))
  {
    hide Ascending, Below, Pick, All, TextsOf, WholeOf;
    var t := Unlinked(b);
    var x := Contents(b, b.phase.files[0]);
    var y := if b.phase.files[0].Temp? then Held(b.live) else [];
    UnlinkMoves(b);
    PickInPlace(b.appended, b.returned + b.phase.taken, x, y, |b.appended|);
    PicksCount(b.appended, x);
    UnlinkCounts(b.returned + b.phase.taken, x, Pick(b.appended, x, true), Pick(b.appended, x, false), y, b.lost);
    SameCounts(b, t);
    PickedTexts(b.appended, x);
    TextsJoin(b.appended, b.phase.taken, Pick(b.appended, x, true));
    assert TextsOf(t.appended, t.phase.taken) + [] == TextsOf(t.appended, t.phase.taken);
  }

  lemma UnlinkCounts(a: seq<nat>, x: seq<nat>, p: seq<nat>, c: seq<nat>, y: seq<nat>, lost: seq<nat>)
    requires multiset(p) + multiset(c) == multiset(x)
    ensures multiset(a + (x + y)) + multiset(lost) == multiset(a + (p + y)) + multiset(lost + c)
  {
    assert multiset(a + (x + y)) == multiset(a) + multiset(x) + multiset(y);
    assert multiset(a + (p + y)) == multiset(a) + multiset(p) + multiset(y);
  }

  lemma StepKeeps(b: Box, e: Event)
    requires Inv(b) && Enabled(b, e)
    ensures Inv(Step(b, e))
  {
    hide Inv, All, Orderly, Faithful;
    match e {
      case Append(content) => AppendKeeps(b, content);
      case Begin => BeginKeeps(b);
      case Read =>
        if ReadFile(b, b.phase.files[0]).Some? {
          ReadKeeps(b);
        } else {
          AbandonKeeps(b);
        }
      case Unlink => UnlinkKeeps(b);
      case Return => ReturnKeeps(b);
      case Crash => AbandonKeeps(b);
    }
  }

  // ----- Runs -----

  ghost predicate Reaches(b: Box, events: seq<Event>, t: Box)
    decreases |events|
  {
    if events == [] then b == t
    else Enabled(b, events[0]) && Reaches(Step(b, events[0]), events[1..], t)
  }

  /** The step loses no record: nothing is in hand when the drain is abandoned, and only whole records are unlinked. */
  predicate Sparing(b: Box, e: Event)
    requires Enabled(b, e)
  {
    match e
    case Crash => Taken(b) == []
    case Read => ReadFile(b, b.phase.files[0]).None? ==> Taken(b) == []
    case Unlink => WholeLines(FileTexts(b, b.phase.files[0]))
    case _ => true
  }

  predicate Spares(b: Box, events: seq<Event>)
    decreases |events|
  {
    events == [] || (Enabled(b, events[0]) ==> Sparing(b, events[0]) && Spares(Step(b, events[0]), events[1..]))
  }

  /** No crash comes while a drain holds records whose file it has already removed. */
  predicate CrashesSpare(b: Box, events: seq<Event>)
    decreases |events|
  {
    events == [] ||
    (Enabled(b, events[0]) ==> (events[0].Crash? ==> Taken(b) == []) && CrashesSpare(Step(b, events[0]), events[1..]))
  }

  lemma {:induction false} RunKeeps(b: Box, events: seq<Event>, t: Box)
    requires Inv(b) && Reaches(b, events, t)
    ensures Inv(t)
    decreases |events|
  {
    hide Inv, Step, Enabled;
    if events != [] {
      StepKeeps(b, events[0]);
      RunKeeps(Step(b, events[0]), events[1..], t);
    }
  }

  lemma StepLoses(b: Box, e: Event)
    requires Enabled(b, e)
    ensures |b.lost| <= |Step(b, e).lost|
    ensures |Step(b, e).lost| == |b.lost| <==> Sparing(b, e)
  {
    hide WholeLines, ReadFile;
    if e.Unlink? {
      NoneCut(b.appended, Contents(b, b.phase.files[0]));
    }
  }

  lemma {:induction false} LossOnlyWhenUnsparing(b: Box, events: seq<Event>, t: Box)
    requires Reaches(b, events, t)
    ensures |b.lost| <= |t.lost|
    ensures |t.lost| == |b.lost| <==> Spares(b, events)
    decreases |events|
  {
    hide Step, Sparing, Enabled;
    if events != [] {
      StepLoses(b, events[0]);
      LossOnlyWhenUnsparing(Step(b, events[0]), events[1..], t);
    }
  }

  function Range(n: nat): (r: seq<nat>)
    ensures |r| == n && forall i :: 0 <= i < n ==> r[i] == i
  {
    seq(n, i => i)
  }

  lemma {:induction false} AscendingCounts(s: seq<nat>, n: nat)
    requires Ascending(s) && Below(s, n)
    requires forall k: nat :: k < n ==> k in s
    ensures |s| == n && forall i :: 0 <= i < n ==> s[i] == i
    decreases n
  {
    assert s != [] ==> s[0] < n;
    if n > 0 {
      assert n - 1 in s;
      var last := |s| - 1;
      assert s[last] == n - 1;
      forall k: nat | k < n - 1
        ensures k in s[..last]
      {
        assert k in s;
        var i :| 0 <= i < |s| && s[i] == k;
        assert s[..last][i] == k;
      }
      AscendingCounts(s[..last], n - 1);
    }
  }

  /**
   * Over every run of appends, drain steps, exceptions and crashes: the texts delivered are those of appended
   * records in the order of the appends, none twice. Delivered, pending and filed records together are all the
   * appended ones, in order, if and only if every drain that crashed or raised had unlinked nothing of substance
   * and every file unlinked held whole records.
   */
  lemma MailboxKeepsOrder(events: seq<Event>, t: Box)
    requires Reaches(Empty(), events, t)
    ensures Ascending(t.returned) && Below(t.returned, |t.appended|) && t.delivered == TextsOf(t.appended, t.returned)
    ensures Ascending(All(t))
    ensures All(t) == Range(|t.appended|) <==> Spares(Empty(), events)
  {
    hide All, Spares;
    EmptyInv();
    RunKeeps(Empty(), events, t);
    LossOnlyWhenUnsparing(Empty(), events, t);
    FirstPart(t);
    NoneLost(t);
  }

  lemma EmptyInv()
    ensures Inv(Empty())
  {
  }

  lemma FirstPart(b: Box)
    requires Ascending(All(b)) && Below(All(b), |b.appended|)
    ensures Ascending(b.returned) && Below(b.returned, |b.appended|)
  {
    assert forall i :: 0 <= i < |b.returned| ==> b.returned[i] == All(b)[i];
  }

  lemma NoneLost(b: Box)
    requires Inv(b)
    ensures All(b) == Range(|b.appended|) <==> b.lost == []
  {
    hide All, Orderly, Faithful;
    var n := |b.appended|;
    if b.lost == [] {
      forall k: nat | k < n
        ensures k in All(b)
      {
        assert multiset(All(b))[k] == 1;
      }
      AscendingCounts(All(b), n);
    } else {
      SomeLost(b);
    }
  }

  lemma SomeLost(b: Box)
    requires Conserved(b) && b.lost != []
    ensures All(b) != Range(|b.appended|)
  {
    hide All;
    var k := b.lost[0];
    assert k in multiset(b.lost);
    assert multiset(All(b))[k] == 0 && k < |b.appended|;
    assert k !in All(b);
    assert Range(|b.appended|)[k] == k;
  }

  // ----- Whole contents: only crashes lose -----

  lemma {:induction false} WholeTexts(appended: seq<string>, records: seq<nat>)
    requires WholeLines(appended)
    ensures WholeLines(TextsOf(appended, records))
  {
    hide Whole;
    if records != [] {
      WholeTexts(appended, records[1..]);
      WholeFirst(TextsOf(appended, records));
      assert TextsOf(appended, records)[1..] == TextsOf(appended, records[1..]);
      assert Whole("") by {
        NothingToCut();
      }
    }
  }

  lemma NothingToCut()
    ensures Whole("")
  {
  }

  lemma WholeSparing(b: Box, e: Event)
    requires Enabled(b, e) && WholeLines(b.appended)
    ensures Sparing(b, e) <==> (e.Crash? ==> Taken(b) == [])
  {
    hide WholeLines, Reading, SomePoison, TextsOf;
    if e.Read? || e.Unlink? {
      WholeTexts(b.appended, Contents(b, b.phase.files[0]));
      FileReads(FileTexts(b, b.phase.files[0]));
      WholeOfWhole(FileTexts(b, b.phase.files[0]));
    }
  }

  lemma {:induction false} WholeRunsSpare(b: Box, events: seq<Event>, t: Box)
    requires Reaches(b, events, t) && WholeLines(t.appended)
    ensures b.appended <= t.appended && WholeLines(b.appended)
    ensures Spares(b, events) <==> CrashesSpare(b, events)
    decreases |events|
  {
    hide Sparing;
    if events != [] {
      WholeRunsSpare(Step(b, events[0]), events[1..], t);
      assert b.appended <= Step(b, events[0]).appended;
      WholePrefix(b.appended, t.appended);
      WholeSparing(b, events[0]);
    }
  }

  lemma WholePrefix(a: seq<string>, b: seq<string>)
    requires a <= b && WholeLines(b)
    ensures WholeLines(a)
  {
    hide Whole;
    forall i | 0 <= i < |a|
      ensures Whole(a[i])
    {
      assert a[i] == b[i];
    }
  }

  /** When no content holds a separator that JSON leaves raw, a crash is the only way to lose a record. */
  lemma WholeContentsAreLostOnlyByCrashes(events: seq<Event>, t: Box)
    requires Reaches(Empty(), events, t) && WholeLines(t.appended)
    ensures All(t) == Range(|t.appended|) <==> CrashesSpare(Empty(), events)
  {
    hide All, Spares, CrashesSpare;
    MailboxKeepsOrder(events, t);
    WholeRunsSpare(Empty(), events, t);
  }

  lemma {:induction false} TextsOfRange(appended: seq<string>, k: nat)
    requires k <= |appended|
    ensures TextsOf(appended, Range(|appended|)[k..]) == appended[k..]
    decreases |appended| - k
  {
    var all := Range(|appended|);
    if k < |appended| {
      TextsOfRange(appended, k + 1);
      assert all[k..][0] == k && all[k..][1..] == all[k + 1..];
      assert appended[k..] == [appended[k]] + appended[k + 1..];
    } else {
      assert all[k..] == [];
    }
  }

  lemma {:induction false} AscendingFull(s: seq<nat>, n: nat)
    requires Ascending(s) && Below(s, n) && |s| == n
    ensures s == Range(n)
    decreases n
  {
    if n > 0 {
      var last := n - 1;
      forall i | 0 <= i < |s[..last]|
        ensures s[..last][i] < last
      {
        assert s[i] < s[last];
      }
      AscendingFull(s[..last], last);
      assert n > 1 ==> s[last] > s[last - 1] && s[..last][last - 1] == last - 1;
      assert s[last] == last;
      assert s == s[..last] + [last];
    }
  }

  lemma {:induction false} TextsSize(appended: seq<string>, records: seq<nat>)
    ensures |TextsOf(appended, records)| == |records|
  {
    if records != [] {
      TextsSize(appended, records[1..]);
    }
  }

  /** With no drain under way and no file left, everything appended was delivered in order if and only if every step was sparing. */
  lemma EverythingArrivesExactlyWhenSpared(events: seq<Event>, t: Box)
    requires Reaches(Empty(), events, t)
    requires t.phase.Idle? && t.live.None? && t.draining.None?
    ensures t.delivered == t.appended <==> Spares(Empty(), events)
  {
    hide TextsOf, Spares, Reaches;
    MailboxKeepsOrder(events, t);
    assert All(t) == t.returned;
    var n := |t.appended|;
    TextsOfRange(t.appended, 0);
    assert Range(n)[0..] == Range(n) && t.appended[0..] == t.appended;
    if t.delivered == t.appended {
      TextsSize(t.appended, t.returned);
      AscendingFull(t.returned, n);
    }
  }

  /** Whole contents arrive, all and in order, when every crash spared the drains and no file is left. */
  lemma EverythingArrives(events: seq<Event>, t: Box)
    requires Reaches(Empty(), events, t) && CrashesSpare(Empty(), events) && WholeLines(t.appended)
    requires t.phase.Idle? && t.live.None? && t.draining.None?
    ensures t.delivered == t.appended
  {
    hide Spares, Reaches, CrashesSpare;
    WholeRunsSpare(Empty(), events, t);
    EverythingArrivesExactlyWhenSpared(events, t);
  }

  // ----- A content that raises stops the mailbox -----

  predicate Poisoned(b: Box, name: Name) { SomePoison(FileTexts(b, name)) }

  /** A drain cannot return any more: every file with a content that raises is still ahead of it. */
  predicate Stuck(b: Box) {
    match b.phase
    case Idle => Poisoned(b, Temp) || Poisoned(b, Live)
    case Draining(files, read, _, _) =>
      exists i :: 0 <= i < |files| && Poisoned(b, files[i]) && (i == 0 ==> !read)
  }

  lemma PoisonedFileRaises(b: Box, name: Name)
    ensures ReadFile(b, name).None? <==> Poisoned(b, name)
  {
    hide Reading, SomePoison;
    FileReads(FileTexts(b, name));
  }

  lemma NoPoisonInNothing()
    ensures !SomePoison([])
  {
  }

  lemma PoisonSurvivesAppend(b: Box, content: string, name: Name)
    requires Inv(b) && b.phase.Idle? && Poisoned(b, name)
    ensures Poisoned(Step(b, Append(content)), name)
  {
    hide TextsOf, Poisons;
    Parts(b);
    TextsStay(b.appended, content, Contents(b, name));
    if name.Live? {
      TextsJoin(b.appended + [content], Held(b.live), [|b.appended|]);
      var texts := TextsOf(b.appended, Held(b.live));
      var i :| 0 <= i < |texts| && Poisons(texts[i]);
      assert FileTexts(Step(b, Append(content)), Live)[i] == texts[i];
    }
  }

  lemma StuckStep(b: Box, e: Event)
    requires Inv(b) && Stuck(b) && Enabled(b, e)
    ensures Stuck(Step(b, e)) && Step(b, e).delivered == b.delivered
  {
    hide Inv, SomePoison, TextsOf, Reading, Pick;
    match e {
      case Append(content) =>
        if Poisoned(b, Temp) {
          PoisonSurvivesAppend(b, content, Temp);
        } else {
          PoisonSurvivesAppend(b, content, Live);
        }
      case Begin => StuckBegin(b);
      case Read => StuckRead(b);
      case Unlink =>
        OrderlyOf(b);
        StuckUnlink(b);
      case Return =>
      case Crash => StuckAbandon(b);
    }
  }

  lemma OrderlyOf(b: Box)
    requires Inv(b)
    ensures Orderly(b)
  {
  }

  lemma StuckBegin(b: Box)
    requires Stuck(b) && b.phase.Idle?
    ensures Stuck(Step(b, Begin))
  {
    hide SomePoison, Reading;
    NoPoisonInNothing();
    assert b.draining.None? ==> FileTexts(b, Temp) == [];
    assert b.live.None? ==> FileTexts(b, Live) == [];
    var t := Step(b, Begin);
    if b.draining.Some? {
      assert t.phase.files[0] == Temp && (b.live.Some? ==> t.phase.files[1] == Live);
      assert Poisoned(b, Temp) ==> Poisoned(t, t.phase.files[0]);
      assert Poisoned(b, Live) ==> Poisoned(t, t.phase.files[1]);
    } else {
      assert FileTexts(t, Temp) == FileTexts(b, Live);
      assert Poisoned(t, t.phase.files[0]);
    }
  }

  lemma StuckAbandon(b: Box)
    requires Stuck(b)
    ensures Stuck(Abandoned(b))
  {
    hide SomePoison, TextsOf;
    var t := Abandoned(b);
    assert FileTexts(t, Temp) == FileTexts(b, Temp) && FileTexts(t, Live) == FileTexts(b, Live);
    if b.phase.Draining? {
      var i :| 0 <= i < |b.phase.files| && Poisoned(b, b.phase.files[i]);
      assert Poisoned(t, b.phase.files[i]);
    }
  }

  lemma StuckRead(b: Box)
    requires Stuck(b) && Enabled(b, Read)
    ensures Stuck(Step(b, Read))
  {
    hide SomePoison, TextsOf, Reading;
    PoisonedFileRaises(b, b.phase.files[0]);
    if ReadFile(b, b.phase.files[0]).None? {
      StuckAbandon(b);
    } else {
      var t := Step(b, Read);
      var i :| 0 <= i < |b.phase.files| && Poisoned(b, b.phase.files[i]);
      assert i > 0 && FileTexts(t, t.phase.files[i]) == FileTexts(b, b.phase.files[i]);
      assert Poisoned(t, t.phase.files[i]);
    }
  }

  lemma StuckUnlink(b: Box)
    requires Stuck(b) && Orderly(b) && Enabled(b, Unlink)
    ensures Stuck(Unlinked(b))
  {
    hide SomePoison, TextsOf, Pick;
    var t := Unlinked(b);
    var i :| 0 <= i < |b.phase.files| && Poisoned(b, b.phase.files[i]) && (i == 0 ==> !b.phase.read);
    assert t.phase.files[i - 1] == b.phase.files[i] && b.phase.files[i] != b.phase.files[0];
    assert FileTexts(t, t.phase.files[i - 1]) == FileTexts(b, b.phase.files[i]);
    assert Poisoned(t, t.phase.files[i - 1]);
  }

  lemma {:induction false} StuckStays(b: Box, events: seq<Event>, t: Box)
    requires Inv(b) && Stuck(b) && Reaches(b, events, t)
    ensures t.delivered == b.delivered && Stuck(t)
    decreases |events|
  {
    hide Inv, Stuck, Step, Enabled;
    if events != [] {
      StepKeeps(b, events[0]);
      StuckStep(b, events[0]);
      StuckStays(Step(b, events[0]), events[1..], t);
    }
  }

  /**
   * Once a content that raises has been appended nothing is ever delivered again: however often it is retried, no
   * drain reaches its return.
   */
  lemma PoisonStopsTheMailbox(before: seq<Event>, b: Box, content: string, events: seq<Event>, t: Box)
    requires Reaches(Empty(), before, b) && b.phase.Idle? && Poisons(content)
    requires Reaches(Step(b, Append(content)), events, t)
    ensures t.delivered == b.delivered && !Enabled(t, Return)
  {
    hide Inv, Reaches, Poisons, TextsOf;
    EmptyInv();
    RunKeeps(Empty(), before, b);
    StepKeeps(b, Append(content));
    var u := Step(b, Append(content));
    TextsJoin(u.appended, Held(b.live), [|b.appended|]);
    OneText(u.appended, |b.appended|);
    var texts := FileTexts(u, Live);
    assert texts[|texts| - 1] == content;
    assert Poisoned(u, Live);
    StuckStays(u, events, t);
  }

  /** One such content: a number between two separators. */
  lemma OneNumberStopsTheMailbox(before: seq<Event>, b: Box, events: seq<Event>, t: Box)
    requires Reaches(Empty(), before, b) && b.phase.Idle?
    requires Reaches(Step(b, Append("\U{2028}1\U{2028}")), events, t)
    ensures t.delivered == b.delivered && !Enabled(t, Return)
  {
    NumberLinePoisons();
    PoisonStopsTheMailbox(before, b, "\U{2028}1\U{2028}", events, t);
  }

  // ----- One drain -----

  /** The steps of a drain that nothing interrupts, once it has listed `n` files. */
  function TakeFiles(n: nat): seq<Event> {
    if n == 0 then [Return] else [Read, Unlink] + TakeFiles(n - 1)
  }

  function FileCount(b: Box): nat {
    (if b.draining.Some? then 1 else 0) + (if b.live.Some? then 1 else 0)
  }

  /** The box after `Begin` and after taking one file. */
  function Listed(b: Box): Box
    requires b.phase.Idle?
  {
    Step(b, Begin)
  }

  predicate CanTake(b: Box) {
    b.phase.Draining? && b.phase.files != [] && !b.phase.read && ReadFile(b, b.phase.files[0]).Some?
  }

  function TookOne(b: Box): Box
    requires CanTake(b)
  {
    Step(Step(b, Read), Unlink)
  }

  lemma Unroll(b: Box, e: Event, rest: seq<Event>, t: Box)
    requires Enabled(b, e) && Reaches(Step(b, e), rest, t)
    ensures Reaches(b, [e] + rest, t)
  {
    assert ([e] + rest)[1..] == rest;
  }

  lemma Arrived(b: Box)
    requires b.phase.Draining? && b.phase.files == []
    ensures Reaches(b, TakeFiles(0), Step(b, Return))
  {
    Unroll(b, Return, [], Step(b, Return));
    assert [Return] + [] == TakeFiles(0);
  }

  lemma CanUnlink(b: Box)
    requires CanTake(b)
    ensures Enabled(b, Read) && Enabled(Step(b, Read), Unlink)
  {
  }

  lemma UnrollFile(b: Box, n: nat, t: Box)
    requires CanTake(b) && Reaches(TookOne(b), TakeFiles(n), t)
    ensures Reaches(b, TakeFiles(n + 1), t)
  {
    hide Reaches, Step, CanTake;
    CanUnlink(b);
    Unroll(Step(b, Read), Unlink, TakeFiles(n), t);
    Unroll(b, Read, [Unlink] + TakeFiles(n), t);
    assert [Read] + ([Unlink] + TakeFiles(n)) == TakeFiles(n + 1);
  }

  /** What taking one file does to the texts, and which files are left. */
  lemma TookOneIs(b: Box)
    requires CanTake(b) && Orderly(b)
    ensures var u := TookOne(b);
      && u.phase.Draining? && u.phase.files == b.phase.files[1..] && !u.phase.read
      && u.phase.pending == b.phase.pending + WholeOf(FileTexts(b, b.phase.files[0]))
      && u.delivered == b.delivered && u.appended == b.appended && Orderly(u)
      && u.draining == (if b.phase.files[0].Temp? then None else b.draining)
      && u.live == (if b.phase.files[0].Temp? then b.live else None)
  {
    hide WholeOf, TextsOf, Pick, Reading, SomePoison;
    FileReads(FileTexts(b, b.phase.files[0]));
    UnlinkMoves(Step(b, Read)) by {
      assert Orderly(Step(b, Read)) && Enabled(Step(b, Read), Unlink);
    }
  }

  /**
   * A drain that nothing interrupts and no content makes raise, also one after a crashed drain, delivers the whole
   * contents of the older file and then of the newer, and leaves no file.
   */
  lemma DrainTakesAll(b: Box) returns (t: Box)
    requires b.phase.Idle? && !Poisoned(b, Temp) && !Poisoned(b, Live)
    ensures Reaches(b, [Begin] + TakeFiles(FileCount(b)), t)
    ensures t.phase.Idle? && t.live.None? && t.draining.None?
    ensures t.delivered == b.delivered + (WholeOf(FileTexts(b, Temp)) + WholeOf(FileTexts(b, Live)))
  {
    hide Reaches, TakeFiles, TookOne, CanTake, WholeOf, TextsOf, SomePoison, Reading;
    var first := Listed(b);
    Readable(b);
    if FileCount(b) == 2 {
      TookOneIs(first);
      var second := TookOne(first);
      SecondIsReadable(b, second);
      TookOneIs(second);
      var third := TookOne(second);
      t := Step(third, Return);
      Arrived(third);
      UnrollFile(second, 0, t);
      UnrollFile(first, 1, t);
      assert [] + WholeOf(FileTexts(b, Temp)) + WholeOf(FileTexts(b, Live)) == WholeOf(FileTexts(b, Temp)) + WholeOf(FileTexts(b, Live));
    } else if FileCount(b) == 1 {
      TookOneIs(first);
      var second := TookOne(first);
      t := Step(second, Return);
      Arrived(second);
      UnrollFile(first, 0, t);
      OneFileTexts(b);
    } else {
      t := Step(first, Return);
      Arrived(first);
      OneFileTexts(b);
    }
    Unroll(b, Begin, TakeFiles(FileCount(b)), t);
  }

  lemma Readable(b: Box)
    requires b.phase.Idle? && !Poisoned(b, Temp) && !Poisoned(b, Live)
    ensures Orderly(Listed(b)) && Enabled(b, Begin)
    ensures FileCount(b) > 0 ==> CanTake(Listed(b))
    ensures FileCount(b) == 0 ==> Listed(b).phase.Draining? && Listed(b).phase.files == []
  {
    hide Reading, SomePoison, TextsOf;
    PoisonedFileRaises(b, Temp);
    PoisonedFileRaises(b, Live);
    assert FileCount(b) > 0 && b.draining.None? ==> FileTexts(Listed(b), Temp) == FileTexts(b, Live);
    assert b.draining.Some? ==> FileTexts(Listed(b), Temp) == FileTexts(b, Temp);
  }

  lemma SecondIsReadable(b: Box, second: Box)
    requires b.phase.Idle? && !Poisoned(b, Live) && FileCount(b) == 2
    requires second.phase.Draining? && second.phase.files == [Live] && !second.phase.read
    requires second.live == b.live && second.appended == b.appended
    ensures CanTake(second) && FileTexts(second, Live) == FileTexts(b, Live)
  {
    hide Reading, SomePoison, TextsOf;
    PoisonedFileRaises(second, Live);
  }

  lemma OneFileTexts(b: Box)
    requires b.phase.Idle?
    ensures b.draining.None? ==> WholeOf(FileTexts(b, Temp)) == []
    ensures b.live.None? ==> WholeOf(FileTexts(b, Live)) == []
    ensures b.draining.None? && b.live.Some? ==> FileTexts(Listed(b), Temp) == FileTexts(b, Live)
    ensures b.draining.Some? ==> FileTexts(Listed(b), Temp) == FileTexts(b, Temp)
  {
  }
}
