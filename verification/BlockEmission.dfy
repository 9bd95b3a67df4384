/** Emitting rendered blocks one by one (html_to_markdown.py) against joining them all: exactly when they agree. */
module BlockEmission {
  import opened Basics

  const NL := '\n'

  function Cap(n: nat): nat { if n > 2 then 2 else n }
  function Newlines(n: nat): string { seq(n, _ => NL) }

  function Leading(s: string): (n: nat)
    ensures n <= |s|
  {
    if s != "" && s[0] == NL then 1 + Leading(s[1..]) else 0
  }

  function Trailing(s: string): (n: nat)
    ensures n <= |s|
  {
    if s != "" && s[|s| - 1] == NL then 1 + Trailing(s[..|s| - 1]) else 0
  }

  // ----- `_join` and its fold -----

  function TrimLeading(s: string): string { s[Leading(s)..] }
  function TrimTrailing(s: string): string { s[..|s| - Trailing(s)] }
  function TrimNewlines(s: string): string { TrimTrailing(TrimLeading(s)) }

  function Join(left: string, right: string): string {
    TrimTrailing(left) + Newlines(Cap(Max(Trailing(left), Leading(right)))) + TrimLeading(right)
  }

  function Folded(blocks: seq<string>): string {
    if blocks == [] then "" else Join(Folded(blocks[..|blocks| - 1]), blocks[|blocks| - 1])
  }

  // ----- `_emit_block` -----

  /** What has reached the sink, and the newline demand left by the last block. */
  datatype Emitted = Emitted(out: string, last: nat)

  function Emit(e: Emitted, rendered: string): Emitted {
    if rendered == "" then e
    else
      var a, c := Leading(rendered), Trailing(rendered);
      var body := RStrip(TrimNewlines(rendered));
      if body == "" then
        (if e.out != "" && Cap(a + c) > e.last then e.(last := Cap(a + c)) else e)
      else if e.out == "" then Emitted(body, c)
      else Emitted(e.out + Newlines(Cap(Max(e.last, a))) + body, c)
  }

  function Streamed(blocks: seq<string>): Emitted {
    if blocks == [] then Emitted("", 0) else Emit(Streamed(blocks[..|blocks| - 1]), blocks[|blocks| - 1])
  }

  class Emitter {
    var sunk: seq<string>
    var emittedCount: nat
    var lastTrailing: nat

    ghost predicate Valid()
      reads this
    {
      emittedCount == 0 <==> Concat(sunk) == ""
    }

    constructor ()
      ensures Valid() && Emitted(Concat(sunk), lastTrailing) == Emitted("", 0)
    {
      sunk, emittedCount, lastTrailing := [], 0, 0;
    }

    method Sink(fragment: string)
      modifies this`sunk
      ensures Concat(sunk) == Concat(old(sunk)) + fragment
    {
      sunk := sunk + [fragment];
      ConcatSnoc(old(sunk), fragment);
    }

    /** The body, behind its separator unless it comes first. */
    method SinkBody(body: string, sep: nat)
      requires Valid()
      modifies this`sunk
      ensures Concat(sunk) == if old(Concat(sunk)) == "" then body else old(Concat(sunk)) + Newlines(sep) + body
    {
      hide Concat;
      if emittedCount == 0 {
        Sink(body);
        assert "" + body == body;
      } else {
        if sep > 0 {
          Sink(Newlines(sep));
        } else {
          assert Concat(sunk) + Newlines(0) == Concat(sunk);
        }
        Sink(body);
      }
    }

    method EmitBlock(rendered: string)
      requires Valid()
      modifies this
      ensures Valid()
      ensures Emitted(Concat(sunk), lastTrailing) == Emit(old(Emitted(Concat(sunk), lastTrailing)), rendered)
    {
      hide Concat, RStrip, Leading, Trailing, TrimNewlines;
      if rendered == "" {
        return;
      }
      var leading := CountLeading(rendered);
      var trailing := CountTrailing(rendered);
      SliceIsTrim(rendered);
      var middle := if leading < |rendered| then rendered[leading..|rendered| - trailing] else "";
      var body := RStrip(middle);
      if body == "" {
        var spacing := Cap(leading + trailing);
        if emittedCount > 0 && spacing > lastTrailing {
          lastTrailing := spacing;
        }
        return;
      }
      SinkBody(body, Cap(Max(lastTrailing, leading)));
      lastTrailing := trailing;
      emittedCount := emittedCount + 1;
    }

    /** One flush after another, from a new emitter. */
    method EmitAll(blocks: seq<string>)
      requires Valid() && Emitted(Concat(sunk), lastTrailing) == Emitted("", 0)
      modifies this
      ensures Concat(sunk) == Streamed(blocks).out
    {
      hide Emit, Concat;
      var i := 0;
      while i < |blocks|
        invariant Valid() && 0 <= i <= |blocks|
        invariant Emitted(Concat(sunk), lastTrailing) == Streamed(blocks[..i])
      {
        EmitBlock(blocks[i]);
        assert blocks[..i + 1][..i] == blocks[..i];
        i := i + 1;
      }
      assert blocks[..i] == blocks;
    }
  }

  method CountLeading(s: string) returns (i: nat)
    ensures i == Leading(s)
  {
    i := 0;
    while i < |s| && s[i] == NL
      invariant i <= |s|
      invariant i + Leading(s[i..]) == Leading(s)
    {
      assert s[i..][1..] == s[i + 1..];
      i := i + 1;
    }
  }

  method CountTrailing(s: string) returns (n: nat)
    ensures n == Trailing(s)
  {
    var j := |s|;
    assert s[..j] == s;
    while j > 0 && s[j - 1] == NL
      invariant 0 <= j <= |s|
      invariant |s| - j + Trailing(s[..j]) == Trailing(s)
    {
      assert s[..j][..j - 1] == s[..j - 1];
      j := j - 1;
    }
    n := |s| - j;
  }

  // ----- The fold, seen as its core and the newlines after it -----

  /** The fold without its outer newlines, and how many end it. */
  datatype Core = Core(core: string, trail: nat)

  predicate Bare(s: string) {
    s != "" ==> s[0] != NL && s[|s| - 1] != NL
  }

  function Middle(b: string): string { TrimNewlines(b) }

  function JoinCore(k: Core, b: string): Core {
    var mid := Middle(b);
    if mid == "" then Core(k.core, Cap(Max(k.trail, Leading(b))))
    else Core(if k.core == "" then mid else k.core + Newlines(Cap(Max(k.trail, Leading(b)))) + mid, Trailing(b))
  }

  function CoreOf(blocks: seq<string>): Core {
    if blocks == [] then Core("", 0) else JoinCore(CoreOf(blocks[..|blocks| - 1]), blocks[|blocks| - 1])
  }

  predicate Represents(s: string, p: nat, k: Core) {
    Bare(k.core) && s == (if k.core == "" then Newlines(k.trail) else Newlines(p) + k.core + Newlines(k.trail))
  }

  lemma {:induction false} LeadingOf(p: nat, m: string)
    requires m == "" || m[0] != NL
    ensures Leading(Newlines(p) + m) == p && TrimLeading(Newlines(p) + m) == m
    decreases p
  {
    var s := Newlines(p) + m;
    if p == 0 {
      assert s == m;
    } else {
      assert s[1..] == Newlines(p - 1) + m;
      LeadingOf(p - 1, m);
    }
    assert s[p..] == m;
  }

  lemma {:induction false} TrailingOf(m: string, t: nat)
    requires m == "" || m[|m| - 1] != NL
    ensures Trailing(m + Newlines(t)) == t && TrimTrailing(m + Newlines(t)) == m
    decreases t
  {
    var s := m + Newlines(t);
    if t == 0 {
      assert s == m;
    } else {
      assert s[..|s| - 1] == m + Newlines(t - 1);
      TrailingOf(m, t - 1);
    }
    assert s[..|m|] == m;
  }

  lemma {:induction false} LeadingRun(s: string)
    ensures var n := Leading(s); s[0..n] == Newlines(n) && (n < |s| ==> s[n] != NL)
  {
    if s != "" && s[0] == NL {
      LeadingRun(s[1..]);
      var n := Leading(s[1..]);
      assert s[0..n + 1] == [NL] + s[1..][0..n];
      assert Newlines(n + 1) == [NL] + Newlines(n);
    } else {
      assert s[0..0] == Newlines(0);
    }
  }

  lemma SnocSlice(t: string, e: nat)
    requires e <= |t|
    ensures (t + [NL])[e..|t| + 1] == t[e..|t|] + [NL]
  {
  }

  lemma {:induction false} TrailingRun(s: string)
    ensures var e := |s| - Trailing(s); s[e..|s|] == Newlines(Trailing(s)) && (e > 0 ==> s[e - 1] != NL)
  {
    if s != "" && s[|s| - 1] == NL {
      var t := s[..|s| - 1];
      TrailingRun(t);
      var n := Trailing(t);
      assert s == t + [NL];
      SnocSlice(t, |t| - n);
      assert Newlines(n + 1) == Newlines(n) + [NL];
    } else {
      assert s[|s|..|s|] == Newlines(0);
    }
  }

  lemma Split(s: string, i: nat)
    requires i <= |s|
    ensures s == s[0..i] + s[i..] && s == s[..i] + s[i..|s|]
  {
  }

  lemma TrimmedHalf(b: string)
    ensures b == Newlines(Leading(b)) + TrimLeading(b)
    ensures TrimLeading(b) == Middle(b) + Newlines(Trailing(TrimLeading(b)))
    ensures TrimLeading(b) == "" || TrimLeading(b)[0] != NL
  {
    hide Leading, Trailing, Newlines;
    LeadingRun(b);
    Split(b, Leading(b));
    var t := TrimLeading(b);
    TrailingRun(t);
    Split(t, |t| - Trailing(t));
  }

  lemma NewlinesOnly(b: string)
    requires TrimLeading(b) == ""
    ensures b == Newlines(Leading(b)) && Leading(b) == Trailing(b) == |b| && Middle(b) == ""
  {
    hide Leading, Trailing, Newlines, TrimTrailing;
    TrimmedHalf(b);
    var a := Newlines(Leading(b));
    NewlinesSize(Leading(b));
    assert a + "" == a && "" + a == a;
    TrailingOf("", Leading(b));
  }

  lemma SolidShape(b: string)
    requires TrimLeading(b) != ""
    ensures b == Newlines(Leading(b)) + Middle(b) + Newlines(Trailing(b))
    ensures Middle(b) != "" && Bare(Middle(b))
  {
    hide Leading, Trailing, Newlines, TrimTrailing, TrimLeading;
    TrimmedHalf(b);
    var a, t, mid := Newlines(Leading(b)), TrimLeading(b), Middle(b);
    TrimmedKeepsHead(t);
    var head := a + mid;
    assert head[|head| - 1] == mid[|mid| - 1];
    Assoc(a, mid, Newlines(Trailing(t)));
    TrailingOf(head, Trailing(t));
  }

  /** A block is its leading newlines, its middle and its trailing newlines, or newlines only. */
  lemma BlockShape(b: string)
    ensures Bare(Middle(b)) && (Middle(b) == "" <==> Leading(b) == |b|)
    ensures b == if Middle(b) == "" then Newlines(Leading(b)) else Newlines(Leading(b)) + Middle(b) + Newlines(Trailing(b))
    ensures Middle(b) == "" ==> Trailing(b) == |b|
  {
    hide Leading, Trailing, Middle, Newlines;
    if TrimLeading(b) == "" {
      NewlinesOnly(b);
    } else {
      SolidShape(b);
      NewlinesSize(Leading(b));
    }
  }

  lemma TrimmedKeepsHead(t: string)
    requires t != "" && t[0] != NL
    ensures var m := TrimTrailing(t); m != "" && m[0] == t[0] && m[|m| - 1] != NL
  {
    hide Trailing;
    TrailingRun(t);
    assert t[0..|t|][0] != NL;
  }

  lemma SliceIsTrim(b: string)
    ensures Leading(b) < |b| ==> Leading(b) <= |b| - Trailing(b) && b[Leading(b)..|b| - Trailing(b)] == TrimNewlines(b)
    ensures Leading(b) == |b| ==> TrimNewlines(b) == ""
  {
    BlockShape(b);
    hide Leading, Trailing, TrimNewlines, Newlines;
    if Leading(b) < |b| {
      var a, mid, c := Newlines(Leading(b)), TrimNewlines(b), Newlines(Trailing(b));
      assert |a| == Leading(b) && |c| == Trailing(b) by {
        NewlinesSize(Leading(b));
        NewlinesSize(Trailing(b));
      }
      assert (a + mid + c)[|a|..|a| + |mid|] == mid;
    }
  }

  lemma NewlinesSize(n: nat)
    ensures |Newlines(n)| == n
  {
  }

  lemma TrimsOf(s: string, p: nat, k: Core)
    requires Represents(s, p, k)
    ensures TrimNewlines(s) == k.core
    ensures Trailing(s) == k.trail
    ensures TrimTrailing(s) == if k.core == "" then "" else Newlines(p) + k.core
  {
    hide Leading, Trailing, TrimLeading, TrimTrailing;
    if k.core == "" {
      assert "" + Newlines(k.trail) == s && s == s + "";
      TrailingOf("", k.trail);
      LeadingOf(k.trail, "");
      TrailingOf("", 0);
      assert "" + Newlines(0) == "";
    } else {
      var head := Newlines(p) + k.core;
      assert head[|head| - 1] == k.core[|k.core| - 1];
      TrailingOf(head, k.trail);
      var rest := k.core + Newlines(k.trail);
      assert s == Newlines(p) + rest && rest[0] == k.core[0];
      LeadingOf(p, rest);
      TrailingOf(k.core, k.trail);
    }
  }

  lemma BlockHead(b: string)
    ensures TrimLeading(b) == if Middle(b) == "" then "" else Middle(b) + Newlines(Trailing(b))
  {
    hide Leading, Trailing, TrimLeading, Middle;
    BlockShape(b);
    var a, mid := Leading(b), Middle(b);
    if mid == "" {
      LeadingOf(a, "");
      assert Newlines(a) + "" == Newlines(a);
    } else {
      var rest := mid + Newlines(Trailing(b));
      assert b == Newlines(a) + rest && rest[0] == mid[0];
      LeadingOf(a, rest);
    }
  }

  lemma Glues(h: string, k: string, sep: string, m: string, c: string)
    ensures "" + sep + "" == sep
    ensures "" + sep + (m + c) == sep + m + c
    ensures (h + k) + sep + "" == h + k + sep
    ensures (h + k) + sep + (m + c) == h + (k + sep + m) + c
  {
  }

  /** One more block joined to the fold is one more block joined to its core. */
  lemma JoinKeepsCore(s: string, p: nat, k: Core, b: string) returns (q: nat)
    requires Represents(s, p, k)
    ensures Represents(Join(s, b), q, JoinCore(k, b))
  {
    hide Leading, Trailing, TrimLeading, TrimTrailing, Middle, Newlines, Bare;
    TrimsOf(s, p, k);
    BlockShape(b);
    BlockHead(b);
    var sep := Newlines(Cap(Max(k.trail, Leading(b))));
    q := if k.core == "" then Cap(Max(k.trail, Leading(b))) else p;
    Glues(Newlines(p), k.core, sep, Middle(b), Newlines(Trailing(b)));
    if k.core != "" && Middle(b) != "" {
      BareGlue(k.core, sep, Middle(b));
    }
  }

  lemma BareGlue(a: string, sep: string, b: string)
    requires a != "" && Bare(a) && Bare(b) && b != ""
    ensures Bare(a + sep + b) && a + sep + b != ""
  {
    var s := a + sep + b;
    assert s[0] == a[0] && s[|s| - 1] == b[|b| - 1];
  }

  lemma {:induction false} FoldedCore(blocks: seq<string>) returns (p: nat)
    ensures Represents(Folded(blocks), p, CoreOf(blocks))
    ensures TrimNewlines(Folded(blocks)) == CoreOf(blocks).core
  {
    if blocks == [] {
      p := 0;
      assert Newlines(0) == "";
    } else {
      var n := |blocks| - 1;
      var q := FoldedCore(blocks[..n]);
      p := JoinKeepsCore(Folded(blocks[..n]), q, CoreOf(blocks[..n]), blocks[n]);
    }
    TrimsOf(Folded(blocks), p, CoreOf(blocks));
  }

  // ----- The condition -----

  /** Nothing but newlines follows the last character of the block that is not white space. */
  predicate Untrailed(b: string) {
    RStrip(Middle(b)) == Middle(b)
  }

  /** Where emission stands against the fold: at its start, in step, or one newline ahead of it. */
  datatype Standing = Fresh | InStep | Ahead

  /**
   * Between two bodies, a block of one newline makes emission ask for two where the fold asks for one; the
   * difference shows when the next body brings fewer than two of its own.
   */
  function Stand(st: Standing, trail: nat, b: string): Standing {
    if Middle(b) != "" then InStep
    else if st.Fresh? || b == "" then st
    else if Leading(b) >= 2 then InStep
    else if trail < 2 then Ahead
    else st
  }

  predicate Harmless(st: Standing, b: string) {
    st.Ahead? && Middle(b) != "" ==> Leading(b) >= 2
  }

  predicate InStepThroughout(blocks: seq<string>) {
    blocks == [] ||
    (InStepThroughout(blocks[..|blocks| - 1]) && Harmless(StandingOf(blocks[..|blocks| - 1]), blocks[|blocks| - 1]))
  }

  function StandingOf(blocks: seq<string>): Standing {
    if blocks == [] then Fresh
    else
      var before := blocks[..|blocks| - 1];
      Stand(StandingOf(before), CoreOf(before).trail, blocks[|blocks| - 1])
  }

  ghost predicate AllUntrailed(blocks: seq<string>) {
    forall i :: 0 <= i < |blocks| ==> Untrailed(blocks[i])
  }

  /** Emission and core agree as the standing says. */
  predicate Matches(e: Emitted, k: Core, st: Standing) {
    && (st.Fresh? <==> k.core == "") && e.out == k.core
    && (st.InStep? ==> Cap(e.last) == Cap(k.trail))
    && (st.Ahead? ==> e.last >= 2 && k.trail == 1)
    && (st.Fresh? ==> e.last == 0)
  }

  /** Emission has sent more than the fold holds. */
  predicate Overrun(e: Emitted, k: Core) {
    |e.out| > |k.core| && k.core != "" && Cap(e.last) >= Cap(k.trail)
  }

  lemma StepMatches(e: Emitted, k: Core, st: Standing, b: string)
    requires Matches(e, k, st) && Untrailed(b) && Harmless(st, b)
    ensures Matches(Emit(e, b), JoinCore(k, b), Stand(st, k.trail, b))
  {
    hide RStrip, Leading, Trailing, Newlines;
    BlockShape(b);
  }

  lemma StepOverruns(e: Emitted, k: Core, st: Standing, b: string)
    requires Matches(e, k, st) && Untrailed(b) && !Harmless(st, b)
    ensures Overrun(Emit(e, b), JoinCore(k, b))
  {
    hide RStrip, Leading, Trailing;
    BlockShape(b);
  }

  lemma OverrunStays(e: Emitted, k: Core, b: string)
    requires Overrun(e, k) && Untrailed(b)
    ensures Overrun(Emit(e, b), JoinCore(k, b))
  {
    hide RStrip, Leading, Trailing;
    BlockShape(b);
  }

  lemma {:induction false} UntrailedRun(blocks: seq<string>)
    requires AllUntrailed(blocks)
    ensures var e, k := Streamed(blocks), CoreOf(blocks);
      if InStepThroughout(blocks) then Matches(e, k, StandingOf(blocks)) else Overrun(e, k)
  {
    hide Emit, JoinCore, Stand, Harmless, Matches, Overrun, Untrailed;
    if blocks == [] {
      EmptyMatches();
    } else {
      var before, b := blocks[..|blocks| - 1], blocks[|blocks| - 1];
      UntrailedRun(before);
      assert Untrailed(b);
      var e, k := Streamed(before), CoreOf(before);
      if !InStepThroughout(before) {
        OverrunStays(e, k, b);
      } else if Harmless(StandingOf(before), b) {
        StepMatches(e, k, StandingOf(before), b);
      } else {
        StepOverruns(e, k, StandingOf(before), b);
      }
    }
  }

  lemma EmptyMatches()
    ensures Matches(Emitted("", 0), Core("", 0), Fresh)
  {
  }

  // ----- Trailing white space is lost for good -----

  /** How many characters of `s` are not newlines. */
  function Solid(s: string): nat {
    if s == "" then 0 else (if s[0] == NL then 0 else 1) + Solid(s[1..])
  }

  lemma {:induction false} SolidJoin(a: string, b: string)
    ensures Solid(a + b) == Solid(a) + Solid(b)
  {
    if a == "" {
      assert a + b == b;
    } else {
      assert (a + b)[1..] == a[1..] + b;
      SolidJoin(a[1..], b);
    }
  }

  lemma {:induction false} SolidNewlines(n: nat)
    ensures Solid(Newlines(n)) == 0
  {
    if n > 0 {
      assert Newlines(n)[1..] == Newlines(n - 1);
      SolidNewlines(n - 1);
    }
  }

  lemma {:induction false} SolidLast(s: string)
    requires s != "" && s[|s| - 1] != NL
    ensures Solid(s) >= 1
  {
    if |s| > 1 {
      SolidLast(s[1..]);
    }
  }

  lemma SolidStripped(mid: string)
    requires Bare(mid)
    ensures Solid(RStrip(mid)) <= Solid(mid)
    ensures RStrip(mid) != mid ==> Solid(RStrip(mid)) < Solid(mid)
  {
    hide RStrip, Solid;
    var r := RStrip(mid);
    var cut := mid[|r|..];
    assert mid == r + cut;
    SolidJoin(r, cut);
    if cut != "" {
      assert cut[|cut| - 1] == mid[|mid| - 1];
      SolidLast(cut);
    }
  }

  lemma SolidGlue(a: string, n: nat, b: string)
    ensures Solid(a + Newlines(n) + b) == Solid(a) + Solid(b)
  {
    SolidJoin(a + Newlines(n), b);
    SolidJoin(a, Newlines(n));
    SolidNewlines(n);
  }

  lemma SolidStep(e: Emitted, k: Core, b: string)
    requires Solid(e.out) <= Solid(k.core)
    ensures Solid(Emit(e, b).out) <= Solid(JoinCore(k, b).core)
    ensures !Untrailed(b) || Solid(e.out) < Solid(k.core) ==> Solid(Emit(e, b).out) < Solid(JoinCore(k, b).core)
  {
    hide RStrip, Leading, Trailing, Newlines, Solid;
    BlockShape(b);
    var mid := Middle(b);
    var body := RStrip(mid);
    SolidStripped(mid);
    SolidGlue(k.core, Cap(Max(k.trail, Leading(b))), mid);
    SolidGlue(e.out, Cap(Max(e.last, Leading(b))), body);
    assert Solid("") == 0 by {
      NoSolid();
    }
  }

  lemma NoSolid()
    ensures Solid("") == 0
  {
  }

  lemma {:induction false} TrailedRun(blocks: seq<string>)
    ensures var e, k := Streamed(blocks), CoreOf(blocks);
      Solid(e.out) <= Solid(k.core) && (!AllUntrailed(blocks) ==> Solid(e.out) < Solid(k.core))
  {
    hide Emit, JoinCore, Untrailed;
    if blocks != [] {
      var before, b := blocks[..|blocks| - 1], blocks[|blocks| - 1];
      TrailedRun(before);
      SolidStep(Streamed(before), CoreOf(before), b);
      if AllUntrailed(before) && Untrailed(b) {
        assert forall i :: 0 <= i < |blocks| ==> blocks[i] == if i < |before| then before[i] else b;
      }
    }
  }

  /**
   * The fragments sunk for the blocks add up to the join of all blocks without outer newlines, exactly when no
   * block ends in other white space and no single-newline block widens a gap.
   */
  lemma EmissionIsTheFoldExactlyWhen(blocks: seq<string>)
    ensures Streamed(blocks).out == TrimNewlines(Folded(blocks)) <==> AllUntrailed(blocks) && InStepThroughout(blocks)
  {
    hide Streamed, CoreOf, Folded, InStepThroughout, TrimNewlines;
    var p := FoldedCore(blocks);
    if AllUntrailed(blocks) {
      UntrailedRun(blocks);
    } else {
      TrailedRun(blocks);
    }
  }

  /** Two bodies are joined with the larger of the newlines between them on either side, but never more than an empty line. */
  lemma JoinBreaksAtMostTwice(a: string, p: nat, q: nat, b: string)
    requires a != "" && b != "" && Bare(a) && Bare(b)
    ensures Join(a + Newlines(p), Newlines(q) + b) ==
      a + Newlines(if p >= 2 || q >= 2 then 2 else if p == 1 || q == 1 then 1 else 0) + b
  {
    TrailingOf(a, p);
    LeadingOf(q, b);
  }

  /** Blocks that are bodies with no trailing blanks, empty, or runs of at least two newlines are emitted as the fold. */
  lemma WellFormedBlocksAreTheFold(blocks: seq<string>)
    requires forall i :: 0 <= i < |blocks| ==> Untrailed(blocks[i]) && (Middle(blocks[i]) == "" ==> |blocks[i]| != 1)
    ensures Streamed(blocks).out == TrimNewlines(Folded(blocks))
  {
    NeverAhead(blocks);
    EmissionIsTheFoldExactlyWhen(blocks);
  }

  lemma {:induction false} NeverAhead(blocks: seq<string>)
    requires forall i :: 0 <= i < |blocks| ==> (Middle(blocks[i]) == "" ==> |blocks[i]| != 1)
    ensures InStepThroughout(blocks) && !StandingOf(blocks).Ahead?
  {
    hide Middle, Leading;
    if blocks != [] {
      NeverAhead(blocks[..|blocks| - 1]);
      BlockShape(blocks[|blocks| - 1]);
    }
  }

  /** A block of one newline between two bodies: emission leaves an empty line where the fold breaks the line once. */
  lemma LoneNewlineExample()
    ensures Streamed(["a", "\n", "b"]).out == "a\n\nb"
    ensures TrimNewlines(Folded(["a", "\n", "b"])) == "a\nb"
  {
    hide RStrip, Emit, Join, TrimNewlines, Streamed, Folded;
    ThreeBlocks("a", "\n", "b");
    BareBody("a");
    BareBody("b");
    LoneNewline();
    EmitsOnce();
    FoldsOnce();
  }

  lemma ThreeBlocks(a: string, b: string, c: string)
    ensures Streamed([a, b, c]) == Emit(Emit(Emit(Emitted("", 0), a), b), c)
    ensures Folded([a, b, c]) == Join(Join(Join("", a), b), c)
  {
    hide Emit, Join;
    assert [a, b, c][..2] == [a, b] && [a, b][..1] == [a] && [a][..0] == [];
    assert Streamed([]) == Emitted("", 0) && Folded([]) == "";
    assert Streamed([a]) == Emit(Emitted("", 0), a) && Folded([a]) == Join("", a);
    assert Streamed([a, b]) == Emit(Streamed([a]), b) && Folded([a, b]) == Join(Folded([a]), b);
  }

  lemma BareBody(b: string)
    requires |b| == 1 && b[0] != NL && !Blank(b[0])
    ensures Leading(b) == 0 && Trailing(b) == 0 && TrimLeading(b) == b && TrimTrailing(b) == b && TrimNewlines(b) == b && RStrip(b) == b
  {
  }

  lemma LoneNewline()
    ensures var b := "\n"; Leading(b) == 1 && Trailing(b) == 1 && TrimLeading(b) == "" && TrimNewlines(b) == "" && RStrip("") == ""
  {
    assert "\n"[1..] == "" && "\n"[..0] == "";
  }

  lemma EmitsOnce()
    requires RStrip("a") == "a" && RStrip("b") == "b" && RStrip("") == ""
    requires TrimNewlines("a") == "a" && TrimNewlines("b") == "b" && TrimNewlines("\n") == ""
    requires Leading("a") == Trailing("a") == Leading("b") == Trailing("b") == 0 && Leading("\n") == Trailing("\n") == 1
    ensures Emit(Emit(Emit(Emitted("", 0), "a"), "\n"), "b").out == "a\n\nb"
  {
    hide RStrip, TrimNewlines, Leading, Trailing;
    assert Newlines(2) == "\n\n";
    assert Emit(Emitted("", 0), "a") == Emitted("a", 0);
    assert Emit(Emitted("a", 0), "\n") == Emitted("a", 2);
  }

  lemma FoldsOnce()
    ensures Join(Join(Join("", "a"), "\n"), "b") == "a\nb" && TrimNewlines("a\nb") == "a\nb"
  {
    hide Trailing, Leading, TrimTrailing, TrimLeading, TrimNewlines;
    FoldedHead();
    FoldedTail();
  }

  lemma FoldedHead()
    ensures Join(Join("", "a"), "\n") == "a\n"
  {
    BareBody("a");
    LoneNewline();
    NothingTrimmed();
    hide Trailing, Leading, TrimTrailing, TrimLeading;
    assert Newlines(0) == "" && Newlines(1) == "\n";
    assert Join("", "a") == "a";
  }

  lemma NothingTrimmed()
    ensures Trailing("") == 0 && TrimTrailing("") == ""
  {
  }

  lemma FoldedTail()
    ensures Join("a\n", "b") == "a\nb" && TrimNewlines("a\nb") == "a\nb"
  {
    BareBody("b");
    assert Newlines(1) == "\n";
    assert "a\n"[..1] == "a" && Trailing("a\n") == 1 && TrimTrailing("a\n") == "a";
    assert Leading("a\nb") == 0 && Trailing("a\nb") == 0;
  }
}
