/** Rendering inline code (html_to_markdown.py) and reading it back by section 6.1 of CommonMark 0.31.2. */
module CodeSpan {

  const TICK := '`'

  // ----- Backtick strings -----

  /** How many backticks stand at index `i` and directly after it. */
  function TicksFrom(s: string, i: nat): (n: nat)
    requires i <= |s|
    ensures i + n <= |s|
    ensures forall k :: i <= k < i + n ==> s[k] == TICK
    ensures i + n < |s| ==> s[i + n] != TICK
    decreases |s| - i
  {
    if i < |s| && s[i] == TICK then 1 + TicksFrom(s, i + 1) else 0
  }

  /** A backtick string: a maximal run of exactly `n` backticks at `i`. */
  predicate RunAt(s: string, i: nat, n: nat) {
    n >= 1 && i < |s| && s[i] == TICK && (i == 0 || s[i - 1] != TICK) && TicksFrom(s, i) == n
  }

  ghost predicate HasRun(s: string, n: nat) {
    exists i: nat :: RunAt(s, i, n)
  }

  /** The lengths of the backtick strings at or after `i`, where no backtick string runs into `i`. */
  function RunsFrom(s: string, i: nat): set<nat>
    requires i <= |s|
    decreases |s| - i
  {
    if i == |s| then {}
    else if s[i] == TICK then {TicksFrom(s, i)} + RunsFrom(s, i + TicksFrom(s, i))
    else RunsFrom(s, i + 1)
  }

  lemma {:induction false} RunsAreRuns(s: string, i: nat, n: nat)
    requires i <= |s| && (i == 0 || i == |s| || s[i - 1] != TICK || s[i] != TICK)
    ensures n in RunsFrom(s, i) <==> exists j: nat :: i <= j && RunAt(s, j, n)
    decreases |s| - i
  {
    if i < |s| {
      var t := TicksFrom(s, i);
      var next := if s[i] == TICK then i + t else i + 1;
      RunsAreRuns(s, next, n);
      assert RunAt(s, i, n) ==> n == t;
      forall j: nat | i < j < next
        ensures !RunAt(s, j, n)
      {
        assert s[j - 1] == TICK;
      }
      if n in RunsFrom(s, i) {
        if n in RunsFrom(s, next) {
          var j: nat :| next <= j && RunAt(s, j, n);
        } else {
          assert RunAt(s, i, n);
        }
      }
      if j: nat :| i <= j && RunAt(s, j, n) {
        assert j == i || next <= j;
      }
    }
  }

  /** `_backtick_runs`. */
  method BacktickRuns(s: string) returns (runs: set<nat>)
    ensures forall n :: n in runs <==> HasRun(s, n)
  {
    runs := {};
    var i := 0;
    while i < |s|
      invariant i <= |s| && (i == 0 || i == |s| || s[i - 1] != TICK || s[i] != TICK)
      invariant runs + RunsFrom(s, i) == RunsFrom(s, 0)
    {
      if s[i] == TICK {
        var j := i;
        while j < |s| && s[j] == TICK
          invariant i <= j <= |s|
          invariant j - i + TicksFrom(s, j) == TicksFrom(s, i)
        {
          j := j + 1;
        }
        runs, i := runs + {j - i}, j;
      } else {
        i := i + 1;
      }
    }
    forall n
      ensures n in runs <==> HasRun(s, n)
    {
      RunsAreRuns(s, 0, n);
      if HasRun(s, n) {
        var i: nat :| RunAt(s, i, n);
        assert 0 <= i;
      }
    }
  }

  lemma RunsAreShort(s: string, n: nat)
    requires HasRun(s, n)
    ensures n <= |s|
  {
  }

  /** The search for the delimiter terminates with the shortest length that is no backtick string of the text. */
  method PickDelimiter(s: string) returns (k: nat)
    ensures k >= 1 && !HasRun(s, k)
    ensures forall j :: 1 <= j < k ==> HasRun(s, j)
  {
    var runs := BacktickRuns(s);
    k := 1;
    while k in runs
      invariant k >= 1
      invariant forall j :: 1 <= j < k ==> HasRun(s, j)
      decreases |s| + 1 - k
    {
      RunsAreShort(s, k);
      k := k + 1;
    }
  }

  // ----- Rendering -----

  /** Every CR and every LF becomes one space. */
  function Cleaned(s: string): (r: string)
    ensures |r| == |s|
  {
    seq(|s|, i requires 0 <= i < |s| => if s[i] == '\r' || s[i] == '\n' then ' ' else s[i])
  }

  predicate AllSpaces(s: string) {
    forall i :: 0 <= i < |s| ==> s[i] == ' '
  }

  predicate NeedsPad(text: string)
    requires text != ""
  {
    || text[0] == TICK || text[|text| - 1] == TICK
    || (|text| >= 2 && text[0] == ' ' && text[|text| - 1] == ' ' && !AllSpaces(text))
  }

  function Ticks(k: nat): string {
    seq(k, _ => TICK)
  }

  function Padded(text: string): string
    requires text != ""
  {
    if NeedsPad(text) then " " + text + " " else text
  }

  method RenderCode(text: string) returns (r: string)
    ensures text == "" ==> r == ""
    ensures text != "" ==> ParseCode(r) == Code(Cleaned(text), "")
    ensures text != "" ==> ParseCode(r).Code? && |ParseCode(r).text| == |text|
    ensures forall i :: 0 <= i < |text| ==>
      ParseCode(r).Code? && i < |ParseCode(r).text| &&
      ParseCode(r).text[i] == if text[i] == '\r' || text[i] == '\n' then ' ' else text[i]
    ensures text != "" ==> exists k: nat :: IsDelimiter(Cleaned(text), k) && r == Span(Padded(Cleaned(text)), k, "")
  {
    if text == "" {
      return "";
    }
    var cleaned := "";
    var i := 0;
    while i < |text|
      invariant 0 <= i <= |text|
      invariant cleaned == Cleaned(text)[..i]
    {
      var c := text[i];
      if c == '\r' || c == '\n' {
        cleaned := cleaned + " ";
      } else {
        cleaned := cleaned + [c];
      }
      i := i + 1;
    }
    assert cleaned == Cleaned(text);
    var k := PickDelimiter(cleaned);
    var pad := if NeedsPad(cleaned) then " " else "";
    r := Ticks(k) + pad + cleaned + pad + Ticks(k);
    assert r == Ticks(k) + Padded(cleaned) + (Ticks(k) + "");
    CodeSpanRoundTrip(text, k, "");
    assert IsDelimiter(Cleaned(text), k) && r == Span(Padded(Cleaned(text)), k, "");
  }

  /** The shortest length that is no backtick string of the text. */
  ghost predicate IsDelimiter(text: string, k: nat) {
    k >= 1 && !HasRun(text, k) && forall j :: 1 <= j < k ==> HasRun(text, j)
  }

  // ----- Reading it back -----

  datatype Parsed = NotACodeSpan | Code(text: string, rest: string)

  /** The first backtick string of exactly `k` backticks at or after `i`, or -1; no run goes on into `i`. */
  function Closer(s: string, i: nat, k: nat): (r: int)
    requires i <= |s|
    ensures r == -1 || (i <= r < |s| && TicksFrom(s, r) == k)
    decreases |s| - i
  {
    if i == |s| then -1
    else if s[i] == TICK then
      (if TicksFrom(s, i) == k then i else Closer(s, i + TicksFrom(s, i), k))
    else Closer(s, i + 1, k)
  }

  /** Line endings to spaces, then one space off each end if both are there and not all is spaces. */
  function Normalised(s: string): string {
    var t := Cleaned(s);
    if |t| >= 2 && t[0] == ' ' && t[|t| - 1] == ' ' && !AllSpaces(t) then t[1..|t| - 1] else t
  }

  /** A code span at the start of `s`: an opening backtick string and the next one of equal length. */
  function ParseCode(s: string): Parsed {
    var k := TicksFrom(s, 0);
    if k == 0 then NotACodeSpan
    else
      var end := Closer(s, k, k);
      if end == -1 then NotACodeSpan else Code(Normalised(s[k..end]), s[end + k..])
  }

  lemma TicksAreTicks(k: nat, i: nat, rest: string)
    requires i <= k && (rest != "" ==> rest[0] != TICK)
    ensures TicksFrom(Ticks(k) + rest, i) == k - i
    decreases k - i
  {
    if i < k {
      assert (Ticks(k) + rest)[i] == TICK;
      TicksAreTicks(k, i + 1, rest);
    }
  }

  lemma CleanedTwice(s: string)
    ensures Cleaned(Cleaned(s)) == Cleaned(s)
  {
  }

  lemma PaddingComesOff(text: string)
    requires text != ""
    ensures Normalised(Padded(Cleaned(text))) == Cleaned(text)
  {
    var t := Cleaned(text);
    var p := Padded(t);
    CleanedTwice(text);
    if NeedsPad(t) {
      assert Cleaned(p) == p;
      assert p[1..|p| - 1] == t;
      assert !AllSpaces(t);
      var i :| 0 <= i < |t| && t[i] != ' ';
      assert p[i + 1] != ' ';
    } else {
      assert p == t;
    }
  }

  /** Inside a piece that does not end in a backtick, runs are the piece's own. */
  lemma {:induction false} TicksInside(a: string, w: string, b: string, i: nat)
    requires i <= |w| && w != "" && w[|w| - 1] != TICK
    requires i == |w| ==> b == "" || b[0] != TICK
    ensures TicksFrom(a + w + b, |a| + i) == TicksFrom(w, i)
    decreases |w| - i
  {
    var s := a + w + b;
    if i < |w| {
      assert s[|a| + i] == w[i];
      if w[i] == TICK {
        TicksInside(a, w, b, i + 1);
      }
    } else if b != "" {
      assert s[|a| + i] == b[0];
    }
  }

  lemma PaddedRun(c: string, i: nat, n: nat)
    requires c != "" && RunAt(Padded(c), i, n)
    ensures HasRun(c, n)
  {
    hide TicksFrom;
    var w := Padded(c);
    if NeedsPad(c) {
      assert w == " " + c + " ";
      assert i >= 1 && w[i] == c[i - 1];
      TicksAlike(c, i - 1);
      assert i >= 2 ==> w[i - 1] == c[i - 2];
      assert RunAt(c, i - 1, n);
    }
  }

  lemma NoRunInPadded(c: string, n: nat)
    requires c != "" && !HasRun(c, n)
    ensures !HasRun(Padded(c), n)
  {
    hide Padded;
    if i: nat :| RunAt(Padded(c), i, n) {
      PaddedRun(c, i, n);
    }
  }

  lemma {:induction false} TicksAlike(c: string, i: nat)
    requires i <= |c|
    ensures TicksFrom(" " + c + " ", i + 1) == TicksFrom(c, i)
    decreases |c| - i
  {
    if i < |c| {
      assert (" " + c + " ")[i + 1] == c[i];
      TicksAlike(c, i + 1);
    }
  }

  lemma PaddedEnds(c: string)
    requires c != ""
    ensures var w := Padded(c); w != "" && w[0] != TICK && w[|w| - 1] != TICK
  {
  }

  /** The rendered span, content `w` between two delimiters, followed by `rest`. */
  function Span(w: string, k: nat, rest: string): (r: string)
    ensures |r| == k + |w| + k + |rest|
  {
    Ticks(k) + w + (Ticks(k) + rest)
  }

  lemma SpanAt(w: string, k: nat, rest: string, i: nat)
    requires k >= 1 && i < |w| && w[|w| - 1] != TICK
    ensures var s := Span(w, k, rest);
      s[k + i] == w[i] && TicksFrom(s, k + i) == TicksFrom(w, i)
  {
    TicksInside(Ticks(k), w, Ticks(k) + rest, i);
  }

  lemma SpanEnd(w: string, k: nat, rest: string)
    requires k >= 1 && (rest == "" || rest[0] != TICK)
    ensures var s := Span(w, k, rest);
      s[k + |w|] == TICK && TicksFrom(s, k + |w|) == k
  {
    var a := Ticks(k) + w;
    TicksAreTicks(k, 0, rest);
    TicksShift(a, Ticks(k) + rest, 0);
    assert (a + (Ticks(k) + rest))[|a|] == Ticks(k)[0];
  }

  lemma {:induction false} TicksShift(a: string, s: string, i: nat)
    requires i <= |s|
    ensures TicksFrom(a + s, |a| + i) == TicksFrom(s, i)
    decreases |s| - i
  {
    if i < |s| {
      assert (a + s)[|a| + i] == s[i];
      TicksShift(a, s, i + 1);
    }
  }

  lemma CloserStep(s: string, i: nat, k: nat)
    requires i < |s|
    ensures Closer(s, i, k) ==
      if s[i] != TICK then Closer(s, i + 1, k)
      else if TicksFrom(s, i) == k then i
      else Closer(s, i + TicksFrom(s, i), k)
  {
    hide TicksFrom;
  }

  lemma SpanSize(w: string, k: nat, rest: string)
    requires k >= 1
    ensures k + |w| < |Span(w, k, rest)|
  {
  }

  /** The search for the closing run passes over the whole content. */
  lemma {:induction false} CloserSkipsContent(w: string, k: nat, rest: string, i: nat)
    requires k >= 1 && w != "" && w[|w| - 1] != TICK && !HasRun(w, k)
    requires rest == "" || rest[0] != TICK
    requires i <= |w| && (i == 0 || i == |w| || w[i - 1] != TICK || w[i] != TICK)
    ensures Closer(Span(w, k, rest), k + i, k) == k + |w|
    decreases |w| - i
  {
    hide TicksFrom, Span, HasRun, Closer;
    SpanSize(w, k, rest);
    CloserStep(Span(w, k, rest), k + i, k);
    if i == |w| {
      SpanEnd(w, k, rest);
    } else {
      SpanAt(w, k, rest, i);
      if w[i] == TICK {
        var n := TicksFrom(w, i);
        assert n >= 1 by {
          TicksHere(w, i);
        }
        assert n != k by {
          assert RunAt(w, i, n);
          NoSuchRun(w, k, i);
        }
        CloserSkipsContent(w, k, rest, i + n);
      } else {
        CloserSkipsContent(w, k, rest, i + 1);
      }
    }
  }

  lemma TicksHere(w: string, i: nat)
    requires i < |w| && w[i] == TICK
    ensures TicksFrom(w, i) >= 1
  {
  }

  lemma NoSuchRun(w: string, k: nat, i: nat)
    requires !HasRun(w, k)
    ensures !RunAt(w, i, k)
  {
  }

  /** For every non-empty text, reading the rendered span back gives the text with CR and LF as spaces. */
  lemma CodeSpanRoundTrip(text: string, k: nat, rest: string)
    requires text != "" && IsDelimiter(Cleaned(text), k)
    requires rest == "" || rest[0] != TICK
    ensures ParseCode(Span(Padded(Cleaned(text)), k, rest)) == Code(Cleaned(text), rest)
  {
    hide TicksFrom, Padded, Cleaned, HasRun, Normalised, Closer, Span;
    var c := Cleaned(text);
    var w := Padded(c);
    PaddedEnds(c);
    NoRunInPadded(c, k);
    SpanParts(w, k, rest);
    CloserSkipsContent(w, k, rest, 0);
    PaddingComesOff(text);
  }

  lemma SpanParts(w: string, k: nat, rest: string)
    requires k >= 1 && w != "" && w[0] != TICK
    ensures var s := Span(w, k, rest);
      TicksFrom(s, 0) == k && s[k..k + |w|] == w && s[k + |w| + k..] == rest
  {
    var inner := w + (Ticks(k) + rest);
    assert inner[0] == w[0] && Span(w, k, rest) == Ticks(k) + inner;
    TicksAreTicks(k, 0, inner);
  }
}
