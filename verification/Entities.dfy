/** The in-file entity decoder and the split point that never cuts an entity (html_to_markdown.py). */
module Entities {
  import opened Basics
  import opened Text

  const WINDOW: nat := 32

  function Named(): map<string, char> {
    map[
    "amp" := '&', "lt" := '<', "gt" := '>', "quot" := '"', "apos" := '\'',
    "nbsp" := '\U{a0}', "copy" := '\U{a9}', "reg" := '\U{ae}', "trade" := '\U{2122}',
    "hellip" := '\U{2026}', "mdash" := '\U{2014}', "ndash" := '\U{2013}',
    "lsquo" := '\U{2018}', "rsquo" := '\U{2019}', "ldquo" := '\U{201c}', "rdquo" := '\U{201d}',
    "laquo" := '\U{ab}', "raquo" := '\U{bb}', "para" := '\U{b6}', "sect" := '\U{a7}',
    "deg" := '\U{b0}', "plusmn" := '\U{b1}', "times" := '\U{d7}', "divide" := '\U{f7}',
    "middot" := '\U{b7}', "bull" := '\U{2022}'
    ]
  }

  // ----- Python's int(text, base), ASCII digits -----

  function DigitValue(c: char): nat {
    if '0' <= c <= '9' then c as int - '0' as int
    else if 'a' <= c <= 'z' then c as int - 'a' as int + 10
    else if 'A' <= c <= 'Z' then c as int - 'A' as int + 10
    else 36
  }

  /** Digits with single underscores between them; `open` says that a digit must come next. */
  function Digits(s: string, base: nat, acc: nat, open: bool): Option<nat> {
    if s == "" then (if open then None else Some(acc))
    else if s[0] == '_' then (if open then None else Digits(s[1..], base, acc, true))
    else if DigitValue(s[0]) < base then Digits(s[1..], base, acc * base + DigitValue(s[0]), false)
    else None
  }

  function Magnitude(s: string, base: nat): Option<nat> {
    if base == 16 && (s[..Min(2, |s|)] == "0x" || s[..Min(2, |s|)] == "0X") then
      var rest := s[2..];
      Digits(if rest != "" && rest[0] == '_' then rest[1..] else rest, base, 0, true)
    else Digits(s, base, 0, true)
  }

  function ParseInt(s: string, base: nat): Option<int> {
    if s != "" && s[0] == '-' then
      match Magnitude(s[1..], base) case None => None case Some(n) => Some(-(n as int))
    else
      match Magnitude(if s != "" && s[0] == '+' then s[1..] else s, base)
      case None => None
      case Some(n) => Some(n)
  }

  /** `chr`, with the lone surrogates left out because a Dafny `char` cannot hold them. */
  function Chr(n: int): Option<char> {
    if 0 <= n < 0xD800 || 0xE000 <= n < 0x11_0000 then Some(n as char) else None
  }

  function Decode(body: string): Option<char> {
    if body != "" && body[0] == '#' then
      var number := if |body| >= 2 && (body[1] == 'x' || body[1] == 'X')
                    then ParseInt(body[2..], 16) else ParseInt(body[1..], 10);
      match number case None => None case Some(n) => Chr(n)
    else if body in Named() then Some(Named()[body])
    else None
  }

  /** The decoder is a parameter of everything below: `Decode` is the module's own one. */
  type Decoder = string -> Option<char>

  // ----- One reference -----

  predicate Breaks(c: char) {
    c == ' ' || c == '\t' || c == '\r' || c == '\n' || c == '<' || c == '&'
  }

  /** Index of the `;` that ends the reference opened at 0, scanning from `j`, or -1. */
  function Terminator(s: string, j: nat): (r: int)
    ensures r == -1 || (j <= r < |s| && r < WINDOW && s[r] == ';')
    decreases WINDOW - j
  {
    if j >= |s| || j >= WINDOW then -1
    else if s[j] == ';' then j
    else if Breaks(s[j]) then -1
    else Terminator(s, j + 1)
  }

  /** One decoded character and how many characters of the input it stands for. */
  datatype Unit = Unit(c: char, length: nat)

  function FirstUnit(d: Decoder, s: string): (u: Unit)
    requires s != ""
    ensures 1 <= u.length <= |s|
  {
    var end := if s[0] == '&' then Terminator(s, 1) else -1;
    if end == -1 then Unit(s[0], 1)
    else match d(s[1..end]) case None => Unit('&', 1) case Some(c) => Unit(c, end + 1)
  }

  function Unescape(d: Decoder, s: string): (r: string)
    ensures s != "" ==> r != ""
  {
    if s == "" then ""
    else var u := FirstUnit(d, s); [u.c] + Unescape(d, s[u.length..])
  }

  lemma UnescapeUnit(d: Decoder, s: string)
    requires s != ""
    ensures Unescape(d, s) == [FirstUnit(d, s).c] + Unescape(d, s[FirstUnit(d, s).length..])
  {
    hide FirstUnit;
  }

  lemma UnescapeWithoutAmpersand(d: Decoder, s: string)
    requires '&' !in s
    ensures Unescape(d, s) == s
  {
    if s != "" {
      assert s == [s[0]] + s[1..];
      UnescapeWithoutAmpersand(d, s[1..]);
    }
  }

  /** The inner scan of the decoder, from the ampersand at `i`. */
  method FindTerminator(s: string, i: nat) returns (end: int)
    requires i < |s|
    ensures end == if Terminator(s[i..], 1) == -1 then -1 else i + Terminator(s[i..], 1)
  {
    var limit := Min(|s|, i + WINDOW);
    var j := i + 1;
    while j < limit
      invariant i + 1 <= j <= |s|
      invariant Terminator(s[i..], 1) == Terminator(s[i..], j - i)
    {
      assert s[i..][j - i] == s[j];
      if s[j] == ';' {
        return j;
      }
      if Breaks(s[j]) {
        return -1;
      }
      j := j + 1;
    }
    return -1;
  }

  lemma UnescapeStep(d: Decoder, s: string, i: nat, out: string)
    requires i < |s|
    ensures var u := FirstUnit(d, s[i..]);
      out + Unescape(d, s[i..]) == (out + [u.c]) + Unescape(d, s[i + u.length..])
  {
    var u := FirstUnit(d, s[i..]);
    assert s[i..][u.length..] == s[i + u.length..];
    Assoc(out, [u.c], Unescape(d, s[i + u.length..]));
  }

  /** One turn of the decoder's loop: the character to append and the next index. */
  method DecodeOne(d: Decoder, s: string, i: nat) returns (c: char, next: nat)
    requires i < |s|
    ensures i < next <= |s|
    ensures FirstUnit(d, s[i..]) == Unit(c, next - i)
  {
    if s[i] != '&' {
      return s[i], i + 1;
    }
    var end := FindTerminator(s, i);
    if end == -1 {
      return '&', i + 1;
    }
    assert s[i..][1..end - i] == s[i + 1..end];
    match d(s[i + 1..end]) {
      case None => return '&', i + 1;
      case Some(decoded) => return decoded, end + 1;
    }
  }

  method EntityUnescape(d: Decoder, s: string) returns (out: string)
    ensures out == Unescape(d, s)
  {
    hide FirstUnit, Unescape;
    if '&' !in s {
      UnescapeWithoutAmpersand(d, s);
      return s;
    }
    out := "";
    var i := 0;
    assert s[0..] == s && "" + Unescape(d, s) == Unescape(d, s);
    ghost var whole := Unescape(d, s);
    while i < |s|
      invariant 0 <= i <= |s|
      invariant out + Unescape(d, s[i..]) == whole
    {
      var c, next := DecodeOne(d, s, i);
      UnescapeStep(d, s, i, out);
      out, i := out + [c], next;
    }
    NothingToUnescape(d, out, s[i..]);
  }

  lemma NothingToUnescape(d: Decoder, out: string, rest: string)
    requires rest == ""
    ensures out + Unescape(d, rest) == out
  {
  }

  // ----- Splitting a text without splitting a reference -----

  ghost predicate SeparableAt(d: Decoder, a: string, y: string, i: nat)
    requires i < |a|
  {
    FirstUnit(d, a[i..] + y) == FirstUnit(d, a[i..])
  }

  /** No character of `a` starts a different unit once `y` follows. */
  ghost predicate Separable(d: Decoder, a: string, y: string) {
    forall i :: 0 <= i < |a| ==> SeparableAt(d, a, y, i)
  }

  lemma SeparableSuffix(d: Decoder, a: string, y: string, k: nat)
    requires Separable(d, a, y) && k <= |a|
    ensures Separable(d, a[k..], y)
  {
    forall i | 0 <= i < |a[k..]|
      ensures SeparableAt(d, a[k..], y, i)
    {
      assert SeparableAt(d, a, y, k + i);
      assert a[k..][i..] == a[k + i..];
    }
  }

  lemma {:induction false} UnescapeSplits(d: Decoder, a: string, y: string)
    requires Separable(d, a, y)
    ensures Unescape(d, a + y) == Unescape(d, a) + Unescape(d, y)
    decreases |a|
  {
    if a == "" {
      assert a + y == y;
    } else {
      assert SeparableAt(d, a, y, 0) && a[0..] == a;
      var u := FirstUnit(d, a);
      var rest := a[u.length..];
      assert (a + y)[u.length..] == rest + y;
      SeparableSuffix(d, a, y, u.length);
      UnescapeSplits(d, rest, y);
      Assoc([u.c], Unescape(d, rest), Unescape(d, y));
    }
  }

  /** The scan for `;` is settled inside `a`: it meets `;`, a break or the end of its window there. */
  ghost predicate Settled(a: string) {
    |a| >= WINDOW || exists j :: 1 <= j < |a| && (a[j] == ';' || Breaks(a[j]))
  }

  lemma {:induction false} TerminatorExtends(a: string, y: string, j: nat)
    requires 1 <= j
    requires Settled(a) || (y != "" && Breaks(y[0]))
    requires forall i :: 1 <= i < j && i < |a| ==> a[i] != ';' && !Breaks(a[i])
    requires j <= |a|
    ensures Terminator(a + y, j) == Terminator(a, j)
    decreases WINDOW - j
  {
    if j < |a| && j < WINDOW && a[j] != ';' && !Breaks(a[j]) {
      TerminatorExtends(a, y, j + 1);
    }
  }

  lemma UnitExtends(d: Decoder, a: string, y: string)
    requires a != ""
    requires a[0] != '&' || Settled(a) || (y != "" && Breaks(y[0]))
    ensures FirstUnit(d, a + y) == FirstUnit(d, a)
  {
    if a[0] == '&' {
      TerminatorExtends(a, y, 1);
      var end := Terminator(a, 1);
      if end != -1 {
        assert (a + y)[1..end] == a[1..end];
      }
    }
  }

  lemma SeparableAtBreak(d: Decoder, a: string, y: string)
    requires y != "" && Breaks(y[0])
    ensures Separable(d, a, y)
  {
    forall i | 0 <= i < |a|
      ensures SeparableAt(d, a, y, i)
    {
      UnitExtends(d, a[i..], y);
    }
  }

  // ----- _safe_text_split -----

  /** Last index in [lo, hi) holding an ampersand, or -1. */
  function LastAmpersand(s: string, lo: nat, hi: nat): (r: int)
    requires lo <= hi <= |s|
    ensures r == -1 || (lo <= r < hi && s[r] == '&')
    ensures forall i :: lo <= i < hi && r < i ==> s[i] != '&'
    decreases hi
  {
    if hi == lo then -1
    else if s[hi - 1] == '&' then hi - 1
    else LastAmpersand(s, lo, hi - 1)
  }

  function SafeSplit(s: string): (k: nat)
    ensures k <= |s|
  {
    var last := LastAmpersand(s, if |s| > WINDOW then |s| - WINDOW else 0, |s|);
    if last != -1 && Find(s, ";", last + 1) == -1 then last else |s|
  }

  method SafeTextSplit(buf: string) returns (k: nat)
    ensures k == SafeSplit(buf)
  {
    var n := |buf|;
    if n == 0 {
      return 0;
    }
    var scanFrom := if n > WINDOW then n - WINDOW else 0;
    var i := n - 1;
    while i >= scanFrom
      invariant scanFrom - 1 <= i < n
      invariant LastAmpersand(buf, scanFrom, n) == LastAmpersand(buf, scanFrom, i + 1)
    {
      if buf[i] == '&' {
        var term := Find(buf, ";", i + 1);
        if term == -1 {
          return i;
        }
        return n;
      }
      i := i - 1;
    }
    return n;
  }

  lemma SettledBy(s: string, i: nat, d: nat)
    requires i < d < |s| && (s[d] == ';' || Breaks(s[d]))
    ensures Settled(s[i..])
  {
    assert s[i..][d - i] == s[d];
  }

  lemma FoundSemicolon(s: string, from: nat)
    requires from <= |s|
    ensures var r := Find(s, ";", from); r != -1 ==> from <= r < |s| && s[r] == ';'
  {
    var r := Find(s, ";", from);
    if r != -1 {
      assert s[r..r + 1][0] == ';';
    }
  }

  lemma LongIsSettled(s: string, i: nat)
    requires i + WINDOW <= |s|
    ensures Settled(s[i..])
  {
  }

  /** When the whole of `s` is safe to emit, every ampersand in it is settled. */
  lemma SafeSplitSettles(s: string, i: nat)
    requires SafeSplit(s) == |s| && i < |s| && s[i] == '&'
    ensures Settled(s[i..])
  {
    var lo := if |s| > WINDOW then |s| - WINDOW else 0;
    hide Find, Settled;
    var last := LastAmpersand(s, lo, |s|);
    if i < lo {
      LongIsSettled(s, i);
    } else {
      if i == last {
        FoundSemicolon(s, last + 1);
        SettledBy(s, i, Find(s, ";", last + 1));
      } else {
        SettledBy(s, i, last);
      }
    }
  }

  lemma SafeSplitSeparable(d: Decoder, s: string, x: string)
    ensures Separable(d, s[..SafeSplit(s)], s[SafeSplit(s)..] + x)
  {
    var k := SafeSplit(s);
    if k < |s| {
      SeparableAtBreak(d, s[..k], s[k..] + x);
    } else {
      assert s[..k] == s && s[k..] + x == x;
      forall i | 0 <= i < |s|
        ensures SeparableAt(d, s, x, i)
      {
        if s[i] == '&' {
          SafeSplitSettles(s, i);
        }
        UnitExtends(d, s[i..], x);
      }
    }
  }

  lemma SplitAt(d: Decoder, a: string, y: string, whole: string)
    requires Separable(d, a, y) && whole == a + y
    ensures Unescape(d, whole) == Unescape(d, a) + Unescape(d, y)
  {
    UnescapeSplits(d, a, y);
  }

  /** Emitting the safe prefix first and the rest later decodes the same text, whatever follows. */
  lemma SafeSplitDecodesTheSame(d: Decoder, s: string, x: string)
    ensures Unescape(d, s + x) == Unescape(d, s[..SafeSplit(s)]) + Unescape(d, s[SafeSplit(s)..] + x)
  {
    var k := SafeSplit(s);
    SafeSplitSeparable(d, s, x);
    SplitAt(d, s[..k], s[k..] + x, s + x);
  }
}
