/** The incremental HTML tokenizer (html_to_markdown.py): its step function and the class that runs it. */
module Tokenizer {
  import opened Basics
  import opened Text
  import opened Entities

  datatype Token =
    | Start(tag: string, attrs: seq<(string, string)>, selfClosing: bool)
    | End(name: string)
    | Text(text: string)
    | Comment(comment: string)
    | Doctype(declaration: string)

  /** One turn of `_scan`: keep the last `keep` characters and wait, or emit and consume. */
  datatype Step =
    | Halt(keep: nat)
    | Emit(token: Token, used: nat, raw: string)

  const RAWTEXT_TAGS: set<string> := {"script", "style"}

  function VoidTags(): set<string> {
    {"area", "base", "br", "col", "command", "embed", "hr", "img", "input", "keygen", "link",
     "meta", "param", "source", "track", "wbr"}
  }

  predicate IsLetter(c: char) { 'a' <= c <= 'z' || 'A' <= c <= 'Z' }
  predicate IsTagNameChar(c: char) { IsLetter(c) || '0' <= c <= '9' || c == '-' || c == '_' || c == ':' }
  predicate IsSpace(c: char) { c == ' ' || c == '\t' || c == '\r' || c == '\n' }
  predicate IsAttrNameChar(c: char) { c != '=' && c != '>' && !IsSpace(c) && c != '/' }
  predicate IsBareValueChar(c: char) { c != '>' && !IsSpace(c) }
  predicate IsQuote(c: char) { c == '"' || c == '\'' }
  function Not(q: char): char -> bool { c => c != q }

  /** Index just past the first `c` at or after `from`, or -1. */
  function After(s: string, c: char, from: nat): (r: int)
    requires from <= |s|
    ensures r == -1 || (from < r <= |s| && s[r - 1] == c)
  {
    var i := SkipWhile(s, from, Not(c));
    if i < |s| then i + 1 else -1
  }

  // ----- Start tags -----

  /** `_can_complete_start_tag`: index just past the first `>` outside quotes, quotes counting anywhere. */
  function ScanClose(s: string, j: nat): (r: int)
    requires j <= |s|
    ensures r == -1 || (j < r <= |s| && s[r - 1] == '>')
    decreases |s| - j
  {
    if j == |s| then -1
    else if s[j] == '>' then j + 1
    else if s[j] == '/' && j + 1 < |s| && s[j + 1] == '>' then j + 2
    else if IsQuote(s[j]) then
      var close := SkipWhile(s, j + 1, Not(s[j]));
      if close == |s| then -1 else ScanClose(s, close + 1)
    else ScanClose(s, j + 1)
  }

  function TagClose(s: string): (r: int)
    requires s != ""
    ensures r == -1 || (1 < r <= |s| && s[r - 1] == '>')
  {
    ScanClose(s, SkipWhile(s, 1, IsTagNameChar))
  }

  datatype Value = Value(raw: string, next: nat)

  /** A quoted or a bare value starting at `k`. */
  function ValueAt(s: string, k: nat): (v: Value)
    requires k <= |s|
    ensures k <= v.next <= |s|
  {
    if k < |s| && IsQuote(s[k]) then
      var close := SkipWhile(s, k + 1, Not(s[k]));
      Value(s[k + 1..close], if close < |s| then close + 1 else close)
    else
      var end := SkipWhile(s, k, IsBareValueChar);
      Value(s[k..end], end)
  }

  /** The optional `= value` part of an attribute, quotes counting only after `=`. */
  function AttrValue(s: string, j: nat): (v: Value)
    requires j <= |s|
    ensures j <= v.next <= |s|
  {
    if j < |s| && s[j] == '=' then ValueAt(s, SkipWhile(s, j + 1, IsSpace)) else Value("", j)
  }

  /** One turn of the attribute loop: stop, step over a `/` or a stray `=`, or take an attribute. */
  datatype Turn =
    | Stop(end: nat)
    | Over(slash: bool, next: nat)
    | Take(name: string, value: string, next: nat)

  function NextTurn(d: Decoder, s: string, j0: nat): (t: Turn)
    requires j0 <= |s|
    ensures t.Stop? ==> j0 <= t.end <= |s| && (t.end < |s| ==> s[t.end] == '>')
    ensures !t.Stop? ==> j0 < t.next <= |s|
  {
    var j := SkipWhile(s, j0, IsSpace);
    if j == |s| || s[j] == '>' then Stop(j)
    else if s[j] == '/' then Over(true, j + 1)
    else
      var e := SkipWhile(s, j, IsAttrNameChar);
      if e == j then Over(false, j + 1)
      else
        var v := AttrValue(s, SkipWhile(s, e, IsSpace));
        Take(Lower(s[j..e]), Unescape(d, v.raw), v.next)
  }

  datatype Attributes = Attributes(attrs: seq<(string, string)>, selfClosing: bool, end: nat)

  /** The attribute loop of `_consume_start_tag`; `end` is where it stopped, at `>` or at the end of `s`. */
  function Attrs(d: Decoder, s: string, j: nat, attrs: seq<(string, string)>, selfClosing: bool): (r: Attributes)
    requires j <= |s|
    ensures j <= r.end <= |s|
    ensures r.end < |s| ==> s[r.end] == '>'
    decreases |s| - j
  {
    match NextTurn(d, s, j)
    case Stop(end) => Attributes(attrs, selfClosing, end)
    case Over(slash, next) => Attrs(d, s, next, attrs, selfClosing || slash)
    case Take(name, value, next) => Attrs(d, s, next, attrs + [(name, value)], selfClosing)
  }

  /** A start token and the number of characters it takes. */
  datatype Consumed = Consumed(token: Token, used: nat)

  function Consume(d: Decoder, s: string): (r: Consumed)
    requires |s| >= 2 && IsLetter(s[1])
    ensures r.token.Start?
    ensures 1 < r.used <= |s|
  {
    var j := SkipWhile(s, 1, IsTagNameChar);
    var tag := Lower(s[1..j]);
    var p := Attrs(d, s, j, [], false);
    var selfClosing := p.selfClosing || (tag !in RAWTEXT_TAGS && tag in VoidTags());
    Consumed(Start(tag, p.attrs, selfClosing), if p.end < |s| then p.end + 1 else p.end)
  }

  /** The raw-text tag in force after a start token, or "". */
  function RawAfter(token: Token): string
    requires token.Start?
  {
    if token.tag in RAWTEXT_TAGS && !token.selfClosing then token.tag else ""
  }

  // ----- One step -----

  /** In raw text: index just past the `>` of the matching close tag, or -1. */
  function RawClose(buf: string, raw: string): (r: int)
    ensures r == -1 || 0 < r <= |buf|
  {
    var idx := Find(Lower(buf), "</" + raw, 0);
    if idx == -1 then -1 else After(buf, '>', idx + 2 + |raw|)
  }

  function RawStep(buf: string, raw: string, eof: bool): Step {
    var e := RawClose(buf, raw);
    if e != -1 then Emit(End(raw), e, "")
    else if eof then Halt(0)
    else if Find(Lower(buf), "</" + raw, 0) == -1 then Halt(Min(|buf|, 2 + |raw|))
    else Halt(|buf|)
  }

  function TextStep(d: Decoder, buf: string, eof: bool): Step
    requires buf != ""
  {
    var i := SkipWhile(buf, 0, Not('<'));
    if i < |buf| || eof then Emit(Text(Unescape(d, buf[..i])), i, "")
    else if SafeSplit(buf) == 0 then Halt(|buf|)
    else Emit(Text(Unescape(d, buf[..SafeSplit(buf)])), SafeSplit(buf), "")
  }

  predicate IsStartTag(buf: string) {
    |buf| >= 2 && buf[0] == '<' && IsLetter(buf[1])
  }

  /** Comments, declarations, processing instructions, end tags and a stray `<`. */
  function MarkupStep(d: Decoder, buf: string, eof: bool): Step
    requires |buf| >= 2 && buf[0] == '<'
  {
    var wait := Halt(if eof then 0 else |buf|);
    if buf[1] == '!' && buf[..Min(4, |buf|)] == "<!--" then
      var end := Find(buf, "-->", 4);
      if end == -1 then wait else Emit(Comment(buf[4..end]), end + 3, "")
    else if buf[1] == '!' || buf[1] == '?' || buf[1] == '/' then
      var e := After(buf, '>', 2);
      if e == -1 then wait
      else if buf[1] == '!' then Emit(Doctype(buf[2..e - 1]), e, "")
      else if buf[1] == '?' then Emit(Comment(buf[2..e - 1]), e, "")
      else Emit(End(Lower(buf[2..SkipWhile(buf, 2, IsTagNameChar)])), e, "")
    else Emit(Text(Unescape(d, buf[..1])), 1, "")
  }

  function NextStep(d: Decoder, buf: string, raw: string, eof: bool): (r: Step)
    requires buf != ""
    ensures r.Emit? ==> 1 <= r.used <= |buf|
    ensures r.Halt? ==> r.keep <= |buf|
  {
    if raw != "" then RawStep(buf, raw, eof)
    else if buf[0] != '<' then TextStep(d, buf, eof)
    else if |buf| == 1 then (if eof then Emit(Text("<"), 1, "") else Halt(1))
    else if IsStartTag(buf) then
      if TagClose(buf) == -1 && !eof then Halt(|buf|)
      else var c := Consume(d, buf); Emit(c.token, c.used, RawAfter(c.token))
    else MarkupStep(d, buf, eof)
  }

  // ----- Whole scans -----

  function Tokens(d: Decoder, buf: string, raw: string, eof: bool): seq<Token>
    decreases |buf|
  {
    if buf == "" then []
    else match NextStep(d, buf, raw, eof)
      case Halt(_) => []
      case Emit(token, used, raw') => [token] + Tokens(d, buf[used..], raw', eof)
  }

  datatype State = State(buf: string, raw: string)

  function Residue(d: Decoder, buf: string, raw: string, eof: bool): (st: State)
    ensures |st.buf| <= |buf|
    decreases |buf|
  {
    if buf == "" then State("", raw)
    else match NextStep(d, buf, raw, eof)
      case Halt(keep) => State(buf[|buf| - keep..], raw)
      case Emit(_, used, raw') => Residue(d, buf[used..], raw', eof)
  }

  /** Every token emitted when the chunks are fed one after another and the tokenizer is then finalized. */
  function Run(d: Decoder, chunks: seq<string>, st: State): seq<Token>
  {
    if chunks == [] then Tokens(d, st.buf, st.raw, true)
    else
      var buf := st.buf + chunks[0];
      Tokens(d, buf, st.raw, false) + Run(d, chunks[1..], Residue(d, buf, st.raw, false))
  }

  // ----- The class -----

  method CanCompleteStartTag(buf: string, eof: bool) returns (r: bool)
    requires buf != ""
    ensures r == (TagClose(buf) != -1 || eof)
  {
    var n := |buf|;
    var j := 1;
    while j < n && IsTagNameChar(buf[j])
      invariant 1 <= j <= n
      invariant SkipWhile(buf, 1, IsTagNameChar) == SkipWhile(buf, j, IsTagNameChar)
    {
      j := j + 1;
    }
    while j < n
      invariant 1 <= j <= n
      invariant TagClose(buf) == ScanClose(buf, j)
    {
      var c := buf[j];
      if c == '>' {
        return true;
      }
      if c == '/' && j + 1 < n && buf[j + 1] == '>' {
        return true;
      }
      if IsQuote(c) {
        var close := SkipWhile(buf, j + 1, Not(c));
        if close == n {
          return eof;
        }
        j := close + 1;
        continue;
      }
      j := j + 1;
    }
    return eof;
  }

  method Skip(s: string, j: nat, p: char -> bool) returns (r: nat)
    requires j <= |s|
    ensures r == SkipWhile(s, j, p)
  {
    r := j;
    while r < |s| && p(s[r])
      invariant j <= r <= |s|
      invariant SkipWhile(s, j, p) == SkipWhile(s, r, p)
    {
      r := r + 1;
    }
  }

  method ParseValue(s: string, j0: nat) returns (v: Value)
    requires j0 <= |s|
    ensures v == AttrValue(s, j0)
  {
    var j := j0;
    if j < |s| && s[j] == '=' {
      j := Skip(s, j + 1, IsSpace);
      if j < |s| && IsQuote(s[j]) {
        var close := Skip(s, j + 1, Not(s[j]));
        return Value(s[j + 1..close], if close < |s| then close + 1 else close);
      }
      var end := Skip(s, j, IsBareValueChar);
      return Value(s[j..end], end);
    }
    return Value("", j);
  }

  method TakeTurn(d: Decoder, buf: string, j: nat) returns (t: Turn)
    requires j <= |buf|
    ensures t == NextTurn(d, buf, j)
  {
    hide AttrValue, Unescape, SkipWhile;
    var start := Skip(buf, j, IsSpace);
    if start == |buf| || buf[start] == '>' {
      return Stop(start);
    }
    if buf[start] == '/' {
      return Over(true, start + 1);
    }
    var end := Skip(buf, start, IsAttrNameChar);
    if end == start {
      return Over(false, start + 1);
    }
    var afterName := Skip(buf, end, IsSpace);
    var v := ParseValue(buf, afterName);
    var text := EntityUnescape(d, v.raw);
    return Take(Lower(buf[start..end]), text, v.next);
  }

  method ConsumeAttributes(d: Decoder, buf: string, j0: nat) returns (r: Attributes)
    requires j0 <= |buf|
    ensures r == Attrs(d, buf, j0, [], false)
  {
    hide NextTurn;
    var attrs: seq<(string, string)>, selfClosing := [], false;
    var j := j0;
    while true
      invariant j <= |buf|
      invariant Attrs(d, buf, j, attrs, selfClosing) == Attrs(d, buf, j0, [], false)
      decreases |buf| - j
    {
      var turn := TakeTurn(d, buf, j);
      match turn {
        case Stop(end) => return Attributes(attrs, selfClosing, end);
        case Over(slash, next) => selfClosing, j := selfClosing || slash, next;
        case Take(name, value, next) => attrs, j := attrs + [(name, value)], next;
      }
    }
  }

  method ConsumeStartTag(d: Decoder, buf: string) returns (r: Consumed)
    requires |buf| >= 2 && IsLetter(buf[1])
    ensures r == Consume(d, buf)
  {
    hide Attrs;
    var j := Skip(buf, 1, IsTagNameChar);
    var tag := Lower(buf[1..j]);
    var p := ConsumeAttributes(d, buf, j);
    var selfClosing := p.selfClosing || (tag !in RAWTEXT_TAGS && tag in VoidTags());
    r := Consumed(Start(tag, p.attrs, selfClosing), if p.end < |buf| then p.end + 1 else p.end);
  }

  /** Raw-text mode: look for the close tag, then for its `>`. */
  method DecideRaw(buf: string, raw: string, eof: bool) returns (step: Step)
    ensures step == RawStep(buf, raw, eof)
  {
    var close := "</" + raw;
    var idx := Find(Lower(buf), close, 0);
    if idx == -1 {
      if eof {
        return Halt(0);
      }
      var keep := |close|;
      return Halt(if |buf| > keep then keep else |buf|);
    }
    var gt := Skip(buf, idx + |close|, Not('>'));
    if gt == |buf| {
      return Halt(if eof then 0 else |buf|);
    }
    return Emit(End(raw), gt + 1, "");
  }

  method CanCompleteEndTag(buf: string, eof: bool) returns (r: bool)
    requires |buf| >= 2
    ensures r == (After(buf, '>', 2) != -1 || eof)
  {
    var gt := Skip(buf, 2, Not('>'));
    return gt < |buf| || eof;
  }

  /** Up to the `>` of a declaration or processing instruction, or -1. */
  method DeclarationEnd(buf: string) returns (end: int)
    requires |buf| >= 2
    ensures end == if After(buf, '>', 2) == -1 then -1 else After(buf, '>', 2) - 1
  {
    var gt := Skip(buf, 2, Not('>'));
    return if gt < |buf| then gt else -1;
  }

  method DecideEndTag(buf: string, eof: bool) returns (step: Step)
    requires |buf| >= 2
    ensures var e := After(buf, '>', 2);
      step == if e == -1 then Halt(if eof then 0 else |buf|)
              else Emit(End(Lower(buf[2..SkipWhile(buf, 2, IsTagNameChar)])), e, "")
  {
    var complete := CanCompleteEndTag(buf, eof);
    if !complete {
      return Halt(|buf|);
    }
    var nameEnd := Skip(buf, 2, IsTagNameChar);
    var j := Skip(buf, nameEnd, Not('>'));
    NameHasNoClose(buf, 2, nameEnd);
    if j == |buf| {
      return Halt(0);
    }
    return Emit(End(Lower(buf[2..nameEnd])), j + 1, "");
  }

  /** A tag name holds no `>`, so the search may start behind it. */
  lemma {:induction false} NameHasNoClose(s: string, j: nat, k: nat)
    requires j <= k <= |s| && forall i :: j <= i < k ==> IsTagNameChar(s[i])
    ensures SkipWhile(s, j, Not('>')) == SkipWhile(s, k, Not('>'))
    decreases k - j
  {
    if j < k {
      assert IsTagNameChar(s[j]);
      NameHasNoClose(s, j + 1, k);
    }
  }

  method DecideMarkup(d: Decoder, buf: string, eof: bool) returns (step: Step)
    requires |buf| >= 2 && buf[0] == '<'
    ensures step == MarkupStep(d, buf, eof)
  {
    hide Unescape, SkipWhile;
    if buf[1] == '!' && buf[..Min(4, |buf|)] == "<!--" {
      assert |buf| >= 4;
      var end := Find(buf, "-->", 4);
      if end == -1 {
        return Halt(if eof then 0 else |buf|);
      }
      return Emit(Comment(buf[4..end]), end + 3, "");
    }
    if buf[1] == '!' || buf[1] == '?' {
      var end := DeclarationEnd(buf);
      if end == -1 {
        return Halt(if eof then 0 else |buf|);
      }
      return Emit(if buf[1] == '!' then Doctype(buf[2..end]) else Comment(buf[2..end]), end + 1, "");
    }
    if buf[1] == '/' {
      step := DecideEndTag(buf, eof);
      return;
    }
    var text := EntityUnescape(d, buf[..1]);
    return Emit(Text(text), 1, "");
  }

  class StreamingTokenizer {
    const decoder: Decoder
    var buf: string
    var inRawtext: bool
    var rawtextTag: string
    var emitted: seq<Token>

    ghost predicate Valid()
      reads this
    {
      inRawtext <==> rawtextTag != ""
    }

    ghost function Abs(): State
      reads this
    {
      State(buf, rawtextTag)
    }

    constructor (decoder: Decoder)
      ensures Valid() && this.decoder == decoder && emitted == [] && Abs() == State("", "")
    {
      this.decoder := decoder;
      buf, inRawtext, rawtextTag, emitted := "", false, "", [];
    }

    method DecideStep(eof: bool) returns (step: Step)
      requires Valid() && buf != ""
      ensures step == NextStep(decoder, buf, rawtextTag, eof)
    {
      if inRawtext {
        step := DecideRaw(buf, rawtextTag, eof);
        return;
      }
      if buf[0] != '<' {
        var i := Skip(buf, 0, Not('<'));
        if i == |buf| && !eof {
          var safe := SafeTextSplit(buf);
          if safe == 0 {
            return Halt(|buf|);
          }
          var text := EntityUnescape(decoder, buf[..safe]);
          return Emit(Text(text), safe, "");
        }
        var text := EntityUnescape(decoder, buf[..i]);
        return Emit(Text(text), i, "");
      }
      if |buf| == 1 {
        return if eof then Emit(Text("<"), 1, "") else Halt(1);
      }
      if IsLetter(buf[1]) {
        var complete := CanCompleteStartTag(buf, eof);
        if !complete {
          return Halt(|buf|);
        }
        var c := ConsumeStartTag(decoder, buf);
        return Emit(c.token, c.used, RawAfter(c.token));
      }
      step := DecideMarkup(decoder, buf, eof);
    }

    method Scan(eof: bool)
      requires Valid()
      modifies this
      ensures Valid()
      ensures emitted == old(emitted) + Tokens(decoder, old(buf), old(rawtextTag), eof)
      ensures Abs() == Residue(decoder, old(buf), old(rawtextTag), eof)
    {
      hide NextStep;
      ghost var all := emitted + Tokens(decoder, buf, rawtextTag, eof);
      while buf != ""
        invariant Valid()
        invariant emitted + Tokens(decoder, buf, rawtextTag, eof) == all
        invariant Residue(decoder, buf, rawtextTag, eof) == Residue(decoder, old(buf), old(rawtextTag), eof)
        decreases |buf|
      {
        var step := DecideStep(eof);
        match step {
          case Halt(keep) =>
            assert emitted + [] == emitted;
            buf := buf[|buf| - keep..];
            return;
          case Emit(token, used, raw) =>
            Assoc(emitted, [token], Tokens(decoder, buf[used..], raw, eof));
            emitted := emitted + [token];
            buf, inRawtext, rawtextTag := buf[used..], raw != "", raw;
        }
      }
    }

    method Feed(chunk: string)
      requires Valid()
      modifies this
      ensures Valid()
      ensures emitted == old(emitted) + Tokens(decoder, old(buf) + chunk, old(rawtextTag), false)
      ensures Abs() == Residue(decoder, old(buf) + chunk, old(rawtextTag), false)
    {
      buf := buf + chunk;
      Scan(false);
    }

    method Finalize()
      requires Valid()
      modifies this
      ensures emitted == old(emitted) + Tokens(decoder, old(buf), old(rawtextTag), true)
      ensures buf == ""
    {
      Scan(true);
      buf := "";
    }

    /** Feeding every chunk and finalizing. */
    method Tokenize(chunks: seq<string>)
      requires Valid() && emitted == [] && Abs() == State("", "")
      modifies this
      ensures emitted == Run(decoder, chunks, State("", ""))
    {
      hide NextStep, Tokens, Residue;
      ghost var all := Run(decoder, chunks, State("", ""));
      var i := 0;
      while i < |chunks|
        invariant Valid() && 0 <= i <= |chunks|
        invariant emitted + Run(decoder, chunks[i..], Abs()) == all
      {
        assert chunks[i..][0] == chunks[i] && chunks[i..][1..] == chunks[i + 1..];
        Feed(chunks[i]);
        i := i + 1;
      }
      assert chunks[i..] == [];
      Finalize();
    }
  }
}
