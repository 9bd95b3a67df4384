/** The chunk condition without cuts: how far the characters that count for a start tag reach. */
module ChunkMarks {
  import opened Basics
  import opened Text
  import opened Entities
  import opened Tokenizer
  import opened TokenizerAgreement
  import opened ChunkInvariance
  import opened ChunkTheorem
  import opened ChunkExamples

  // ----- The characters that count -----

  /** Where the text of an attribute value lies. */
  datatype Span = Span(start: nat, end: nat)

  function TextSpan(s: string, k: nat): (r: Span)
    requires k <= |s|
    ensures k <= r.start <= r.end <= ValueAt(s, k).next
    ensures ValueAt(s, k).raw == s[r.start..r.end]
  {
    if k < |s| && IsQuote(s[k]) then Span(k + 1, SkipWhile(s, k + 1, Not(s[k])))
    else Span(k, SkipWhile(s, k, IsBareValueChar))
  }

  function ValueSpan(s: string, j: nat): (r: Span)
    requires j <= |s|
    ensures j <= r.start <= r.end <= AttrValue(s, j).next
    ensures AttrValue(s, j).raw == s[r.start..r.end]
  {
    if j < |s| && s[j] == '=' then TextSpan(s, SkipWhile(s, j + 1, IsSpace)) else Span(j, j)
  }

  function NameEnd(s: string, j0: nat): (e: nat)
    requires j0 <= |s|
    ensures j0 <= e <= |s|
  {
    SkipWhile(s, SkipWhile(s, j0, IsSpace), IsAttrNameChar)
  }

  function SpanAfter(s: string, j0: nat): (r: Span)
    requires j0 <= |s|
    ensures NameEnd(s, j0) <= r.start <= r.end <= |s|
  {
    ValueSpan(s, SkipWhile(s, NameEnd(s, j0), IsSpace))
  }

  /** Just past the last character of an attribute's value, or of its name when the value is empty. */
  function AttributeMark(s: string, j0: nat): (m: nat)
    requires j0 <= |s|
    ensures NameEnd(s, j0) <= m <= |s|
  {
    var span := SpanAfter(s, j0);
    if span.start < span.end then span.end else NameEnd(s, j0)
  }

  /**
   * Just past the last character that the attribute loop takes into a name or a value, or the last
   * `/` it steps over. Blanks, stray `=` and closing quotes do not count.
   */
  function Mark(d: Decoder, s: string, j: nat, last: nat): nat
    requires j <= |s|
    decreases |s| - j
  {
    match NextTurn(d, s, j)
    case Stop(_) => last
    case Over(slash, next) => Mark(d, s, next, if slash then next else last)
    case Take(_, _, next) => Mark(d, s, next, AttributeMark(s, j))
  }

  function TagMark(d: Decoder, s: string): nat
    requires s != ""
  {
    Mark(d, s, SkipWhile(s, 1, IsTagNameChar), 0)
  }

  /** The tag reaches past `m`, and for script and style some character at or after `m` counts. */
  predicate Late(d: Decoder, s: string, m: nat)
    requires |s| >= 2 && IsLetter(s[1])
  {
    var c := Consume(d, s);
    c.used > m && (RawAfter(c.token) == "" || TagMark(d, s) > m)
  }

  // ----- A value that loses its last character -----

  lemma {:induction false} TerminatorCut(s: string, j: nat)
    requires s != "" && 1 <= j
    ensures var p := s[..|s| - 1];
      Terminator(p, j) == if Terminator(s, j) == |s| - 1 then -1 else Terminator(s, j)
    decreases WINDOW - j
  {
    if j < |s| - 1 && j < WINDOW && s[j] != ';' && !Breaks(s[j]) {
      TerminatorCut(s, j + 1);
    }
  }

  lemma TailsDiffer(c: char, a: string, b: string)
    requires a != b
    ensures [c] + a != [c] + b
  {
    assert ([c] + a)[1..] == a && ([c] + b)[1..] == b;
  }

  /** A first unit that ends before the last character does not need it. */
  lemma ShorterUnit(d: Decoder, s: string)
    requires s != "" && FirstUnit(d, s).length < |s|
    ensures FirstUnit(d, s[..|s| - 1]) == FirstUnit(d, s)
  {
    var end := Terminator(s, 1);
    TerminatorCut(s, 1);
    assert s[..|s| - 1][0] == s[0];
    if end != -1 && end < |s| - 1 {
      assert s[..|s| - 1][1..end] == s[1..end];
    }
  }

  /** Without its last character a text decodes to another text. */
  lemma {:induction false} CutDecodesOtherwise(d: Decoder, s: string)
    requires s != "" && d("") != Some('&')
    ensures Unescape(d, s[..|s| - 1]) != Unescape(d, s)
    decreases |s|
  {
    hide FirstUnit, Unescape;
    var p := s[..|s| - 1];
    var u := FirstUnit(d, s);
    if u.length < |s| {
      var v := s[u.length..];
      ShorterUnit(d, s);
      UnescapeUnit(d, s);
      UnescapeUnit(d, p);
      assert p[u.length..] == v[..|v| - 1];
      CutDecodesOtherwise(d, v);
      TailsDiffer(u.c, Unescape(d, v), Unescape(d, p[u.length..]));
    } else {
      WholeReference(d, s);
    }
  }

  lemma WholeReference(d: Decoder, s: string)
    requires s != "" && d("") != Some('&') && FirstUnit(d, s).length == |s|
    ensures Unescape(d, s[..|s| - 1]) != Unescape(d, s)
  {
    var p, u := s[..|s| - 1], FirstUnit(d, s);
    if p != "" {
      TerminatorCut(s, 1);
      assert Unescape(d, s) == [u.c] by {
        UnescapeUnit(d, s);
        assert s[u.length..] == "" && Unescape(d, "") == "";
      }
      assert p[0] == s[0];
      UnescapeUnit(d, p);
      assert FirstUnit(d, p) == Unit('&', 1);
      if p[1..] == "" {
        assert s[1..|s| - 1] == "";
      }
    }
  }

  // ----- Cutting one turn -----

  lemma {:induction false} SkipWhileCut(s: string, k: nat, j: nat, p: char -> bool)
    requires j <= k <= |s|
    ensures SkipWhile(s[..k], j, p) == Min(SkipWhile(s, j, p), k)
    decreases |s| - j
  {
    if j < k && p(s[j]) {
      SkipWhileCut(s, k, j + 1, p);
    }
  }

  lemma CutText(s: string, k: nat, q: nat)
    requires q < k <= |s| && k <= ValueAt(s, q).next
    ensures var span := TextSpan(s, q);
      span.start <= k && ValueAt(s[..k], q) == Value(s[span.start..Min(span.end, k)], k)
  {
    hide SkipWhile;
    assert s[q] == s[..k][q];
    if IsQuote(s[q]) {
      SkipWhileCut(s, k, q + 1, Not(s[q]));
    } else {
      SkipWhileCut(s, k, q, IsBareValueChar);
    }
    assert s[TextSpan(s, q).start..Min(TextSpan(s, q).end, k)] == s[..k][TextSpan(s, q).start..Min(TextSpan(s, q).end, k)];
  }

  lemma CutValue(s: string, k: nat, w: nat)
    requires w <= |s| && k <= AttrValue(s, w).next
    ensures var span := ValueSpan(s, w);
      AttrValue(s[..k], Min(w, k)) == Value(s[Min(span.start, k)..Min(span.end, k)], k)
  {
    hide SkipWhile, ValueAt, TextSpan;
    if w < k {
      assert s[w] == s[..k][w] == '=';
      SkipWhileCut(s, k, w + 1, IsSpace);
      var q := SkipWhile(s, w + 1, IsSpace);
      if q < k {
        CutText(s, k, q);
      } else {
        NothingAt(s[..k]);
      }
    }
  }

  lemma NothingAt(t: string)
    ensures ValueAt(t, |t|) == Value("", |t|)
  {
  }

  /** The attribute whose name lies in [j, e). */
  function TakeAt(d: Decoder, s: string, j: nat, e: nat): Turn
    requires j <= e <= |s|
  {
    var v := AttrValue(s, SkipWhile(s, e, IsSpace));
    Take(Lower(s[j..e]), Unescape(d, v.raw), v.next)
  }

  lemma TakeIs(d: Decoder, s: string, j0: nat)
    requires j0 <= |s|
    ensures var j := SkipWhile(s, j0, IsSpace); var e := NameEnd(s, j0);
      NextTurn(d, s, j0).Take? == (j < |s| && s[j] != '>' && s[j] != '/' && e != j)
    ensures NextTurn(d, s, j0).Take? ==>
      NextTurn(d, s, j0) == TakeAt(d, s, SkipWhile(s, j0, IsSpace), NameEnd(s, j0))
  {
    hide SkipWhile, AttrValue, Unescape;
  }

  /** The value behind a name that ends at `e`, cut at `k`. */
  lemma CutValueAfter(s: string, k: nat, e: nat)
    requires k <= |s| && e <= |s| && k <= AttrValue(s, SkipWhile(s, e, IsSpace)).next
    ensures var span := ValueSpan(s, SkipWhile(s, e, IsSpace));
      AttrValue(s[..k], SkipWhile(s[..k], Min(e, k), IsSpace)) == Value(s[Min(span.start, k)..Min(span.end, k)], k)
  {
    hide SkipWhile, AttrValue, ValueSpan;
    SkipWhileCut(s, k, Min(e, k), IsSpace);
    CutValue(s, k, SkipWhile(s, e, IsSpace));
  }

  lemma CutTakeAt(d: Decoder, s: string, k: nat, j: nat, e: nat)
    requires j < k <= |s| && j <= e <= |s| && k <= TakeAt(d, s, j, e).next
    ensures var span := ValueSpan(s, SkipWhile(s, e, IsSpace));
      TakeAt(d, s[..k], j, Min(e, k)) ==
        Take(Lower(s[j..Min(e, k)]), Unescape(d, s[Min(span.start, k)..Min(span.end, k)]), k)
  {
    hide SkipWhile, AttrValue, ValueSpan, Unescape, Lower;
    CutValueAfter(s, k, e);
    SliceOfCut(s, k, j, Min(e, k));
  }

  lemma SliceOfCut(s: string, k: nat, i: nat, j: nat)
    requires i <= j <= k <= |s|
    ensures s[..k][i..j] == s[i..j]
  {
  }

  /** The turn that the cut at `k` interrupts. */
  lemma CutTake(d: Decoder, s: string, k: nat, j0: nat)
    requires j0 <= k <= |s| && NextTurn(d, s, j0).Take? && k <= NextTurn(d, s, j0).next
    ensures var j := SkipWhile(s, j0, IsSpace); var e := NameEnd(s, j0); var span := SpanAfter(s, j0);
      NextTurn(d, s[..k], j0) ==
        if k <= j then Stop(k)
        else Take(Lower(s[j..Min(e, k)]), Unescape(d, s[Min(span.start, k)..Min(span.end, k)]), k)
  {
    hide SkipWhile, TakeAt, ValueSpan, Unescape, AttrValue, ValueAt;
    var t := s[..k];
    var j, e := SkipWhile(s, j0, IsSpace), NameEnd(s, j0);
    SkipWhileCut(s, k, j0, IsSpace);
    if j < k {
      assert t[j] == s[j];
      SkipWhileCut(s, k, j, IsAttrNameChar);
      TakeIs(d, s, j0);
      TakeIs(d, t, j0);
      CutTakeAt(d, s, k, j, e);
    }
  }

  lemma CutStep(d: Decoder, s: string, k: nat, j0: nat)
    requires j0 <= k <= |s| && !NextTurn(d, s, j0).Take?
    ensures var turn := NextTurn(d, s, j0); var cut := NextTurn(d, s[..k], j0);
      cut == if turn.Stop? then Stop(Min(turn.end, k)) else if turn.next <= k then turn else Stop(k)
  {
    hide SkipWhile, AttrValue, Unescape;
    var j := SkipWhile(s, j0, IsSpace);
    SkipWhileCut(s, k, j0, IsSpace);
    if j < k {
      assert s[..k][j] == s[j];
      if s[j] != '>' && s[j] != '/' {
        SkipWhileCut(s, k, j, IsAttrNameChar);
      }
    }
  }

  // ----- Whole attribute loops -----

  /** From `j` on either nothing counts and nothing is added, or the mark lies beyond `j`. */
  lemma {:induction false} MarkMoves(d: Decoder, s: string, j: nat, attrs: seq<(string, string)>, sc: bool, last: nat)
    requires last <= j <= |s|
    ensures var r := Attrs(d, s, j, attrs, sc); var m := Mark(d, s, j, last);
      && m <= r.end
      && (sc ==> r.selfClosing)
      && (m > j || (m == last && r.attrs == attrs && r.selfClosing == sc))
    decreases |s| - j
  {
    hide NextTurn, AttributeMark;
    match NextTurn(d, s, j) {
      case Stop(_) =>
      case Over(slash, next) => MarkMoves(d, s, next, attrs, sc || slash, if slash then next else last);
      case Take(name, value, next) =>
        TakeMarks(d, s, j);
        MarkMoves(d, s, next, attrs + [(name, value)], sc, AttributeMark(s, j));
    }
  }

  lemma TakeMarks(d: Decoder, s: string, j0: nat)
    requires j0 <= |s| && NextTurn(d, s, j0).Take?
    ensures j0 <= SkipWhile(s, j0, IsSpace) < NameEnd(s, j0) <= AttributeMark(s, j0) <= NextTurn(d, s, j0).next
    ensures var t := NextTurn(d, s, j0); var span := SpanAfter(s, j0);
      && t.name == Lower(s[SkipWhile(s, j0, IsSpace)..NameEnd(s, j0)])
      && t.value == Unescape(d, s[span.start..span.end])
  {
    hide SkipWhile, Unescape, ValueSpan;
  }

  lemma AtTheEnd(d: Decoder, s: string, attrs: seq<(string, string)>, sc: bool)
    ensures Attrs(d, s, |s|, attrs, sc) == Attributes(attrs, sc, |s|)
  {
  }

  /** Cut at or after the mark, the loop collects the same. */
  lemma {:induction false} CutKeeps(d: Decoder, s: string, k: nat, j: nat, attrs: seq<(string, string)>, sc: bool, last: nat)
    requires last <= j <= k <= |s| && Mark(d, s, j, last) <= k
    ensures var a := Attrs(d, s[..k], j, attrs, sc); var b := Attrs(d, s, j, attrs, sc);
      a.attrs == b.attrs && a.selfClosing == b.selfClosing
    decreases |s| - j
  {
    hide NextTurn, AttributeMark;
    var t := s[..k];
    AtTheEnd(d, t, attrs, sc);
    match NextTurn(d, s, j) {
      case Stop(_) => CutStep(d, s, k, j);
      case Over(slash, next) =>
        CutStep(d, s, k, j);
        var last' := if slash then next else last;
        if next <= k {
          CutKeeps(d, s, k, next, attrs, sc || slash, last');
        } else {
          MarkMoves(d, s, next, attrs, sc || slash, last');
        }
      case Take(name, value, next) =>
        var all := attrs + [(name, value)];
        if next < k {
          NextTurnAgree(d, s, t, k, j);
          TakeMarks(d, s, j);
          CutKeeps(d, s, k, next, all, sc, AttributeMark(s, j));
        } else {
          TakeMarks(d, s, j);
          MarkMoves(d, s, next, all, sc, AttributeMark(s, j));
          MarkedTake(d, s, k, j);
          AtTheEnd(d, t, all, sc);
        }
    }
  }

  lemma MarkedTake(d: Decoder, s: string, k: nat, j: nat)
    requires j <= k <= |s| && NextTurn(d, s, j).Take? && AttributeMark(s, j) <= k <= NextTurn(d, s, j).next
    ensures NextTurn(d, s[..k], j) == NextTurn(d, s, j).(next := k)
  {
    hide NextTurn, NameEnd, SpanAfter, Unescape;
    TakeMarks(d, s, j);
    CutTake(d, s, k, j);
    var span := SpanAfter(s, j);
    assert s[Min(span.start, k)..Min(span.end, k)] == s[span.start..span.end];
  }

  lemma Unrolled(d: Decoder, s: string, j: nat, attrs: seq<(string, string)>, sc: bool, last: nat)
    requires j <= |s|
    ensures Attrs(d, s, j, attrs, sc) ==
      match NextTurn(d, s, j)
      case Stop(end) => Attributes(attrs, sc, end)
      case Over(slash, next) => Attrs(d, s, next, attrs, sc || slash)
      case Take(name, value, next) => Attrs(d, s, next, attrs + [(name, value)], sc)
    ensures Mark(d, s, j, last) ==
      match NextTurn(d, s, j)
      case Stop(_) => last
      case Over(slash, next) => Mark(d, s, next, if slash then next else last)
      case Take(_, _, next) => Mark(d, s, next, AttributeMark(s, j))
  {
    hide NextTurn;
  }

  /** What later turns lose is lost after this turn too, if the cut leaves it whole. */
  lemma LossCarries(d: Decoder, s: string, k: nat, j: nat, attrs: seq<(string, string)>, sc: bool, next: nat,
                    attrs': seq<(string, string)>, sc': bool)
    requires j <= next <= k <= |s| && NextTurn(d, s[..k], j) == NextTurn(d, s, j) && !NextTurn(d, s, j).Stop?
    requires var t := NextTurn(d, s, j);
      && next == t.next && attrs' == (if t.Take? then attrs + [(t.name, t.value)] else attrs)
      && sc' == (sc || (t.Over? && t.slash))
    requires Attrs(d, s[..k], next, attrs', sc').attrs != Attrs(d, s, next, attrs', sc').attrs
    ensures Attrs(d, s[..k], j, attrs, sc).attrs != Attrs(d, s, j, attrs, sc).attrs
  {
    hide NextTurn, Attrs;
    Unrolled(d, s, j, attrs, sc, 0);
    Unrolled(d, s[..k], j, attrs, sc, 0);
  }

  /** Cut inside the mark, the loop collects something else. */
  lemma {:induction false} CutLoses(d: Decoder, s: string, j: nat, attrs: seq<(string, string)>, sc: bool, last: nat)
    requires last <= j <= |s| && d("") != Some('&')
    requires Mark(d, s, j, last) > j && !Attrs(d, s, j, attrs, sc).selfClosing
    ensures j < Mark(d, s, j, last) <= |s|
    ensures var k := Mark(d, s, j, last) - 1;
      Attrs(d, s[..k], j, attrs, sc).attrs != Attrs(d, s, j, attrs, sc).attrs
    decreases |s| - j
  {
    hide NextTurn, AttributeMark, Attrs, Mark, SkipWhile, NameEnd, SpanAfter;
    MarkMoves(d, s, j, attrs, sc, last);
    Unrolled(d, s, j, attrs, sc, last);
    var k := Mark(d, s, j, last) - 1;
    match NextTurn(d, s, j) {
      case Stop(_) =>
      case Over(slash, next) =>
        MarkMoves(d, s, next, attrs, sc || slash, if slash then next else last);
        CutStep(d, s, k, j);
        CutLoses(d, s, next, attrs, sc, last);
        LossCarries(d, s, k, j, attrs, sc, next, attrs, sc);
      case Take(name, value, next) =>
        var all, mark := attrs + [(name, value)], AttributeMark(s, j);
        TakeMarks(d, s, j);
        MarkMoves(d, s, next, all, sc, mark);
        if k + 1 > next {
          SameTake(d, s, k, j);
          CutLoses(d, s, next, all, sc, mark);
          LossCarries(d, s, k, j, attrs, sc, next, all, sc);
        } else {
          LosesLast(d, s, j, attrs, sc);
        }
    }
  }

  lemma SameTake(d: Decoder, s: string, k: nat, j: nat)
    requires j <= k <= |s| && NextTurn(d, s, j).Take? && NextTurn(d, s, j).next <= k
    ensures NextTurn(d, s[..k], j) == NextTurn(d, s, j)
  {
    hide NextTurn, AttributeMark;
    if NextTurn(d, s, j).next < k {
      NextTurnAgree(d, s, s[..k], k, j);
    } else {
      TakeMarks(d, s, j);
      MarkedTake(d, s, k, j);
    }
  }

  lemma LosesLast(d: Decoder, s: string, j: nat, attrs: seq<(string, string)>, sc: bool)
    requires j <= |s| && NextTurn(d, s, j).Take? && d("") != Some('&')
    ensures j < AttributeMark(s, j) <= |s|
    ensures var t := s[..AttributeMark(s, j) - 1]; var turn := NextTurn(d, s, j);
      Attrs(d, t, j, attrs, sc).attrs != attrs + [(turn.name, turn.value)]
  {
    hide NextTurn, AttributeMark;
    LostCharacter(d, s, j);
    var t := s[..AttributeMark(s, j) - 1];
    match NextTurn(d, t, j) {
      case Stop(_) =>
      case Take(name, value, _) =>
        AtTheEnd(d, t, attrs + [(name, value)], sc);
        assert (attrs + [(name, value)])[|attrs|] == (name, value);
    }
  }

  /** One character short of its mark, an attribute is missing or differs. */
  lemma LostCharacter(d: Decoder, s: string, j: nat)
    requires j <= |s| && NextTurn(d, s, j).Take? && d("") != Some('&')
    ensures 0 < AttributeMark(s, j) <= |s|
    ensures j <= AttributeMark(s, j) - 1
    ensures var k := AttributeMark(s, j) - 1; var full := NextTurn(d, s, j); var cut := NextTurn(d, s[..k], j);
      cut.Stop? || (cut.Take? && cut.next == k && (cut.name, cut.value) != (full.name, full.value))
  {
    hide NextTurn, NameEnd, SpanAfter, Unescape;
    TakeMarks(d, s, j);
    var k := AttributeMark(s, j) - 1;
    CutTake(d, s, k, j);
    var span := SpanAfter(s, j);
    if span.start < span.end {
      var raw := s[span.start..span.end];
      ButLast(s, span.start, span.end);
      CutDecodesOtherwise(d, raw);
    }
  }

  lemma ButLast(s: string, i: nat, j: nat)
    requires i < j <= |s|
    ensures s[i..j][..|s[i..j]| - 1] == s[i..j - 1]
  {
  }

  // ----- The condition -----

  lemma ConsumeParts(d: Decoder, s: string)
    requires |s| >= 2 && IsLetter(s[1])
    ensures var j := SkipWhile(s, 1, IsTagNameChar); var p := Attrs(d, s, j, [], false); var tag := Lower(s[1..j]);
      && Consume(d, s).token == Start(tag, p.attrs, p.selfClosing || (tag !in RAWTEXT_TAGS && tag in VoidTags()))
      && p.end <= Consume(d, s).used
  {
    hide Attrs, Lower;
  }

  /** Cut behind its name, a tag keeps the name. */
  lemma CutTagName(s: string, k: nat)
    requires |s| >= 2 && 2 <= k <= |s| && SkipWhile(s, 1, IsTagNameChar) <= k
    ensures var j := SkipWhile(s, 1, IsTagNameChar);
      s[..k][1] == s[1] && SkipWhile(s[..k], 1, IsTagNameChar) == j && s[..k][1..j] == s[1..j]
  {
    hide SkipWhile;
    SkipWhileCut(s, k, 1, IsTagNameChar);
    SliceOfCut(s, k, 1, SkipWhile(s, 1, IsTagNameChar));
  }

  lemma CutTagKeeps(d: Decoder, s: string, k: nat)
    requires |s| >= 2 && IsLetter(s[1]) && 2 <= k <= |s| && SkipWhile(s, 1, IsTagNameChar) <= k
    requires TagMark(d, s) <= k
    ensures Consume(d, s[..k]).token == Consume(d, s).token
  {
    hide Attrs, Lower, Mark, Consume, SkipWhile;
    var j := SkipWhile(s, 1, IsTagNameChar);
    CutTagName(s, k);
    CutKeeps(d, s, k, j, [], false, 0);
    ConsumeParts(d, s);
    ConsumeParts(d, s[..k]);
  }

  lemma NamePasses(s: string)
    requires |s| >= 2 && IsLetter(s[1])
    ensures SkipWhile(s, 1, IsTagNameChar) >= 2
  {
  }

  lemma OtherAttributes(d: Decoder, s: string, t: string)
    requires |s| >= 2 && IsLetter(s[1]) && |t| >= 2 && IsLetter(t[1])
    requires Attrs(d, s, SkipWhile(s, 1, IsTagNameChar), [], false).attrs != Attrs(d, t, SkipWhile(t, 1, IsTagNameChar), [], false).attrs
    ensures Consume(d, s).token != Consume(d, t).token
  {
    hide Attrs, Lower, Consume, SkipWhile;
    ConsumeParts(d, s);
    ConsumeParts(d, t);
  }

  lemma RawTextIsOpen(d: Decoder, s: string)
    requires |s| >= 2 && IsLetter(s[1]) && RawAfter(Consume(d, s).token) != ""
    ensures !Attrs(d, s, SkipWhile(s, 1, IsTagNameChar), [], false).selfClosing
  {
    hide Attrs, Lower, Consume, SkipWhile;
    ConsumeParts(d, s);
  }

  lemma MarkIsInside(d: Decoder, s: string)
    requires |s| >= 2 && IsLetter(s[1])
    ensures TagMark(d, s) <= Consume(d, s).used <= |s|
  {
    hide Attrs, Consume, SkipWhile, Mark;
    ConsumeParts(d, s);
    MarkMoves(d, s, SkipWhile(s, 1, IsTagNameChar), [], false, 0);
  }

  lemma CutTagLoses(d: Decoder, s: string)
    requires |s| >= 2 && IsLetter(s[1]) && d("") != Some('&') && RawAfter(Consume(d, s).token) != ""
    requires TagMark(d, s) > SkipWhile(s, 1, IsTagNameChar)
    ensures var k := TagMark(d, s) - 1;
      2 <= k < Consume(d, s).used && Consume(d, s[..k]).token != Consume(d, s).token
  {
    hide Attrs, Mark, Consume, SkipWhile, RawAfter;
    var j := SkipWhile(s, 1, IsTagNameChar);
    NamePasses(s);
    RawTextIsOpen(d, s);
    MarkIsInside(d, s);
    CutLoses(d, s, j, [], false, 0);
    LosesAttributes(d, s, TagMark(d, s) - 1);
  }

  lemma LosesAttributes(d: Decoder, s: string, k: nat)
    requires |s| >= 2 && IsLetter(s[1]) && 2 <= k <= |s| && SkipWhile(s, 1, IsTagNameChar) <= k
    requires var j := SkipWhile(s, 1, IsTagNameChar);
      Attrs(d, s[..k], j, [], false).attrs != Attrs(d, s, j, [], false).attrs
    ensures Consume(d, s[..k]).token != Consume(d, s).token
  {
    hide Attrs, Consume, SkipWhile;
    CutTagName(s, k);
    OtherAttributes(d, s[..k], s);
  }

  /** Some cut at or after `m` parses to another token exactly when a character at or after `m` counts. */
  lemma DriftsExactlyWhenLate(d: Decoder, s: string, m: nat)
    requires |s| >= 2 && IsLetter(s[1]) && d("") != Some('&')
    requires 2 <= m <= |s| && SkipWhile(s, 1, IsTagNameChar) <= m
    ensures Drifts(d, s, m) == Late(d, s, m)
  {
    hide Consume, TagMark, SkipWhile;
    var c := Consume(d, s);
    if c.used > m && RawAfter(c.token) != "" {
      if TagMark(d, s) > m {
        CutTagLoses(d, s);
      } else {
        forall k | m <= k < c.used
          ensures Consume(d, s[..k]).token == c.token
        {
          CutTagKeeps(d, s, k);
        }
      }
    }
  }

  /** No start tag that a scan of `buf` meets is late; `h` as in `Steady`. */
  predicate Punctual(d: Decoder, buf: string, raw: string, h: nat)
    requires h <= |buf|
    decreases |buf|
  {
    if buf == "" then true
    else match NextStep(d, buf, raw, true)
      case Halt(_) => true
      case Emit(_, used, raw') =>
        if raw == "" && IsStartTag(buf) then
          var q := TagClose(buf);
          q == -1 || (!Late(d, buf, Max(h, q)) && Punctual(d, buf[used..], raw', Less(Max(h, q), used)))
        else Punctual(d, buf[used..], raw', Less(h, used))
  }

  lemma NameBeforeClose(s: string)
    requires IsStartTag(s) && TagClose(s) != -1
    ensures SkipWhile(s, 1, IsTagNameChar) <= TagClose(s)
  {
  }

  lemma {:induction false} SteadyIsPunctual(d: Decoder, buf: string, raw: string, h: nat)
    requires h <= |buf| && d("") != Some('&')
    ensures Steady(d, buf, raw, h) == Punctual(d, buf, raw, h)
    decreases |buf|
  {
    hide NextStep, Drifts, Late, TagClose;
    if buf != "" && NextStep(d, buf, raw, true).Emit? {
      var step := NextStep(d, buf, raw, true);
      if raw == "" && IsStartTag(buf) {
        var q := TagClose(buf);
        if q != -1 {
          NameBeforeClose(buf);
          DriftsExactlyWhenLate(d, buf, Max(h, q));
          SteadyIsPunctual(d, buf[step.used..], step.raw, Less(Max(h, q), step.used));
        }
      } else {
        SteadyIsPunctual(d, buf[step.used..], step.raw, Less(h, step.used));
      }
    }
  }

  /** The same theorem with a condition read off the input, for the module's own decoder. */
  lemma ChunkInvariantExactlyWhenPunctual(input: string)
    ensures ChunkInvariant(Decode, input) <==> Punctual(Decode, input, "", 0)
  {
    hide Steady, Punctual, ChunkInvariant;
    assert Decode("") == None;
    SteadyIsPunctual(Decode, input, "", 0);
    ChunkInvariantExactlyWhenSteady(Decode, input);
  }

  // ----- A script tag whose first quote is stray -----

  const HEAD := "<script \"=\">"

  function Quoted(x: string): string { HEAD + x + "\">" }

  lemma QuotedCloses(x: string)
    ensures TagClose(Quoted(x)) == 12 && SkipWhile(Quoted(x), 1, IsTagNameChar) == 7
  {
    var s := Quoted(x);
    SkipWhileIs(s, 1, IsTagNameChar, 7);
    SkipWhileIs(s, 9, Not('"'), 10);
    assert ScanClose(s, 11) == 12;
    QuoteSkips(s, 8, 11);
    assert ScanClose(s, 7) == ScanClose(s, 8);
  }

  lemma QuotedTurn(d: Decoder, x: string)
    requires '"' !in x
    ensures NextTurn(d, Quoted(x), 7).Take? && NextTurn(d, Quoted(x), 7).next == 13 + |x|
    ensures AttributeMark(Quoted(x), 7) == 12 + |x|
  {
    hide Unescape;
    var s := Quoted(x);
    SkipWhileIs(s, 7, IsSpace, 8);
    SkipWhileIs(s, 8, IsAttrNameChar, 9);
    SkipWhileIs(s, 9, IsSpace, 9);
    SkipWhileIs(s, 10, IsSpace, 10);
    SkipWhileIs(s, 11, Not('"'), 12 + |x|);
    hide SkipWhile;
  }

  lemma QuotedLoop(d: Decoder, x: string)
    requires '"' !in x
    ensures var p := Attrs(d, Quoted(x), 7, [], false); p.end == 13 + |x| && !p.selfClosing
    ensures Mark(d, Quoted(x), 7, 0) == 12 + |x|
  {
    hide AttributeMark, SkipWhile, Unescape;
    QuotedTurn(d, x);
    QuotedStops(d, x);
    hide NextTurn, Quoted;
  }

  lemma QuotedStops(d: Decoder, x: string)
    ensures NextTurn(d, Quoted(x), 13 + |x|) == Stop(13 + |x|)
  {
    SkipWhileIs(Quoted(x), 13 + |x|, IsSpace, 13 + |x|);
    hide SkipWhile, AttrValue;
  }

  lemma QuotedTag(d: Decoder, x: string)
    requires '"' !in x
    ensures Consume(d, Quoted(x)).used == |Quoted(x)| && RawAfter(Consume(d, Quoted(x)).token) == "script"
    ensures TagMark(d, Quoted(x)) == 12 + |x|
  {
    hide Attrs, Mark, SkipWhile;
    QuotedCloses(x);
    QuotedLoop(d, x);
    assert Lower(Quoted(x)[1..7]) == "script";
    assert "script" in RAWTEXT_TAGS;
  }

  lemma OneTag(d: Decoder, s: string)
    requires IsStartTag(s) && TagClose(s) != -1 && Consume(d, s).used == |s|
    ensures Punctual(d, s, "", 0) == !Late(d, s, TagClose(s))
  {
    hide Consume, TagClose, Late;
    assert s[|s|..] == "";
  }

  /** The tag is chunk-invariant exactly when only the closing quote follows its first `>`. */
  lemma ClosingQuoteExample(x: string)
    requires '"' !in x
    ensures ChunkInvariant(Decode, Quoted(x)) <==> x == ""
  {
    hide Consume, TagClose, TagMark, SkipWhile, Punctual, ChunkInvariant;
    var s := Quoted(x);
    QuotedCloses(x);
    QuotedTag(Decode, x);
    OneTag(Decode, s);
    ChunkInvariantExactlyWhenPunctual(s);
  }
}
