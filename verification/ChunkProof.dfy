/** The proof that an input is chunk-invariant exactly when no start tag drifts. */
module ChunkProof {
  import opened Text
  import opened Entities
  import opened Tokenizer
  import opened TokenizerAgreement
  import opened ChunkInvariance

  // ----- A `<` added to an unclosed start tag always shows in its attributes -----

  lemma {:induction false} SkipWhileAppend(s: string, j: nat, p: char -> bool)
    requires j <= |s|
    ensures SkipWhile(s + "<", j, p) ==
      if SkipWhile(s, j, p) < |s| || !p('<') then SkipWhile(s, j, p) else |s| + 1
    decreases |s| - j
  {
    if j < |s| {
      assert (s + "<")[j] == s[j];
      if p(s[j]) {
        SkipWhileAppend(s, j + 1, p);
      }
    }
  }

  lemma UnescapeAppendLt(d: Decoder, s: string)
    ensures Unescape(d, s + "<") == Unescape(d, s) + "<"
  {
    SeparableAtBreak(d, s, "<");
    UnescapeSplits(d, s, "<");
    UnescapeWithoutAmpersand(d, "<");
  }

  /** An unfinished value that gets one more `<` decodes to a different text. */
  lemma SliceAppendLt(d: Decoder, s: string, k: nat)
    requires k <= |s|
    ensures Unescape(d, (s + "<")[k..|s| + 1]) != Unescape(d, s[k..])
  {
    assert (s + "<")[k..|s| + 1] == s[k..] + "<";
    UnescapeAppendLt(d, s[k..]);
    assert |Unescape(d, s[k..]) + "<"| == |Unescape(d, s[k..])| + 1;
  }

  lemma ValueAtAppendLt(d: Decoder, s: string, k: nat)
    requires k < |s| && ValueAt(s, k).next == |s|
    ensures var v := ValueAt(s, k); var w := ValueAt(s + "<", k);
      w == v || Unescape(d, w.raw) != Unescape(d, v.raw)
  {
    hide SkipWhile, Unescape;
    var t := s + "<";
    assert t[k] == s[k];
    if IsQuote(s[k]) {
      var close := SkipWhile(s, k + 1, Not(s[k]));
      SkipWhileAppend(s, k + 1, Not(s[k]));
      if close == |s| {
        assert s[k + 1..close] == s[k + 1..];
        SliceAppendLt(d, s, k + 1);
      } else {
        assert t[k + 1..close] == s[k + 1..close];
      }
    } else {
      SkipWhileAppend(s, k, IsBareValueChar);
      assert s[k..|s|] == s[k..];
      SliceAppendLt(d, s, k);
    }
  }

  lemma EmptyValueAppendLt(d: Decoder, s: string)
    ensures Unescape(d, ValueAt(s + "<", |s|).raw) != Unescape(d, ValueAt(s, |s|).raw)
  {
    hide Unescape;
    assert (s + "<")[|s|] == '<';
    SkipWhileAppend(s, |s|, IsBareValueChar);
    assert s[|s|..|s|] == s[|s|..];
    SliceAppendLt(d, s, |s|);
  }

  lemma ValueAppendLt(d: Decoder, s: string, j: nat)
    requires j < |s| && AttrValue(s, j).next == |s|
    ensures var v := AttrValue(s, j); var w := AttrValue(s + "<", j);
      w == v || Unescape(d, w.raw) != Unescape(d, v.raw)
  {
    hide SkipWhile, Unescape, ValueAt;
    assert (s + "<")[j] == s[j];
    if s[j] == '=' {
      var k := SkipWhile(s, j + 1, IsSpace);
      SkipWhileAppend(s, j + 1, IsSpace);
      if k < |s| {
        ValueAtAppendLt(d, s, k);
      } else {
        EmptyValueAppendLt(d, s);
      }
    }
  }

  lemma TurnAppendLt(d: Decoder, s: string, j0: nat)
    requires j0 <= |s| && TurnEnd(NextTurn(d, s, j0)) == |s|
    ensures var u := NextTurn(d, s, j0); var w := NextTurn(d, s + "<", j0);
      || (w == u && !u.Stop?)
      || (w.Take? && u.Stop?)
      || (w.Take? && u.Take? && (w.name, w.value) != (u.name, u.value))
  {
    hide SkipWhile, Unescape, AttrValue;
    var t := s + "<";
    var j := SkipWhile(s, j0, IsSpace);
    SkipWhileAppend(s, j0, IsSpace);
    SkipWhileAppend(s, j, IsAttrNameChar);
    if j < |s| && s[j] != '>' && s[j] != '/' {
      assert t[j] == s[j];
      var e := SkipWhile(s, j, IsAttrNameChar);
      if e != j {
        if e == |s| {
          assert |Lower(t[j..|s| + 1])| == |Lower(s[j..e])| + 1;
        } else {
          assert t[j..e] == s[j..e];
          SkipWhileAppend(s, e, IsSpace);
          var w := SkipWhile(s, e, IsSpace);
          if w < |s| {
            ValueAppendLt(d, s, w);
          } else {
            NoValueAtEnd(s);
          }
        }
      }
    }
  }

  lemma NoValueAtEnd(s: string)
    ensures AttrValue(s, |s|) == AttrValue(s + "<", |s|) == Value("", |s|)
  {
    assert (s + "<")[|s|] == '<';
  }

  lemma {:induction false} AttrsKeep(d: Decoder, s: string, j: nat, attrs: seq<(string, string)>, selfClosing: bool)
    requires j <= |s|
    ensures attrs <= Attrs(d, s, j, attrs, selfClosing).attrs
    decreases |s| - j
  {
    hide NextTurn;
    match NextTurn(d, s, j) {
      case Stop(_) =>
      case Over(slash, next) => AttrsKeep(d, s, next, attrs, selfClosing || slash);
      case Take(name, value, next) => AttrsKeep(d, s, next, attrs + [(name, value)], selfClosing);
    }
  }

  lemma {:induction false} AttrsAppendLt(d: Decoder, s: string, j: nat, attrs: seq<(string, string)>, selfClosing: bool)
    requires j <= |s| && Attrs(d, s, j, attrs, selfClosing).end == |s|
    ensures Attrs(d, s + "<", j, attrs, selfClosing).attrs != Attrs(d, s, j, attrs, selfClosing).attrs
    decreases |s| - j
  {
    hide NextTurn;
    var t := s + "<";
    var u, w := NextTurn(d, s, j), NextTurn(d, t, j);
    if TurnEnd(u) < |s| {
      assert t[..|s|] == s[..|s|];
      NextTurnAgree(d, s, t, |s|, j);
    } else {
      TurnAppendLt(d, s, j);
    }
    if w == u {
      match u {
        case Over(slash, next) => AttrsAppendLt(d, s, next, attrs, selfClosing || slash);
        case Take(name, value, next) => AttrsAppendLt(d, s, next, attrs + [(name, value)], selfClosing);
      }
    } else {
      var after := attrs + [(w.name, w.value)];
      AttrsKeep(d, t, w.next, after, selfClosing);
      assert Attrs(d, t, j, attrs, selfClosing).attrs[|attrs|] == after[|attrs|];
      if u.Take? {
        var before := attrs + [(u.name, u.value)];
        AttrsKeep(d, s, u.next, before, selfClosing);
        assert Attrs(d, s, j, attrs, selfClosing).attrs[|attrs|] == before[|attrs|];
      }
    }
  }

  lemma ConsumeAppendLt(d: Decoder, s: string)
    requires |s| >= 2 && IsLetter(s[1]) && !Closed(d, s)
    ensures Consume(d, s + "<").token != Consume(d, s).token
  {
    hide Attrs;
    var t := s + "<";
    assert t[1] == s[1];
    var j := SkipWhile(s, 1, IsTagNameChar);
    SkipWhileAppend(s, 1, IsTagNameChar);
    AttrsAppendLt(d, s, j, [], false);
  }

  /** When every cut from `m` on leaves the token as it is, the tag has no `<` from `m` on. */
  lemma SteadyTagHasNoLt(d: Decoder, s: string, m: nat, i: nat)
    requires |s| >= 2 && IsLetter(s[1]) && 2 <= m <= i < Consume(d, s).used
    requires forall k :: m <= k < Consume(d, s).used ==> Consume(d, s[..k]).token == Consume(d, s).token
    ensures s[i] != '<'
  {
    hide Consume, Closed;
    if s[i] == '<' {
      var c := Consume(d, s);
      assert s[..i + 1] == s[..i] + "<" && s[..|s|] == s;
      assert i + 1 < c.used ==> Consume(d, s[..i + 1]).token == c.token;
      assert Consume(d, s[..i]).token == c.token;
      LastOfTag(d, s);
      CutTagRunsOut(d, s, i);
      ConsumeAppendLt(d, s[..i]);
    }
  }

  lemma LastOfTag(d: Decoder, s: string)
    requires |s| >= 2 && IsLetter(s[1])
    ensures var c := Consume(d, s);
      (s[c.used - 1] == '>' && Closed(d, s)) || (c.used == |s| && !Closed(d, s))
  {
    hide Attrs;
  }

  // ----- Peeling text -----

  lemma {:induction false} SkipWhileFrom(s: string, j: nat, k: nat, p: char -> bool)
    requires j <= k && j <= |s| && k <= SkipWhile(s, j, p)
    ensures SkipWhile(s, k, p) == SkipWhile(s, j, p)
    decreases k - j
  {
    if j < k {
      SkipWhileFrom(s, j + 1, k, p);
    }
  }

  lemma RunShift(s: string, k: nat, p: char -> bool)
    requires k <= SkipWhile(s, 0, p)
    ensures SkipWhile(s[k..], 0, p) == SkipWhile(s, 0, p) - k
  {
    SkipWhileFrom(s, 0, k, p);
    SkipWhileShift(s[..k], s[k..], 0, p);
    assert s[..k] + s[k..] == s;
  }

  /** What a text run at the head of the buffer turns into. */
  lemma TextRun(d: Decoder, s: string, h: nat)
    requires s != "" && s[0] != '<' && h <= |s|
    ensures var i := SkipWhile(s, 0, Not('<'));
      && Tokens(d, s, "", true) == [Text(Unescape(d, s[..i]))] + Tokens(d, s[i..], "", true)
      && Steady(d, s, "", h) == Steady(d, s[i..], "", Less(h, i))
  {
    hide Unescape, Steady, Tokens, Residue;
    TokensEmit(d, s, "", true);
    SteadyStep(d, s, "", h);
  }

  lemma MergeTwoTexts(a: string, b: string, rest: seq<Token>)
    ensures Merged([Text(a)] + ([Text(b)] + rest)) == Merged([Text(a + b)] + rest)
  {
    hide Merged, Glue;
    MergedCons(Text(a), [Text(b)] + rest);
    MergedCons(Text(b), rest);
    MergedCons(Text(a + b), rest);
    GlueTexts(a, b, Merged(rest));
  }

  /** Taking the first `k` characters of a text run as a token of their own changes nothing once merged. */
  lemma TextPeel(d: Decoder, s: string, k: nat, h: nat)
    requires 1 <= k <= |s| && h <= |s| && k <= SkipWhile(s, 0, Not('<'))
    requires Separable(d, s[..k], s[k..SkipWhile(s, 0, Not('<'))])
    ensures Merged([Text(Unescape(d, s[..k]))] + Tokens(d, s[k..], "", true)) == Merged(Tokens(d, s, "", true))
    ensures Steady(d, s, "", h) == Steady(d, s[k..], "", Less(h, k))
  {
    hide Unescape, Merged, Steady, Tokens;
    var i := SkipWhile(s, 0, Not('<'));
    TextRun(d, s, h);
    if k < i {
      RunShift(s, k, Not('<'));
      TextRun(d, s[k..], Less(h, k));
      assert s[k..][..i - k] == s[k..i] && s[k..][i - k..] == s[i..];
      assert s[..k] + s[k..i] == s[..i];
      SplitAt(d, s[..k], s[k..i], s[..i]);
      MergeTwoTexts(Unescape(d, s[..k]), Unescape(d, s[k..i]), Tokens(d, s[i..], "", true));
    }
  }
}
