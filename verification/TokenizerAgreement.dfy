/** What the tokenizer decides from the first `k` characters it decides the same in any input that agrees on them. */
module TokenizerAgreement {
  import opened Basics
  import opened Text
  import opened Entities
  import opened Tokenizer

  lemma AfterAgree(s: string, t: string, k: nat, c: char, from: nat)
    requires Agree(s, t, k) && from <= |s| && from <= |t|
    requires 0 <= After(s, c, from) <= k
    ensures After(t, c, from) == After(s, c, from)
  {
    SkipWhileAgree(s, t, k, from, Not(c));
  }

  lemma {:induction false} ScanCloseAgree(s: string, t: string, k: nat, j: nat)
    requires Agree(s, t, k) && j <= |s| && j <= |t|
    requires 0 <= ScanClose(s, j) <= k
    ensures ScanClose(t, j) == ScanClose(s, j)
    decreases |s| - j
  {
    hide SkipWhile, Agree, ScanClose;
    ScanCloseStep(s, j);
    ScanCloseStep(t, j);
    AgreeInside(s, t, k);
    AgreeChar(s, t, k, j);
    if s[j] == '>' {
    } else if s[j] == '/' && j + 1 < |s| && s[j + 1] == '>' {
      AgreeChar(s, t, k, j + 1);
    } else if IsQuote(s[j]) {
      var close := SkipWhile(s, j + 1, Not(s[j]));
      SkipWhileAgree(s, t, k, j + 1, Not(s[j]));
      ScanCloseAgree(s, t, k, close + 1);
    } else {
      AgreeChar(s, t, k, j + 1);
      ScanCloseAgree(s, t, k, j + 1);
    }
  }

  lemma ScanCloseStep(s: string, j: nat)
    requires j <= |s|
    ensures ScanClose(s, j) ==
      if j == |s| then -1
      else if s[j] == '>' then j + 1
      else if s[j] == '/' && j + 1 < |s| && s[j + 1] == '>' then j + 2
      else if !IsQuote(s[j]) then ScanClose(s, j + 1)
      else if SkipWhile(s, j + 1, Not(s[j])) == |s| then -1
      else ScanClose(s, SkipWhile(s, j + 1, Not(s[j])) + 1)
  {
    hide SkipWhile;
  }

  lemma AgreeInside(s: string, t: string, k: nat)
    requires Agree(s, t, k)
    ensures k <= |s| && k <= |t|
  {
  }

  lemma TagCloseAgree(s: string, t: string, k: nat)
    requires Agree(s, t, k) && s != "" && t != ""
    requires 0 <= TagClose(s) <= k
    ensures TagClose(t) == TagClose(s)
  {
    SkipWhileAgree(s, t, k, 1, IsTagNameChar);
    ScanCloseAgree(s, t, k, SkipWhile(s, 1, IsTagNameChar));
  }

  lemma AttrValueAgree(s: string, t: string, k: nat, j: nat)
    requires Agree(s, t, k) && j < |s| && j < |t|
    requires AttrValue(s, j).next < k
    ensures AttrValue(t, j) == AttrValue(s, j)
  {
    hide SkipWhile;
    AgreeChar(s, t, k, j);
    if s[j] == '=' {
      var q := SkipWhile(s, j + 1, IsSpace);
      SkipWhileAgree(s, t, k, j + 1, IsSpace);
      AgreeChar(s, t, k, q);
      if IsQuote(s[q]) {
        var close := SkipWhile(s, q + 1, Not(s[q]));
        SkipWhileAgree(s, t, k, q + 1, Not(s[q]));
        AgreeSlice(s, t, k, q + 1, close);
      } else {
        var end := SkipWhile(s, q, IsBareValueChar);
        SkipWhileAgree(s, t, k, q, IsBareValueChar);
        AgreeSlice(s, t, k, q, end);
      }
    }
  }

  function TurnEnd(t: Turn): nat { if t.Stop? then t.end else t.next }

  lemma NextTurnAgree(d: Decoder, s: string, t: string, k: nat, j0: nat)
    requires Agree(s, t, k) && j0 <= |s| && j0 <= |t|
    requires TurnEnd(NextTurn(d, s, j0)) < k
    ensures NextTurn(d, t, j0) == NextTurn(d, s, j0)
  {
    hide SkipWhile, AttrValue, Unescape;
    var j := SkipWhile(s, j0, IsSpace);
    SkipWhileAgree(s, t, k, j0, IsSpace);
    AgreeChar(s, t, k, j);
    if s[j] != '>' && s[j] != '/' {
      var e := SkipWhile(s, j, IsAttrNameChar);
      SkipWhileAgree(s, t, k, j, IsAttrNameChar);
      if e != j {
        AgreeSlice(s, t, k, j, e);
        var w := SkipWhile(s, e, IsSpace);
        SkipWhileAgree(s, t, k, e, IsSpace);
        AttrValueAgree(s, t, k, w);
      }
    }
  }

  lemma {:induction false} AttrsAgree(d: Decoder, s: string, t: string, k: nat, j: nat,
                                      attrs: seq<(string, string)>, selfClosing: bool)
    requires Agree(s, t, k) && j <= |s| && j <= |t|
    requires Attrs(d, s, j, attrs, selfClosing).end < k
    ensures Attrs(d, t, j, attrs, selfClosing) == Attrs(d, s, j, attrs, selfClosing)
    decreases |s| - j
  {
    hide NextTurn;
    NextTurnAgree(d, s, t, k, j);
    match NextTurn(d, s, j) {
      case Stop(_) =>
      case Over(slash, next) => AttrsAgree(d, s, t, k, next, attrs, selfClosing || slash);
      case Take(name, value, next) => AttrsAgree(d, s, t, k, next, attrs + [(name, value)], selfClosing);
    }
  }

  /** A start tag closed inside the first `k` characters is the same token in every agreeing input. */
  lemma ConsumeAgree(d: Decoder, s: string, t: string, k: nat)
    requires Agree(s, t, k) && |s| >= 2 && |t| >= 2 && IsLetter(s[1]) && IsLetter(t[1])
    requires Consume(d, s).used <= k
    requires Consume(d, s).used < |s| || Closed(d, s)
    ensures Consume(d, t) == Consume(d, s)
    ensures Closed(d, t)
  {
    hide Attrs;
    var j := SkipWhile(s, 1, IsTagNameChar);
    SkipWhileAgree(s, t, k, 1, IsTagNameChar);
    AgreeSlice(s, t, k, 1, j);
    AttrsAgree(d, s, t, k, j, [], false);
  }

  /** The attribute loop met a `>` rather than the end of the input. */
  predicate Closed(d: Decoder, s: string)
    requires |s| >= 2
  {
    Attrs(d, s, SkipWhile(s, 1, IsTagNameChar), [], false).end < |s|
  }

  /** Cut inside the tag, the attribute loop runs to the cut. */
  lemma CutTagRunsOut(d: Decoder, s: string, k: nat)
    requires |s| >= 2 && IsLetter(s[1]) && 2 <= k < Consume(d, s).used
    ensures !Closed(d, s[..k]) && Consume(d, s[..k]).used == k
  {
    hide Attrs;
    assert s[..k][1] == s[1];
    if Closed(d, s[..k]) {
      var t := s[..k];
      var j := SkipWhile(t, 1, IsTagNameChar);
      assert t[..k] == s[..k];
      assert Attrs(d, t, j, [], false).end < |t|;
      ConsumeAgree(d, t, s, k);
    }
  }

  lemma RawCloseAgree(s: string, t: string, k: nat, raw: string)
    requires Agree(s, t, k)
    requires 0 <= RawClose(s, raw) <= k
    ensures RawClose(t, raw) == RawClose(s, raw)
  {
    LowerAgree(s, t, k);
    FindAgree(Lower(s), Lower(t), k, "</" + raw, 0);
    var idx := Find(Lower(s), "</" + raw, 0);
    AfterAgree(s, t, k, '>', idx + 2 + |raw|);
  }

  lemma MarkupAgree(d: Decoder, s: string, t: string, k: nat, e1: bool, e2: bool)
    requires Agree(s, t, k) && 2 <= k && s[0] == '<' && t[0] == '<'
    requires MarkupStep(d, s, e1).Emit? && MarkupStep(d, s, e1).used <= k
    ensures MarkupStep(d, t, e2) == MarkupStep(d, s, e1)
  {
    hide SkipWhile, Find, Unescape;
    AgreeChar(s, t, k, 1);
    AgreeSlice(s, t, k, 0, 1);
    assert s[0..1] == s[..1] && t[0..1] == t[..1];
    var head := |s| >= 4 && s[..4] == "<!--";
    if s[1] == '!' && s[..Min(4, |s|)] == "<!--" {
      assert |s| >= 4;
      var end := Find(s, "-->", 4);
      AgreeSlice(s, t, k, 0, 4);
      assert t[..4] == t[0..4] == s[0..4] == s[..4];
      FindAgree(s, t, k, "-->", 4);
      AgreeSlice(s, t, k, 4, end);
    } else if s[1] == '!' || s[1] == '?' || s[1] == '/' {
      var e := After(s, '>', 2);
      AfterAgree(s, t, k, '>', 2);
      AgreeSlice(s, t, k, 2, e - 1);
      if s[1] == '!' {
        NotAComment(s, t, k, e);
      }
      if s[1] == '/' {
        EndTagName(s, e);
        SkipWhileAgree(s, t, k, 2, IsTagNameChar);
        AgreeSlice(s, t, k, 2, SkipWhile(s, 2, IsTagNameChar));
      }
    }
  }

  lemma NotAComment(s: string, t: string, k: nat, e: nat)
    requires Agree(s, t, k) && |s| >= 2 && s[..Min(4, |s|)] != "<!--"
    requires 3 <= e <= k && s[e - 1] == '>' && t[e - 1] == '>'
    ensures t[..Min(4, |t|)] != "<!--"
  {
    if |t| >= 4 {
      if e <= 4 {
        assert t[..4][e - 1] == '>' && "<!--"[e - 1] != '>';
      } else {
        AgreeSlice(s, t, k, 0, 4);
        assert s[..4] == s[0..4] && t[..4] == t[0..4];
      }
    }
  }

  lemma EndTagName(s: string, e: nat)
    requires |s| >= 2 && After(s, '>', 2) == e
    ensures SkipWhile(s, 2, IsTagNameChar) < e
  {
    assert !IsTagNameChar(s[e - 1]);
  }

  /** The first `k` characters of `s` already settle the step that `s` takes. */
  ghost predicate StepSettled(d: Decoder, s: string, raw: string, k: nat, eof: bool)
    requires s != ""
  {
    var step := NextStep(d, s, raw, eof);
    && step.Emit?
    && step.used <= k <= |s|
    && (raw == "" && s[0] != '<' ==> SkipWhile(s, 0, Not('<')) < k)
    && (raw == "" && s[0] == '<' ==> k >= 2)
    && (raw == "" && IsStartTag(s) ==> step.used < |s| && 0 <= TagClose(s) <= k)
  }

  lemma StepAgree(d: Decoder, s: string, t: string, raw: string, k: nat, e1: bool, e2: bool)
    requires s != "" && t != "" && Agree(s, t, k)
    requires StepSettled(d, s, raw, k, e1)
    ensures NextStep(d, t, raw, e2) == NextStep(d, s, raw, e1)
  {
    hide SkipWhile, Find, Unescape, Consume, MarkupStep, RawClose, TagClose;
    AgreeChar(s, t, k, 0);
    if raw != "" {
      RawCloseAgree(s, t, k, raw);
    } else if s[0] != '<' {
      var i := SkipWhile(s, 0, Not('<'));
      SkipWhileAgree(s, t, k, 0, Not('<'));
      AgreeSlice(s, t, k, 0, i);
      assert s[..i] == s[0..i] && t[..i] == t[0..i];
    } else {
      AgreeChar(s, t, k, 1);
      if IsStartTag(s) {
        TagCloseAgree(s, t, k);
        ConsumeAgree(d, s, t, k);
      } else {
        MarkupAgree(d, s, t, k, e1, e2);
      }
    }
  }
}
