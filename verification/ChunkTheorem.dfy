/** Chunk invariance holds for an input exactly when the input is steady. */
module ChunkTheorem {
  import opened Basics
  import opened Text
  import opened Entities
  import opened Tokenizer
  import opened TokenizerAgreement
  import opened ChunkInvariance
  import opened ChunkProof

  // ----- A steady input: feeding a prefix first changes nothing -----

  /** `step` on the buffered prefix stands for the head of what the whole input gives. */
  ghost predicate StepStands(d: Decoder, s: string, raw: string, x: string, step: Step, h: nat)
    requires step.Emit? && step.used <= |s|
  {
    var rest := s[step.used..] + x;
    && h <= |s| - step.used
    && Steady(d, rest, step.raw, h)
    && Merged([step.token] + Tokens(d, rest, step.raw, true)) == Merged(Tokens(d, s + x, raw, true))
  }

  lemma SettledStepStands(d: Decoder, s: string, raw: string, x: string, h: nat)
    requires s != "" && h <= |s| && Steady(d, s + x, raw, h)
    requires raw != "" || !IsStartTag(s)
    requires StepSettled(d, s, raw, |s|, false)
    ensures var step := NextStep(d, s, raw, false);
      StepStands(d, s, raw, x, step, Less(h, step.used))
  {
    hide NextStep, Tokens, Residue, Steady, Merged;
    var whole := s + x;
    var step := NextStep(d, s, raw, false);
    assert whole[..|s|] == s[..|s|];
    StepAgree(d, s, whole, raw, |s|, false, true);
    assert raw != "" || !IsStartTag(whole) by {
      assert whole[0] == s[0] && (|s| >= 2 ==> whole[1] == s[1]);
    }
    assert whole[step.used..] == s[step.used..] + x;
    TokensEmit(d, whole, raw, true);
    SteadyStep(d, whole, raw, h);
  }

  lemma OpenTextStands(d: Decoder, s: string, x: string, h: nat)
    requires s != "" && s[0] != '<' && h <= |s| && Steady(d, s + x, "", h)
    requires SkipWhile(s, 0, Not('<')) == |s| && SafeSplit(s) != 0
    ensures var k := SafeSplit(s);
      StepStands(d, s, "", x, Emit(Text(Unescape(d, s[..k])), k, ""), Less(h, k))
  {
    hide NextStep, Tokens, Residue, Steady, Merged, SafeSplit, Unescape;
    var whole := s + x;
    var k := SafeSplit(s);
    TextGoesOn(s, x);
    var i := SkipWhile(whole, 0, Not('<'));
    SafeSplitSeparable(d, s, x[..i - |s|]);
    assert whole[..k] == s[..k];
    assert whole[k..i] == s[k..] + x[..i - |s|];
    assert whole[k..] == s[k..] + x;
    TextPeel(d, whole, k, h);
  }

  lemma TextGoesOn(s: string, x: string)
    requires SkipWhile(s, 0, Not('<')) == |s|
    ensures SkipWhile(s + x, 0, Not('<')) >= |s|
  {
    assert forall i :: 0 <= i < |s| ==> (s + x)[i] == s[i];
  }

  lemma TagStands(d: Decoder, s: string, x: string, h: nat) returns (h1: nat)
    requires IsStartTag(s) && TagClose(s) != -1
    requires h <= |s| && Steady(d, s + x, "", h)
    ensures NextStep(d, s, "", false).Emit?
    ensures StepStands(d, s, "", x, NextStep(d, s, "", false), h1)
  {
    hide Consume, TagClose, Tokens, Residue, Steady, Merged, Drifts;
    var whole := s + x;
    assert whole[0] == s[0] && whole[1] == s[1];
    assert whole[..|s|] == s[..|s|] && s[..|s|] == s;
    TagCloseAgree(s, whole, |s|);
    var m := Max(h, TagClose(s));
    SteadyTag(d, whole, h);
    var c := Consume(d, whole);
    TokensEmit(d, whole, "", true);
    if c.used <= |s| {
      if x == "" {
        assert whole == s;
      } else {
        ConsumeAgree(d, whole, s, |s|);
      }
      assert whole[c.used..] == s[c.used..] + x;
      h1 := Less(m, c.used);
      assert NextStep(d, s, "", false) == Emit(c.token, c.used, RawAfter(c.token));
    } else {
      TagCutShort(d, s, x, m);
      assert s[|s|..] + x == x;
      h1 := 0;
    }
  }

  /** The cut falls inside a raw-text tag whose token the rest of it cannot change. */
  lemma TagCutShort(d: Decoder, s: string, x: string, m: nat)
    requires IsStartTag(s) && IsStartTag(s + x)
    requires 2 <= m <= |s| < Consume(d, s + x).used
    requires !Drifts(d, s + x, m)
    requires Steady(d, (s + x)[Consume(d, s + x).used..], RawAfter(Consume(d, s + x).token), 0)
    ensures var c := Consume(d, s + x); var raw := RawAfter(c.token);
      && Consume(d, s) == Consumed(c.token, |s|)
      && Tokens(d, x, raw, true) == Tokens(d, (s + x)[c.used..], raw, true)
      && Steady(d, x, raw, 0)
  {
    hide Consume, Tokens, Steady;
    var whole := s + x;
    var c := Consume(d, whole);
    var raw := RawAfter(c.token);
    assert whole[..|s|] == s;
    assert Consume(d, whole[..|s|]).token == c.token;
    CutTagRunsOut(d, whole, |s|);
    var p, v := whole[|s|..c.used], whole[c.used..];
    assert p + v == x;
    forall i | 0 <= i < |p|
      ensures p[i] != '<'
    {
      SteadyTagHasNoLt(d, whole, m, |s| + i);
    }
    NoCloseWithoutLt(p, v, raw);
    RawDrop(d, p, v, raw, 0);
  }

  lemma EmitStands(d: Decoder, s: string, raw: string, x: string, h: nat) returns (h1: nat)
    requires s != "" && h <= |s| && Steady(d, s + x, raw, h)
    requires NextStep(d, s, raw, false).Emit?
    ensures StepStands(d, s, raw, x, NextStep(d, s, raw, false), h1)
  {
    hide Consume, TagClose, Tokens, Residue, Steady, Merged, Unescape, StepStands, RawClose, SafeSplit;
    var step := NextStep(d, s, raw, false);
    if raw == "" && IsStartTag(s) {
      h1 := TagStands(d, s, x, h);
    } else if raw == "" && s[0] != '<' && SkipWhile(s, 0, Not('<')) == |s| {
      OpenTextStands(d, s, x, h);
      h1 := Less(h, SafeSplit(s));
    } else {
      SettledStepStands(d, s, raw, x, h);
      h1 := Less(h, step.used);
    }
  }

  /** Scanning a prefix and then the rest gives the tokens of scanning both at once. */
  ghost predicate FeedStands(d: Decoder, s: string, raw: string, x: string, h: nat) {
    var r := Residue(d, s, raw, false);
    && h <= |r.buf|
    && Steady(d, r.buf + x, r.raw, h)
    && Merged(Tokens(d, s, raw, false) + Tokens(d, r.buf + x, r.raw, true)) == Merged(Tokens(d, s + x, raw, true))
  }

  /** A scan that only keeps the end of its buffer stands if what it dropped does not matter. */
  lemma KeptStands(d: Decoder, s: string, raw: string, x: string, cut: nat, h: nat)
    requires s != "" && cut <= |s| && NextStep(d, s, raw, false) == Halt(|s| - cut)
    requires h <= |s| - cut && Steady(d, s[cut..] + x, raw, h)
    requires Tokens(d, s[cut..] + x, raw, true) == Tokens(d, s + x, raw, true)
    ensures FeedStands(d, s, raw, x, h)
  {
    hide Steady, Merged, NextStep;
    var late := Tokens(d, s[cut..] + x, raw, true);
    assert Residue(d, s, raw, false) == State(s[cut..], raw);
    assert Tokens(d, s, raw, false) == [];
    assert [] + late == late;
  }

  lemma HaltStands(d: Decoder, s: string, raw: string, x: string, h: nat) returns (h1: nat)
    requires s != "" && h <= |s| && Steady(d, s + x, raw, h)
    requires NextStep(d, s, raw, false).Halt?
    ensures FeedStands(d, s, raw, x, h1)
  {
    hide Steady, Merged, Find, RawClose, TagClose, SafeSplit, Unescape, Tokens, Residue, FeedStands;
    var cut := |s| - NextStep(d, s, raw, false).keep;
    if raw != "" && Find(Lower(s), "</" + raw, 0) == -1 {
      TrimKeepsClose(s, x, raw);
      assert s[..cut] + (s[cut..] + x) == s + x;
      RawDrop(d, s[..cut], s[cut..] + x, raw, h);
      h1 := Less(h, cut);
    } else {
      assert s[cut..] == s;
      h1 := h;
    }
    KeptStands(d, s, raw, x, cut, h1);
  }

  lemma {:induction false} Feed(d: Decoder, s: string, raw: string, x: string, h: nat) returns (h1: nat)
    requires h <= |s| && Steady(d, s + x, raw, h)
    ensures FeedStands(d, s, raw, x, h1)
    decreases |s|
  {
    hide NextStep, Steady, Merged;
    if s == "" {
      h1 := 0;
      assert s + x == x && Residue(d, s, raw, false) == State(s, raw);
      assert Tokens(d, s, raw, false) + Tokens(d, x, raw, true) == Tokens(d, x, raw, true);
    } else if NextStep(d, s, raw, false).Halt? {
      h1 := HaltStands(d, s, raw, x, h);
    } else {
      var step := NextStep(d, s, raw, false);
      var h2 := EmitStands(d, s, raw, x, h);
      var s' := s[step.used..];
      h1 := Feed(d, s', step.raw, x, h2);
      FeedStep(d, s, raw, x, h1);
    }
  }

  lemma FeedStep(d: Decoder, s: string, raw: string, x: string, h: nat)
    requires s != "" && NextStep(d, s, raw, false).Emit?
    requires var step := NextStep(d, s, raw, false);
      && FeedStands(d, s[step.used..], step.raw, x, h)
      && Merged([step.token] + Tokens(d, s[step.used..] + x, step.raw, true)) == Merged(Tokens(d, s + x, raw, true))
    ensures FeedStands(d, s, raw, x, h)
  {
    hide NextStep, Steady, Merged, Tokens, Residue, Glue;
    var step := NextStep(d, s, raw, false);
    var s' := s[step.used..];
    var r := Residue(d, s, raw, false);
    TokensEmit(d, s, raw, false);
    var early, late := Tokens(d, s', step.raw, false), Tokens(d, r.buf + x, r.raw, true);
    assert ([step.token] + early) + late == [step.token] + (early + late);
    MergedCons(step.token, early + late);
    MergedCons(step.token, Tokens(d, s' + x, step.raw, true));
  }

  lemma {:induction false} MergedAfter(a: seq<Token>, b: seq<Token>, c: seq<Token>)
    requires Merged(b) == Merged(c)
    ensures Merged(a + b) == Merged(a + c)
  {
    hide Merged, Glue;
    if a == [] {
      assert a + b == b && a + c == c;
    } else {
      MergedAfter(a[1..], b, c);
      assert a + b == [a[0]] + (a[1..] + b) && a + c == [a[0]] + (a[1..] + c);
      MergedCons(a[0], a[1..] + b);
      MergedCons(a[0], a[1..] + c);
    }
  }

  /** Every run over the chunks of a steady input gives the tokens of one scan of the whole. */
  lemma {:induction false} RunStands(d: Decoder, chunks: seq<string>, st: State, h: nat)
    requires h <= |st.buf| && Steady(d, st.buf + Concat(chunks), st.raw, h)
    ensures Merged(Run(d, chunks, st)) == Merged(Tokens(d, st.buf + Concat(chunks), st.raw, true))
    decreases |chunks|
  {
    hide Steady, Merged, Tokens, Residue;
    if chunks == [] {
      assert st.buf + Concat(chunks) == st.buf;
    } else {
      var s, x := st.buf + chunks[0], Concat(chunks[1..]);
      assert st.buf + Concat(chunks) == s + x;
      var h1 := Feed(d, s, st.raw, x, h);
      var r := Residue(d, s, st.raw, false);
      RunStands(d, chunks[1..], r, h1);
      MergedAfter(Tokens(d, s, st.raw, false), Run(d, chunks[1..], r), Tokens(d, r.buf + x, r.raw, true));
    }
  }

  /** An input that is wholly buffered when it is first scanned is always steady. */
  lemma {:induction false} WholeIsSteady(d: Decoder, buf: string, raw: string)
    ensures Steady(d, buf, raw, |buf|)
    decreases |buf|
  {
    if buf != "" && NextStep(d, buf, raw, true).Emit? {
      hide NextStep, Consume, TagClose;
      var step := NextStep(d, buf, raw, true);
      WholeIsSteady(d, buf[step.used..], step.raw);
      if raw == "" && IsStartTag(buf) {
        if TagClose(buf) != -1 {
          SteadyTag(d, buf, |buf|);
        }
      } else {
        SteadyStep(d, buf, raw, |buf|);
      }
    }
  }

  /** Feeding `y` as one chunk to any state agrees with one scan of buffer and chunk. */
  lemma OneChunk(d: Decoder, y: string, st: State)
    ensures Merged(Run(d, [y], st)) == Merged(Tokens(d, st.buf + y, st.raw, true))
  {
    hide Steady, Merged, Tokens, Residue;
    var s := st.buf + y;
    WholeIsSteady(d, s, st.raw);
    assert s + "" == s;
    var h1 := Feed(d, s, st.raw, "", |s|);
    var r := Residue(d, s, st.raw, false);
    assert [y][1..] == [] && r.buf + "" == r.buf;
  }

  // ----- A drifting input: a cut that shows -----

  /** The tokens when the first chunk is the first `k` characters and the rest is scanned at the end. */
  function Cut(d: Decoder, s: string, raw: string, k: nat): seq<Token>
    requires k <= |s|
  {
    var r := Residue(d, s[..k], raw, false);
    Tokens(d, s[..k], raw, false) + Tokens(d, r.buf + s[k..], r.raw, true)
  }

  ghost predicate Shows(d: Decoder, s: string, raw: string, k: nat) {
    k <= |s| && Merged(Cut(d, s, raw, k)) != Merged(Tokens(d, s, raw, true))
  }

  /** Cut inside its start tag, the first chunk gives the start token alone. */
  lemma CutInTag(d: Decoder, s: string, k: nat)
    requires IsStartTag(s) && 0 <= TagClose(s) <= k < Consume(d, s).used
    ensures IsStartTag(s[..k])
    ensures var t := Consume(d, s[..k]).token;
      Cut(d, s, "", k) == [t] + Tokens(d, s[k..], RawAfter(t), true)
  {
    hide Consume, TagClose, Closed, Unescape, Tokens, Residue;
    var p := s[..k];
    assert p[0] == s[0] && p[1] == s[1] && p[..k] == s[..k];
    TagCloseAgree(s, p, k);
    CutTagRunsOut(d, s, k);
    var t := Consume(d, p).token;
    assert p[k..] == "";
    assert NextStep(d, p, "", false) == Emit(t, k, RawAfter(t));
    TokensEmit(d, p, "", false);
    NothingBuffered(d, RawAfter(t));
    assert "" + s[k..] == s[k..];
    assert [t] + [] == [t];
  }

  lemma NothingBuffered(d: Decoder, raw: string)
    ensures Tokens(d, "", raw, false) == [] && Residue(d, "", raw, false) == State("", raw)
  {
  }

  lemma DifferentHeads(t: Token, u: Token, a: seq<Token>, b: seq<Token>)
    requires t.Start? && u.Start? && t != u
    ensures Merged([t] + a) != Merged([u] + b)
  {
    MergedCons(t, a);
    MergedCons(u, b);
    assert Merged([t] + a)[0] == t && Merged([u] + b)[0] == u;
  }

  lemma DifferentTails(t: Token, a: seq<Token>, b: seq<Token>)
    requires Merged(a) != Merged(b)
    ensures Merged([t] + a) != Merged([t] + b)
  {
    hide Merged, Glue;
    MergedCons(t, a);
    MergedCons(t, b);
    if Merged([t] + a) == Merged([t] + b) {
      GlueCancels(t, Merged(a), Merged(b));
    }
  }

  /** The `>` that closes a tag, read as text instead, shows. */
  lemma StrayGtShows(d: Decoder, v: string)
    ensures Merged(Tokens(d, ">" + v, "", true)) != Merged(Tokens(d, v, "", true))
  {
    hide Tokens, Merged, Glue, Unescape, Steady;
    var s := ">" + v;
    assert s[..1] == ">" && s[1..] == v;
    var i := SkipWhile(s, 0, Not('<'));
    assert SeparableAt(d, ">", s[1..i], 0) by {
      UnitExtends(d, ">", s[1..i]);
      assert ">"[0..] == ">";
    }
    WholeIsSteady(d, s, "");
    TextPeel(d, s, 1, |s|);
    var rest := Merged(Tokens(d, v, "", true));
    MergedCons(Text(Unescape(d, ">")), Tokens(d, v, "", true));
    GlueTextGrows(Unescape(d, ">"), rest);
  }

  lemma LastCharacterShows(d: Decoder, s: string)
    requires |s| == 1
    ensures Merged(Tokens(d, s, "", true)) != []
  {
    hide Tokens, Merged, Unescape;
    var step := NextStep(d, s, "", true);
    TokensEmit(d, s, "", true);
    assert step.token.Text? && step.token.text != "";
    var rest := Tokens(d, s[step.used..], step.raw, true);
    MergedCons(step.token, rest);
  }

  /** A tag that drifts and opens no raw text shows when it is cut before its last character. */
  lemma PlainDriftShows(d: Decoder, s: string, m: nat) returns (k: nat)
    requires IsStartTag(s) && 0 <= TagClose(s) <= m < Consume(d, s).used
    requires RawAfter(Consume(d, s).token) == ""
    ensures m <= k && Shows(d, s, "", k)
  {
    hide Consume, TagClose, Tokens, Merged, Glue, Closed, NextStep;
    var c := Consume(d, s);
    k := c.used - 1;
    CutInTag(d, s, k);
    var t := Consume(d, s[..k]).token;
    assert NextStep(d, s, "", true) == Emit(c.token, c.used, "") by {
      SteadyTag(d, s, |s|);
    }
    TokensEmit(d, s, "", true);
    var v := s[c.used..];
    if t != c.token {
      DifferentHeads(t, c.token, Tokens(d, s[k..], RawAfter(t), true), Tokens(d, v, "", true));
    } else {
      LastOfTag(d, s);
      assert s[k..] == [s[k]] + v;
      if s[k] == '>' {
        StrayGtShows(d, v);
      } else {
        assert v == "" && s[k..] == [s[k]];
        LastCharacterShows(d, s[k..]);
        NoTokens(d);
      }
      DifferentTails(t, Tokens(d, s[k..], "", true), Tokens(d, v, "", true));
    }
  }

  lemma NoTokens(d: Decoder)
    ensures Merged(Tokens(d, "", "", true)) == []
  {
  }

  lemma DriftShows(d: Decoder, s: string, m: nat) returns (k: nat)
    requires IsStartTag(s) && 0 <= TagClose(s) <= m <= |s| && Drifts(d, s, m)
    ensures m <= k && Shows(d, s, "", k)
  {
    hide Consume, TagClose, Tokens, Merged, Glue;
    var c := Consume(d, s);
    if RawAfter(c.token) == "" {
      k := PlainDriftShows(d, s, m);
    } else {
      k :| m <= k < c.used && Consume(d, s[..k]).token != c.token;
      CutInTag(d, s, k);
      var t := Consume(d, s[..k]).token;
      assert NextStep(d, s, "", true) == Emit(c.token, c.used, RawAfter(c.token));
      TokensEmit(d, s, "", true);
      DifferentHeads(t, c.token, Tokens(d, s[k..], RawAfter(t), true), Tokens(d, s[c.used..], RawAfter(c.token), true));
    }
  }

  /** A step settled before the cut is taken by the first chunk, so a later difference shows all the same. */
  lemma LaterCutShows(d: Decoder, s: string, raw: string, k: nat)
    requires s != "" && k <= |s| && StepSettled(d, s, raw, k, true)
    requires var step := NextStep(d, s, raw, true);
      step.used < k && Shows(d, s[step.used..], step.raw, k - step.used)
    ensures Shows(d, s, raw, k)
  {
    hide NextStep, Tokens, Residue, Merged, Glue;
    var step := NextStep(d, s, raw, true);
    var p, v := s[..k], s[step.used..];
    assert p[..k] == s[..k];
    StepAgree(d, s, p, raw, k, true, false);
    TokensEmit(d, s, raw, true);
    TokensEmit(d, p, raw, false);
    assert p[step.used..] == v[..k - step.used] && s[k..] == v[k - step.used..];
    var r := Residue(d, p, raw, false);
    var early := Tokens(d, v[..k - step.used], step.raw, false);
    var late := Tokens(d, r.buf + s[k..], r.raw, true);
    assert ([step.token] + early) + late == [step.token] + (early + late);
    DifferentTails(step.token, early + late, Tokens(d, v, step.raw, true));
  }

  lemma {:induction false} UnsteadyShows(d: Decoder, s: string, raw: string, h: nat) returns (k: nat)
    requires h <= |s| && !Steady(d, s, raw, h)
    ensures 1 <= k && h <= k && Shows(d, s, raw, k)
    decreases |s|
  {
    hide NextStep, Consume, TagClose, Drifts, Shows, StepSettled;
    var step := NextStep(d, s, raw, true);
    var v := s[step.used..];
    if raw == "" && IsStartTag(s) {
      SteadyTag(d, s, h);
      var m := Max(h, TagClose(s));
      if Drifts(d, s, m) {
        k := DriftShows(d, s, m);
      } else {
        var k1 := UnsteadyShows(d, v, step.raw, Less(m, step.used));
        k := step.used + k1;
        SettledBeforeCut(d, s, raw, k);
        LaterCutShows(d, s, raw, k);
      }
    } else {
      SteadyStep(d, s, raw, h);
      var k1 := UnsteadyShows(d, v, step.raw, Less(h, step.used));
      k := step.used + k1;
      SettledBeforeCut(d, s, raw, k);
      LaterCutShows(d, s, raw, k);
    }
  }

  lemma SettledBeforeCut(d: Decoder, s: string, raw: string, k: nat)
    requires s != "" && NextStep(d, s, raw, true).Emit?
    requires NextStep(d, s, raw, true).used < k
    requires Shows(d, s[NextStep(d, s, raw, true).used..], NextStep(d, s, raw, true).raw, k - NextStep(d, s, raw, true).used)
    requires raw == "" && IsStartTag(s) ==> 0 <= TagClose(s) <= k
    ensures k <= |s| && StepSettled(d, s, raw, k, true)
  {
    hide Consume, TagClose, Merged, Tokens, Unescape, Cut;
  }

  // ----- The theorem -----

  /** Every way of cutting `input` into chunks gives the tokens of feeding it whole exactly when it is steady. */
  lemma ChunkInvariantExactlyWhenSteady(d: Decoder, input: string)
    ensures ChunkInvariant(d, input) <==> Steady(d, input, "", 0)
  {
    hide Steady, Merged, Tokens, Residue, Run, Shows;
    var start := State("", "");
    assert "" + input == input;
    OneChunk(d, input, start);
    if Steady(d, input, "", 0) {
      forall chunks: seq<string> | Concat(chunks) == input
        ensures Merged(Run(d, chunks, start)) == Merged(Run(d, [input], start))
      {
        RunStands(d, chunks, start, 0);
      }
    } else {
      var k := UnsteadyShows(d, input, "", 0);
      TwoChunks(d, input, k);
    }
  }

  lemma TwoChunks(d: Decoder, input: string, k: nat)
    requires Shows(d, input, "", k)
    ensures !ChunkInvariant(d, input)
  {
    hide Merged, Tokens, Residue;
    var start := State("", "");
    var chunks := [input[..k], input[k..]];
    assert "" + input == input && "" + input[..k] == input[..k];
    assert chunks[1..] == [input[k..]] && [input[k..]][1..] == [];
    assert Concat(chunks) == input by {
      assert Concat([input[k..]]) == input[k..] + "";
    }
    OneChunk(d, input, start);
    var r := Residue(d, input[..k], "", false);
    OneChunk(d, input[k..], r);
    MergedAfter(Tokens(d, input[..k], "", false), Run(d, [input[k..]], r), Tokens(d, r.buf + input[k..], r.raw, true));
    assert Merged(Run(d, chunks, start)) == Merged(Cut(d, input, "", k));
  }
}
