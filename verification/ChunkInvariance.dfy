/** When feeding an input in pieces gives the tokens of feeding it whole, adjacent text merged: exactly when. */
module ChunkInvariance {
  import opened Basics
  import opened Text
  import opened Entities
  import opened Tokenizer
  import opened TokenizerAgreement

  // ----- Merging adjacent text -----

  function Glue(t: Token, ts: seq<Token>): seq<Token> {
    if !t.Text? then [t] + ts
    else if t.text == "" then ts
    else if ts != [] && ts[0].Text? then [Text(t.text + ts[0].text)] + ts[1..]
    else [t] + ts
  }

  function Merged(ts: seq<Token>): (r: seq<Token>)
    ensures forall i :: 0 <= i < |r| && r[i].Text? ==> r[i].text != ""
  {
    if ts == [] then [] else Glue(ts[0], Merged(ts[1..]))
  }

  lemma MergedCons(t: Token, ts: seq<Token>)
    ensures Merged([t] + ts) == Glue(t, Merged(ts))
  {
    assert ([t] + ts)[1..] == ts;
  }

  lemma GlueTexts(a: string, b: string, ts: seq<Token>)
    requires ts != [] && ts[0].Text? ==> ts[0].text != ""
    ensures Glue(Text(a), Glue(Text(b), ts)) == Glue(Text(a + b), ts)
  {
    if a == "" {
      assert a + b == b;
    } else if b == "" {
      assert a + b == a;
    } else if ts != [] && ts[0].Text? {
      assert a + (b + ts[0].text) == (a + b) + ts[0].text;
    }
  }

  lemma GlueCancels(t: Token, a: seq<Token>, b: seq<Token>)
    requires Glue(t, a) == Glue(t, b)
    requires forall i :: 0 <= i < |a| && a[i].Text? ==> a[i].text != ""
    requires forall i :: 0 <= i < |b| && b[i].Text? ==> b[i].text != ""
    ensures a == b
  {
    var g := Glue(t, a);
    if t.Text? && t.text == "" {
    } else if t.Text? {
      var a' := if a != [] && a[0].Text? then [Text(g[0].text[|t.text|..])] + g[1..] else g[1..];
      var b' := if b != [] && b[0].Text? then [Text(g[0].text[|t.text|..])] + g[1..] else g[1..];
      assert a == a' && b == b';
    } else {
      assert a == g[1..] && b == g[1..];
    }
  }

  lemma GlueTextGrows(text: string, ts: seq<Token>)
    requires text != ""
    ensures Glue(Text(text), ts) != ts
  {
    if ts != [] && ts[0].Text? {
      assert |Glue(Text(text), ts)[0].text| > |ts[0].text|;
    } else {
      assert |Glue(Text(text), ts)| > |ts|;
    }
  }

  // ----- The condition -----

  function Less(h: nat, used: nat): nat { if h > used then h - used else 0 }

  /** The start tag opening `s` comes out differently when only `m` or a few more characters are buffered. */
  predicate Drifts(d: Decoder, s: string, m: nat)
    requires |s| >= 2 && IsLetter(s[1]) && 2 <= m <= |s|
  {
    var c := Consume(d, s);
    c.used > m &&
    (RawAfter(c.token) == "" || exists k :: m <= k < c.used && Consume(d, s[..k]).token != c.token)
  }

  /**
   * No start tag that a scan of `buf` meets drifts. `h` characters of `buf` are known to be
   * buffered already, because an earlier tag was held back until its own `>` arrived.
   */
  predicate Steady(d: Decoder, buf: string, raw: string, h: nat)
    requires h <= |buf|
    decreases |buf|
  {
    if buf == "" then true
    else match NextStep(d, buf, raw, true)
      case Halt(_) => true
      case Emit(_, used, raw') =>
        if raw == "" && IsStartTag(buf) then
          var q := TagClose(buf);
          q == -1 || (!Drifts(d, buf, Max(h, q)) && Steady(d, buf[used..], raw', Less(Max(h, q), used)))
        else Steady(d, buf[used..], raw', Less(h, used))
  }

  ghost predicate ChunkInvariant(d: Decoder, input: string) {
    forall chunks: seq<string> :: Concat(chunks) == input ==>
      Merged(Run(d, chunks, State("", ""))) == Merged(Run(d, [input], State("", "")))
  }

  // ----- Unfolding one step -----

  lemma TokensEmit(d: Decoder, buf: string, raw: string, eof: bool)
    requires buf != "" && NextStep(d, buf, raw, eof).Emit?
    ensures var step := NextStep(d, buf, raw, eof);
      && Tokens(d, buf, raw, eof) == [step.token] + Tokens(d, buf[step.used..], step.raw, eof)
      && Residue(d, buf, raw, eof) == Residue(d, buf[step.used..], step.raw, eof)
  {
    hide NextStep;
  }

  lemma SteadyStep(d: Decoder, buf: string, raw: string, h: nat)
    requires buf != "" && h <= |buf| && NextStep(d, buf, raw, true).Emit?
    requires raw != "" || !IsStartTag(buf)
    ensures var step := NextStep(d, buf, raw, true);
      Steady(d, buf, raw, h) == Steady(d, buf[step.used..], step.raw, Less(h, step.used))
  {
    hide NextStep;
  }

  lemma SteadyTag(d: Decoder, buf: string, h: nat)
    requires IsStartTag(buf) && h <= |buf| && TagClose(buf) != -1
    ensures var c := Consume(d, buf); var m := Max(h, TagClose(buf));
      && NextStep(d, buf, "", true) == Emit(c.token, c.used, RawAfter(c.token))
      && Steady(d, buf, "", h) ==
         (!Drifts(d, buf, m) && Steady(d, buf[c.used..], RawAfter(c.token), Less(m, c.used)))
  {
    hide Consume, Drifts;
  }

  // ----- Dropping raw text -----

  /** No occurrence of `pat` in `p + w` starts inside `p`. */
  ghost predicate NoneStartsIn(p: string, w: string, pat: string) {
    forall i: nat :: i < |p| ==> !OccursAt(p + w, pat, i)
  }

  ghost predicate NoCloseIn(p: string, v: string, raw: string) {
    NoneStartsIn(Lower(p), Lower(v), "</" + raw)
  }

  lemma OccursShift(p: string, w: string, pat: string, i: nat)
    ensures OccursAt(p + w, pat, |p| + i) == OccursAt(w, pat, i)
  {
    if i + |pat| <= |w| {
      assert (p + w)[|p| + i..|p| + i + |pat|] == w[i..i + |pat|];
    }
  }

  lemma FindDrop(p: string, w: string, pat: string)
    requires NoneStartsIn(p, w, pat)
    ensures Find(p + w, pat, 0) == if Find(w, pat, 0) == -1 then -1 else |p| + Find(w, pat, 0)
  {
    var idx, found := Find(w, pat, 0), Find(p + w, pat, 0);
    if found != -1 {
      assert found >= |p|;
      OccursShift(p, w, pat, found - |p|);
    }
    if idx != -1 {
      OccursShift(p, w, pat, idx);
    }
  }

  lemma LowerConcat(p: string, v: string)
    ensures Lower(p + v) == Lower(p) + Lower(v)
  {
  }

  lemma RawCloseDrop(p: string, v: string, raw: string)
    requires NoCloseIn(p, v, raw)
    ensures RawClose(p + v, raw) == if RawClose(v, raw) == -1 then -1 else |p| + RawClose(v, raw)
  {
    hide Find, SkipWhile;
    LowerConcat(p, v);
    FindDrop(Lower(p), Lower(v), "</" + raw);
    var idx := Find(Lower(v), "</" + raw, 0);
    if idx != -1 {
      SkipWhileShift(p, v, idx + 2 + |raw|, Not('>'));
    }
  }

  lemma {:induction false} SkipWhileShift(p: string, v: string, j: nat, f: char -> bool)
    requires j <= |v|
    ensures SkipWhile(p + v, |p| + j, f) == |p| + SkipWhile(v, j, f)
    decreases |v| - j
  {
    if j < |v| && f(v[j]) {
      SkipWhileShift(p, v, j + 1, f);
    }
  }

  /** Raw text before the close tag is dropped: it changes neither the tokens nor the condition. */
  lemma RawDrop(d: Decoder, p: string, v: string, raw: string, h: nat)
    requires raw != "" && NoCloseIn(p, v, raw) && h <= |p + v|
    ensures Tokens(d, p + v, raw, true) == Tokens(d, v, raw, true)
    ensures Steady(d, p + v, raw, h) == Steady(d, v, raw, Less(h, |p|))
  {
    hide RawClose, Tokens, Steady;
    RawCloseDrop(p, v, raw);
    var e := RawClose(v, raw);
    if e != -1 {
      assert (p + v)[|p| + e..] == v[e..];
      RawEmits(d, v, raw, Less(h, |p|));
      RawEmits(d, p + v, raw, h);
    } else {
      RawSilence(d, v, raw, Less(h, |p|));
      RawSilence(d, p + v, raw, h);
    }
  }

  lemma RawEmits(d: Decoder, v: string, raw: string, h: nat)
    requires raw != "" && RawClose(v, raw) != -1 && h <= |v|
    ensures var e := RawClose(v, raw);
      && Tokens(d, v, raw, true) == [End(raw)] + Tokens(d, v[e..], "", true)
      && Steady(d, v, raw, h) == Steady(d, v[e..], "", Less(h, e))
  {
    hide RawClose;
  }

  lemma RawSilence(d: Decoder, v: string, raw: string, h: nat)
    requires raw != "" && RawClose(v, raw) == -1 && h <= |v|
    ensures Tokens(d, v, raw, true) == [] && Steady(d, v, raw, h)
  {
    hide RawClose;
  }

  /** What `feed` trims from a raw-text buffer cannot hold the start of the close tag. */
  lemma TrimKeepsClose(s: string, x: string, raw: string)
    requires Find(Lower(s), "</" + raw, 0) == -1
    ensures var cut := |s| - Min(|s|, 2 + |raw|);
      NoCloseIn(s[..cut], s[cut..] + x, raw)
  {
    hide Find, OccursAt;
    var pat := "</" + raw;
    var cut := |s| - Min(|s|, 2 + |raw|);
    LowerSplit(s, cut, x);
    var whole := Lower(s[..cut]) + Lower(s[cut..] + x);
    forall i: nat | i < cut
      ensures !OccursAt(whole, pat, i)
    {
      assert !OccursAt(Lower(s), pat, i);
      OccursAgree(Lower(s), whole, |s|, pat, i);
    }
  }

  lemma LowerSplit(s: string, cut: nat, x: string)
    requires cut <= |s|
    ensures Agree(Lower(s), Lower(s[..cut]) + Lower(s[cut..] + x), |s|)
  {
    var whole := Lower(s[..cut]) + Lower(s[cut..] + x);
    assert |whole| >= |s|;
    forall i | 0 <= i < |s|
      ensures Lower(s)[i] == whole[i]
    {
    }
  }

  lemma NoCloseWithoutLt(p: string, v: string, raw: string)
    requires forall i :: 0 <= i < |p| ==> p[i] != '<'
    ensures NoCloseIn(p, v, raw)
  {
    var pat := "</" + raw;
    var whole := Lower(p) + Lower(v);
    forall i: nat | i < |p|
      ensures !OccursAt(whole, pat, i)
    {
      if i + |pat| <= |whole| {
        assert whole[i..i + |pat|][0] == LowerChar(p[i]);
        assert pat[0] == '<';
      }
    }
  }
}
