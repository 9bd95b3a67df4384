/** Inputs that are chunk-invariant because they use quotes only around attribute values, and one that is not. */
module ChunkExamples {
  import opened Basics
  import opened Text
  import opened Entities
  import opened Tokenizer
  import opened TokenizerAgreement
  import opened ChunkInvariance
  import opened ChunkProof
  import opened ChunkTheorem

  predicate Quoteless(s: string, i: nat, j: nat)
    requires i <= j <= |s|
  {
    forall k :: i <= k < j ==> !IsQuote(s[k])
  }

  /** From `j` on, the attribute loop meets quotes only as the delimiters of a closed value after `=`. */
  predicate TidyFrom(d: Decoder, s: string, j: nat)
    requires j <= |s|
    decreases |s| - j
  {
    var t := NextTurn(d, s, j);
    if t.Stop? then Quoteless(s, j, t.end)
    else TidyFrom(d, s, t.next) && (Quoteless(s, j, t.next) || QuotedLast(s, j, t.next))
  }

  /** The only quotes in [j, n) are the pair at `q` and `n - 1`, and no `>` comes before them. */
  predicate QuotedAt(s: string, j: nat, q: nat, n: nat)
    requires n <= |s|
  {
    && j <= q < n - 1 && IsQuote(s[q]) && s[n - 1] == s[q] && Quoteless(s, j, q)
    && (forall k :: j <= k < q ==> s[k] != '>')
    && (forall k :: q < k < n - 1 ==> s[k] != s[q])
  }

  predicate QuotedLast(s: string, j: nat, n: nat)
    requires j <= n <= |s|
  {
    exists q :: j <= q < n - 1 && QuotedAt(s, j, q, n)
  }

  /** Every start tag met by a scan of `buf` is tidy. */
  predicate Tidy(d: Decoder, buf: string, raw: string)
    decreases |buf|
  {
    if buf == "" then true
    else match NextStep(d, buf, raw, true)
      case Halt(_) => true
      case Emit(_, used, raw') =>
        (raw == "" && IsStartTag(buf) ==> TidyFrom(d, buf, SkipWhile(buf, 1, IsTagNameChar))) &&
        Tidy(d, buf[used..], raw')
  }

  lemma {:induction false} ScanCloseSkips(s: string, j: nat, n: nat)
    requires j <= n <= |s| && Quoteless(s, j, n)
    requires forall k :: j <= k < n ==> s[k] != '>'
    ensures ScanClose(s, j) == ScanClose(s, n)
    decreases n - j
  {
    if j < n && !(s[j] == '/' && j + 1 == n < |s| && s[n] == '>') {
      ScanCloseSkips(s, j + 1, n);
    }
  }

  lemma SkipWhileIs(s: string, j: nat, p: char -> bool, r: nat)
    requires j <= r < |s| && !p(s[r])
    requires forall k :: j <= k < r ==> p(s[k])
    ensures SkipWhile(s, j, p) == r
  {
  }

  lemma QuotedSkips(s: string, j: nat, q: nat, n: nat)
    requires n <= |s| && QuotedAt(s, j, q, n)
    ensures ScanClose(s, j) == ScanClose(s, n)
  {
    ScanCloseSkips(s, j, q);
    SkipWhileIs(s, q + 1, Not(s[q]), n - 1);
    QuoteSkips(s, q, n);
  }

  lemma QuoteSkips(s: string, q: nat, n: nat)
    requires q < n <= |s| && IsQuote(s[q]) && SkipWhile(s, q + 1, Not(s[q])) == n - 1
    ensures ScanClose(s, q) == ScanClose(s, n)
  {
    hide SkipWhile;
  }

  /** A bare turn steps over no `>`. */
  lemma QuotelessTurn(d: Decoder, s: string, j0: nat)
    requires j0 <= |s|
    ensures var n := TurnEnd(NextTurn(d, s, j0));
      Quoteless(s, j0, n) ==> forall k :: j0 <= k < n ==> s[k] != '>'
  {
    hide Unescape;
  }

  lemma {:induction false} TidyCloses(d: Decoder, s: string, j: nat, attrs: seq<(string, string)>, selfClosing: bool)
    requires j <= |s| && TidyFrom(d, s, j)
    ensures var end := Attrs(d, s, j, attrs, selfClosing).end;
      ScanClose(s, j) == if end < |s| then end + 1 else -1
    decreases |s| - j
  {
    hide NextTurn, QuotedAt;
    var t := NextTurn(d, s, j);
    QuotelessTurn(d, s, j);
    if t.Stop? {
      ScanCloseSkips(s, j, t.end);
    } else {
      if Quoteless(s, j, t.next) {
        ScanCloseSkips(s, j, t.next);
      } else {
        var q :| j <= q < t.next - 1 && QuotedAt(s, j, q, t.next);
        QuotedSkips(s, j, q, t.next);
      }
      match t {
        case Over(slash, next) => TidyCloses(d, s, next, attrs, selfClosing || slash);
        case Take(name, value, next) => TidyCloses(d, s, next, attrs + [(name, value)], selfClosing);
      }
    }
  }

  lemma {:induction false} TidyIsSteady(d: Decoder, buf: string, raw: string, h: nat)
    requires h <= |buf| && Tidy(d, buf, raw)
    ensures Steady(d, buf, raw, h)
    decreases |buf|
  {
    if buf != "" && NextStep(d, buf, raw, true).Emit? {
      hide NextStep, Attrs, TidyFrom;
      var step := NextStep(d, buf, raw, true);
      if raw == "" && IsStartTag(buf) {
        TidyCloses(d, buf, SkipWhile(buf, 1, IsTagNameChar), [], false);
        if TagClose(buf) != -1 {
          SteadyTag(d, buf, h);
          TidyIsSteady(d, buf[step.used..], step.raw, Less(Max(h, TagClose(buf)), step.used));
        }
      } else {
        TidyIsSteady(d, buf[step.used..], step.raw, Less(h, step.used));
        SteadyStep(d, buf, raw, h);
      }
    }
  }

  /** Quotes used only around attribute values make the chunk boundaries invisible. */
  lemma TidyInputsAreChunkInvariant(d: Decoder, input: string)
    requires Tidy(d, input, "")
    ensures ChunkInvariant(d, input)
  {
    TidyIsSteady(d, input, "", 0);
    ChunkInvariantExactlyWhenSteady(d, input);
  }

  const STRAY := "<a\"=\">\""

  lemma StrayCloses()
    ensures TagClose(STRAY) == 6
  {
    var s := STRAY;
    SkipWhileIs(s, 1, IsTagNameChar, 2);
    SkipWhileIs(s, 3, Not('"'), 4);
    assert ScanClose(s, 5) == 6;
  }

  lemma StrayTurn(d: Decoder)
    ensures NextTurn(d, STRAY, 2).Take? && NextTurn(d, STRAY, 2).next == 7
  {
    hide Unescape;
    var s := STRAY;
    SkipWhileIs(s, 2, IsSpace, 2);
    SkipWhileIs(s, 2, IsAttrNameChar, 3);
    SkipWhileIs(s, 3, IsSpace, 3);
    SkipWhileIs(s, 4, IsSpace, 4);
    SkipWhileIs(s, 5, Not('"'), 6);
    assert ValueAt(s, 4).next == 7;
  }

  lemma StrayConsumed(d: Decoder)
    ensures Consume(d, STRAY).used == 7 && RawAfter(Consume(d, STRAY).token) == ""
  {
    var s := STRAY;
    StrayTurn(d);
    assert NextTurn(d, s, 7) == Stop(7);
    hide NextTurn;
    SkipWhileIs(s, 1, IsTagNameChar, 2);
    assert Lower(s[1..2])[0] == 'a';
    assert "script"[0] == 's' && "style"[0] == 's';
  }

  /** A quote inside an attribute name makes one chunk boundary visible. */
  lemma StrayQuoteIsNotChunkInvariant(d: Decoder)
    ensures !ChunkInvariant(d, STRAY)
  {
    hide Consume, TagClose, Steady;
    StrayCloses();
    StrayConsumed(d);
    SteadyTag(d, STRAY, 0);
    ChunkInvariantExactlyWhenSteady(d, STRAY);
  }
}
