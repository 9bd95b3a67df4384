/** The text of a mailbox file: the records written and the lines read (exoclaw_executor_dbos/steering.py). */
module MailboxLines {
  import opened Basics
  import opened JsonString

  // ----- Lines -----

  /** Where `str.splitlines` cuts. */
  predicate Breaks(c: char) {
    10 <= Code(c) <= 13 || 28 <= Code(c) <= 30 || Code(c) == 0x85 || Code(c) == 0x2028 || Code(c) == 0x2029
  }

  function FirstBreak(s: string): (i: nat)
    ensures i <= |s| && (i < |s| ==> Breaks(s[i])) && forall k :: 0 <= k < i ==> !Breaks(s[k])
  {
    if s == "" || Breaks(s[0]) then 0 else 1 + FirstBreak(s[1..])
  }

  /** Where the line after the break at `i` starts; a carriage return and line feed are one break. */
  function NextLine(s: string, i: nat): (n: nat)
    requires i < |s|
    ensures i < n <= |s|
  {
    if s[i] == '\r' && i + 1 < |s| && s[i + 1] == '\n' then i + 2 else i + 1
  }

  function SplitLines(s: string): seq<string>
    decreases |s|
  {
    var i := FirstBreak(s);
    if s == "" then []
    else if i == |s| then [s]
    else [s[..i]] + SplitLines(s[NextLine(s, i)..])
  }

  // ----- Records -----

  const OPEN := "{\"content\": \""
  const CLOSE := "\"}"

  /** `json.dumps({"content": content}, ensure_ascii=False)`. */
  function Record(content: string): string { OPEN + Escape(content, false) + CLOSE }

  function File(contents: seq<string>): string {
    if contents == [] then "" else Record(contents[0]) + "\n" + File(contents[1..])
  }

  lemma {:induction false} FileSnoc(records: seq<string>, content: string)
    ensures File(records + [content]) == File(records) + (Record(content) + "\n")
  {
    hide Record;
    if records == [] {
      assert records + [content] == [content];
      assert [content][1..] == [];
    } else {
      assert (records + [content])[1..] == records[1..] + [content];
      FileSnoc(records[1..], content);
      Assoc(Record(records[0]) + "\n", File(records[1..]), Record(content) + "\n");
    }
  }

  // ----- Records come back -----

  predicate NoBreak(s: string) {
    forall k :: 0 <= k < |s| ==> !Breaks(s[k])
  }

  /** Line separators that JSON leaves as they are. */
  predicate Separator(c: char) {
    Code(c) == 0x85 || Code(c) == 0x2028 || Code(c) == 0x2029
  }

  predicate Whole(content: string) {
    forall k :: 0 <= k < |content| ==> !Separator(content[k])
  }

  predicate WholeLines(contents: seq<string>) {
    forall i :: 0 <= i < |contents| ==> Whole(contents[i])
  }

  lemma PlainDigits(n: nat)
    requires n < 0x10000
    ensures NoBreak(Hex4(n))
  {
  }

  lemma EscapedChar(c: char)
    ensures NoBreak(EscapeChar(c, false)) <==> !Separator(c)
  {
    hide Hex4;
    if ShortEscape(c).Some? {
    } else if Numeric(c, false) {
      PlainDigits(Code(c));
    } else {
      assert EscapeChar(c, false)[0] == c;
    }
  }

  lemma NoBreakJoins(a: string, b: string)
    ensures NoBreak(a + b) <==> NoBreak(a) && NoBreak(b)
  {
    hide Breaks;
    if NoBreak(a + b) {
      forall k | 0 <= k < |a|
        ensures !Breaks(a[k])
      {
        assert (a + b)[k] == a[k];
      }
      forall k | 0 <= k < |b|
        ensures !Breaks(b[k])
      {
        assert (a + b)[|a| + k] == b[k];
      }
    }
  }

  lemma {:induction false} EscapedText(t: string)
    ensures NoBreak(Escape(t, false)) <==> Whole(t)
  {
    hide EscapeChar, NoBreak, Separator;
    if t == "" {
      NothingBreaks();
    } else {
      EscapedText(t[1..]);
      EscapedChar(t[0]);
      NoBreakJoins(EscapeChar(t[0], false), Escape(t[1..], false));
      WholeTail(t);
    }
  }

  lemma WholeTail(t: string)
    requires t != ""
    ensures Whole(t) <==> !Separator(t[0]) && Whole(t[1..])
  {
    hide Separator;
    if !Separator(t[0]) && Whole(t[1..]) {
      forall k | 0 <= k < |t|
        ensures !Separator(t[k])
      {
        assert k > 0 ==> t[k] == t[1..][k - 1];
      }
    }
  }

  lemma NothingBreaks()
    ensures NoBreak("")
  {
  }

  lemma RecordBreaks(content: string)
    ensures NoBreak(Record(content)) <==> Whole(content)
  {
    hide NoBreak, Escape;
    EscapedText(content);
    FrameBreaks();
    NoBreakJoins(OPEN, Escape(content, false));
    NoBreakJoins(OPEN + Escape(content, false), CLOSE);
  }

  lemma FrameBreaks()
    ensures NoBreak(OPEN) && NoBreak(CLOSE)
  {
  }

  lemma BreakPosition(line: string, rest: string)
    requires NoBreak(line) && rest != "" && Breaks(rest[0])
    ensures FirstBreak(line + rest) == |line|
  {
    var i := FirstBreak(line + rest);
    assert (line + rest)[|line|] == rest[0];
    assert forall k :: 0 <= k < |line| ==> (line + rest)[k] == line[k];
  }

  lemma LineThen(line: string, c: char, rest: string)
    requires NoBreak(line) && Breaks(c) && c != '\r'
    ensures SplitLines(line + ([c] + rest)) == [line] + SplitLines(rest)
  {
    hide NoBreak, Breaks, FirstBreak;
    var s := line + ([c] + rest);
    BreakPosition(line, [c] + rest);
    assert s[|line|] == c && s[..|line|] == line && s[|line| + 1..] == rest;
  }

  function Records(contents: seq<string>): (r: seq<string>)
    ensures |r| == |contents| && forall i :: 0 <= i < |r| ==> r[i] == Record(contents[i])
  {
    if contents == [] then [] else [Record(contents[0])] + Records(contents[1..])
  }

  lemma {:induction false} WholeFileLines(contents: seq<string>)
    requires WholeLines(contents)
    ensures SplitLines(File(contents)) == Records(contents)
  {
    hide Record, SplitLines, Whole;
    if contents == [] {
      NoLines();
    } else {
      RecordBreaks(contents[0]);
      Assoc(Record(contents[0]), "\n", File(contents[1..]));
      LineThen(Record(contents[0]), '\n', File(contents[1..]));
      WholeFileLines(contents[1..]);
    }
  }

  lemma NoLines()
    ensures SplitLines("") == []
  {
  }

  // ----- And only whole ones do -----

  lemma {:induction false} LinesHaveNoBreak(s: string, i: nat)
    requires i < |SplitLines(s)|
    ensures NoBreak(SplitLines(s)[i])
    decreases |s|
  {
    hide NextLine, Breaks;
    var b := FirstBreak(s);
    if b < |s| && i > 0 {
      LinesHaveNoBreak(s[NextLine(s, b)..], i - 1);
    }
  }

  /** The mailbox reads back line by line as written exactly when no content holds a separator JSON leaves raw. */
  lemma LinesAreRecordsExactlyWhen(contents: seq<string>)
    ensures SplitLines(File(contents)) == Records(contents) <==> WholeLines(contents)
  {
    hide SplitLines, Record, File, Whole;
    if WholeLines(contents) {
      WholeFileLines(contents);
    } else {
      var i :| 0 <= i < |contents| && !Whole(contents[i]);
      RecordBreaks(contents[i]);
      if SplitLines(File(contents)) == Records(contents) {
        LinesHaveNoBreak(File(contents), i);
      }
    }
  }

  lemma SeparatorStays(c: char)
    requires Separator(c)
    ensures Escape([c], false) == [c] && Breaks(c) && c != '\r' && Breaks('\n')
  {
    assert [c][1..] == "";
  }

  // ----- The lines of any file -----

  function FirstSeparator(t: string): (i: nat)
    ensures i <= |t| && (i < |t| ==> Separator(t[i])) && Whole(t[..i])
  {
    if t == "" || Separator(t[0]) then 0 else 1 + FirstSeparator(t[1..])
  }

  /** The lines of what follows a separator inside a record. */
  function TailLines(t: string): seq<string>
    decreases |t|
  {
    var i := FirstSeparator(t);
    if i == |t| then [Escape(t, false) + CLOSE] else [Escape(t[..i], false)] + TailLines(t[i + 1..])
  }

  /** The lines one record is read as: itself, or its pieces. */
  function RecordLines(content: string): seq<string> {
    var i := FirstSeparator(content);
    if i == |content| then [Record(content)] else [OPEN + Escape(content[..i], false)] + TailLines(content[i + 1..])
  }

  function FileLines(contents: seq<string>): seq<string> {
    if contents == [] then [] else RecordLines(contents[0]) + FileLines(contents[1..])
  }

  lemma EscapedAround(t: string, i: nat)
    requires i < |t| && Separator(t[i])
    ensures Escape(t, false) == Escape(t[..i], false) + ([t[i]] + Escape(t[i + 1..], false))
  {
    hide Escape, Separator;
    SeparatorStays(t[i]);
    EscapeJoins(t[..i], [t[i]] + t[i + 1..], false);
    EscapeJoins([t[i]], t[i + 1..], false);
    assert t == t[..i] + ([t[i]] + t[i + 1..]);
  }

  lemma {:induction false} TailIsCut(t: string, rest: string)
    ensures SplitLines(Escape(t, false) + CLOSE + ("\n" + rest)) == TailLines(t) + SplitLines(rest)
    decreases |t|
  {
    hide Escape, SplitLines, Separator, Whole, TailLines, FirstSeparator;
    var i := FirstSeparator(t);
    TailLinesAre(t);
    if i == |t| {
      assert t[..i] == t;
      TailEnds(t, rest);
    } else {
      TailIsCutAt(t, i, rest);
      TailIsCut(t[i + 1..], rest);
      Assoc([Escape(t[..i], false)], TailLines(t[i + 1..]), SplitLines(rest));
    }
  }

  lemma TailLinesAre(t: string)
    ensures var i := FirstSeparator(t);
      TailLines(t) == if i == |t| then [Escape(t, false) + CLOSE] else [Escape(t[..i], false)] + TailLines(t[i + 1..])
  {
  }

  lemma TailEnds(t: string, rest: string)
    requires Whole(t)
    ensures SplitLines(Escape(t, false) + CLOSE + ("\n" + rest)) == [Escape(t, false) + CLOSE] + SplitLines(rest)
  {
    hide Escape, SplitLines, NoBreak, Breaks, Whole;
    FrameBreaks();
    NewlineBreaks();
    EscapedText(t);
    NoBreakJoins(Escape(t, false), CLOSE);
    LineThen(Escape(t, false) + CLOSE, '\n', rest);
  }

  lemma TailIsCutAt(t: string, i: nat, rest: string)
    requires i < |t| && Separator(t[i]) && Whole(t[..i])
    ensures SplitLines(Escape(t, false) + CLOSE + ("\n" + rest)) ==
      [Escape(t[..i], false)] + SplitLines(Escape(t[i + 1..], false) + CLOSE + ("\n" + rest))
  {
    hide Escape, SplitLines, NoBreak, Breaks, Separator, Whole;
    var after := Escape(t[i + 1..], false) + CLOSE + ("\n" + rest);
    assert Escape(t, false) + CLOSE + ("\n" + rest) == Escape(t[..i], false) + ([t[i]] + after) by {
      EscapedAround(t, i);
      Regroup(Escape(t[..i], false), [t[i]], Escape(t[i + 1..], false), CLOSE, "\n" + rest);
    }
    SeparatorStays(t[i]);
    EscapedText(t[..i]);
    LineThen(Escape(t[..i], false), t[i], after);
  }

  lemma Regroup(a: string, c: string, b: string, d: string, e: string)
    ensures (a + (c + b)) + d + e == a + (c + (b + d + e))
  {
  }

  lemma NewlineBreaks()
    ensures Breaks('\n')
  {
  }

  lemma RecordIsCut(content: string, rest: string)
    ensures SplitLines(Record(content) + ("\n" + rest)) == RecordLines(content) + SplitLines(rest)
  {
    hide SplitLines, Whole, Escape, Record, TailLines;
    var i := FirstSeparator(content);
    if i == |content| {
      assert content[..i] == content;
      RecordBreaks(content);
      NewlineBreaks();
      LineThen(Record(content), '\n', rest);
    } else {
      RecordIsCutAt(content, i, rest);
      Assoc([OPEN + Escape(content[..i], false)], TailLines(content[i + 1..]), SplitLines(rest));
    }
  }

  lemma RecordIsCutAt(content: string, i: nat, rest: string)
    requires i < |content| && Separator(content[i]) && Whole(content[..i])
    ensures SplitLines(Record(content) + ("\n" + rest)) ==
      [OPEN + Escape(content[..i], false)] + (TailLines(content[i + 1..]) + SplitLines(rest))
  {
    hide Escape, SplitLines, NoBreak, Breaks, Separator, Whole, TailLines;
    var a, b := Escape(content[..i], false), Escape(content[i + 1..], false);
    var after := b + CLOSE + ("\n" + rest);
    assert Record(content) + ("\n" + rest) == (OPEN + a) + ([content[i]] + after) by {
      EscapedAround(content, i);
      RegroupRecord(OPEN, a, [content[i]], b, CLOSE, "\n" + rest);
    }
    hide Record;
    SeparatorStays(content[i]);
    FrameBreaks();
    EscapedText(content[..i]);
    NoBreakJoins(OPEN, a);
    LineThen(OPEN + a, content[i], after);
    TailIsCut(content[i + 1..], rest);
  }

  lemma RegroupRecord(o: string, a: string, c: string, b: string, d: string, e: string)
    ensures (o + (a + (c + b)) + d) + e == (o + a) + (c + (b + d + e))
  {
  }

  /** Every file of records, whole or not, is read as the lines of its records one after another. */
  lemma {:induction false} FileIsCut(contents: seq<string>)
    ensures SplitLines(File(contents)) == FileLines(contents)
  {
    hide Record, SplitLines, RecordLines;
    if contents == [] {
      NoLines();
    } else {
      Assoc(Record(contents[0]), "\n", File(contents[1..]));
      RecordIsCut(contents[0], File(contents[1..]));
      FileIsCut(contents[1..]);
    }
  }

  lemma {:induction false} WholeToTheEnd(t: string)
    requires Whole(t)
    ensures FirstSeparator(t) == |t|
  {
    hide Separator;
    if t != "" {
      WholeTail(t);
      WholeToTheEnd(t[1..]);
    }
  }

  lemma {:induction false} FirstSeparatorAt(before: string, c: char, after: string)
    requires Whole(before) && Separator(c)
    ensures FirstSeparator(before + [c] + after) == |before|
  {
    hide Separator;
    var t := before + [c] + after;
    if before == "" {
      assert t[0] == c;
    } else {
      WholeTail(before);
      assert t[0] == before[0] && t[1..] == before[1..] + [c] + after;
      FirstSeparatorAt(before[1..], c, after);
    }
  }

  /** A content with one separator is read as two lines, neither of them its record. */
  lemma SeparatorCutsRecord(before: string, after: string, c: char)
    requires Whole(before) && Whole(after) && Separator(c)
    ensures SplitLines(File([before + [c] + after])) == [OPEN + Escape(before, false), Escape(after, false) + CLOSE]
  {
    hide Escape, SplitLines, Separator, Whole;
    var content: string := before + [c] + after;
    FileIsCut([content]);
    assert [content][1..] == [] && RecordLines(content) + [] == RecordLines(content);
    FirstSeparatorAt(before, c, after);
    assert content[..|before|] == before && content[|before| + 1..] == after;
    WholeToTheEnd(after);
  }
}
