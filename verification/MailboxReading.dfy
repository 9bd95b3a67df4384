/** What the drain gets out of a mailbox file: `json.loads` on each line and `record.get` (exoclaw_executor_dbos/steering.py). */
module MailboxReading {
  import opened Basics
  import opened JsonString
  import opened Json
  import opened JsonEnds
  import opened MailboxLines

  // ----- One line -----

  /** What reading a line comes to: a text, nothing usable, or an exception that leaves the drain. */
  datatype Parsed = Content(text: string) | Nothing | Raises

  /** The value of a key, the last one if it is repeated. */
  function LastOf(ms: Members, key: string): Option<Value> {
    match ms
    case NoMembers => None
    case Member(k, v, r) =>
      var later := LastOf(r, key);
      if later.Some? then later else if k == key then Some(v) else None
  }

  /** JSON as Python reads it, but no object. */
  predicate NoObject(line: string) {
    Loads(Python, line).Some? && !Loads(Python, line).value.Object?
  }

  /** A line that is no JSON is skipped; JSON that is no object has no `get`; a `content` that is no text is skipped. */
  function Load(line: string): Parsed {
    match Loads(Python, line)
    case None => Nothing
    case Some(Object(ms)) =>
      (match LastOf(ms, "content")
       case Some(Text(t)) => Content(t)
       case _ => Nothing)
    case Some(_) => Raises
  }

  /** The texts of the lines in order, or `None` as soon as one raises. */
  function LoadAll(lines: seq<string>): Option<seq<string>> {
    if lines == [] then Some([])
    else
      var first, rest := Load(lines[0]), LoadAll(lines[1..]);
      if first.Raises? || rest.None? then None
      else Some((if first.Content? then [first.text] else []) + rest.value)
  }

  /** What a drain gets out of a file's text. */
  function Reading(file: string): Option<seq<string>> { LoadAll(SplitLines(file)) }

  lemma {:induction false} LoadAllJoins(a: seq<string>, b: seq<string>)
    ensures LoadAll(a + b) ==
      if LoadAll(a).None? || LoadAll(b).None? then None else Some(LoadAll(a).value + LoadAll(b).value)
  {
    hide Load;
    if a == [] {
      assert a + b == b;
      if LoadAll(b).Some? {
        assert [] + LoadAll(b).value == LoadAll(b).value;
      }
    } else {
      assert (a + b)[1..] == a[1..] + b;
      LoadAllJoins(a[1..], b);
      var first := if Load(a[0]).Content? then [Load(a[0]).text] else [];
      if LoadAll(a[1..]).Some? && LoadAll(b).Some? {
        Assoc(first, LoadAll(a[1..]).value, LoadAll(b).value);
      }
    }
  }

  lemma OneLine(line: string)
    ensures LoadAll([line]) ==
      if Load(line).Raises? then None else Some(if Load(line).Content? then [Load(line).text] else [])
  {
    hide Load;
    assert [line][1..] == [];
    assert LoadAll([]) == Some([]);
    var first := if Load(line).Content? then [Load(line).text] else [];
    assert first + [] == first;
  }

  // ----- A record -----

  lemma RecordLoads(content: string)
    ensures Load(Record(content)) == Content(content)
  {
    hide Escape, ReadValue, ReadMembers, MoreMembers, Quoted;
    var text := "\"" + (Escape(content, false) + "\"" + "}");
    RawTextReads(Python, content, "}");
    SpaceBeforeValue(Python, text);
    KeysArePlain();
    OneMember(Python, "content", " " + text, Text(content), "}");
    MembersClose(Python, "");
    assert "}" + "" == "}";
    MemberOnto("content", Text(content), NoMembers);
    var body := Quoted("content") + (":" + (" " + text));
    QuotedReads("content", ":" + (" " + text));
    MembersOpen(Python, body);
    assert Record(content) == "{" + body by {
      Spelled(Escape(content, false));
    }
    SkipNothing("");
    var ms := Member("content", Text(content), NoMembers);
    assert ReadValue(Python, Record(content)) == Some((Object(ms), ""));
    OneContent(content);
  }

  lemma OneContent(content: string)
    ensures LastOf(Member("content", Text(content), NoMembers), "content") == Some(Text(content))
  {
    assert LastOf(NoMembers, "content") == None;
  }

  lemma Spelled(e: string)
    ensures OPEN + e + CLOSE == "{" + ("\"content\"" + (":" + (" " + ("\"" + (e + "\"" + "}")))))
  {
    assert OPEN == "{" + ("\"content\"" + (":" + (" " + "\""))) && CLOSE == "\"" + "}";
  }

  // ----- The pieces of a record that was cut -----

  /** Escaped text never closes a string. */
  lemma {:induction false} NeverCloses(t: string)
    ensures ReadString(Escape(t, false)) == None
  {
    hide EscapeChar, ReadChar;
    if t != "" {
      CharBack(t[0], false, Escape(t[1..], false));
      NeverCloses(t[1..]);
    }
  }

  lemma OpenPieceIsSkipped(t: string)
    ensures Load(OPEN + Escape(t, false)) == Nothing
  {
    hide Escape, ReadString, Quoted, ReadItems, Literal;
    var e := Escape(t, false);
    var text := "\"" + e;
    NeverCloses(t);
    assert text[0] == '\"' && text[1..] == e;
    SkipNothing(text);
    assert ReadValue(Python, text) == None;
    SpaceBeforeValue(Python, text);
    KeysArePlain();
    KeyReads("content", " " + text);
    var body := Quoted("content") + (":" + (" " + text));
    assert ReadMembers(Python, body) == None;
    QuotedReads("content", ":" + (" " + text));
    NoMembersNoObject(body);
    assert OPEN + e == "{" + body by {
      SpelledOpen(e);
    }
  }

  lemma SpelledOpen(e: string)
    ensures OPEN + e == "{" + ("\"content\"" + (":" + (" " + ("\"" + e))))
  {
    assert OPEN == "{" + ("\"content\"" + (":" + (" " + "\"")));
  }

  lemma NoMembersNoObject(body: string)
    requires body != "" && body[0] == '\"' && ReadMembers(Python, body) == None
    ensures ReadValue(Python, "{" + body) == None
  {
    hide ReadMembers, ReadString, ReadItems, Literal;
    var s := "{" + body;
    assert s[0] == '{' && s[1..] == body;
    SkipNothing(s);
    SkipNothing(body);
  }

  lemma EscapedHead(c: char)
    ensures var e := EscapeChar(c, false); e[0] != '\"' && (Space(e[0]) <==> c == ' ')
    ensures EscapeChar(c, false)[0] == '{' ==> EscapeChar(c, false) == "{"
  {
    hide Hex4;
  }

  /** Skipping white space in escaped text drops characters of the text. */
  lemma {:induction false} SkipInEscaped(t: string, end: string) returns (u: string)
    requires end == "" || !Space(end[0])
    ensures Skip(Escape(t, false) + end) == Escape(u, false) + end && |u| <= |t|
    ensures u != "" ==> u[0] != ' '
  {
    hide EscapeChar, Skip;
    if t == "" {
      u := t;
      assert Escape(t, false) + end == end;
      SkipNothing(end);
    } else {
      var s := Escape(t, false) + end;
      var rest := Escape(t[1..], false) + end;
      Assoc(EscapeChar(t[0], false), Escape(t[1..], false), end);
      EscapedHead(t[0]);
      if t[0] == ' ' {
        SpaceItself();
        u := SkipInEscaped(t[1..], end);
        SkipSpace(rest);
      } else {
        u := t;
        SkipNothing(s);
      }
    }
  }

  lemma SpaceItself()
    ensures EscapeChar(' ', false) == " "
  {
  }

  lemma HeadOfEscaped(u: string, end: string)
    requires u != ""
    ensures var s := Escape(u, false) + end;
      s != "" && s[0] == EscapeChar(u[0], false)[0] && s == EscapeChar(u[0], false) + (Escape(u[1..], false) + end)
  {
    hide EscapeChar;
    Assoc(EscapeChar(u[0], false), Escape(u[1..], false), end);
  }

  /** No key can be read in escaped text: its quotes all stand behind a backslash. */
  lemma NoKeyInEscaped(t: string, end: string)
    requires end == "" || end == CLOSE
    ensures ReadMembers(Python, Escape(t, false) + end) == None
  {
    hide Escape, EscapeChar, ReadValue, MoreMembers, Skip;
    var u := SkipInEscaped(t, end);
    if u != "" {
      HeadOfEscaped(u, end);
      EscapedHead(u[0]);
    } else {
      NothingEscaped(end);
      CloseReadsNothing();
    }
  }

  lemma NothingEscaped(end: string)
    ensures Escape("", false) + end == end
  {
  }

  lemma CloseReadsNothing()
    ensures CLOSE[1..] == "}" && ReadString("}") == None
  {
    assert "}"[1..] == "";
  }

  /** An object read from escaped text is empty. */
  lemma PieceIsNoRecord(t: string, end: string)
    requires end == "" || end == CLOSE
    ensures !Load(Escape(t, false) + end).Content?
  {
    hide Escape, EscapeChar, Skip, ReadItems, ReadMembers, ReadString, Literal;
    var u := SkipInEscaped(t, end);
    if u != "" {
      HeadOfEscaped(u, end);
      EscapedHead(u[0]);
      var rest := Escape(u[1..], false) + end;
      if EscapeChar(u[0], false)[0] == '{' {
        assert ("{" + rest)[1..] == rest;
        NoKeyInEscaped(u[1..], end);
      }
      OnlyObjectsHaveContent(Escape(t, false) + end);
    } else {
      NothingEscaped(end);
      OnlyObjectsHaveContent(Escape(t, false) + end);
    }
  }

  /** A line with a content starts with a brace and has a member to read. */
  lemma OnlyObjectsHaveContent(line: string)
    ensures Load(line).Content? ==> Skip(line) != "" && Skip(line)[0] == '{' && ReadMembers(Python, Skip(line)[1..]).Some?
  {
    hide Skip, ReadItems, ReadMembers, ReadString, NumberLength;
  }

  // ----- Whole files -----

  /** The texts between the separators of what follows a first one. */
  function PiecesFrom(t: string): seq<string>
    decreases |t|
  {
    var i := FirstSeparator(t);
    if i == |t| then [] else [t[..i]] + PiecesFrom(t[i + 1..])
  }

  /** The texts that stand strictly between two separators. */
  function Pieces(content: string): seq<string> {
    var i := FirstSeparator(content);
    if i == |content| then [] else PiecesFrom(content[i + 1..])
  }

  predicate SomeNoObject(pieces: seq<string>) {
    exists k :: 0 <= k < |pieces| && NoObject(Escape(pieces[k], false))
  }

  /** Some piece between two separators is a line of JSON, but no object. */
  predicate Poisons(content: string) { SomeNoObject(Pieces(content)) }

  lemma SomeNoObjectCons(piece: string, rest: seq<string>)
    ensures SomeNoObject([piece] + rest) <==> NoObject(Escape(piece, false)) || SomeNoObject(rest)
  {
    hide NoObject, Escape;
    var all := [piece] + rest;
    if NoObject(Escape(piece, false)) {
      assert all[0] == piece;
    }
    if SomeNoObject(rest) {
      var k :| 0 <= k < |rest| && NoObject(Escape(rest[k], false));
      assert all[k + 1] == rest[k];
    }
  }

  /** The last piece ends in the record's brace and so never raises. */
  lemma LastPieceIsSkipped(t: string)
    ensures Load(Escape(t, false) + CLOSE) == Nothing
  {
    hide Escape, Loads;
    PieceIsNoRecord(t, CLOSE);
    var line := Escape(t, false) + CLOSE;
    assert line[|line| - 1] == '}';
    if Loads(Python, line).Some? {
      OnlyObjectsEndInBrace(Python, line);
    }
  }

  lemma {:induction false} TailYields(t: string)
    ensures LoadAll(TailLines(t)) == if SomeNoObject(PiecesFrom(t)) then None else Some([])
    decreases |t|
  {
    hide Load, Escape, LoadAll, SomeNoObject, NoObject;
    var i := FirstSeparator(t);
    if i == |t| {
      LastPieceIsSkipped(t);
      OneLine(Escape(t, false) + CLOSE);
      assert !SomeNoObject([]) by {
        NoPieces();
      }
    } else {
      MiddlePiece(t[..i]);
      OneLine(Escape(t[..i], false));
      TailYields(t[i + 1..]);
      LoadAllJoins([Escape(t[..i], false)], TailLines(t[i + 1..]));
      SomeNoObjectCons(t[..i], PiecesFrom(t[i + 1..]));
      var nothing: seq<string> := [];
      assert nothing + nothing == nothing;
    }
  }

  lemma NoPieces()
    ensures !SomeNoObject([])
  {
  }

  lemma MiddlePiece(t: string)
    ensures Load(Escape(t, false)) == if NoObject(Escape(t, false)) then Raises else Nothing
  {
    hide Escape, Loads;
    PieceIsNoRecord(t, "");
    assert Escape(t, false) + "" == Escape(t, false);
  }

  /** A whole record yields its content; a cut one yields nothing, or raises if one of its pieces poisons it. */
  lemma RecordYields(content: string)
    ensures LoadAll(RecordLines(content)) ==
      if Poisons(content) then None else Some(if Whole(content) then [content] else [])
    ensures Whole(content) ==> !Poisons(content)
  {
    hide Load, Escape, LoadAll, Record, Whole, SomeNoObject, TailLines, PiecesFrom;
    var i := FirstSeparator(content);
    if i == |content| {
      assert content[..i] == content;
      RecordLoads(content);
      OneLine(Record(content));
      NoPieces();
    } else {
      NotWhole(content, i);
      CutRecordYields(content[..i], content[i + 1..]);
    }
  }

  lemma CutRecordYields(t: string, u: string)
    ensures LoadAll([OPEN + Escape(t, false)] + TailLines(u)) == if SomeNoObject(PiecesFrom(u)) then None else Some([])
  {
    hide Load, Escape, LoadAll, SomeNoObject, TailLines, PiecesFrom;
    OpenPieceIsSkipped(t);
    OneLine(OPEN + Escape(t, false));
    TailYields(u);
    LoadAllJoins([OPEN + Escape(t, false)], TailLines(u));
    var nothing: seq<string> := [];
    assert nothing + nothing == nothing;
  }

  lemma NotWhole(content: string, i: nat)
    requires i < |content| && Separator(content[i])
    ensures !Whole(content)
  {
  }

  function WholeOf(contents: seq<string>): seq<string> {
    if contents == [] then [] else (if Whole(contents[0]) then [contents[0]] else []) + WholeOf(contents[1..])
  }

  predicate SomePoison(contents: seq<string>) {
    exists i :: 0 <= i < |contents| && Poisons(contents[i])
  }

  /** Any file of records reads as its whole records in order, or raises exactly when one of them does. */
  lemma {:induction false} FileReads(contents: seq<string>)
    ensures Reading(File(contents)) == if SomePoison(contents) then None else Some(WholeOf(contents))
  {
    FileIsCut(contents);
    LinesLoad(contents);
  }

  lemma {:induction false} LinesLoad(contents: seq<string>)
    ensures LoadAll(FileLines(contents)) == if SomePoison(contents) then None else Some(WholeOf(contents))
  {
    hide Whole, RecordLines, LoadAll, Poisons;
    if contents == [] {
      NoLinesLoad();
    } else {
      LinesLoad(contents[1..]);
      LoadAllJoins(RecordLines(contents[0]), FileLines(contents[1..]));
      RecordYields(contents[0]);
      PoisonSplits(contents);
    }
  }

  lemma NoLinesLoad()
    ensures LoadAll([]) == Some([])
  {
  }

  lemma PoisonSplits(contents: seq<string>)
    requires contents != []
    ensures SomePoison(contents) <==> Poisons(contents[0]) || SomePoison(contents[1..])
  {
    hide Poisons;
    if SomePoison(contents[1..]) {
      var i :| 0 <= i < |contents[1..]| && Poisons(contents[1..][i]);
      assert contents[i + 1] == contents[1..][i];
    }
    if SomePoison(contents) && !Poisons(contents[0]) {
      var i :| 0 <= i < |contents| && Poisons(contents[i]);
      assert contents[1..][i - 1] == contents[i];
    }
  }

  lemma {:induction false} WholeOfWhole(contents: seq<string>)
    ensures |WholeOf(contents)| <= |contents|
    ensures |WholeOf(contents)| == |contents| <==> WholeLines(contents)
    ensures WholeLines(contents) ==> WholeOf(contents) == contents && !SomePoison(contents)
  {
    hide Whole, Poisons;
    if contents != [] {
      WholeOfWhole(contents[1..]);
      WholeFirst(contents);
      PoisonSplits(contents);
      RecordYields(contents[0]);
    }
  }

  lemma WholeFirst(contents: seq<string>)
    requires contents != []
    ensures WholeLines(contents) <==> Whole(contents[0]) && WholeLines(contents[1..])
  {
    hide Whole;
    if Whole(contents[0]) && WholeLines(contents[1..]) {
      forall i | 0 <= i < |contents|
        ensures Whole(contents[i])
      {
        assert i > 0 ==> contents[i] == contents[1..][i - 1];
      }
    }
    if WholeLines(contents) {
      forall i | 0 <= i < |contents[1..]|
        ensures Whole(contents[1..][i])
      {
        assert contents[1..][i] == contents[i + 1];
      }
    }
  }

  /** A drain gets every content back if and only if no content holds a separator that JSON leaves raw. */
  lemma AllReadBackExactlyWhenWhole(contents: seq<string>)
    ensures Reading(File(contents)) == Some(contents) <==> WholeLines(contents)
  {
    hide Reading, SomePoison, WholeOf, WholeLines;
    FileReads(contents);
    WholeOfWhole(contents);
  }

  // ----- A content that raises -----

  const SEP: string := "\U{2028}"

  /** Any text between two separators that is JSON, but no object, makes the drain raise. */
  lemma LinePoisons(x: string)
    requires Whole(x)
    ensures Poisons(SEP + x + SEP) <==> NoObject(Escape(x, false))
  {
    hide Escape, NoObject, SomeNoObject;
    var rest, content := x + SEP, SEP + x + SEP;
    FirstSeparatorAt("", SEP[0], rest);
    assert "" + [SEP[0]] + rest == content && content[1..] == rest;
    FirstSeparatorAt(x, SEP[0], "");
    assert x + [SEP[0]] + "" == rest && rest[..|x|] == x && rest[|x| + 1..] == "";
    SomeNoObjectCons(x, PiecesFrom(""));
    assert Pieces(content) == [x] + PiecesFrom("");
    assert FirstSeparator("") == 0;
    NoPieces();
  }

  /** A number on a line of its own is JSON without `get`. */
  lemma NumberLinePoisons()
    ensures Poisons("\U{2028}1\U{2028}")
  {
    hide Escape, Poisons, Loads;
    OneIsANumber();
    PlainText("1", false);
    LinePoisons("1");
    assert SEP + "1" + SEP == "\U{2028}1\U{2028}";
  }

  lemma OneIsANumber()
    ensures NoObject("1")
  {
    hide ReadValue;
    assert ProperNumber("1") by {
      assert DigitsAt("1", 1) == 0;
    }
    NumberReads(Python, "1", "");
    assert "1" + "" == "1";
  }

  /** So is `NaN`, which is no JSON by RFC 8259 but is for Python. */
  lemma NaNLinePoisons()
    ensures Poisons("\U{2028}NaN\U{2028}") && Loads(Rfc8259, "NaN") == None
  {
    hide Escape, Poisons, ReadItems, ReadMembers, ReadString;
    SkipNothing("NaN");
    SkipNothing("");
    PlainText("NaN", false);
    LinePoisons("NaN");
    assert SEP + "NaN" + SEP == "\U{2028}NaN\U{2028}";
  }
}
