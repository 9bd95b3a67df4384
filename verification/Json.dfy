/** JSON texts as `json.dumps` writes them, and a reader for RFC 8259 and for what Python adds to it. */
module Json {
  import opened Basics
  import opened JsonString

  /** Numbers are kept as their text. */
  datatype Value = Null | Truth(b: bool) | Number(lexeme: string) | Text(t: string) | Array(items: Items) | Object(members: Members)
  datatype Items = NoItems | Item(head: Value, tail: Items)
  datatype Members = NoMembers | Member(key: string, value: Value, rest: Members)

  function AppendMembers(a: Members, b: Members): Members {
    match a
    case NoMembers => b
    case Member(k, v, r) => Member(k, v, AppendMembers(r, b))
  }

  // ----- Writing -----

  function Quoted(t: string): string { "\"" + Escape(t, true) + "\"" }

  function Dumps(v: Value): string {
    match v
    case Null => "null"
    case Truth(b) => if b then "true" else "false"
    case Number(n) => n
    case Text(t) => Quoted(t)
    case Array(items) => "[" + DumpsItems(items, " ") + "]"
    case Object(ms) => "{" + DumpsMembers(ms) + "}"
  }

  /** Elements with `gap` after each comma. */
  function DumpsItems(items: Items, gap: string): string {
    match items
    case NoItems => ""
    case Item(v, NoItems) => Dumps(v)
    case Item(v, r) => Dumps(v) + ("," + gap + DumpsItems(r, gap))
  }

  function DumpsMembers(ms: Members): string {
    match ms
    case NoMembers => ""
    case Member(k, v, NoMembers) => Quoted(k) + (": " + Dumps(v))
    case Member(k, v, r) => Quoted(k) + (": " + (Dumps(v) + (", " + DumpsMembers(r))))
  }

  // ----- Reading -----

  predicate Space(c: char) { c == ' ' || c == '\t' || c == '\n' || c == '\r' }

  function Skip(s: string): (r: string)
    ensures |r| <= |s|
  {
    if s != "" && Space(s[0]) then Skip(s[1..]) else s
  }

  predicate Digit(c: char) { '0' <= c <= '9' }

  /** How many digits stand at `i` and directly after it. */
  function DigitsAt(s: string, i: nat): (n: nat)
    requires i <= |s|
    ensures i + n <= |s|
    decreases |s| - i
  {
    if i < |s| && Digit(s[i]) then 1 + DigitsAt(s, i + 1) else 0
  }

  /** Past the optional fraction at `i`: a point and at least one digit. */
  function AfterFraction(s: string, i: nat): (j: nat)
    requires i <= |s|
    ensures i <= j <= |s|
  {
    if i < |s| && s[i] == '.' && DigitsAt(s, i + 1) > 0 then i + 1 + DigitsAt(s, i + 1) else i
  }

  /** Past the optional exponent at `i`: an E, an optional sign and at least one digit. */
  function AfterExponent(s: string, i: nat): (j: nat)
    requires i <= |s|
    ensures i <= j <= |s|
  {
    if i < |s| && (s[i] == 'e' || s[i] == 'E') then
      var d := if i + 1 < |s| && (s[i + 1] == '+' || s[i + 1] == '-') then i + 2 else i + 1;
      if DigitsAt(s, d) > 0 then d + DigitsAt(s, d) else i
    else i
  }

  /** Length of the longest number of section 6 of RFC 8259 at the start of `s`, 0 if there is none. */
  function NumberLength(s: string): (n: nat)
    ensures n <= |s|
  {
    var sign := if s != "" && s[0] == '-' then 1 else 0;
    var digits := DigitsAt(s, sign);
    if digits == 0 then 0
    else AfterExponent(s, AfterFraction(s, if s[sign] == '0' then sign + 1 else sign + digits))
  }

  /** Python's `json.loads` also reads `NaN`, `Infinity` and `-Infinity`. */
  datatype Grammar = Rfc8259 | Python

  function ExtraLength(s: string): (n: nat)
    ensures n <= |s|
  {
    if "NaN" <= s then 3 else if "Infinity" <= s then 8 else if "-Infinity" <= s then 9 else 0
  }

  type Read<T> = Option<(T, string)>

  function Literal(g: Grammar, s: string): (r: Read<Value>)
    ensures r.Some? ==> |r.value.1| < |s|
  {
    if "null" <= s then Some((Null, s[4..]))
    else if "true" <= s then Some((Truth(true), s[4..]))
    else if "false" <= s then Some((Truth(false), s[5..]))
    else if NumberLength(s) > 0 then Some((Number(s[..NumberLength(s)]), s[NumberLength(s)..]))
    else if g.Python? && ExtraLength(s) > 0 then Some((Number(s[..ExtraLength(s)]), s[ExtraLength(s)..]))
    else None
  }

  /** One value, with what follows it. */
  function ReadValue(g: Grammar, s: string): (r: Read<Value>)
    ensures r.Some? ==> |r.value.1| < |s|
    decreases |s|, 0
  {
    var t := Skip(s);
    if t == "" then None
    else if t[0] == '\"' then
      var r := ReadString(t[1..]);
      if r.None? then None else Some((Text(r.value.0), r.value.1))
    else if t[0] == '[' then
      var u := Skip(t[1..]);
      if u != "" && u[0] == ']' then Some((Array(NoItems), u[1..]))
      else
        var r := ReadItems(g, t[1..]);
        if r.None? then None else Some((Array(r.value.0), r.value.1))
    else if t[0] == '{' then
      var u := Skip(t[1..]);
      if u != "" && u[0] == '}' then Some((Object(NoMembers), u[1..]))
      else
        var r := ReadMembers(g, t[1..]);
        if r.None? then None else Some((Object(r.value.0), r.value.1))
    else Literal(g, t)
  }

  /** Elements up to the closing bracket. */
  function ReadItems(g: Grammar, s: string): (r: Read<Items>)
    ensures r.Some? ==> |r.value.1| < |s|
    decreases |s|, 1
  {
    var v := ReadValue(g, s);
    if v.None? then None
    else
      var r := MoreItems(g, v.value.1);
      if r.None? then None else Some((Item(v.value.0, r.value.0), r.value.1))
  }

  /** What can follow an element. */
  function MoreItems(g: Grammar, s: string): (r: Read<Items>)
    ensures r.Some? ==> |r.value.1| < |s|
    decreases |s|, 2
  {
    var t := Skip(s);
    if t == "" then None
    else if t[0] == ']' then Some((NoItems, t[1..]))
    else if t[0] == ',' then ReadItems(g, t[1..])
    else None
  }

  function ReadKey(s: string): (r: Read<string>)
    ensures r.Some? ==> |r.value.1| < |s|
  {
    var t := Skip(s);
    if t == "" || t[0] != '\"' then None
    else
      var k := ReadString(t[1..]);
      if k.None? then None
      else
        var u := Skip(k.value.1);
        if u == "" || u[0] != ':' then None else Some((k.value.0, u[1..]))
  }

  /** Members up to the closing brace. */
  function ReadMembers(g: Grammar, s: string): (r: Read<Members>)
    ensures r.Some? ==> |r.value.1| < |s|
    decreases |s|, 1
  {
    var k := ReadKey(s);
    if k.None? then None
    else
      var v := ReadValue(g, k.value.1);
      if v.None? then None
      else
        var r := MoreMembers(g, v.value.1);
        if r.None? then None else Some((Member(k.value.0, v.value.0, r.value.0), r.value.1))
  }

  function MoreMembers(g: Grammar, s: string): (r: Read<Members>)
    ensures r.Some? ==> |r.value.1| < |s|
    decreases |s|, 2
  {
    var t := Skip(s);
    if t == "" then None
    else if t[0] == '}' then Some((NoMembers, t[1..]))
    else if t[0] == ',' then ReadMembers(g, t[1..])
    else None
  }

  // ----- Reading back -----

  /** The whole text is one number of the grammar. */
  predicate ProperNumber(n: string) {
    n != "" && NumberLength(n) == |n|
  }

  /** Numbers are number texts, all the way down. */
  predicate Proper(v: Value) {
    match v
    case Number(n) => ProperNumber(n)
    case Array(items) => ProperItems(items)
    case Object(ms) => ProperMembers(ms)
    case _ => true
  }

  predicate ProperItems(items: Items) {
    match items
    case NoItems => true
    case Item(v, r) => Proper(v) && ProperItems(r)
  }

  predicate ProperMembers(ms: Members) {
    match ms
    case NoMembers => true
    case Member(_, v, r) => Proper(v) && ProperMembers(r)
  }

  predicate NumberChar(c: char) { Digit(c) || c == '-' || c == '+' || c == '.' || c == 'e' || c == 'E' }

  /** What follows a value must not continue a number. */
  predicate Stops(rest: string) {
    rest == "" || !NumberChar(rest[0])
  }

  lemma {:induction false} DigitsThen(n: string, rest: string, i: nat)
    requires i <= |n| && Stops(rest)
    ensures DigitsAt(n + rest, i) == DigitsAt(n, i)
    decreases |n| - i
  {
    if i < |n| {
      assert (n + rest)[i] == n[i];
      DigitsThen(n, rest, i + 1);
    } else if rest != "" {
      assert (n + rest)[i] == rest[0];
    }
  }

  lemma FractionThen(n: string, rest: string, i: nat)
    requires i <= |n| && Stops(rest)
    ensures AfterFraction(n + rest, i) == AfterFraction(n, i)
  {
    hide DigitsAt;
    if i < |n| {
      assert (n + rest)[i] == n[i];
      DigitsThen(n, rest, i + 1);
    } else if rest != "" {
      assert (n + rest)[i] == rest[0];
    }
  }

  lemma ExponentThen(n: string, rest: string, i: nat)
    requires i <= |n| && Stops(rest)
    ensures AfterExponent(n + rest, i) == AfterExponent(n, i)
  {
    hide DigitsAt;
    if i < |n| {
      assert (n + rest)[i] == n[i];
      DigitsThen(n, rest, i + 1);
      if i + 1 < |n| {
        assert (n + rest)[i + 1] == n[i + 1];
        DigitsThen(n, rest, i + 2);
      } else if rest != "" {
        assert (n + rest)[i + 1] == rest[0];
      }
    } else if rest != "" {
      assert (n + rest)[i] == rest[0];
    }
  }

  lemma NumberBack(n: string, rest: string)
    requires ProperNumber(n) && Stops(rest)
    ensures NumberLength(n + rest) == |n|
  {
    hide DigitsAt, AfterFraction, AfterExponent;
    var sign := if n[0] == '-' then 1 else 0;
    assert (n + rest)[0] == n[0];
    DigitsThen(n, rest, sign);
    assert sign < |n| by {
      SomeDigit(n, sign);
    }
    var i := if n[sign] == '0' then sign + 1 else sign + DigitsAt(n, sign);
    FractionThen(n, rest, i);
    ExponentThen(n, rest, AfterFraction(n, i));
  }

  lemma SomeDigit(n: string, i: nat)
    requires i <= |n|
    ensures DigitsAt(n, i) > 0 ==> i < |n| && Digit(n[i])
  {
  }

  lemma {:induction false} DigitsAreDigits(s: string, i: nat)
    requires i <= |s|
    ensures forall k :: i <= k < i + DigitsAt(s, i) ==> Digit(s[k])
    decreases |s| - i
  {
    if i < |s| && Digit(s[i]) {
      DigitsAreDigits(s, i + 1);
    }
  }

  lemma FractionEnds(s: string, i: nat)
    requires 0 < i <= |s| && Digit(s[i - 1])
    ensures Digit(s[AfterFraction(s, i) - 1])
  {
    if i < |s| {
      DigitsAreDigits(s, i + 1);
    }
  }

  lemma ExponentEnds(s: string, i: nat)
    requires 0 < i <= |s| && Digit(s[i - 1])
    ensures AfterExponent(s, i) > 0 && Digit(s[AfterExponent(s, i) - 1])
  {
    if i < |s| {
      DigitsAreDigits(s, i + 1);
      if i + 1 < |s| {
        DigitsAreDigits(s, i + 2);
      }
    }
  }

  lemma NumberEnds(n: string)
    requires ProperNumber(n)
    ensures Digit(n[|n| - 1])
  {
    hide DigitsAt, AfterFraction, AfterExponent;
    var sign := if n[0] == '-' then 1 else 0;
    SomeDigit(n, sign);
    DigitsAreDigits(n, sign);
    var i := if n[sign] == '0' then sign + 1 else sign + DigitsAt(n, sign);
    FractionEnds(n, i);
    ExponentEnds(n, AfterFraction(n, i));
  }

  lemma NumberStarts(n: string)
    requires ProperNumber(n)
    ensures n[0] == '-' || Digit(n[0])
  {
    SomeDigit(n, 0);
  }

  lemma SkipNothing(s: string)
    requires s == "" || !Space(s[0])
    ensures Skip(s) == s
  {
  }

  lemma SkipSpace(s: string)
    ensures Skip(" " + s) == Skip(s)
  {
    assert (" " + s)[1..] == s;
  }

  lemma NumberReads(g: Grammar, n: string, rest: string)
    requires ProperNumber(n) && Stops(rest)
    ensures ReadValue(g, n + rest) == Some((Number(n), rest))
  {
    hide NumberLength, ReadString, ReadItems, ReadMembers;
    var s := n + rest;
    NumberBack(n, rest);
    NumberStarts(n);
    assert s[0] == n[0];
    SkipNothing(s);
    assert s[..|n|] == n && s[|n|..] == rest;
  }

  lemma WordsRead(g: Grammar, rest: string)
    ensures ReadValue(g, "null" + rest) == Some((Null, rest))
    ensures ReadValue(g, "true" + rest) == Some((Truth(true), rest))
    ensures ReadValue(g, "false" + rest) == Some((Truth(false), rest))
  {
    hide ReadString, ReadItems, ReadMembers, NumberLength;
    var a, b, c := "null" + rest, "true" + rest, "false" + rest;
    assert a[0] == 'n' && b[0] == 't' && c[0] == 'f';
    SkipNothing(a);
    SkipNothing(b);
    SkipNothing(c);
    assert "null" <= a && a[4..] == rest && "true" <= b && b[4..] == rest && "false" <= c && c[5..] == rest;
  }

  lemma QuotedReads(t: string, rest: string)
    ensures var s := Quoted(t) + rest; s != "" && s[0] == '\"' && ReadString(s[1..]) == Some((t, rest))
  {
    hide Escape, ReadString;
    StringBack(t, true, rest);
    assert (Quoted(t) + rest)[1..] == Escape(t, true) + "\"" + rest;
  }

  lemma TextReads(g: Grammar, t: string, rest: string)
    ensures ReadValue(g, Quoted(t) + rest) == Some((Text(t), rest))
  {
    hide Quoted, ReadString, ReadItems, ReadMembers;
    QuotedReads(t, rest);
    var s := Quoted(t) + rest;
    SkipNothing(s);
  }

  /** A string written without escaping what is not ASCII. */
  lemma RawTextReads(g: Grammar, t: string, rest: string)
    ensures ReadValue(g, "\"" + (Escape(t, false) + "\"" + rest)) == Some((Text(t), rest))
  {
    hide Escape, ReadString, ReadItems, ReadMembers;
    var tail := Escape(t, false) + "\"" + rest;
    var s := "\"" + tail;
    StringBack(t, false, rest);
    assert s[0] == '\"' && s[1..] == tail;
    SkipNothing(s);
  }

  lemma KeysArePlain()
    ensures Quoted("content") == "\"content\"" && Quoted("messages") == "\"messages\""
  {
    hide Escape;
    PlainText("content", true);
    PlainText("messages", true);
  }

  lemma KeyReads(k: string, rest: string)
    ensures ReadKey(Quoted(k) + (":" + rest)) == Some((k, rest))
  {
    hide Quoted, ReadString;
    var tail := ":" + rest;
    QuotedReads(k, tail);
    SkipNothing(Quoted(k) + tail);
    assert tail[0] == ':' && tail[1..] == rest;
    SkipNothing(tail);
  }

  /** A dumped value starts with none of the characters that end a list. */
  lemma DumpsStarts(v: Value, rest: string)
    requires Proper(v)
    ensures var s := Dumps(v) + rest; s != "" && !Space(s[0]) && s[0] != ']' && s[0] != '}'
  {
    hide Escape, DumpsItems, DumpsMembers;
    match v {
      case Null => assert Dumps(v)[0] == 'n';
      case Truth(b) => assert Dumps(v)[0] == 't' || Dumps(v)[0] == 'f';
      case Number(n) => NumberStarts(n);
      case Text(t) => assert Dumps(v)[0] == '\"';
      case Array(_) => assert Dumps(v)[0] == '[';
      case Object(_) => assert Dumps(v)[0] == '{';
    }
  }

  function PrependItems(items: Items, r: Read<Items>): Read<Items> {
    if r.None? then None else Some((AppendItems(items, r.value.0), r.value.1))
  }

  function AppendItems(a: Items, b: Items): Items {
    match a
    case NoItems => b
    case Item(v, r) => Item(v, AppendItems(r, b))
  }

  function PrependMembers(ms: Members, r: Read<Members>): Read<Members> {
    if r.None? then None else Some((AppendMembers(ms, r.value.0), r.value.1))
  }

  lemma ItemsOpen(g: Grammar, s: string)
    requires s != "" && !Space(s[0]) && s[0] != ']' && ReadItems(g, s).Some?
    ensures ReadValue(g, "[" + s) == Some((Array(ReadItems(g, s).value.0), ReadItems(g, s).value.1))
  {
    hide ReadItems;
    assert ("[" + s)[1..] == s && ("[" + s)[0] == '[';
    SkipNothing("[" + s);
    SkipNothing(s);
  }

  lemma MembersOpen(g: Grammar, s: string)
    requires s != "" && s[0] == '\"' && ReadMembers(g, s).Some?
    ensures ReadValue(g, "{" + s) == Some((Object(ReadMembers(g, s).value.0), ReadMembers(g, s).value.1))
  {
    hide ReadMembers;
    assert ("{" + s)[1..] == s && ("{" + s)[0] == '{';
    SkipNothing("{" + s);
    SkipNothing(s);
  }

  lemma EmptyOnesRead(g: Grammar, rest: string)
    ensures ReadValue(g, "[" + ("]" + rest)) == Some((Array(NoItems), rest))
    ensures ReadValue(g, "{" + ("}" + rest)) == Some((Object(NoMembers), rest))
  {
    hide ReadItems, ReadMembers;
    var a, b := "]" + rest, "}" + rest;
    SkipNothing("[" + a);
    SkipNothing("{" + b);
    SkipNothing(a);
    SkipNothing(b);
    assert ("[" + a)[1..] == a && ("{" + b)[1..] == b && a[1..] == rest && b[1..] == rest;
  }

  lemma ItemsClose(g: Grammar, rest: string)
    ensures MoreItems(g, "]" + rest) == Some((NoItems, rest)) && Stops("]" + rest)
  {
    SkipNothing("]" + rest);
  }

  lemma MembersClose(g: Grammar, rest: string)
    ensures MoreMembers(g, "}" + rest) == Some((NoMembers, rest)) && Stops("}" + rest)
  {
    SkipNothing("}" + rest);
  }

  lemma ItemsGoOn(g: Grammar, rest: string)
    ensures MoreItems(g, "," + rest) == ReadItems(g, rest) && Stops("," + rest)
  {
    hide ReadItems;
    SkipNothing("," + rest);
    assert ("," + rest)[1..] == rest;
  }

  lemma MembersGoOn(g: Grammar, rest: string)
    ensures MoreMembers(g, "," + rest) == ReadMembers(g, rest) && Stops("," + rest)
  {
    hide ReadMembers;
    SkipNothing("," + rest);
    assert ("," + rest)[1..] == rest;
  }

  lemma SpaceBeforeValue(g: Grammar, s: string)
    ensures ReadValue(g, " " + s) == ReadValue(g, s)
  {
    hide ReadItems, ReadMembers, Literal, ReadString;
    SkipSpace(s);
  }

  lemma SpaceBeforeItems(g: Grammar, s: string)
    ensures ReadItems(g, " " + s) == ReadItems(g, s)
  {
    hide ReadValue, MoreItems;
    SpaceBeforeValue(g, s);
  }

  lemma SpaceBeforeMembers(g: Grammar, s: string)
    ensures ReadMembers(g, " " + s) == ReadMembers(g, s)
  {
    hide ReadValue, MoreMembers, ReadString;
    SkipSpace(s);
  }

  lemma ItemOnto(v: Value, items: Items)
    ensures AppendItems(Item(v, NoItems), items) == Item(v, items)
  {
    assert AppendItems(NoItems, items) == items;
  }

  lemma MemberOnto(k: string, v: Value, ms: Members)
    ensures AppendMembers(Member(k, v, NoMembers), ms) == Member(k, v, ms)
  {
    assert AppendMembers(NoMembers, ms) == ms;
  }

  lemma OneItem(g: Grammar, body: string, v: Value, tail: string)
    requires ReadValue(g, body) == Some((v, tail))
    ensures ReadItems(g, body) == PrependItems(Item(v, NoItems), MoreItems(g, tail))
  {
    hide ReadValue, MoreItems;
    if MoreItems(g, tail).Some? {
      ItemOnto(v, MoreItems(g, tail).value.0);
    }
  }

  lemma OneMember(g: Grammar, k: string, body: string, v: Value, tail: string)
    requires ReadValue(g, body) == Some((v, tail))
    ensures ReadMembers(g, Quoted(k) + (":" + body)) == PrependMembers(Member(k, v, NoMembers), MoreMembers(g, tail))
  {
    hide ReadValue, MoreMembers, Quoted, ReadKey;
    KeyReads(k, body);
    if MoreMembers(g, tail).Some? {
      MemberOnto(k, v, MoreMembers(g, tail).value.0);
    }
  }

  lemma PrependItem(v: Value, items: Items, r: Read<Items>)
    ensures PrependItems(Item(v, NoItems), PrependItems(items, r)) == PrependItems(Item(v, items), r)
  {
    if r.Some? {
      ItemOnto(v, AppendItems(items, r.value.0));
    }
  }

  lemma PrependMember(k: string, v: Value, ms: Members, r: Read<Members>)
    ensures PrependMembers(Member(k, v, NoMembers), PrependMembers(ms, r)) == PrependMembers(Member(k, v, ms), r)
  {
    if r.Some? {
      MemberOnto(k, v, AppendMembers(ms, r.value.0));
    }
  }

  lemma {:induction false} AppendNone(items: Items)
    ensures AppendItems(items, NoItems) == items
  {
    if items.Item? {
      AppendNone(items.tail);
    }
  }

  lemma {:induction false} AppendNoMembers(ms: Members)
    ensures AppendMembers(ms, NoMembers) == ms
  {
    if ms.Member? {
      AppendNoMembers(ms.rest);
    }
  }

  /** Every value comes back from its text, whatever follows it. */
  lemma {:induction false} ValueBack(g: Grammar, v: Value, rest: string)
    requires Proper(v) && Stops(rest)
    ensures ReadValue(g, Dumps(v) + rest) == Some((v, rest))
    decreases v
  {
    hide ReadValue, Quoted, DumpsItems, DumpsMembers, Stops;
    match v {
      case Null => WordsRead(g, rest);
      case Truth(b) => WordsRead(g, rest);
      case Number(n) => NumberReads(g, n, rest);
      case Text(t) => TextReads(g, t, rest);
      case Array(items) => ArrayBack(g, items, rest);
      case Object(ms) => ObjectBack(g, ms, rest);
    }
  }

  lemma {:induction false} ArrayBack(g: Grammar, items: Items, rest: string)
    requires ProperItems(items)
    ensures ReadValue(g, "[" + DumpsItems(items, " ") + "]" + rest) == Some((Array(items), rest))
    decreases items, 1
  {
    hide ReadValue, ReadItems, MoreItems, Stops, DumpsItems;
    if items.NoItems? {
      EmptyOnesRead(g, rest);
      NoDumps();
      assert "[" + "" + "]" + rest == "[" + ("]" + rest);
    } else {
      ItemsClose(g, rest);
      ItemsBack(g, items, " ", "]" + rest);
      AppendNone(items);
      var s := DumpsItems(items, " ") + ("]" + rest);
      ItemsStart(items, " ", "]" + rest);
      ItemsOpen(g, s);
      assert "[" + DumpsItems(items, " ") + "]" + rest == "[" + s;
    }
  }

  lemma NoDumps()
    ensures DumpsItems(NoItems, " ") == "" && DumpsMembers(NoMembers) == ""
  {
  }

  lemma ItemsStart(items: Items, gap: string, tail: string)
    requires ProperItems(items) && items.Item?
    ensures var s := DumpsItems(items, gap) + tail; s != "" && !Space(s[0]) && s[0] != ']'
  {
    hide Dumps;
    if items.tail.NoItems? {
      DumpsStarts(items.head, tail);
    } else {
      var more := "," + gap + DumpsItems(items.tail, gap);
      DumpsStarts(items.head, more + tail);
      Assoc(Dumps(items.head), more, tail);
    }
  }

  lemma {:induction false} ObjectBack(g: Grammar, ms: Members, rest: string)
    requires ProperMembers(ms)
    ensures ReadValue(g, "{" + DumpsMembers(ms) + "}" + rest) == Some((Object(ms), rest))
    decreases ms, 1
  {
    hide ReadValue, ReadMembers, MoreMembers, Stops, DumpsMembers;
    if ms.NoMembers? {
      EmptyOnesRead(g, rest);
      NoDumps();
      assert "{" + "" + "}" + rest == "{" + ("}" + rest);
    } else {
      MembersClose(g, rest);
      MembersBack(g, ms, "}" + rest);
      AppendNoMembers(ms);
      var s := DumpsMembers(ms) + ("}" + rest);
      MembersStart(ms, "}" + rest);
      MembersOpen(g, s);
      assert "{" + DumpsMembers(ms) + "}" + rest == "{" + s;
    }
  }

  lemma MembersStart(ms: Members, tail: string)
    requires ms.Member?
    ensures var s := DumpsMembers(ms) + tail; s != "" && s[0] == '\"'
  {
    hide Dumps, Escape;
    assert Quoted(ms.key)[0] == '\"';
  }

  /** Elements are read in order and then whatever may follow them. */
  lemma {:induction false} ItemsBack(g: Grammar, items: Items, gap: string, tail: string)
    requires ProperItems(items) && items.Item? && Stops(tail) && (gap == "" || gap == " ")
    ensures ReadItems(g, DumpsItems(items, gap) + tail) == PrependItems(items, MoreItems(g, tail))
    decreases items, 0
  {
    hide ReadValue, ReadItems, MoreItems, Dumps, Stops, PrependItems;
    var v, r := items.head, items.tail;
    if r.NoItems? {
      ValueBack(g, v, tail);
      OneItem(g, Dumps(v) + tail, v, tail);
    } else {
      var more := gap + (DumpsItems(r, gap) + tail);
      ItemsGoOn(g, more);
      ValueBack(g, v, "," + more);
      OneItem(g, Dumps(v) + ("," + more), v, "," + more);
      ItemsBack(g, r, gap, tail);
      SkipGap(g, gap, DumpsItems(r, gap) + tail);
      PrependItem(v, r, MoreItems(g, tail));
      Flatten(Dumps(v), ",", gap, DumpsItems(r, gap), tail);
    }
  }

  lemma SkipGap(g: Grammar, gap: string, s: string)
    requires gap == "" || gap == " "
    ensures ReadItems(g, gap + s) == ReadItems(g, s)
  {
    hide ReadItems;
    if gap == "" {
      assert gap + s == s;
    } else {
      SpaceBeforeItems(g, s);
    }
  }

  lemma Flatten(a: string, b: string, c: string, d: string, e: string)
    ensures (a + (b + c + d)) + e == a + (b + (c + (d + e)))
  {
  }

  lemma {:induction false} MembersBack(g: Grammar, ms: Members, tail: string)
    requires ProperMembers(ms) && ms.Member? && Stops(tail)
    ensures ReadMembers(g, DumpsMembers(ms) + tail) == PrependMembers(ms, MoreMembers(g, tail))
    decreases ms, 0
  {
    hide ReadValue, ReadMembers, MoreMembers, Dumps, Stops, PrependMembers, Quoted;
    var k, v, r := ms.key, ms.value, ms.rest;
    if r.NoMembers? {
      ValueBack(g, v, tail);
      SpaceBeforeValue(g, Dumps(v) + tail);
      OneMember(g, k, " " + (Dumps(v) + tail), v, tail);
      FlattenOne(Quoted(k), Dumps(v), tail);
    } else {
      var more := " " + (DumpsMembers(r) + tail);
      MembersGoOn(g, more);
      ValueBack(g, v, "," + more);
      SpaceBeforeValue(g, Dumps(v) + ("," + more));
      OneMember(g, k, " " + (Dumps(v) + ("," + more)), v, "," + more);
      MembersBack(g, r, tail);
      SpaceBeforeMembers(g, DumpsMembers(r) + tail);
      PrependMember(k, v, r, MoreMembers(g, tail));
      FlattenMore(Quoted(k), Dumps(v), DumpsMembers(r), tail);
    }
  }

  lemma FlattenOne(k: string, v: string, tail: string)
    ensures (k + (": " + v)) + tail == k + (":" + (" " + (v + tail)))
  {
  }

  lemma FlattenMore(k: string, v: string, r: string, tail: string)
    ensures (k + (": " + (v + (", " + r)))) + tail == k + (":" + (" " + (v + ("," + (" " + (r + tail))))))
  {
  }

  /** A whole JSON text: one value and nothing but white space after it. */
  function Loads(g: Grammar, s: string): Option<Value> {
    var r := ReadValue(g, s);
    if r.None? || Skip(r.value.1) != "" then None else Some(r.value.0)
  }
}
