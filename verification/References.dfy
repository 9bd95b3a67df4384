/** The decoder's own table at work: escaped text comes back, in whatever chunks it is fed (html_to_markdown.py). */
module References {
  import opened Basics
  import opened Text
  import opened Entities
  import opened Tokenizer
  import opened ChunkInvariance
  import opened ChunkProof
  import opened ChunkTheorem
  import opened ChunkExamples

  // ----- One reference -----

  predicate Inner(s: string) {
    forall i :: 0 <= i < |s| ==> s[i] != ';' && !Entities.Breaks(s[i])
  }

  lemma {:induction false} TerminatorAt(body: string, rest: string, j: nat)
    requires Inner(body) && 1 <= j <= |body| + 1 < WINDOW
    ensures Terminator("&" + body + ";" + rest, j) == |body| + 1
    decreases |body| + 1 - j
  {
    var s := "&" + body + ";" + rest;
    if j <= |body| {
      assert s[j] == body[j - 1];
      TerminatorAt(body, rest, j + 1);
    }
  }

  lemma ReferenceDecodes(body: string, rest: string)
    requires Inner(body) && |body| + 1 < WINDOW && Decode(body).Some?
    ensures Unescape(Decode, "&" + body + ";" + rest) == [Decode(body).value] + Unescape(Decode, rest)
  {
    hide Decode, Unescape;
    var s := "&" + body + ";" + rest;
    TerminatorAt(body, rest, 1);
    assert s[1..|body| + 1] == body && s[|body| + 2..] == rest;
    UnescapeUnit(Decode, s);
  }

  lemma {:induction false} NoTerminator(body: string, rest: string, j: nat)
    requires Inner(body) && 1 <= j <= |body| + 1 && j <= WINDOW <= |body| + 1
    ensures Terminator("&" + body + ";" + rest, j) == -1
    decreases WINDOW - j
  {
    var s := "&" + body + ";" + rest;
    if j < WINDOW {
      assert s[j] == body[j - 1];
      NoTerminator(body, rest, j + 1);
    }
  }

  /** A reference is decoded if the table knows it and it has at most thirty characters, and stays as it is otherwise. */
  lemma ReferenceStaysOtherwise(d: Decoder, body: string, rest: string)
    requires Inner(body)
    ensures Unescape(d, "&" + body + ";" + rest) ==
      if |body| <= 30 && d(body).Some? then [d(body).value] + Unescape(d, rest)
      else "&" + Unescape(d, body + ";" + rest)
  {
    hide Unescape;
    var s := "&" + body + ";" + rest;
    UnescapeUnit(d, s);
    assert s[1..] == body + ";" + rest;
    if |body| <= 30 {
      TerminatorAt(body, rest, 1);
      assert s[1..|body| + 1] == body && s[|body| + 2..] == rest;
    } else {
      NoTerminator(body, rest, 1);
    }
  }

  /** Without a semicolon nothing is a reference. */
  lemma {:induction false} NoSemicolonNoChange(d: Decoder, t: string)
    requires ';' !in t
    ensures Unescape(d, t) == t
  {
    hide Unescape, Terminator;
    if t == "" {
      assert Unescape(d, "") == "" by {
        NothingLeft(d);
      }
    } else {
      UnescapeUnit(d, t);
      if t[0] == '&' {
        NoSemicolonNoEnd(t, 1);
      }
      NoSemicolonNoChange(d, t[1..]);
      assert [t[0]] + t[1..] == t;
    }
  }

  lemma NothingLeft(d: Decoder)
    ensures Unescape(d, "") == ""
  {
  }

  lemma {:induction false} NoSemicolonNoEnd(s: string, j: nat)
    requires ';' !in s
    ensures Terminator(s, j) == -1
    decreases WINDOW - j
  {
    if j < |s| && j < WINDOW && !Entities.Breaks(s[j]) {
      NoSemicolonNoEnd(s, j + 1);
    }
  }

  lemma PlainDecodes(c: char, rest: string)
    requires c != '&'
    ensures Unescape(Decode, [c] + rest) == [c] + Unescape(Decode, rest)
  {
    hide Decode, Unescape;
    assert ([c] + rest)[1..] == rest;
    UnescapeUnit(Decode, [c] + rest);
  }

  // ----- Numeric references -----

  /** A digit of base ten or sixteen. */
  function DigitOf(d: nat): char
    requires d < 16
  {
    if d < 10 then (48 + d) as char else (87 + d) as char
  }

  function Numeral(n: nat, base: nat): (r: string)
    requires base == 10 || base == 16
    ensures r != "" && forall i :: 0 <= i < |r| ==> '0' <= r[i] <= '9' || 'a' <= r[i] <= 'f'
  {
    if n < base then [DigitOf(n)] else Numeral(n / base, base) + [DigitOf(n % base)]
  }

  lemma {:induction false} NumeralIsShort(n: nat, base: nat, k: nat)
    requires (base == 10 || base == 16) && k >= 1 && n < Power(k)
    ensures |Numeral(n, base)| <= k
    decreases k
  {
    if n >= base {
      assert n / base <= n / 10;
      NumeralIsShort(n / base, base, k - 1);
    }
  }

  function Power(k: nat): nat { if k == 0 then 1 else 10 * Power(k - 1) }

  lemma DigitStep(d: nat, base: nat, rest: string, acc: nat, open: bool)
    requires d < base && (base == 10 || base == 16)
    ensures Digits([DigitOf(d)] + rest, base, acc, open) == Digits(rest, base, acc * base + d, false)
  {
    assert ([DigitOf(d)] + rest)[1..] == rest;
  }

  lemma {:induction false} NumeralReads(n: nat, base: nat, rest: string)
    requires base == 10 || base == 16
    ensures Digits(Numeral(n, base) + rest, base, 0, true) == Digits(rest, base, n, false)
  {
    hide Digits, DigitOf;
    if n < base {
      DigitStep(n, base, rest, 0, true);
    } else {
      var d := [DigitOf(n % base)];
      Assoc(Numeral(n / base, base), d, rest);
      NumeralReads(n / base, base, d + rest);
      DigitStep(n % base, base, rest, n / base, false);
    }
  }

  /** A character's reference by its number, in base ten or sixteen. */
  function ByNumber(c: char, hex: bool): string {
    if hex then "#x" + Numeral(c as int, 16) else "#" + Numeral(c as int, 10)
  }

  lemma NumberDecodes(c: char, hex: bool)
    ensures var body := ByNumber(c, hex); Inner(body) && |body| + 1 < WINDOW && Decode(body) == Some(c)
  {
    hide Digits, Numeral, Named;
    var n, base := c as int, if hex then 16 else 10;
    var num := Numeral(n, base);
    NumeralParses(c, base);
    NumeralHasNoSign(num);
    var body := ByNumber(c, hex);
    if hex {
      assert body[0] == '#' && body[1] == 'x' && body[2..] == num;
    } else {
      assert body[0] == '#' && body[1] == num[0] && body[1..] == num;
    }
  }

  lemma NumeralParses(c: char, base: nat)
    requires base == 10 || base == 16
    ensures var num := Numeral(c as int, base); |num| <= 7 && ParseInt(num, base) == Some(c as int)
  {
    hide Digits, Numeral, Power;
    var n := c as int;
    var num := Numeral(n, base);
    SevenPlaces(c);
    NumeralIsShort(n, base, 7);
    NumeralReads(n, base, "");
    assert num + "" == num;
    NumeralHasNoSign(num);
    NoDigits(n, base);
  }

  lemma SevenPlaces(c: char)
    ensures c as int < Power(7)
  {
    assert c as int < 0x110000 < Power(7);
  }

  /** So Python takes it as a plain number: no sign and no base prefix. */
  lemma NumeralHasNoSign(num: string)
    requires num != "" && forall i :: 0 <= i < |num| ==> '0' <= num[i] <= '9' || 'a' <= num[i] <= 'f'
    ensures num[0] != '-' && num[0] != '+' && num[..Min(2, |num|)] != "0x" && num[..Min(2, |num|)] != "0X"
  {
    if |num| >= 2 {
      assert num[..2][1] == num[1] && "0x"[1] == 'x' && "0X"[1] == 'X';
    }
  }

  lemma NoDigits(n: nat, base: nat)
    ensures Digits("", base, n, false) == Some(n)
  {
  }

  /** A text with every character as a numeric reference. */
  function AllNumeric(t: string, hex: bool): string {
    if t == "" then "" else "&" + ByNumber(t[0], hex) + ";" + AllNumeric(t[1..], hex)
  }

  /** Every text comes back from its numeric references, decimal or hexadecimal. */
  lemma {:induction false} NumericReferencesDecode(t: string, hex: bool)
    ensures Unescape(Decode, AllNumeric(t, hex)) == t
  {
    hide Decode, Numeral, ByNumber, Inner;
    if t != "" {
      NumberDecodes(t[0], hex);
      ReferenceDecodes(ByNumber(t[0], hex), AllNumeric(t[1..], hex));
      NumericReferencesDecode(t[1..], hex);
      assert [t[0]] + t[1..] == t;
    }
  }

  // ----- Named references -----

  /** The references of HTML that the module knows by name, with their code points. */
  const NAMES := [
    ("amp", 38), ("lt", 60), ("gt", 62), ("quot", 34), ("apos", 39), ("nbsp", 160), ("copy", 169), ("reg", 174),
    ("trade", 8482), ("hellip", 8230), ("mdash", 8212), ("ndash", 8211), ("lsquo", 8216), ("rsquo", 8217),
    ("ldquo", 8220), ("rdquo", 8221), ("laquo", 171), ("raquo", 187), ("para", 182), ("sect", 167), ("deg", 176),
    ("plusmn", 177), ("times", 215), ("divide", 247), ("middot", 183), ("bull", 8226)]

  predicate DecodesByName(i: nat)
    requires i < |NAMES|
  {
    Decode(NAMES[i].0).Some? && Decode(NAMES[i].0).value as int == NAMES[i].1
  }

  lemma EarlyNames(i: nat)
    requires i < 7
    ensures DecodesByName(i)
  {
    hide ParseInt, Chr;
    var m := Named();
    match i {
      case 0 => assert "amp" in m; case 1 => assert "lt" in m; case 2 => assert "gt" in m; case 3 => assert "quot" in m;
      case 4 => assert "apos" in m; case 5 => assert "nbsp" in m; case 6 => assert "copy" in m;
    }
  }

  lemma MiddleNames(i: nat)
    requires 7 <= i < 13
    ensures DecodesByName(i)
  {
    hide ParseInt, Chr;
    var m := Named();
    match i {
      case 7 => assert "reg" in m; case 8 => assert "trade" in m; case 9 => assert "hellip" in m;
      case 10 => assert "mdash" in m; case 11 => assert "ndash" in m; case 12 => assert "lsquo" in m;
    }
  }

  lemma LateNames(i: nat)
    requires 13 <= i < 26
    ensures DecodesByName(i)
  {
    hide ParseInt, Chr;
    var m := Named();
    match i {
      case 13 => assert "rsquo" in m; case 14 => assert "ldquo" in m; case 15 => assert "rdquo" in m;
      case 16 => assert "laquo" in m; case 17 => assert "raquo" in m; case 18 => assert "para" in m; case 19 => assert "sect" in m;
      case 20 => assert "deg" in m; case 21 => assert "plusmn" in m; case 22 => assert "times" in m; case 23 => assert "divide" in m;
      case 24 => assert "middot" in m; case 25 => assert "bull" in m;
    }
  }

  /** Each of them decodes to its character. */
  lemma NamedReferencesDecode(i: nat)
    requires i < |NAMES|
    ensures Decode(NAMES[i].0).Some? && Decode(NAMES[i].0).value as int == NAMES[i].1
  {
    if i < 7 {
      EarlyNames(i);
    } else if i < 13 {
      MiddleNames(i);
    } else {
      LateNames(i);
    }
  }

  /** How HTML writes a character of text that would otherwise be markup. */
  function Markup(c: char): Option<string> {
    if c == '&' then Some("amp")
    else if c == '<' then Some("lt")
    else if c == '>' then Some("gt")
    else if c == '\"' then Some("quot")
    else None
  }

  lemma NamedDecodes(c: char)
    requires Markup(c).Some?
    ensures var body := Markup(c).value; Inner(body) && |body| + 1 < WINDOW && Decode(body) == Some(c)
  {
    var m := Named();
    assert "amp" in m && m["amp"] == '&';
    assert "lt" in m && m["lt"] == '<';
    assert "gt" in m && m["gt"] == '>';
    assert "quot" in m && m["quot"] == '\"';
  }

  /** Text written into a page, as `html.escape` does. */
  function Page(t: string): string {
    if t == "" then ""
    else (if Markup(t[0]).Some? then "&" + Markup(t[0]).value + ";" else [t[0]]) + Page(t[1..])
  }

  lemma {:induction false} PageDecodes(t: string)
    ensures Unescape(Decode, Page(t)) == t
  {
    hide Decode, Markup;
    if t != "" {
      PageDecodes(t[1..]);
      assert [t[0]] + t[1..] == t;
      if Markup(t[0]).Some? {
        NamedDecodes(t[0]);
        ReferenceDecodes(Markup(t[0]).value, Page(t[1..]));
      } else {
        PlainIsNoMarkup(t[0]);
        PlainDecodes(t[0], Page(t[1..]));
      }
    }
  }

  lemma PlainIsNoMarkup(c: char)
    requires Markup(c).None?
    ensures c != '&' && c != '<'
  {
  }

  lemma NamesHaveNoLt(c: char)
    requires Markup(c).Some?
    ensures var s := "&" + Markup(c).value + ";"; forall i :: 0 <= i < |s| ==> s[i] != '<'
  {
  }

  lemma {:induction false} PageHasNoLt(t: string)
    ensures forall i :: 0 <= i < |Page(t)| ==> Page(t)[i] != '<'
    ensures t != "" ==> Page(t) != ""
  {
    hide Markup;
    if t != "" {
      PageHasNoLt(t[1..]);
      if Markup(t[0]).Some? {
        NamesHaveNoLt(t[0]);
      } else {
        PlainIsNoMarkup(t[0]);
      }
    }
  }

  // ----- Escaped text through the tokenizer -----

  lemma {:induction false} NoLtNoStop(s: string, j: nat)
    requires j <= |s| && forall i :: 0 <= i < |s| ==> s[i] != '<'
    ensures SkipWhile(s, j, Not('<')) == |s|
    decreases |s| - j
  {
    if j < |s| {
      NoLtNoStop(s, j + 1);
    }
  }

  /** Text without `<` is one text token. */
  lemma TextIsOneToken(s: string)
    requires s != "" && forall i :: 0 <= i < |s| ==> s[i] != '<'
    ensures Tokens(Decode, s, "", true) == [Token.Text(Unescape(Decode, s))]
  {
    hide Decode, Unescape, SkipWhile, Tokens, Steady;
    NoLtNoStop(s, 0);
    assert s[..|s|] == s && s[|s|..] == "";
    TextRun(Decode, s, 0);
    NothingTokens();
  }

  /** Nothing in it can make the input untidy. */
  lemma TextIsTidy(s: string)
    requires s != "" && forall i :: 0 <= i < |s| ==> s[i] != '<'
    ensures Tidy(Decode, s, "")
  {
    hide Decode, Unescape, SkipWhile, SafeSplit, MarkupStep, Consume, TagClose, TidyFrom;
    NoLtNoStop(s, 0);
    assert s[|s|..] == "";
    assert Tidy(Decode, "", "");
  }

  lemma NothingTokens()
    ensures Tokens(Decode, "", "", true) == []
  {
    hide Decode;
  }

  /** Any text, escaped and fed in any chunks, arrives as one text token holding exactly that text. */
  lemma EscapedTextArrives(t: string, chunks: seq<string>)
    requires t != "" && Concat(chunks) == Page(t)
    ensures Merged(Run(Decode, chunks, State("", ""))) == [Token.Text(t)]
  {
    hide Decode, Tokens, Page, Unescape, Tidy, Run, Merged;
    PageHasNoLt(t);
    PageDecodes(t);
    TextIsOneToken(Page(t));
    TextIsTidy(Page(t));
    TidyInputsAreChunkInvariant(Decode, Page(t));
    OneChunk(Decode, Page(t), State("", ""));
    assert "" + Page(t) == Page(t);
    OneText(t);
  }

  lemma OneText(t: string)
    requires t != ""
    ensures Merged([Token.Text(t)]) == [Token.Text(t)]
  {
    assert [Token.Text(t)][1..] == [];
    assert Merged([]) == [];
  }
}
