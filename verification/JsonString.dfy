/** JSON strings: the standard library's escapes, read back by section 7 of RFC 8259. */
module JsonString {
  import opened Basics

  // ----- Writing -----

  function HexDigit(n: nat): char
    requires n < 16
  {
    if n < 10 then (48 + n) as char else (87 + n) as char
  }

  /** Four lower-case hexadecimal digits. */
  function Hex4(n: nat): (r: string)
    requires n < 0x10000
    ensures |r| == 4
  {
    [HexDigit(n / 16 / 16 / 16), HexDigit(n / 16 / 16 % 16), HexDigit(n / 16 % 16), HexDigit(n % 16)]
  }

  function Code(c: char): nat { c as int }

  function UnicodeEscape(n: nat): string
    requires n < 0x110000
  {
    if n < 0x10000 then "\\u" + Hex4(n)
    else "\\u" + Hex4(0xD800 + (n - 0x10000) / 0x400) + "\\u" + Hex4(0xDC00 + (n - 0x10000) % 0x400)
  }

  function ShortEscape(c: char): Option<char> {
    if c == '\"' || c == '\\' then Some(c)
    else if c == '\n' then Some('n')
    else if c == '\r' then Some('r')
    else if c == '\t' then Some('t')
    else if Code(c) == 12 then Some('f')
    else if Code(c) == 8 then Some('b')
    else None
  }

  /** Characters written as a numeric escape: control characters, and with `ascii` everything outside it. */
  predicate Numeric(c: char, ascii: bool) {
    Code(c) < 32 || (ascii && Code(c) > 126)
  }

  function EscapeChar(c: char, ascii: bool): (r: string)
    ensures r != ""
  {
    if ShortEscape(c).Some? then ['\\', ShortEscape(c).value]
    else if Numeric(c, ascii) then UnicodeEscape(Code(c))
    else [c]
  }

  /** `json.dumps(t)[1:-1]`, with `ensure_ascii` as given. */
  function Escape(t: string, ascii: bool): string {
    if t == "" then "" else EscapeChar(t[0], ascii) + Escape(t[1..], ascii)
  }

  /** The two-character escapes of Python's `json`. */
  lemma ShortEscapes(ascii: bool)
    ensures EscapeChar('\"', ascii) == "\\\"" && EscapeChar('\\', ascii) == "\\\\"
    ensures EscapeChar('\n', ascii) == "\\n" && EscapeChar('\r', ascii) == "\\r" && EscapeChar('\t', ascii) == "\\t"
    ensures EscapeChar(12 as char, ascii) == "\\f" && EscapeChar(8 as char, ascii) == "\\b"
  {
  }

  /** Escaping goes character by character, so it does not see where a text is cut. */
  lemma {:induction false} EscapeJoins(a: string, b: string, ascii: bool)
    ensures Escape(a + b, ascii) == Escape(a, ascii) + Escape(b, ascii)
  {
    hide EscapeChar;
    if a == "" {
      assert a + b == b;
    } else {
      assert (a + b)[1..] == a[1..] + b;
      EscapeJoins(a[1..], b, ascii);
      Assoc(EscapeChar(a[0], ascii), Escape(a[1..], ascii), Escape(b, ascii));
    }
  }

  lemma {:induction false} PlainText(t: string, ascii: bool)
    requires forall i :: 0 <= i < |t| ==> ShortEscape(t[i]).None? && !Numeric(t[i], ascii)
    ensures Escape(t, ascii) == t
  {
    if t != "" {
      PlainText(t[1..], ascii);
    }
  }

  predicate Printable(s: string) {
    forall i :: 0 <= i < |s| ==> 32 <= Code(s[i]) <= 126
  }

  lemma HexIsPrintable(n: nat)
    requires n < 0x10000
    ensures Printable(Hex4(n))
  {
  }

  lemma EscapedCharIsPrintable(c: char)
    ensures Printable(EscapeChar(c, true))
  {
    hide Hex4;
    if ShortEscape(c).None? && Numeric(c, true) {
      var n := Code(c);
      if n < 0x10000 {
        HexIsPrintable(n);
      } else {
        HexIsPrintable(0xD800 + (n - 0x10000) / 0x400);
        HexIsPrintable(0xDC00 + (n - 0x10000) % 0x400);
      }
    }
  }

  /** The ASCII form is printable ASCII, so encoding it is the identity. */
  lemma {:induction false} EscapedIsPrintable(t: string)
    ensures Printable(Escape(t, true))
  {
    hide EscapeChar, Code;
    if t != "" {
      EscapedCharIsPrintable(t[0]);
      EscapedIsPrintable(t[1..]);
    }
  }

  // ----- Reading -----

  function HexValue(c: char): Option<nat> {
    if '0' <= c <= '9' then Some(Code(c) - 48)
    else if 'a' <= c <= 'f' then Some(Code(c) - 87)
    else if 'A' <= c <= 'F' then Some(Code(c) - 55)
    else None
  }

  /** The 16-bit unit of a `\uXXXX` escape at the start of `s`. */
  function ReadUnit(s: string): (r: Option<nat>)
    ensures r.Some? ==> |s| >= 6 && r.value < 0x10000
  {
    if |s| < 6 || s[0] != '\\' || s[1] != 'u' then None
    else
      var a, b, c, d := HexValue(s[2]), HexValue(s[3]), HexValue(s[4]), HexValue(s[5]);
      if a.None? || b.None? || c.None? || d.None? then None
      else Some(a.value * 4096 + b.value * 256 + c.value * 16 + d.value)
  }

  /** One escaped code point: a unit outside the surrogate range, or a high and a low surrogate. */
  function ReadUnicode(s: string): (r: Option<(char, string)>)
    ensures r.Some? ==> |r.value.1| < |s|
  {
    var u := ReadUnit(s);
    if u.None? then None
    else if u.value < 0xD800 || u.value >= 0xE000 then Some((u.value as char, s[6..]))
    else if u.value >= 0xDC00 then None
    else
      var low := ReadUnit(s[6..]);
      if low.None? || low.value < 0xDC00 || low.value >= 0xE000 then None
      else Some(((0x10000 + (u.value - 0xD800) * 0x400 + (low.value - 0xDC00)) as char, s[12..]))
  }

  function ShortMeaning(c: char): Option<char> {
    if c == '\"' || c == '\\' || c == '/' then Some(c)
    else if c == 'n' then Some('\n')
    else if c == 'r' then Some('\r')
    else if c == 't' then Some('\t')
    else if c == 'f' then Some(12 as char)
    else if c == 'b' then Some(8 as char)
    else None
  }

  /** One character of a string, which is not at its closing quote. */
  function ReadChar(s: string): (r: Option<(char, string)>)
    ensures r.Some? ==> |r.value.1| < |s|
  {
    if s == "" then None
    else if s[0] == '\\' then
      if |s| >= 2 && ShortMeaning(s[1]).Some? then Some((ShortMeaning(s[1]).value, s[2..])) else ReadUnicode(s)
    else if s[0] == '\"' || Code(s[0]) < 32 then None
    else Some((s[0], s[1..]))
  }

  /** The characters up to the closing quote, and what follows it. */
  function ReadString(s: string): (r: Option<(string, string)>)
    ensures r.Some? ==> |r.value.1| < |s|
    decreases |s|
  {
    if s == "" then None
    else if s[0] == '\"' then Some(("", s[1..]))
    else
      var first := ReadChar(s);
      if first.None? then None
      else
        var rest := ReadString(first.value.1);
        if rest.None? then None else Some(([first.value.0] + rest.value.0, rest.value.1))
  }

  // ----- Reading back what was written -----

  lemma HexBack(n: nat)
    requires n < 16
    ensures HexValue(HexDigit(n)) == Some(n)
  {
  }

  lemma UnitBack(n: nat, rest: string)
    requires n < 0x10000
    ensures ReadUnit("\\u" + Hex4(n) + rest) == Some(n)
    ensures ("\\u" + Hex4(n) + rest)[6..] == rest
  {
    hide HexDigit, HexValue;
    HexBack(n / 16 / 16 / 16);
    HexBack(n / 16 / 16 % 16);
    HexBack(n / 16 % 16);
    HexBack(n % 16);
    var s := "\\u" + Hex4(n) + rest;
    assert s[2] == Hex4(n)[0] && s[3] == Hex4(n)[1] && s[4] == Hex4(n)[2] && s[5] == Hex4(n)[3];
    Positional(n);
  }

  lemma Positional(n: nat)
    requires n < 0x10000
    ensures n / 16 / 16 / 16 * 4096 + n / 16 / 16 % 16 * 256 + n / 16 % 16 * 16 + n % 16 == n
  {
  }

  lemma UnicodeBack(c: char, rest: string)
    ensures ReadUnicode(UnicodeEscape(Code(c)) + rest) == Some((c, rest))
  {
    hide Hex4, ReadUnit;
    var n := Code(c);
    if n < 0x10000 {
      UnitBack(n, rest);
    } else {
      var high, low := 0xD800 + (n - 0x10000) / 0x400, 0xDC00 + (n - 0x10000) % 0x400;
      var tail := "\\u" + Hex4(low) + rest;
      UnitBack(high, tail);
      UnitBack(low, rest);
      var s := UnicodeEscape(n) + rest;
      assert s == "\\u" + Hex4(high) + tail;
      assert s[12..] == tail[6..];
    }
  }

  lemma UnicodeStarts(n: nat, rest: string)
    requires n < 0x110000
    ensures var s := UnicodeEscape(n) + rest; |s| >= 2 && s[0] == '\\' && s[1] == 'u'
  {
  }

  lemma CharBack(c: char, ascii: bool, rest: string)
    ensures var s := EscapeChar(c, ascii) + rest; s[0] != '\"' && ReadChar(s) == Some((c, rest))
  {
    hide UnicodeEscape, ReadUnicode;
    var s := EscapeChar(c, ascii) + rest;
    if ShortEscape(c).Some? {
      assert s[0] == '\\' && s[1] == ShortEscape(c).value && s[2..] == rest;
    } else if Numeric(c, ascii) {
      UnicodeStarts(Code(c), rest);
      UnicodeBack(c, rest);
    } else {
      assert s[0] == c && s[1..] == rest;
    }
  }

  /** Every text comes back from its escaped form, in both modes. */
  lemma {:induction false} StringBack(t: string, ascii: bool, rest: string)
    ensures ReadString(Escape(t, ascii) + "\"" + rest) == Some((t, rest))
  {
    hide EscapeChar, ReadChar;
    var s := Escape(t, ascii) + "\"" + rest;
    if t == "" {
      assert s[1..] == rest;
    } else {
      var tail := Escape(t[1..], ascii) + "\"" + rest;
      assert s == EscapeChar(t[0], ascii) + tail;
      CharBack(t[0], ascii, tail);
      StringBack(t[1..], ascii, rest);
      assert [t[0]] + t[1..] == t;
    }
  }
}
