/** A page comes back as the pieces it was written from, in any letter case and any chunks (html_to_markdown.py). */
module WrittenPage {
  import opened Basics
  import opened Text
  import opened Entities
  import opened Tokenizer
  import opened TokenizerAgreement
  import opened ChunkInvariance
  import opened ChunkProof
  import opened ChunkTheorem
  import opened ChunkExamples
  import opened References

  // ----- Names in either case -----

  function Small(): (r: string) ensures |r| == 26 { "abcdefghijklmnopqrstuvwxyz" }
  function Capital(): (r: string) ensures |r| == 26 { "ABCDEFGHIJKLMNOPQRSTUVWXYZ" }

  /** `w` writes `c`: as itself, or as the capital of a small letter. */
  predicate SameLetter(w: char, c: char) {
    w == c || exists k :: 0 <= k < 26 && Small()[k] == c && Capital()[k] == w
  }

  predicate Writes(w: string, name: string) {
    |w| == |name| && forall i :: 0 <= i < |w| ==> SameLetter(w[i], name[i])
  }

  predicate TagName(name: string) {
    name != "" && name[0] in Small() && forall i :: 0 <= i < |name| ==> name[i] in Small() || name[i] in "0123456789-_:"
  }

  predicate AttrName(name: string) {
    name != "" && forall i :: 0 <= i < |name| ==> name[i] !in Capital() && name[i] !in "=>/\"' \t\r\n"
  }

  lemma CapitalAt(k: nat)
    requires k < 26
    ensures Capital()[k] == (65 + k) as char && Small()[k] == (97 + k) as char
  {
    match k {
      case 0 => case 1 => case 2 => case 3 => case 4 => case 5 => case 6 => case 7 => case 8 => case 9 => case 10 =>
      case 11 => case 12 => case 13 => case 14 => case 15 => case 16 => case 17 => case 18 => case 19 => case 20 =>
      case 21 => case 22 => case 23 => case 24 => case 25 =>
    }
  }

  lemma CapitalsAre(c: char)
    ensures c in Capital() <==> 'A' <= c <= 'Z'
  {
    hide Capital, Small;
    if 'A' <= c <= 'Z' {
      CapitalAt(c as int - 65);
    }
    if c in Capital() {
      var k :| 0 <= k < 26 && Capital()[k] == c;
      CapitalAt(k);
    }
  }

  lemma SmallsAre(c: char)
    ensures c in Small() <==> 'a' <= c <= 'z'
  {
    hide Capital, Small;
    if 'a' <= c <= 'z' {
      CapitalAt(c as int - 97);
    }
    if c in Small() {
      var k :| 0 <= k < 26 && Small()[k] == c;
      CapitalAt(k);
    }
  }

  lemma LettersAre(c: char)
    ensures c in Capital() <==> 'A' <= c <= 'Z'
    ensures c in Small() <==> 'a' <= c <= 'z'
  {
    CapitalsAre(c);
    SmallsAre(c);
  }

  /** Lower-casing undoes the choice of case, and nothing else has the same lower case. */
  lemma LowerExactly(w: char, c: char)
    requires c !in Capital()
    ensures LowerChar(w) == c <==> SameLetter(w, c)
  {
    hide Capital, Small;
    LettersAre(c);
    LettersAre(w);
    if 'A' <= w <= 'Z' {
      CapitalAt(w as int - 65);
    }
    if w != c && SameLetter(w, c) {
      var k :| 0 <= k < 26 && Small()[k] == c && Capital()[k] == w;
      CapitalAt(k);
    }
  }

  lemma LowersTo(w: string, name: string)
    requires Writes(w, name) && forall i :: 0 <= i < |name| ==> name[i] !in Capital()
    ensures Lower(w) == name
  {
    forall i | 0 <= i < |w|
      ensures Lower(w)[i] == name[i]
    {
      LowerExactly(w[i], name[i]);
    }
  }

  lemma TagNameCharacters(w: string, name: string)
    requires TagName(name) && Writes(w, name)
    ensures Lower(w) == name && w != "" && IsLetter(w[0])
    ensures forall i :: 0 <= i < |w| ==> IsTagNameChar(w[i])
  {
    forall i | 0 <= i < |w|
      ensures IsTagNameChar(w[i]) && name[i] !in Capital() && (i == 0 ==> IsLetter(w[i]))
    {
      LettersAre(name[i]);
      LettersAre(w[i]);
      if w[i] != name[i] {
        var k :| 0 <= k < 26 && Small()[k] == name[i] && Capital()[k] == w[i];
      }
    }
    LowersTo(w, name);
  }

  lemma AttrNameCharacters(w: string, name: string)
    requires AttrName(name) && Writes(w, name)
    ensures Lower(w) == name && w != ""
    ensures forall i :: 0 <= i < |w| ==> IsAttrNameChar(w[i]) && !IsQuote(w[i])
  {
    forall i | 0 <= i < |w|
      ensures IsAttrNameChar(w[i]) && !IsQuote(w[i])
    {
      LettersAre(w[i]);
      if w[i] == name[i] {
        assert name[i] !in "=>/\"' \t\r\n";
      } else {
        var k :| 0 <= k < 26 && Small()[k] == name[i] && Capital()[k] == w[i];
      }
      PlainCharacter(w[i]);
    }
    LowersTo(w, name);
  }

  lemma PlainCharacter(c: char)
    requires c !in "=>/\"' \t\r\n" || 'A' <= c <= 'Z'
    ensures IsAttrNameChar(c) && !IsQuote(c)
  {
    var s := "=>/\"' \t\r\n";
    assert s[0] == '=' && s[1] == '>' && s[2] == '/' && s[3] == '\"' && s[4] == '\'';
    assert s[5] == ' ' && s[6] == '\t' && s[7] == '\r' && s[8] == '\n';
  }

  // ----- What a page is written from -----

  /** A value in quotes, a value without, or no value at all. */
  datatype Style = Quoted(quote: char) | Bare | Alone

  datatype Attribute = Attribute(name: string, value: string, written: string, style: Style)

  datatype Tag = Tag(name: string, written: string, attributes: seq<Attribute>, slash: bool)

  datatype Piece =
    | Words(t: string)
    | Stray(t: string)                                    // a bare `<` and the text behind it
    | Opening(tag: Tag)
    | Closing(name: string, written: string)
    | Remark(t: string)
    | Declaration(t: string)
    | Instruction(t: string)
    | Element(tag: Tag, body: string, written: string)     // script and style

  function WriteAttribute(a: Attribute): string {
    " " + a.written +
    match a.style
    case Quoted(q) => "=" + [q] + Page(a.value) + [q]
    case Bare => "=" + Page(a.value)
    case Alone => ""
  }

  function WriteAttributes(attributes: seq<Attribute>): string {
    if attributes == [] then "" else WriteAttribute(attributes[0]) + WriteAttributes(attributes[1..])
  }

  function Ending(slash: bool): string { if slash then " />" else ">" }

  function WriteTag(t: Tag): string { "<" + t.written + (WriteAttributes(t.attributes) + Ending(t.slash)) }

  function WritePiece(p: Piece): string {
    match p
    case Words(t) => Page(t)
    case Stray(t) => "<" + Page(t)
    case Opening(tag) => WriteTag(tag)
    case Closing(_, written) => "</" + written + ">"
    case Remark(t) => "<!--" + t + "-->"
    case Declaration(t) => "<!" + t + ">"
    case Instruction(t) => "<?" + t + ">"
    case Element(tag, body, written) => WriteTag(tag) + (body + ("</" + written + ">"))
  }

  function Write(pieces: seq<Piece>): string {
    if pieces == [] then "" else WritePiece(pieces[0]) + Write(pieces[1..])
  }

  /** The quote does not occur in the value; a bare value is one run of characters that are no quotes. */
  predicate ProperAttribute(a: Attribute) {
    && AttrName(a.name) && Writes(a.written, a.name)
    && match a.style
       case Quoted(q) => q == '\"' || (q == '\'' && '\'' !in a.value)
       case Bare => a.value != "" && forall i :: 0 <= i < |a.value| ==> a.value[i] !in "' \t\r\n"
       case Alone => a.value == ""
  }

  predicate ProperTag(t: Tag) {
    TagName(t.name) && Writes(t.written, t.name) && forall i :: 0 <= i < |t.attributes| ==> ProperAttribute(t.attributes[i])
  }

  const RAW := ["script", "style"]

  const VOID := ["area", "base", "br", "col", "command", "embed", "hr", "img", "input", "keygen", "link", "meta",
                 "param", "source", "track", "wbr"]

  /** The close tag of `name`, in any case, does not start in `body`. */
  predicate NoCloseTag(body: string, name: string) {
    forall i {:trigger body[i]} :: 0 <= i && i + 2 + |name| <= |body| ==>
      !(body[i] == '<' && body[i + 1] == '/' && Writes(body[i + 2..i + 2 + |name|], name))
  }

  predicate ProperPiece(p: Piece) {
    match p
    case Words(t) => t != ""
    case Stray(t) => t != "" && !IsLetter(t[0]) && t[0] !in "!?/"
    case Opening(tag) => ProperTag(tag) && (tag.name in RAW ==> tag.slash)
    case Closing(name, written) => TagName(name) && Writes(written, name)
    case Remark(t) => forall i: nat :: i < |t| ==> !OccursAt(t + "-->", "-->", i)
    case Declaration(t) => '>' !in t && !("--" <= t)
    case Instruction(t) => '>' !in t
    case Element(tag, body, written) =>
      ProperTag(tag) && tag.name in RAW && !tag.slash && Writes(written, tag.name) && NoCloseTag(body, tag.name)
  }

  predicate Proper(pieces: seq<Piece>) {
    forall i :: 0 <= i < |pieces| ==> ProperPiece(pieces[i])
  }

  // ----- What it should come back as -----

  function Pairs(attributes: seq<Attribute>): seq<(string, string)> {
    if attributes == [] then [] else [(attributes[0].name, attributes[0].value)] + Pairs(attributes[1..])
  }

  function StartOf(t: Tag): Token { Start(t.name, Pairs(t.attributes), t.slash || t.name in VOID) }

  function TokensOfPiece(p: Piece): seq<Token> {
    match p
    case Words(t) => [Token.Text(t)]
    case Stray(t) => [Token.Text("<" + t)]
    case Opening(tag) => [StartOf(tag)]
    case Closing(name, _) => [End(name)]
    case Remark(t) => [Comment(t)]
    case Declaration(t) => [Doctype(t)]
    case Instruction(t) => [Comment(t)]
    case Element(tag, _, _) => [StartOf(tag), End(tag.name)]
  }

  function TokensOf(pieces: seq<Piece>): seq<Token> {
    if pieces == [] then [] else TokensOfPiece(pieces[0]) + TokensOf(pieces[1..])
  }

  // ----- One turn of the attribute loop, by positions -----

  lemma NameSpan(s: string, j: nat, i: nat, e: nat)
    requires j <= i < e < |s|
    requires forall k :: j <= k < i ==> IsSpace(s[k])
    requires forall k :: i <= k < e ==> IsAttrNameChar(s[k])
    requires !IsAttrNameChar(s[e])
    ensures SkipWhile(s, j, IsSpace) == i && SkipWhile(s, i, IsAttrNameChar) == e && s[i] != '>' && s[i] != '/'
  {
    SkipWhileIs(s, j, IsSpace, i);
    SkipWhileIs(s, i, IsAttrNameChar, e);
  }

  lemma QuotedTurn(d: Decoder, s: string, j: nat, i: nat, e: nat, c: nat)
    requires j <= i < e && e + 2 <= c < |s|
    requires forall k :: j <= k < i ==> IsSpace(s[k])
    requires forall k :: i <= k < e ==> IsAttrNameChar(s[k])
    requires s[e] == '=' && IsQuote(s[e + 1]) && s[c] == s[e + 1]
    requires forall k :: e + 2 <= k < c ==> s[k] != s[e + 1]
    ensures NextTurn(d, s, j) == Take(Lower(s[i..e]), Unescape(d, s[e + 2..c]), c + 1)
  {
    hide Lower, Unescape;
    NameSpan(s, j, i, e);
    SkipWhileIs(s, e, IsSpace, e);
    SkipWhileIs(s, e + 1, IsSpace, e + 1);
    SkipWhileIs(s, e + 2, Not(s[e + 1]), c);
    hide SkipWhile;
  }

  lemma BareTurn(d: Decoder, s: string, j: nat, i: nat, e: nat, c: nat)
    requires j <= i < e && e + 1 < c < |s|
    requires forall k :: j <= k < i ==> IsSpace(s[k])
    requires forall k :: i <= k < e ==> IsAttrNameChar(s[k])
    requires s[e] == '=' && !IsQuote(s[e + 1])
    requires forall k :: e + 1 <= k < c ==> IsBareValueChar(s[k])
    requires !IsBareValueChar(s[c])
    ensures NextTurn(d, s, j) == Take(Lower(s[i..e]), Unescape(d, s[e + 1..c]), c)
  {
    hide Lower, Unescape;
    NameSpan(s, j, i, e);
    SkipWhileIs(s, e, IsSpace, e);
    SkipWhileIs(s, e + 1, IsSpace, e + 1);
    SkipWhileIs(s, e + 1, IsBareValueChar, c);
    hide SkipWhile;
  }

  lemma AloneTurn(d: Decoder, s: string, j: nat, i: nat, e: nat, f: nat)
    requires j <= i < e <= f < |s|
    requires forall k :: j <= k < i ==> IsSpace(s[k])
    requires forall k :: i <= k < e ==> IsAttrNameChar(s[k])
    requires !IsAttrNameChar(s[e])
    requires forall k :: e <= k < f ==> IsSpace(s[k])
    requires !IsSpace(s[f]) && s[f] != '='
    ensures NextTurn(d, s, j) == Take(Lower(s[i..e]), "", f)
  {
    hide Lower;
    NameSpan(s, j, i, e);
    SkipWhileIs(s, e, IsSpace, f);
    assert Unescape(d, "") == "";
    hide SkipWhile, Unescape;
  }

  lemma EndTurn(d: Decoder, s: string, j: nat, i: nat)
    requires j <= i < |s| && (s[i] == '>' || s[i] == '/')
    requires forall k :: j <= k < i ==> IsSpace(s[k])
    ensures NextTurn(d, s, j) == if s[i] == '>' then Stop(i) else Over(true, i + 1)
  {
    SkipWhileIs(s, j, IsSpace, i);
    hide SkipWhile;
  }

  // ----- Escaped values -----

  predicate Foreign(c: char) { c !in "&;ampltgquo" }

  lemma MarkupCharacters(c: char, x: char)
    requires Markup(c).Some? && x in "&" + Markup(c).value + ";"
    ensures !Foreign(x) && x != '\"' && x != '>' && x != '<'
  {
    var s := "&;ampltgquo";
    assert s[0] == '&' && s[1] == ';' && s[2] == 'a' && s[3] == 'm' && s[4] == 'p' && s[5] == 'l';
    assert s[6] == 't' && s[7] == 'g' && s[8] == 'q' && s[9] == 'u' && s[10] == 'o';
  }

  /** Escaping writes no quote and no angle bracket, and nothing foreign that was not there. */
  lemma {:induction false} PageCharacters(t: string, x: char)
    requires x in Page(t)
    ensures x != '\"' && x != '>' && x != '<' && (Foreign(x) ==> x in t)
  {
    hide Markup, Foreign;
    if x in Page(t[1..]) {
      PageCharacters(t[1..], x);
    } else if Markup(t[0]).Some? {
      MarkupCharacters(t[0], x);
    } else {
      NoMarkup(t[0]);
    }
  }

  lemma NoMarkup(c: char)
    requires Markup(c).None?
    ensures c != '\"' && c != '>' && c != '<' && c != '&'
  {
  }

  lemma QuoteIsForeign(c: char)
    requires c == '\'' || c == ' ' || c == '\t' || c == '\r' || c == '\n'
    ensures Foreign(c)
  {
  }

  // ----- One attribute -----

  /** What follows an attribute: the end of the tag, or one blank and then no blank. */
  predicate Follows(r: string) {
    r != "" && (r[0] == '>' || (r[0] == ' ' && |r| >= 2 && !IsSpace(r[1]) && r[1] != '='))
  }

  /** The turn takes the attribute and stands behind it, or behind the blank that follows. */
  ghost predicate Takes(s: string, j: nat, a: Attribute, n: nat)
    requires j <= n <= |s|
  {
    && NextTurn(Decode, s, j) == Take(a.name, a.value, n)
    && (Quoteless(s, j, n) || QuotedLast(s, j, n))
  }

  lemma WrittenAt(s: string, p: string, w: string, r: string)
    requires s == p + ((" " + w) + r)
    ensures |s| == |p| + 1 + |w| + |r| && s[|p|] == ' ' && s[|p| + 1..|p| + 1 + |w|] == w && s[|p| + 1 + |w|..] == r
    ensures forall k :: 0 <= k < |w| ==> s[|p| + 1 + k] == w[k]
    ensures forall k :: 0 <= k < |r| ==> s[|p| + 1 + |w| + k] == r[k]
  {
  }

  lemma NameInPlace(s: string, p: string, a: Attribute, r: string)
    requires s == p + ((" " + a.written) + r) && ProperAttribute(a)
    ensures var i := |p| + 1; var e := i + |a.written|;
      && i < e <= |s| && s[|p|] == ' ' && Lower(s[i..e]) == a.name
      && (forall k :: i <= k < e ==> IsAttrNameChar(s[k]) && !IsQuote(s[k]) && s[k] != '>')
      && (forall k :: 0 <= k < |r| ==> s[e + k] == r[k]) && |s| == e + |r|
  {
    hide Lower, IsAttrNameChar, IsQuote;
    AttrNameCharacters(a.written, a.name);
    WrittenAt(s, p, a.written, r);
    var i := |p| + 1;
    forall k | i <= k < i + |a.written|
      ensures IsAttrNameChar(s[k]) && !IsQuote(s[k]) && s[k] != '>'
    {
      assert s[k] == a.written[k - i];
      assert s[k] != '>' by {
        NameIsNoEnd(s[k]);
      }
    }
  }

  lemma NameIsNoEnd(c: char)
    requires IsAttrNameChar(c)
    ensures c != '>'
  {
  }

  lemma QuotedParts(s: string, e: nat, q: char, v: string, r: string)
    requires var tail := "=" + [q] + v + [q] + r; |s| == e + |tail| && forall k :: 0 <= k < |tail| ==> s[e + k] == tail[k]
    ensures var c := e + 2 + |v|;
      && c < |s| && s[e] == '=' && s[e + 1] == q && s[c] == q && s[e + 2..c] == v
      && forall k :: e + 2 <= k < c ==> s[k] in v
  {
    var tail := "=" + [q] + v + [q] + r;
    assert s[e + 0] == tail[0] && s[e + 1] == tail[1] && s[e + (2 + |v|)] == tail[2 + |v|];
    forall k | 0 <= k < |v|
      ensures s[e + 2 + k] == v[k]
    {
      assert s[e + (2 + k)] == tail[2 + k];
    }
  }

  lemma QuoteNotInside(a: Attribute, x: char)
    requires a.style.Quoted? && ProperAttribute(a) && x in Page(a.value)
    ensures x != a.style.quote
  {
    hide Page;
    PageCharacters(a.value, x);
    QuoteIsForeign('\'');
  }

  lemma TakesQuoted(s: string, p: string, a: Attribute, r: string, j: nat)
    requires a.style.Quoted? && ProperAttribute(a)
    requires s == p + ((" " + a.written) + ("=" + [a.style.quote] + Page(a.value) + [a.style.quote] + r))
    requires j == |p| || j == |p| + 1
    ensures var n := |p| + |a.written| + |Page(a.value)| + 4; n <= |s| && Takes(s, j, a, n)
  {
    hide Page, Unescape, Lower, IsAttrNameChar, NextTurn, AttrName, Writes, IsQuote, IsSpace, Takes;
    var q, v := a.style.quote, Page(a.value);
    NameInPlace(s, p, a, "=" + [q] + v + [q] + r);
    var i := |p| + 1;
    var e := i + |a.written|;
    var c := e + 2 + |v|;
    QuotedParts(s, e, q, v, r);
    forall k | e + 2 <= k < c
      ensures s[k] != q
    {
      QuoteNotInside(a, s[k]);
    }
    IsOneOfTwo(q);
    PageDecodes(a.value);
    QuotedTurn(Decode, s, j, i, e, c);
    TookQuoted(s, j, a, e, c);
  }

  lemma IsOneOfTwo(q: char)
    ensures (q == '\"' || q == '\'' ==> IsQuote(q) && q != '>') && IsSpace(' ') && !IsQuote(' ')
  {
  }

  lemma TookQuoted(s: string, j: nat, a: Attribute, e: nat, c: nat)
    requires j <= e < c - 1 < c < |s| && NextTurn(Decode, s, j) == Take(a.name, a.value, c + 1)
    requires s[e] == '=' && IsQuote(s[e + 1]) && s[c] == s[e + 1]
    requires forall k :: j <= k < e ==> !IsQuote(s[k]) && s[k] != '>'
    requires forall k :: e + 2 <= k < c ==> s[k] != s[e + 1]
    ensures Takes(s, j, a, c + 1)
  {
    hide NextTurn;
    assert QuotedAt(s, j, e + 1, c + 1);
    assert QuotedLast(s, j, c + 1);
  }

  lemma BareParts(s: string, e: nat, v: string, r: string)
    requires r != ""
    requires var tail := "=" + v + r; |s| == e + |tail| && forall k :: 0 <= k < |tail| ==> s[e + k] == tail[k]
    ensures var c := e + 1 + |v|;
      && c < |s| && s[e] == '=' && s[c] == r[0] && s[e + 1..c] == v
      && forall k :: e + 1 <= k < c ==> s[k] in v
  {
    var tail := "=" + v + r;
    assert s[e + 0] == tail[0] && s[e + (1 + |v|)] == tail[1 + |v|];
    forall k | 0 <= k < |v|
      ensures s[e + 1 + k] == v[k]
    {
      assert s[e + (1 + k)] == tail[1 + k];
    }
  }

  lemma BareInPlace(s: string, p: string, a: Attribute, r: string)
    requires a.style.Bare? && ProperAttribute(a) && Follows(r)
    requires s == p + ((" " + a.written) + ("=" + Page(a.value) + r))
    ensures var i := |p| + 1; var e := i + |a.written|; var c := e + 1 + |Page(a.value)|;
      && i < e && e + 1 < c < |s| && s[i - 1] == ' ' && Lower(s[i..e]) == a.name
      && (forall k :: i <= k < e ==> IsAttrNameChar(s[k]) && !IsQuote(s[k]))
      && s[e] == '=' && s[e + 1..c] == Page(a.value) && s[c] == r[0]
      && forall k :: e + 1 <= k < c ==> s[k] in Page(a.value)
  {
    hide Page, Lower, IsAttrNameChar, AttrName, Writes, IsQuote, Follows;
    var v := Page(a.value);
    NameInPlace(s, p, a, "=" + v + r);
    PageHasNoLt(a.value);
    FollowersEnd(r);
    BareParts(s, |p| + 1 + |a.written|, v, r);
  }

  lemma TakesBare(s: string, p: string, a: Attribute, r: string, j: nat)
    requires a.style.Bare? && ProperAttribute(a) && Follows(r)
    requires s == p + ((" " + a.written) + ("=" + Page(a.value) + r))
    requires j == |p| || j == |p| + 1
    ensures var n := |p| + |a.written| + |Page(a.value)| + 2; n <= |s| && Takes(s, j, a, n)
  {
    hide Page, Lower, IsAttrNameChar, NextTurn, ProperAttribute, IsQuote, IsBareValueChar, Takes, Follows;
    BareInPlace(s, p, a, r);
    FollowersEnd(r);
    var i := |p| + 1;
    var e := i + |a.written|;
    var c := e + 1 + |Page(a.value)|;
    forall k | e + 1 <= k < c
      ensures IsBareValueChar(s[k]) && !IsQuote(s[k])
    {
      BareCharacter(a, s[k]);
    }
    TakesBareAt(s, j, i, e, c, a);
  }

  lemma TakesBareAt(s: string, j: nat, i: nat, e: nat, c: nat, a: Attribute)
    requires 1 <= i && i - 1 <= j <= i < e && e + 1 < c < |s| && s[i - 1] == ' ' && Lower(s[i..e]) == a.name
    requires forall k :: i <= k < e ==> IsAttrNameChar(s[k]) && !IsQuote(s[k])
    requires s[e] == '=' && s[e + 1..c] == Page(a.value) && !IsBareValueChar(s[c])
    requires forall k :: e + 1 <= k < c ==> IsBareValueChar(s[k]) && !IsQuote(s[k])
    ensures Takes(s, j, a, c)
  {
    hide Page, Unescape, Lower, IsAttrNameChar, NextTurn, IsQuote, IsSpace, IsBareValueChar, Takes;
    IsOneOfTwo(' ');
    EqualsIsNoQuote();
    PageDecodes(a.value);
    BareTurn(Decode, s, j, i, e, c);
    TookPlain(s, j, a, c);
  }

  lemma EqualsIsNoQuote()
    ensures !IsQuote('=')
  {
  }

  lemma TookPlain(s: string, j: nat, a: Attribute, n: nat)
    requires j <= n <= |s| && NextTurn(Decode, s, j) == Take(a.name, a.value, n)
    requires forall k :: j <= k < n ==> !IsQuote(s[k])
    ensures Takes(s, j, a, n)
  {
    hide NextTurn, IsQuote;
    assert Quoteless(s, j, n);
  }

  lemma FollowersEnd(r: string)
    requires Follows(r)
    ensures r != "" && !IsBareValueChar(r[0]) && !IsAttrNameChar(r[0]) && !IsQuote('=')
  {
  }

  lemma BareCharacter(a: Attribute, x: char)
    requires a.style.Bare? && ProperAttribute(a) && x in Page(a.value)
    ensures IsBareValueChar(x) && !IsQuote(x)
  {
    hide Page;
    PageCharacters(a.value, x);
    if x == '\'' || x == ' ' || x == '\t' || x == '\r' || x == '\n' {
      QuoteIsForeign(x);
    }
  }

  lemma TakesAlone(s: string, p: string, a: Attribute, r: string, j: nat)
    requires a.style.Alone? && ProperAttribute(a) && Follows(r)
    requires s == p + ((" " + a.written) + r)
    requires j == |p| || j == |p| + 1
    ensures var n := |p| + |a.written| + (if r[0] == ' ' then 2 else 1); n <= |s| && Takes(s, j, a, n)
  {
    hide Lower, NextTurn, AttrName, Writes, IsAttrNameChar, Takes;
    NameInPlace(s, p, a, r);
    FollowersEnd(r);
    var i := |p| + 1;
    var e := i + |a.written|;
    var f := if r[0] == ' ' then e + 1 else e;
    assert s[e + 0] == r[0] && (r[0] == ' ' ==> s[e + 1] == r[1]);
    AloneTurn(Decode, s, j, i, e, f);
    TookPlain(s, j, a, f);
  }

  // ----- All attributes -----

  lemma EndingFollows(attributes: seq<Attribute>, slash: bool, rest: string)
    requires forall i :: 0 <= i < |attributes| ==> ProperAttribute(attributes[i])
    ensures Follows(WriteAttributes(attributes) + (Ending(slash) + rest))
  {
    hide ProperAttribute, WriteAttribute;
    if attributes == [] {
      assert "" + (Ending(slash) + rest) == Ending(slash) + rest;
    } else {
      AttributeStarts(attributes[0]);
    }
  }

  lemma AttributeStarts(a: Attribute)
    requires ProperAttribute(a)
    ensures var s := WriteAttribute(a); |s| >= 2 && s[0] == ' ' && !IsSpace(s[1]) && s[1] != '='
  {
    hide SameLetter, Page;
    AttrNameCharacters(a.written, a.name);
    assert WriteAttribute(a)[1] == a.written[0];
  }

  /** Where the attribute loop may stand when the next attribute is written at `k`: there or behind its blank. */
  predicate StandsAt(s: string, k: nat, j: nat) {
    k < |s| && (j == k || (j == k + 1 && s[k] == ' '))
  }

  lemma OneAttribute(s: string, p: string, a: Attribute, r: string, j: nat) returns (n: nat)
    requires ProperAttribute(a) && Follows(r) && s == p + (WriteAttribute(a) + r) && StandsAt(s, |p|, j)
    ensures j < n <= |s| && Takes(s, j, a, n) && StandsAt(s, |p| + |WriteAttribute(a)|, n)
    ensures s == (p + WriteAttribute(a)) + r
  {
    hide Takes, Page, ProperAttribute;
    var at := |p| + |WriteAttribute(a)|;
    AttributeStarts(a);
    assert s == (p + WriteAttribute(a)) + r;
    assert s[at] == r[0];
    match a.style {
      case Quoted(q) =>
        assert WriteAttribute(a) + r == (" " + a.written) + ("=" + [q] + Page(a.value) + [q] + r);
        TakesQuoted(s, p, a, r, j);
        n := at;
      case Bare =>
        assert WriteAttribute(a) + r == (" " + a.written) + ("=" + Page(a.value) + r);
        TakesBare(s, p, a, r, j);
        n := at;
      case Alone =>
        assert WriteAttribute(a) + r == (" " + a.written) + r;
        TakesAlone(s, p, a, r, j);
        n := if r[0] == ' ' then at + 1 else at;
    }
  }

  lemma AttrsTurn(d: Decoder, s: string, j: nat, got: seq<(string, string)>, sc: bool)
    requires j <= |s|
    ensures Attrs(d, s, j, got, sc) ==
      match NextTurn(d, s, j)
      case Stop(end) => Attributes(got, sc, end)
      case Over(slash, next) => Attrs(d, s, next, got, sc || slash)
      case Take(name, value, next) => Attrs(d, s, next, got + [(name, value)], sc)
    ensures TidyFrom(d, s, j) ==
      var t := NextTurn(d, s, j);
      if t.Stop? then Quoteless(s, j, t.end)
      else TidyFrom(d, s, t.next) && (Quoteless(s, j, t.next) || QuotedLast(s, j, t.next))
  {
    hide NextTurn;
  }

  lemma EndingReads(s: string, p: string, slash: bool, rest: string, got: seq<(string, string)>, j: nat)
    requires s == p + (Ending(slash) + rest) && StandsAt(s, |p|, j)
    ensures Attrs(Decode, s, j, got, false) == Attributes(got, slash, |p| + |Ending(slash)| - 1)
    ensures TidyFrom(Decode, s, j)
  {
    hide NextTurn, Attrs, TidyFrom, Decode;
    var end := |p| + |Ending(slash)| - 1;
    assert s[end] == '>';
    AttrsTurn(Decode, s, j, got, false);
    if slash {
      assert s[|p|] == ' ' && s[|p| + 1] == '/';
      EndTurn(Decode, s, j, |p| + 1);
      AttrsTurn(Decode, s, end, got, true);
      EndTurn(Decode, s, end, end);
      assert Quoteless(s, j, end) && Quoteless(s, end, end);
    } else {
      assert s[|p|] == '>';
      EndTurn(Decode, s, j, end);
      assert Quoteless(s, j, end);
    }
  }

  /** The attribute loop reads what was written, and meets quotes around values only. */
  lemma {:induction false} AttributesRead(s: string, p: string, attributes: seq<Attribute>, slash: bool, rest: string,
                                          got: seq<(string, string)>, j: nat)
    requires forall i :: 0 <= i < |attributes| ==> ProperAttribute(attributes[i])
    requires s == p + (WriteAttributes(attributes) + (Ending(slash) + rest)) && StandsAt(s, |p|, j)
    ensures Attrs(Decode, s, j, got, false) ==
      Attributes(got + Pairs(attributes), slash, |p| + |WriteAttributes(attributes)| + |Ending(slash)| - 1)
    ensures TidyFrom(Decode, s, j)
    decreases |attributes|
  {
    hide NextTurn, Attrs, TidyFrom, Decode, WriteAttribute, Ending, ProperAttribute, StandsAt, Quoteless, QuotedLast;
    if attributes == [] {
      assert s == p + (Ending(slash) + rest);
      EndingReads(s, p, slash, rest, got, j);
      assert got + Pairs(attributes) == got;
    } else {
      var a, more := attributes[0], attributes[1..];
      var r := WriteAttributes(more) + (Ending(slash) + rest);
      Assoc(WriteAttribute(a), WriteAttributes(more), Ending(slash) + rest);
      EndingFollows(more, slash, rest);
      var n := OneAttribute(s, p, a, r, j);
      StandsInside(s, |p|, j);
      AttrsTurn(Decode, s, j, got, false);
      AttributesRead(s, p + WriteAttribute(a), more, slash, rest, got + [(a.name, a.value)], n);
      Assoc(got, [(a.name, a.value)], Pairs(more));
    }
  }

  lemma StandsInside(s: string, k: nat, j: nat)
    requires StandsAt(s, k, j)
    ensures j <= |s|
  {
  }

  // ----- Start tags -----

  lemma VoidNames(name: string)
    ensures name in VoidTags() <==> name in VOID
    ensures name in RAWTEXT_TAGS <==> name in RAW
    ensures name in RAW ==> name !in VOID
  {
    var v := VOID;
    assert v[0] == "area" && v[1] == "base" && v[2] == "br" && v[3] == "col" && v[4] == "command" && v[5] == "embed";
    assert v[6] == "hr" && v[7] == "img" && v[8] == "input" && v[9] == "keygen" && v[10] == "link" && v[11] == "meta";
    assert v[12] == "param" && v[13] == "source" && v[14] == "track" && v[15] == "wbr";
    assert RAW[0] == "script" && RAW[1] == "style";
    assert "script"[2] == 'r' && "style"[2] == 'y';
  }

  lemma TagNameSpan(s: string, w: string, name: string, tail: string)
    requires TagName(name) && Writes(w, name) && s == ("<" + w) + tail && tail != "" && (tail[0] == ' ' || tail[0] == '>')
    ensures IsStartTag(s) && SkipWhile(s, 1, IsTagNameChar) == 1 + |w| && Lower(s[1..1 + |w|]) == name
  {
    hide SameLetter, Lower;
    TagNameCharacters(w, name);
    assert s[1..1 + |w|] == w;
    assert forall k :: 1 <= k < 1 + |w| ==> s[k] == w[k - 1];
    assert s[1 + |w|] == tail[0];
    SkipWhileIs(s, 1, IsTagNameChar, 1 + |w|);
  }

  lemma TailStarts(t: Tag, rest: string)
    requires ProperTag(t)
    ensures var tail := WriteAttributes(t.attributes) + (Ending(t.slash) + rest);
      tail != "" && (tail[0] == ' ' || tail[0] == '>')
  {
    EndingFollows(t.attributes, t.slash, rest);
  }

  /** A written start tag, whatever its case, is one start token: its name, its attributes in order, its closing. */
  lemma StartTagReads(t: Tag, rest: string)
    requires ProperTag(t)
    ensures var s := WriteTag(t) + rest;
      && IsStartTag(s) && Consume(Decode, s) == Consumed(StartOf(t), |WriteTag(t)|)
      && TidyFrom(Decode, s, SkipWhile(s, 1, IsTagNameChar)) && s[|WriteTag(t)|..] == rest
  {
    hide Decode, Attrs, TidyFrom, ProperAttribute, TagName, Writes, WriteAttributes, Ending, Lower, SkipWhile;
    var p := "<" + t.written;
    var tail := WriteAttributes(t.attributes) + (Ending(t.slash) + rest);
    var s := WriteTag(t) + rest;
    assert s == p + tail;
    TailStarts(t, rest);
    TagNameSpan(s, t.written, t.name, tail);
    assert s[|p|] == tail[0];
    AttributesRead(s, p, t.attributes, t.slash, rest, [], |p|);
    assert [] + Pairs(t.attributes) == Pairs(t.attributes);
    VoidNames(t.name);
    assert s[|WriteTag(t)| - 1] == '>' by {
      LastOfEnding(t);
    }
  }

  lemma LastOfEnding(t: Tag)
    ensures WriteTag(t)[|WriteTag(t)| - 1] == '>'
  {
    hide WriteAttributes;
    assert Ending(t.slash)[|Ending(t.slash)| - 1] == '>';
  }

  /** One turn of the scan over a written start tag. */
  lemma TagStep(t: Tag, rest: string)
    requires ProperTag(t)
    ensures var s := WriteTag(t) + rest; var raw := if t.name in RAW && !t.slash then t.name else "";
      && Tokens(Decode, s, "", true) == [StartOf(t)] + Tokens(Decode, rest, raw, true)
      && (Tidy(Decode, rest, raw) ==> Tidy(Decode, s, ""))
  {
    hide Decode, Consume, TagClose, TidyFrom, WriteTag, ProperTag, Tokens, Residue, SkipWhile, MarkupStep;
    var s := WriteTag(t) + rest;
    StartTagReads(t, rest);
    VoidNames(t.name);
    TokensEmit(Decode, s, "", true);
  }

  // ----- The other pieces -----

  lemma ClosingStep(name: string, w: string, rest: string)
    requires TagName(name) && Writes(w, name)
    ensures var s := "</" + w + ">" + rest;
      NextStep(Decode, s, "", true) == Emit(End(name), |w| + 3, "") && s[|w| + 3..] == rest && !IsStartTag(s)
  {
    hide SameLetter, Decode, Lower, Unescape, SkipWhile, IsTagNameChar, Find;
    var s := "</" + w + ">" + rest;
    TagNameCharacters(w, name);
    ClosingParts(w, rest);
    assert s[0] == '<' && s[1] == '/' && !IsLetter(s[1]);
  }

  lemma ClosingParts(w: string, rest: string)
    requires forall i :: 0 <= i < |w| ==> IsTagNameChar(w[i])
    ensures var s := "</" + w + ">" + rest;
      && SkipWhile(s, 2, IsTagNameChar) == 2 + |w| && SkipWhile(s, 2, Not('>')) == 2 + |w|
      && s[2..2 + |w|] == w && s[|w| + 3..] == rest && |s| == |w| + 3 + |rest|
  {
    var s := "</" + w + ">" + rest;
    assert s[2 + |w|] == '>' && s[2..2 + |w|] == w;
    assert forall k :: 2 <= k < 2 + |w| ==> s[k] == w[k - 2];
    SkipWhileIs(s, 2, IsTagNameChar, 2 + |w|);
    SkipWhileIs(s, 2, Not('>'), 2 + |w|);
  }

  lemma {:induction false} FoundAt(s: string, pat: string, from: nat, at: nat)
    requires from <= at && OccursAt(s, pat, at) && pat != ""
    requires forall i: nat :: from <= i < at ==> !OccursAt(s, pat, i)
    ensures from <= |s| && Find(s, pat, from) == at
    decreases at - from
  {
    if from < at {
      FoundAt(s, pat, from + 1, at);
    }
  }

  lemma RemarkStep(t: string, rest: string)
    requires ProperPiece(Remark(t))
    ensures var s := "<!--" + t + "-->" + rest;
      NextStep(Decode, s, "", true) == Emit(Comment(t), |t| + 7, "") && s[|t| + 7..] == rest && !IsStartTag(s)
  {
    hide Decode, Unescape, SkipWhile, Find, OccursAt;
    RemarkParts(t, rest);
  }

  lemma RemarkParts(t: string, rest: string)
    requires ProperPiece(Remark(t))
    ensures var s := "<!--" + t + "-->" + rest;
      && |s| == |t| + 7 + |rest| && s[0] == '<' && s[1] == '!' && s[..4] == "<!--" && s[4..4 + |t|] == t
      && Find(s, "-->", 4) == 4 + |t| && s[|t| + 7..] == rest
  {
    hide Find;
    var s := "<!--" + t + "-->" + rest;
    forall i: nat | 4 <= i < 4 + |t|
      ensures !OccursAt(s, "-->", i)
    {
      assert !OccursAt(t + "-->", "-->", i - 4);
      assert s[i..i + 3] == (t + "-->")[i - 4..i - 1];
    }
    assert s[4 + |t|..7 + |t|] == "-->";
    FoundAt(s, "-->", 4, 4 + |t|);
  }

  lemma DeclarationStep(t: string, rest: string, mark: char)
    requires '>' !in t && (mark == '!' || mark == '?') && (mark == '!' ==> !("--" <= t))
    ensures var s := "<" + [mark] + t + ">" + rest;
      && NextStep(Decode, s, "", true) == Emit(if mark == '!' then Doctype(t) else Comment(t), |t| + 3, "")
      && s[|t| + 3..] == rest && !IsStartTag(s)
  {
    hide Decode, Unescape, Find, SkipWhile;
    var s := "<" + [mark] + t + ">" + rest;
    DeclarationParts(t, rest, mark);
    assert s[0] == '<' && s[1] == mark;
    if mark == '!' {
      NoRemark(t, rest);
    }
  }

  lemma NoRemark(t: string, rest: string)
    requires !("--" <= t) && '>' !in t
    ensures var s := "<" + ['!'] + t + ">" + rest; |s| >= 4 ==> s[..4] != "<!--"
  {
    var s := "<" + ['!'] + t + ">" + rest;
    if |s| >= 4 {
      assert "<!--"[2] == '-' && "<!--"[3] == '-' && s[..4][2] == s[2] && s[..4][3] == s[3];
      if |t| >= 2 {
        assert s[2] == t[0] && s[3] == t[1];
        assert t[..2] == [t[0], t[1]];
      }
    }
  }

  lemma DeclarationParts(t: string, rest: string, mark: char)
    requires '>' !in t
    ensures var s := "<" + [mark] + t + ">" + rest;
      && SkipWhile(s, 2, Not('>')) == 2 + |t| && s[2..2 + |t|] == t && s[|t| + 3..] == rest && |s| == |t| + 3 + |rest|
  {
    var s := "<" + [mark] + t + ">" + rest;
    assert s[2 + |t|] == '>' && s[2..2 + |t|] == t;
    assert forall k :: 2 <= k < 2 + |t| ==> s[k] == t[k - 2] && t[k - 2] in t;
    SkipWhileIs(s, 2, Not('>'), 2 + |t|);
  }

  /** A step that neither starts a tag nor depends on what follows. */
  lemma PlainStep(s: string, token: Token, used: nat, rest: string)
    requires s != "" && !IsStartTag(s) && used <= |s| && NextStep(Decode, s, "", true) == Emit(token, used, "")
    requires s[used..] == rest
    ensures Tokens(Decode, s, "", true) == [token] + Tokens(Decode, rest, "", true)
    ensures Tidy(Decode, s, "") == Tidy(Decode, rest, "")
  {
    hide Decode, NextStep, Tokens, Residue, TidyFrom;
    TokensEmit(Decode, s, "", true);
  }

  // ----- Text -----

  /** Every ampersand of escaped text has its semicolon inside the text. */
  lemma {:induction false} PageSettles(t: string, i: nat)
    requires i < |Page(t)| && Page(t)[i] == '&'
    ensures exists j :: i < j < |Page(t)| && Page(t)[j] == ';'
  {
    hide Markup;
    var head := if Markup(t[0]).Some? then "&" + Markup(t[0]).value + ";" else [t[0]];
    var s := Page(t);
    assert s == head + Page(t[1..]);
    if i < |head| {
      if Markup(t[0]).Some? {
        assert s[|head| - 1] == ';' && i != |head| - 1;
      } else {
        PlainIsNoMarkup(t[0]);
      }
    } else {
      PageSettles(t[1..], i - |head|);
      var j :| i - |head| < j < |Page(t[1..])| && Page(t[1..])[j] == ';';
      assert s[|head| + j] == ';';
    }
  }

  lemma PageSeparates(t: string, y: string)
    ensures Separable(Decode, Page(t), y)
  {
    hide Decode, Page, FirstUnit;
    var a := Page(t);
    forall i | 0 <= i < |a|
      ensures SeparableAt(Decode, a, y, i)
    {
      if a[i] == '&' {
        PageSettles(t, i);
        var j :| i < j < |a| && a[j] == ';';
        SettledBy(a, i, j);
      }
      UnitExtends(Decode, a[i..], y);
    }
  }

  lemma WordsRead(t: string, r: string)
    requires t != ""
    ensures Merged(Tokens(Decode, Page(t) + r, "", true)) == Merged([Token.Text(t)] + Tokens(Decode, r, "", true))
    ensures Tidy(Decode, r, "") ==> Tidy(Decode, Page(t) + r, "")
  {
    hide Decode, Page, Unescape, Tokens, Merged, Separable, Steady;
    var a := Page(t);
    var s := a + r;
    PageHasNoLt(t);
    var i := SkipWhile(s, 0, Not('<'));
    assert i >= |a| by {
      assert forall k :: 0 <= k < |a| ==> s[k] == a[k];
    }
    assert s[..|a|] == a && s[|a|..] == r;
    PageSeparates(t, s[|a|..i]);
    TextPeel(Decode, s, |a|, 0);
    PageDecodes(t);
    if Tidy(Decode, r, "") {
      TidyText(s, |a|);
    }
  }

  lemma TidyRun(s: string)
    requires s != "" && s[0] != '<'
    ensures Tidy(Decode, s, "") == Tidy(Decode, s[SkipWhile(s, 0, Not('<'))..], "")
  {
    hide Decode, Unescape, SkipWhile, TidyFrom;
  }

  lemma StrayStarts(t: string)
    requires ProperPiece(Stray(t))
    ensures Page(t) != "" && !IsLetter(Page(t)[0]) && Page(t)[0] !in "!?/"
  {
    hide Page;
    assert "!?/"[0] == '!' && "!?/"[1] == '?' && "!?/"[2] == '/';
    FirstOfPage(t);
  }

  lemma FirstOfPage(t: string)
    requires t != ""
    ensures Page(t) != "" && (Page(t)[0] == t[0] || Page(t)[0] == '&')
  {
    hide Markup;
    if Markup(t[0]).Some? {
      assert Page(t)[0] == '&';
    }
  }

  /** A `<` that opens nothing is text. */
  lemma StrayReads(t: string, r: string)
    requires ProperPiece(Stray(t))
    ensures Merged(Tokens(Decode, "<" + Page(t) + r, "", true)) == Merged([Token.Text("<" + t)] + Tokens(Decode, r, "", true))
    ensures Tidy(Decode, r, "") ==> Tidy(Decode, "<" + Page(t) + r, "")
  {
    hide Decode, Page, Tokens, Merged, Tidy;
    var s := "<" + Page(t) + r;
    var rest := Page(t) + r;
    StrayStarts(t);
    assert s[0] == '<' && s[1] == Page(t)[0] && s[1..] == rest && s[..1] == "<";
    StrayStep(s);
    PlainStep(s, Token.Text("<"), 1, rest);
    WordsRead(t, r);
    MergedAfter([Token.Text("<")], Tokens(Decode, rest, "", true), [Token.Text(t)] + Tokens(Decode, r, "", true));
    MergeTwoTexts("<", t, Tokens(Decode, r, "", true));
  }

  lemma StrayStep(s: string)
    requires |s| >= 2 && s[0] == '<' && !IsLetter(s[1]) && s[1] !in "!?/" && s[..1] == "<"
    ensures NextStep(Decode, s, "", true) == Emit(Token.Text("<"), 1, "") && !IsStartTag(s)
  {
    hide Decode, SkipWhile, Find;
    assert "!?/"[0] == '!' && "!?/"[1] == '?' && "!?/"[2] == '/';
    UnescapeWithoutAmpersand(Decode, "<");
    hide Unescape;
  }

  /** A `<` at the very end is text. */
  lemma LastBracketReads()
    ensures Tokens(Decode, "<", "", true) == [Token.Text("<")]
  {
    hide Decode;
    assert "<"[1..] == "";
  }

  /** A text run is tidy if what follows a part of it is. */
  lemma TidyText(s: string, k: nat)
    requires k <= |s| && s != "" && s[0] != '<' && k <= SkipWhile(s, 0, Not('<')) && Tidy(Decode, s[k..], "")
    ensures Tidy(Decode, s, "")
  {
    hide Decode, Tidy, SkipWhile;
    var i := SkipWhile(s, 0, Not('<'));
    TidyRun(s);
    if k < i {
      RunShift(s, k, Not('<'));
      assert s[k..][i - k..] == s[i..];
      TidyRun(s[k..]);
    }
  }

  // ----- Script and style -----

  /** Where the lower case of a text is a close tag, the text writes one. */
  lemma LowerCloseIsWritten(text: string, name: string, i: nat)
    requires TagName(name) && OccursAt(Lower(text), "</" + name, i)
    ensures text[i] == '<' && text[i + 1] == '/' && Writes(text[i + 2..i + 2 + |name|], name)
  {
    hide SameLetter, Writes, TagName;
    NameIsSmall(name);
    var pat := "</" + name;
    var low := Lower(text)[i..i + |pat|];
    assert low[0] == pat[0] && low[1] == pat[1];
    var w := text[i + 2..i + 2 + |name|];
    forall k | 0 <= k < |name|
      ensures SameLetter(w[k], name[k])
    {
      assert low[2 + k] == pat[2 + k];
      LowerExactly(w[k], name[k]);
    }
    AreWritten(w, name);
  }

  /** A close tag cannot start in the body and reach into the next one: it holds no second `<`. */
  lemma CloseHasOneBracket(text: string, name: string, i: nat, at: nat)
    requires TagName(name) && OccursAt(Lower(text), "</" + name, i) && i < at < |text| && text[at] == '<'
    ensures i + 2 + |name| <= at
  {
    if at < i + 2 + |name| {
      OneBracket(text, name, i, at - i);
    }
  }

  lemma OneBracket(text: string, name: string, i: nat, k: nat)
    requires TagName(name) && OccursAt(Lower(text), "</" + name, i) && 1 <= k < 2 + |name|
    ensures text[i + k] != '<'
  {
    hide TagName;
    NameIsSmall(name);
    var pat := "</" + name;
    assert Lower(text)[i..i + |pat|][k] == pat[k];
  }

  /** No close tag starts in the body even with the close tag behind it. */
  lemma BodyHasNoClose(body: string, w: string, name: string, rest: string, i: nat)
    requires TagName(name) && Writes(w, name) && NoCloseTag(body, name) && i < |body|
    ensures !OccursAt(Lower(body + ("</" + w + ">" + rest)), "</" + name, i)
  {
    hide SameLetter, TagName, OccursAt, Lower, Writes;
    var buf := body + ("</" + w + ">" + rest);
    if OccursAt(Lower(buf), "</" + name, i) {
      CloseHasOneBracket(buf, name, i, |body|);
      LowerCloseIsWritten(buf, name, i);
      SameInBody(body, "</" + w + ">" + rest, i, i + 2 + |name|);
    }
  }

  lemma SameInBody(body: string, rest: string, i: nat, j: nat)
    requires i + 2 <= j <= |body|
    ensures (body + rest)[i] == body[i] && (body + rest)[i + 1] == body[i + 1]
    ensures (body + rest)[i + 2..j] == body[i + 2..j]
  {
  }

  lemma AreWritten(w: string, name: string)
    requires |w| == |name| && forall k :: 0 <= k < |name| ==> SameLetter(w[k], name[k])
    ensures Writes(w, name)
  {
  }

  lemma NameIsSmall(name: string)
    requires TagName(name)
    ensures forall k :: 0 <= k < |name| ==> name[k] !in Capital() && name[k] != '<'
  {
    forall k | 0 <= k < |name|
      ensures name[k] !in Capital() && name[k] != '<'
    {
      LettersAre(name[k]);
    }
  }

  /** In raw text everything up to the close tag goes, whatever the case of the close tag. */
  lemma RawReads(body: string, w: string, name: string, rest: string)
    requires name in RAW && Writes(w, name) && NoCloseTag(body, name)
    ensures var s := body + ("</" + w + ">" + rest);
      && Tokens(Decode, s, name, true) == [End(name)] + Tokens(Decode, rest, "", true)
      && (Tidy(Decode, rest, "") ==> Tidy(Decode, s, name))
  {
    hide Decode, Tokens, Tidy, NoCloseTag, Writes, TagName, RawClose;
    var s := body + ("</" + w + ">" + rest);
    RawNames(name);
    RawCloses(body, w, name, rest);
    SameSize(w, name);
    BehindClose(body, w, rest);
    RawStepReads(s, name, |body| + |w| + 3, rest);
  }

  lemma BehindClose(body: string, w: string, rest: string)
    ensures var s := body + ("</" + w + ">" + rest);
      |s| == |body| + |w| + 3 + |rest| && s[|body| + |w| + 3..] == rest
  {
  }

  lemma RawStepReads(s: string, name: string, used: nat, rest: string)
    requires s != "" && name != "" && RawClose(s, name) == used && used <= |s| && s[used..] == rest
    ensures Tokens(Decode, s, name, true) == [End(name)] + Tokens(Decode, rest, "", true)
    ensures Tidy(Decode, s, name) == Tidy(Decode, rest, "")
  {
    hide Decode, Tokens, Residue, RawClose, TidyFrom;
    TokensEmit(Decode, s, name, true);
  }

  lemma SameSize(w: string, name: string)
    requires Writes(w, name)
    ensures |w| == |name|
  {
  }

  lemma RawNames(name: string)
    requires name in RAW
    ensures TagName(name) && name != ""
  {
    assert RAW[0] == "script" && RAW[1] == "style";
    forall i | 0 <= i < |name|
      ensures name[i] in Small()
    {
      LettersAre(name[i]);
    }
  }

  lemma RawCloses(body: string, w: string, name: string, rest: string)
    requires TagName(name) && Writes(w, name) && NoCloseTag(body, name)
    ensures RawClose(body + ("</" + w + ">" + rest), name) == |body| + |w| + 3
  {
    hide SameLetter, Lower, Find, SkipWhile, NoCloseTag;
    var s := body + ("</" + w + ">" + rest);
    var low := Lower(s);
    var at := |body|;
    forall i: nat | i < at
      ensures !OccursAt(low, "</" + name, i)
    {
      BodyHasNoClose(body, w, name, rest, i);
    }
    CloseOccurs(body, w, name, rest);
    FoundAt(low, "</" + name, 0, at);
    assert s[at + 2 + |w|] == '>';
    SkipWhileIs(s, at + 2 + |name|, Not('>'), at + 2 + |w|);
  }

  lemma CloseOccurs(body: string, w: string, name: string, rest: string)
    requires TagName(name) && Writes(w, name)
    ensures OccursAt(Lower(body + ("</" + w + ">" + rest)), "</" + name, |body|)
  {
    hide SameLetter, TagName;
    TagNameCharacters(w, name) by {
      assert TagName(name);
    }
    var low := Lower(body + ("</" + w + ">" + rest));
    var pat := "</" + name;
    forall k | 0 <= k < |pat|
      ensures low[|body| + k] == pat[k]
    {
      if k >= 2 {
        assert Lower(w)[k - 2] == name[k - 2];
      }
    }
    assert low[|body|..|body| + |pat|] == pat;
  }

  // ----- Whole pages -----

  lemma PieceReads(p: Piece, r: string)
    requires ProperPiece(p)
    ensures Merged(Tokens(Decode, WritePiece(p) + r, "", true)) == Merged(TokensOfPiece(p) + Tokens(Decode, r, "", true))
    ensures Tidy(Decode, r, "") ==> Tidy(Decode, WritePiece(p) + r, "")
  {
    hide Decode, Tokens, Merged, Tidy, Page, WriteTag, ProperTag, NoCloseTag, OccursAt, StartOf;
    match p {
      case Words(t) => WordsRead(t, r);
      case Stray(t) => StrayReads(t, r);
      case Opening(tag) => TagStep(tag, r);
      case Element(tag, body, w) => ElementReads(tag, body, w, r);
      case _ => MarkupReads(p, r);
    }
  }

  lemma MarkupReads(p: Piece, r: string)
    requires ProperPiece(p) && (p.Closing? || p.Remark? || p.Declaration? || p.Instruction?)
    ensures Tokens(Decode, WritePiece(p) + r, "", true) == TokensOfPiece(p) + Tokens(Decode, r, "", true)
    ensures Tidy(Decode, r, "") ==> Tidy(Decode, WritePiece(p) + r, "")
  {
    hide Decode, Tokens, Tidy, TagName, Writes, NextStep, IsStartTag, OccursAt;
    match p {
      case Closing(name, w) =>
        ClosingStep(name, w, r);
        PlainStep("</" + w + ">" + r, End(name), |w| + 3, r);
      case Remark(t) =>
        RemarkStep(t, r);
        PlainStep("<!--" + t + "-->" + r, Comment(t), |t| + 7, r);
      case Declaration(t) =>
        DeclarationStep(t, r, '!');
        assert "<" + ['!'] + t + ">" + r == "<!" + t + ">" + r;
        PlainStep("<!" + t + ">" + r, Doctype(t), |t| + 3, r);
      case Instruction(t) =>
        DeclarationStep(t, r, '?');
        assert "<" + ['?'] + t + ">" + r == "<?" + t + ">" + r;
        PlainStep("<?" + t + ">" + r, Comment(t), |t| + 3, r);
    }
  }

  lemma ElementReads(tag: Tag, body: string, w: string, r: string)
    requires ProperPiece(Element(tag, body, w))
    ensures var s := WritePiece(Element(tag, body, w)) + r;
      && Tokens(Decode, s, "", true) == [StartOf(tag), End(tag.name)] + Tokens(Decode, r, "", true)
      && (Tidy(Decode, r, "") ==> Tidy(Decode, s, ""))
  {
    hide Decode, Tokens, Tidy, WriteTag, ProperTag, Writes, NoCloseTag, StartOf;
    var tail := body + ("</" + w + ">" + r);
    assert WritePiece(Element(tag, body, w)) + r == WriteTag(tag) + tail;
    TagStep(tag, tail);
    RawReads(body, w, tag.name, r);
    Assoc([StartOf(tag)], [End(tag.name)], Tokens(Decode, r, "", true));
    assert [StartOf(tag)] + [End(tag.name)] == [StartOf(tag), End(tag.name)];
  }

  lemma {:induction false} PageReads(pieces: seq<Piece>)
    requires Proper(pieces)
    ensures Merged(Tokens(Decode, Write(pieces), "", true)) == Merged(TokensOf(pieces))
    ensures Tidy(Decode, Write(pieces), "")
  {
    hide Decode, Merged, Tidy, Tokens, ProperPiece, WritePiece, TokensOfPiece;
    if pieces == [] {
      NothingTokens();
      NothingTidy();
    } else {
      var rest := Write(pieces[1..]);
      PieceReads(pieces[0], rest);
      PageReads(pieces[1..]);
      MergedAfter(TokensOfPiece(pieces[0]), Tokens(Decode, rest, "", true), TokensOf(pieces[1..]));
    }
  }

  lemma NothingTidy()
    ensures Tidy(Decode, "", "")
  {
  }

  /**
   * A page written from pieces, names in any case and values escaped, and fed in any chunks comes back as the
   * tokens of those pieces, neighbouring texts joined.
   */
  lemma WrittenPageArrives(pieces: seq<Piece>, chunks: seq<string>)
    requires Proper(pieces) && Concat(chunks) == Write(pieces)
    ensures Merged(Run(Decode, chunks, State("", ""))) == Merged(TokensOf(pieces))
  {
    hide Decode, Tokens, Proper, Write, Tidy, Run, Merged;
    PageReads(pieces);
    TidyInputsAreChunkInvariant(Decode, Write(pieces));
    OneChunk(Decode, Write(pieces), State("", ""));
    assert "" + Write(pieces) == Write(pieces);
  }
}
