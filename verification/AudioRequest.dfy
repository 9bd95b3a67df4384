/** The streamed audio body is one JSON text that says what the request was made for (exoclaw_tools_voice/streaming.py). */
module AudioRequest {
  import opened Basics
  import opened JsonString
  import opened Json
  import Base64
  import AudioBody
  import JsonBody

  // ----- What the request is made for -----

  /** An object of two members. */
  function Two(k1: string, v1: Value, k2: string, v2: Value): Value {
    Object(Member(k1, v1, Member(k2, v2, NoMembers)))
  }

  function One(v: Value): Items { Item(v, NoItems) }

  /** The message the server should see: the user's text, then the audio in its format, as base64. */
  function UserMessage(text: string, format: string, audio: string): Value {
    Two("role", Text("user"), "content",
        Array(Item(Two("type", Text("text"), "text", Text(text)),
                   One(Two("type", Text("input_audio"),
                           "input_audio", Two("format", Text(format), "data", Text(audio)))))))
  }

  /** The texts that the body is put together from. */
  function Texts(head: Members, text: string, format: string): AudioBody.Request {
    AudioBody.Request(Dumps(Object(head)), Dumps(Two("type", Text("text"), "text", Text(text))), Dumps(Text(format)))
  }

  function Body(head: Members, text: string, format: string, audio: seq<bv8>): string
    requires Dumps(Object(head)) != ""
  {
    var q := Texts(head, text, format);
    AudioBody.HeadText(q) + (AudioBody.PrefixText(q) + (Base64.Encoding(audio) + AudioBody.TAIL))
  }

  // ----- Base64 needs no escaping -----

  predicate Plain(t: string) {
    forall i :: 0 <= i < |t| ==> ShortEscape(t[i]).None? && !Numeric(t[i], true)
  }

  lemma DigitIsPlain(v: bv8)
    requires v < 64
    ensures Plain([Base64.Digit(v)])
  {
    hide Base64.Digit, Base64.Code;
    Base64.ValueOfDigit(v);
    var c := Base64.Digit(v);
    assert Base64.Code(c).Some? by {
      HasCode(c);
    }
    CodedIsPlain(c);
  }

  lemma HasCode(c: char)
    requires Base64.Value(c).Some?
    ensures Base64.Code(c).Some?
  {
  }

  lemma CodedIsPlain(c: char)
    requires Base64.Code(c).Some?
    ensures Plain([c])
  {
  }

  lemma PlainJoins(a: string, b: string)
    requires Plain(a) && Plain(b)
    ensures Plain(a + b)
  {
  }

  lemma {:induction false} CharactersArePlain(bits: seq<bv8>)
    ensures Plain(Base64.Characters(bits))
    decreases |bits|
  {
    hide Base64.Digit, Base64.Sextet, Plain;
    if bits == [] {
      NothingIsPlain();
    } else if |bits| < 6 {
      DigitIsPlain(Base64.Sextet(bits + seq(6 - |bits|, _ => 0)));
    } else {
      DigitIsPlain(Base64.Sextet(bits[..6]));
      CharactersArePlain(bits[6..]);
      PlainJoins([Base64.Digit(Base64.Sextet(bits[..6]))], Base64.Characters(bits[6..]));
    }
  }

  lemma NothingIsPlain()
    ensures Plain("") && Plain("=") && Plain("==")
  {
  }

  lemma EncodingIsPlain(data: seq<bv8>)
    ensures Quoted(Base64.Encoding(data)) == "\"" + Base64.Encoding(data) + "\""
  {
    hide Base64.Characters, Base64.Bits, Escape;
    var a, b := Base64.Characters(Base64.Bits(data)), Base64.Padding(|data|);
    CharactersArePlain(Base64.Bits(data));
    NothingIsPlain();
    PlainJoins(a, b);
    PlainText(a + b, true);
  }

  // ----- Reading -----

  lemma KeysAre()
    ensures Quoted("role") == "\"role\"" && Quoted("user") == "\"user\"" && Quoted("content") == "\"content\""
    ensures Quoted("type") == "\"type\"" && Quoted("input_audio") == "\"input_audio\""
    ensures Quoted("format") == "\"format\"" && Quoted("data") == "\"data\"" && Quoted("messages") == "\"messages\""
  {
    hide Escape;
    PlainText("role", true);
    PlainText("user", true);
    PlainText("content", true);
    PlainText("type", true);
    PlainText("input_audio", true);
    PlainText("format", true);
    PlainText("data", true);
    PlainText("messages", true);
  }

  /** The last member of an object, and the brace behind it. */
  lemma LastMember(k: string, body: string, v: Value, rest: string)
    requires ReadValue(Rfc8259, body) == Some((v, "}" + rest))
    ensures ReadMembers(Rfc8259, Quoted(k) + (":" + body)) == Some((Member(k, v, NoMembers), rest))
  {
    hide ReadValue, ReadMembers, MoreMembers, Quoted;
    OneMember(Rfc8259, k, body, v, "}" + rest);
    MembersClose(Rfc8259, rest);
    MemberOnto(k, v, NoMembers);
  }

  /** A member in front of others. */
  lemma FirstMember(k: string, body: string, v: Value, more: string, ms: Members, rest: string)
    requires ReadValue(Rfc8259, body) == Some((v, "," + more)) && ReadMembers(Rfc8259, more) == Some((ms, rest))
    ensures ReadMembers(Rfc8259, Quoted(k) + (":" + body)) == Some((Member(k, v, ms), rest))
  {
    hide ReadValue, ReadMembers, MoreMembers, Quoted;
    OneMember(Rfc8259, k, body, v, "," + more);
    MembersGoOn(Rfc8259, more);
    MemberOnto(k, v, ms);
  }

  lemma ObjectOf(k: string, body: string, ms: Members, rest: string)
    requires ReadMembers(Rfc8259, Quoted(k) + (":" + body)) == Some((ms, rest))
    ensures ReadValue(Rfc8259, "{" + (Quoted(k) + (":" + body))) == Some((Object(ms), rest))
  {
    hide ReadValue, ReadMembers, Quoted;
    QuotedReads(k, ":" + body);
    MembersOpen(Rfc8259, Quoted(k) + (":" + body));
  }

  /** An object of two members written without spaces. */
  lemma TwoReads(k1: string, body1: string, v1: Value, k2: string, body2: string, v2: Value, rest: string)
    requires ReadValue(Rfc8259, body1) == Some((v1, "," + (Quoted(k2) + (":" + body2))))
    requires ReadValue(Rfc8259, body2) == Some((v2, "}" + rest))
    ensures ReadValue(Rfc8259, "{" + (Quoted(k1) + (":" + body1))) == Some((Two(k1, v1, k2, v2), rest))
  {
    hide ReadValue, ReadMembers, Quoted;
    LastMember(k2, body2, v2, rest);
    FirstMember(k1, body1, v1, Quoted(k2) + (":" + body2), Member(k2, v2, NoMembers), rest);
    ObjectOf(k1, body1, Member(k1, v1, Member(k2, v2, NoMembers)), rest);
  }

  lemma LastItem(body: string, v: Value, rest: string)
    requires ReadValue(Rfc8259, body) == Some((v, "]" + rest))
    ensures ReadItems(Rfc8259, body) == Some((One(v), rest))
  {
    hide ReadValue, ReadItems, MoreItems;
    OneItem(Rfc8259, body, v, "]" + rest);
    ItemsClose(Rfc8259, rest);
    ItemOnto(v, NoItems);
  }

  lemma FirstItem(body: string, v: Value, more: string, items: Items, rest: string)
    requires ReadValue(Rfc8259, body) == Some((v, "," + more)) && ReadItems(Rfc8259, more) == Some((items, rest))
    ensures ReadItems(Rfc8259, body) == Some((Item(v, items), rest))
  {
    hide ReadValue, ReadItems, MoreItems;
    OneItem(Rfc8259, body, v, "," + more);
    ItemsGoOn(Rfc8259, more);
    ItemOnto(v, items);
  }

  /** An array of objects. */
  lemma ArrayOf(body: string, items: Items, rest: string)
    requires body != "" && body[0] == '{' && ReadItems(Rfc8259, body) == Some((items, rest))
    ensures ReadValue(Rfc8259, "[" + body) == Some((Array(items), rest))
  {
    hide ReadValue, ReadItems;
    ItemsOpen(Rfc8259, body);
  }

  // ----- The body, from the inside out -----

  /** The audio part, with what closes it. */
  function AudioPart(format: string, data: string, rest: string): string {
    "{" + (Quoted("type") + (":" + (Quoted("input_audio") + ("," + (Quoted("input_audio") + (":" +
    ("{" + (Quoted("format") + (":" + (Quoted(format) + ("," + (Quoted("data") + (":" + (Quoted(data) + ("}" + ("}" + rest))))))))))))))))
  }

  lemma AudioPartReads(format: string, data: string, rest: string)
    ensures ReadValue(Rfc8259, AudioPart(format, data, rest)) ==
      Some((Two("type", Text("input_audio"), "input_audio", Two("format", Text(format), "data", Text(data))), rest))
  {
    hide ReadValue, Quoted;
    var dataBody := Quoted(data) + ("}" + ("}" + rest));
    TextReads(Rfc8259, data, "}" + ("}" + rest));
    var formatBody := Quoted(format) + ("," + (Quoted("data") + (":" + dataBody)));
    TextReads(Rfc8259, format, "," + (Quoted("data") + (":" + dataBody)));
    TwoReads("format", formatBody, Text(format), "data", dataBody, Text(data), "}" + rest);
    var inner := "{" + (Quoted("format") + (":" + formatBody));
    TextReads(Rfc8259, "input_audio", "," + (Quoted("input_audio") + (":" + inner)));
    TwoReads("type", Quoted("input_audio") + ("," + (Quoted("input_audio") + (":" + inner))), Text("input_audio"),
             "input_audio", inner, Two("format", Text(format), "data", Text(data)), rest);
  }

  function TextPart(text: string): Value { Two("type", Text("text"), "text", Text(text)) }

  function MessagePart(text: string, format: string, data: string, rest: string): string {
    "{" + (Quoted("role") + (":" + (Quoted("user") + ("," + (Quoted("content") + (":" +
    ("[" + (Dumps(TextPart(text)) + ("," + AudioPart(format, data, "]" + ("}" + rest)))))))))))
  }

  lemma MessagePartReads(text: string, format: string, data: string, rest: string)
    ensures ReadValue(Rfc8259, MessagePart(text, format, data, rest)) == Some((UserMessage(text, format, data), rest))
  {
    hide ReadValue, ReadItems, Quoted, AudioPart, Dumps;
    var part := AudioPart(format, data, "]" + ("}" + rest));
    var audio := Two("type", Text("input_audio"), "input_audio", Two("format", Text(format), "data", Text(data)));
    AudioPartReads(format, data, "]" + ("}" + rest));
    LastItem(part, audio, "}" + rest);
    ItemsGoOn(Rfc8259, part);
    TextPartProper(text);
    ValueBack(Rfc8259, TextPart(text), "," + part);
    var list := Dumps(TextPart(text)) + ("," + part);
    FirstItem(list, TextPart(text), part, One(audio), "}" + rest);
    TextPartStarts(text);
    ArrayOf(list, Item(TextPart(text), One(audio)), "}" + rest);
    var content := "[" + list;
    TextReads(Rfc8259, "user", "," + (Quoted("content") + (":" + content)));
    TwoReads("role", Quoted("user") + ("," + (Quoted("content") + (":" + content))), Text("user"),
             "content", content, Array(Item(TextPart(text), One(audio))), rest);
  }

  lemma TextPartProper(text: string)
    ensures Proper(TextPart(text))
  {
    var last := Member("text", Text(text), NoMembers);
    assert ProperMembers(NoMembers);
    assert ProperMembers(last);
    assert ProperMembers(Member("type", Text("text"), last));
  }

  lemma TextPartStarts(text: string)
    ensures Dumps(TextPart(text)) != "" && Dumps(TextPart(text))[0] == '{'
  {
    hide DumpsMembers;
  }

  /**
   * The streamed body is one JSON text: the members of the head, then a list with one message, which holds the
   * user's text and the whole audio in base64.
   */
  lemma AudioBodyReads(head: Members, text: string, format: string, audio: seq<bv8>)
    requires head.Member? && ProperMembers(head)
    ensures Dumps(Object(head)) != ""
    ensures Loads(Rfc8259, Body(head, text, format, audio)) ==
      Some(Object(AppendMembers(head, Member("messages", Array(One(UserMessage(text, format, Base64.Encoding(audio)))), NoMembers))))
  {
    hide ReadValue, ReadItems, Quoted, MessagePart, UserMessage, DumpsMembers, Base64.Encoding;
    var data := Base64.Encoding(audio);
    var message := MessagePart(text, format, data, "]" + ("}" + ""));
    MessagePartReads(text, format, data, "]" + ("}" + ""));
    LastItem(message, UserMessage(text, format, data), "}" + "");
    MessageStarts(text, format, data, "]" + ("}" + ""));
    ArrayOf(message, One(UserMessage(text, format, data)), "}" + "");
    JsonBody.SplicedReads(head, "messages", "[" + message, Array(One(UserMessage(text, format, data))), "");
    BodyIsSpliced(head, text, format, audio);
    SkipNothing("");
  }

  lemma MessageStarts(text: string, format: string, data: string, rest: string)
    ensures MessagePart(text, format, data, rest) != "" && MessagePart(text, format, data, rest)[0] == '{'
  {
    hide Quoted, AudioPart, Dumps;
  }

  /** The texts of the source, put together, are those parts. */
  lemma BodyIsSpliced(head: Members, text: string, format: string, audio: seq<bv8>)
    requires head.Member? && Dumps(Object(head)) != ""
    ensures Body(head, text, format, audio) ==
      "{" + (DumpsMembers(head) + (JsonBody.Comma(head) + (Quoted("messages") + (":" + ("[" +
      MessagePart(text, format, Base64.Encoding(audio), "]" + ("}" + "")))))))
  {
    hide Quoted, DumpsMembers, Base64.Encoding, Escape;
    KeysAre();
    EncodingIsPlain(audio);
    var head' := Dumps(Object(head));
    assert head'[..|head'| - 1] == "{" + DumpsMembers(head);
    PartsJoin(DumpsMembers(head), Dumps(TextPart(text)), Quoted(format), Base64.Encoding(audio));
  }

  lemma MessagesText(head: string, x: string)
    ensures (("{" + head) + AudioBody.MESSAGES) + x == "{" + (head + ("," + ("\"messages\"" + (":" + ("[" + x)))))
  {
    assert AudioBody.MESSAGES == "," + "\"messages\"" + ":" + "[";
  }

  lemma BeforeText(x: string)
    ensures AudioBody.BEFORE_TEXT + x ==
      "{" + ("\"role\"" + (":" + ("\"user\"" + ("," + ("\"content\"" + (":" + ("[" + x)))))))
  {
    assert AudioBody.BEFORE_TEXT == "{" + "\"role\"" + ":" + "\"user\"" + "," + "\"content\"" + ":" + "[";
  }

  lemma BeforeFormat(x: string)
    ensures AudioBody.BEFORE_FORMAT + x ==
      "," + ("{" + ("\"type\"" + (":" + ("\"input_audio\"" + ("," + ("\"input_audio\"" + (":" + ("{" + ("\"format\"" + (":" + x))))))))))
  {
    assert AudioBody.BEFORE_FORMAT == ",{\"type\":\"input_audio\"" + ",\"input_audio\":{\"format\":";
    var tail := ",\"input_audio\":{\"format\":" + x;
    assert AudioBody.BEFORE_FORMAT + x == ",{\"type\":\"input_audio\"" + tail;
    TypeText(tail);
    FormatText(x);
  }

  lemma TypeText(x: string)
    ensures ",{\"type\":\"input_audio\"" + x == "," + ("{" + ("\"type\"" + (":" + ("\"input_audio\"" + x))))
  {
    assert ",{\"type\":\"input_audio\"" == "," + "{" + "\"type\"" + ":" + "\"input_audio\"";
  }

  lemma FormatText(x: string)
    ensures ",\"input_audio\":{\"format\":" + x == "," + ("\"input_audio\"" + (":" + ("{" + ("\"format\"" + (":" + x)))))
  {
    assert ",\"input_audio\":{\"format\":" == "," + "\"input_audio\"" + ":" + "{" + "\"format\"" + ":";
  }

  lemma DataText(data: string)
    ensures AudioBody.BEFORE_DATA + (data + AudioBody.TAIL) ==
      "," + ("\"data\"" + (":" + (("\"" + data + "\"") + ("}" + ("}" + ("]" + ("}" + ("]" + ("}" + "")))))))))
  {
    assert AudioBody.BEFORE_DATA == "," + "\"data\"" + ":" + "\"";
    assert AudioBody.TAIL == "\"" + ("}" + ("}" + ("]" + ("}" + ("]" + ("}" + ""))))));
  }

  lemma Chained(a: string, b: string, c: string, d: string, e: string, f: string)
    ensures (a + b + c + d + e) + f == a + (b + (c + (d + (e + f))))
  {
  }

  lemma PartsJoin(head: string, text: string, format: string, data: string)
    ensures (("{" + head) + AudioBody.MESSAGES) +
      ((AudioBody.BEFORE_TEXT + text + AudioBody.BEFORE_FORMAT + format + AudioBody.BEFORE_DATA) + (data + AudioBody.TAIL)) ==
      "{" + (head + ("," + ("\"messages\"" + (":" + ("[" + ("{" + ("\"role\"" + (":" + ("\"user\"" + ("," +
      ("\"content\"" + (":" + ("[" + (text + ("," + ("{" + ("\"type\"" + (":" + ("\"input_audio\"" + ("," +
      ("\"input_audio\"" + (":" + ("{" + ("\"format\"" + (":" + (format + ("," + ("\"data\"" + (":" + (("\"" + data +
      "\"") + ("}" + ("}" + ("]" + ("}" + ("]" + ("}" + ""))))))))))))))))))))))))))))))))))))
  {
    hide AudioBody.MESSAGES, AudioBody.BEFORE_TEXT, AudioBody.BEFORE_FORMAT, AudioBody.BEFORE_DATA, AudioBody.TAIL;
    var x4 := AudioBody.BEFORE_DATA + (data + AudioBody.TAIL);
    var x3 := AudioBody.BEFORE_FORMAT + (format + x4);
    var x2 := AudioBody.BEFORE_TEXT + (text + x3);
    Chained(AudioBody.BEFORE_TEXT, text, AudioBody.BEFORE_FORMAT, format, AudioBody.BEFORE_DATA, data + AudioBody.TAIL);
    DataText(data);
    BeforeFormat(format + x4);
    BeforeText(text + x3);
    MessagesText(head, x2);
  }
}
