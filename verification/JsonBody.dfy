/** The streamed chat request body (exoclaw_provider_openai/provider.py). */
module JsonBody {
  import opened Basics
  import opened JsonString
  import opened Json

  /** What reading a scratch file gives: non-empty chunks of whole characters, and whether an error ended the reading. */
  datatype Scratch = Scratch(chunks: seq<string>, failed: bool)

  ghost predicate Readable(files: string -> Scratch) {
    forall path, i :: 0 <= i < |files(path).chunks| ==> files(path).chunks[i] != ""
  }

  // ----- Messages -----

  function Lookup(ms: Members, key: string): Option<Value> {
    match ms
    case NoMembers => None
    case Member(k, v, r) => if k == key then Some(v) else Lookup(r, key)
  }

  function Without(ms: Members, content: bool): Members {
    match ms
    case NoMembers => NoMembers
    case Member(k, v, r) =>
      if "_" <= k || (content && k == "content") then Without(r, content) else Member(k, v, Without(r, content))
  }

  function TextAt(ms: Members, key: string): string {
    match Lookup(ms, key)
    case Some(Text(t)) => t
    case _ => ""
  }

  /** The scratch file's text; after a read error, what was read and the inline preview. */
  function FileText(msg: Members, f: Scratch): string {
    Concat(f.chunks) + if f.failed then TextAt(msg, "content") else ""
  }

  /** After a read error the preview alone is sent if and only if nothing had been read: it is appended, not substituted. */
  lemma PreviewAloneExactlyWhenNothingRead(msg: Members, f: Scratch)
    requires f.failed
    ensures FileText(msg, f) == TextAt(msg, "content") <==> Concat(f.chunks) == ""
  {
    var read, preview := Concat(f.chunks), TextAt(msg, "content");
    if read == "" {
      assert "" + preview == preview;
    } else {
      assert |read + preview| > |preview|;
    }
  }

  /** A read that fails after one chunk sends that chunk in front of the preview. */
  lemma PartialReadExample()
    ensures FileText(Member("content", Text("preview"), NoMembers), Scratch(["half "], true)) == "half preview"
  {
    ConcatOne("half ");
    assert "half " + "preview" == "half preview";
  }

  /** The message the server should see. */
  function Sent(msg: Members, files: string -> Scratch): Members {
    var path := TextAt(msg, "_content_file");
    if path == "" then Without(msg, false)
    else AppendMembers(Without(msg, true), Member("content", Text(FileText(msg, files(path))), NoMembers))
  }

  lemma {:induction false} LookupWithout(ms: Members, content: bool, key: string)
    ensures Lookup(Without(ms, content), key) ==
      if "_" <= key || (content && key == "content") then None else Lookup(ms, key)
  {
    if ms.Member? {
      LookupWithout(ms.rest, content, key);
    }
  }

  lemma {:induction false} LookupLast(ms: Members, k: string, v: Value, key: string)
    ensures Lookup(AppendMembers(ms, Member(k, v, NoMembers)), key) ==
      if Lookup(ms, key).Some? then Lookup(ms, key) else if k == key then Some(v) else None
  {
    if ms.Member? {
      LookupLast(ms.rest, k, v, key);
    } else {
      assert Lookup(NoMembers, key) == None;
    }
  }

  lemma ContentIsPublic()
    ensures !("_" <= "content")
  {
    assert "_"[0] != "content"[0];
  }

  /**
   * The server sees no key with an underscore, and every other one as it is; the content of a message that names a
   * file is the file's text, followed by the inline one if the reading failed.
   */
  lemma SentSays(msg: Members, files: string -> Scratch, key: string)
    ensures "_" <= key ==> Lookup(Sent(msg, files), key) == None
    ensures !("_" <= key) && key != "content" ==> Lookup(Sent(msg, files), key) == Lookup(msg, key)
    ensures match Lookup(msg, "_content_file")
      case Some(Text(path)) =>
        if path == "" then Lookup(Sent(msg, files), "content") == Lookup(msg, "content")
        else
          var inline := match Lookup(msg, "content") case Some(Text(t)) => t case _ => "";
          var f := files(path);
          Lookup(Sent(msg, files), "content") == Some(Text(Concat(f.chunks) + if f.failed then inline else ""))
      case _ => Lookup(Sent(msg, files), "content") == Lookup(msg, "content")
  {
    hide Without, AppendMembers, Lookup;
    var path := TextAt(msg, "_content_file");
    ContentIsPublic();
    LookupWithout(msg, path != "", key);
    LookupWithout(msg, path != "", "content");
    if path != "" {
      var text := Text(FileText(msg, files(path)));
      LookupLast(Without(msg, true), "content", text, key);
      LookupLast(Without(msg, true), "content", text, "content");
    }
  }

  // ----- What goes over the wire -----

  function Comma(ms: Members): string { if ms.NoMembers? then "" else "," }

  function Wire(msg: Members, files: string -> Scratch): string {
    var path := TextAt(msg, "_content_file");
    if path == "" then Dumps(Object(Without(msg, false)))
    else
      var head := Without(msg, true);
      "{" + (DumpsMembers(head) + (Comma(head) + ("\"content\":" + (Quoted(FileText(msg, files(path))) + "}"))))
  }

  /** The messages from `i` on, each after the first with its comma. */
  function WireFrom(messages: seq<Members>, files: string -> Scratch, i: nat): string
    requires i <= |messages|
    decreases |messages| - i
  {
    if i == |messages| then ""
    else (if i > 0 then "," else "") + (Wire(messages[i], files) + WireFrom(messages, files, i + 1))
  }

  function Body(head: Members, messages: seq<Members>, files: string -> Scratch): string {
    "{" + (DumpsMembers(head) + (Comma(head) + ("\"messages\":" + ("[" + (WireFrom(messages, files, 0) + "]}")))))
  }

  // ----- The generators -----

  method EmitMessage(msg: Members, files: string -> Scratch) returns (pieces: seq<string>)
    requires Readable(files)
    ensures Concat(pieces) == Wire(msg, files)
  {
    hide Escape, DumpsMembers, Without, RStrip, Concat;
    var path := TextAt(msg, "_content_file");
    if path == "" {
      pieces := [Dumps(Object(Without(msg, false)))];
      ConcatOne(pieces[0]);
      return;
    }
    var head := Without(msg, true);
    var headJson := Dumps(Object(head));
    var prefix := headJson[..|headJson| - 1];
    assert prefix == "{" + DumpsMembers(head);
    OnlyBrace(head);
    var sep := if RStrip(prefix) != "{" then "," else "";
    var start := prefix + sep + "\"content\":\"";
    pieces := [start];
    ConcatOne(start);
    var f := files(path);
    var i := 0;
    assert f.chunks[..0] == [];
    NothingEscaped(start);
    while i < |f.chunks|
      invariant 0 <= i <= |f.chunks|
      invariant Concat(pieces) == start + Escape(Concat(f.chunks[..i]), true)
    {
      var chunk := f.chunks[i];
      if chunk == "" {
        break;
      }
      ConcatSnoc(pieces, Escape(chunk, true));
      assert f.chunks[..i + 1] == f.chunks[..i] + [chunk];
      ConcatSnoc(f.chunks[..i], chunk);
      EscapeJoins(Concat(f.chunks[..i]), chunk, true);
      Assoc(start, Escape(Concat(f.chunks[..i]), true), Escape(chunk, true));
      pieces := pieces + [Escape(chunk, true)];
      i := i + 1;
    }
    assert f.chunks[..i] == f.chunks;
    var fallback := TextAt(msg, "content");
    EscapeJoins(Concat(f.chunks), fallback, true);
    if f.failed && fallback != "" {
      ConcatSnoc(pieces, Escape(fallback, true));
      pieces := pieces + [Escape(fallback, true)];
      Assoc(start, Escape(Concat(f.chunks), true), Escape(fallback, true));
    }
    assert Concat(pieces) == start + Escape(FileText(msg, f), true) by {
      NoText(start, Concat(f.chunks));
    }
    ConcatSnoc(pieces, "\"}");
    pieces := pieces + ["\"}"];
    Framed(DumpsMembers(head), Comma(head), Escape(FileText(msg, f), true));
  }

  lemma NothingEscaped(start: string)
    ensures start + Escape(Concat([]), true) == start
  {
  }

  lemma NoText(start: string, t: string)
    ensures Escape(t + "", true) == Escape(t, true)
  {
    assert t + "" == t;
  }

  lemma Framed(head: string, comma: string, text: string)
    ensures "{" + head + comma + "\"content\":\"" + text + "\"}" ==
      "{" + (head + (comma + ("\"content\":" + (("\"" + text + "\"") + "}"))))
  {
  }

  /** Only an empty object leaves nothing but its opening brace. */
  lemma OnlyBrace(ms: Members)
    ensures RStrip("{" + DumpsMembers(ms)) != "{" <==> ms.Member?
  {
    hide DumpsMembers;
    var s := "{" + DumpsMembers(ms);
    if ms.Member? {
      MembersStart(ms, "");
      assert DumpsMembers(ms) + "" == DumpsMembers(ms);
      assert s[1] == '\"';
      StripKeeps(s);
    } else {
      NoDumps();
      assert s == "{";
    }
  }

  lemma {:induction false} StripKeeps(s: string)
    requires |s| >= 2 && s[1] == '\"'
    ensures |RStrip(s)| >= 2
  {
    if Blank(s[|s| - 1]) {
      StripKeeps(s[..|s| - 1]);
    }
  }

  method StreamBody(head: Members, messages: seq<Members>, files: string -> Scratch) returns (pieces: seq<string>)
    requires Readable(files) && ProperMembers(head)
    ensures Concat(pieces) == Body(head, messages, files)
  {
    hide DumpsMembers, Wire, WireFrom, Concat;
    var headJson := Dumps(Object(head));
    var prefix := headJson[..|headJson| - 1];
    assert prefix == "{" + DumpsMembers(head);
    LastBrace(head);
    if prefix != "" && prefix[|prefix| - 1] != '{' {
      pieces := [prefix + ",\"messages\":["];
    } else {
      pieces := ["{\"messages\":["];
    }
    ConcatOne(pieces[0]);
    OpenBody(head);
    var i := 0;
    ghost var all := WireFrom(messages, files, 0);
    ghost var start := pieces[0];
    while i < |messages|
      invariant 0 <= i <= |messages|
      invariant Concat(pieces) + WireFrom(messages, files, i) == start + all
    {
      WireStep(Concat(pieces), messages, files, i);
      if i > 0 {
        ConcatSnoc(pieces, ",");
        pieces := pieces + [","];
      }
      var chunks := EmitMessage(messages[i], files);
      ConcatJoins(pieces, chunks);
      pieces := pieces + chunks;
      i := i + 1;
    }
    WireEnds(Concat(pieces), messages, files);
    ConcatSnoc(pieces, "]}");
    pieces := pieces + ["]}"];
    FramedBody(DumpsMembers(head), Comma(head), all);
  }

  lemma OpenBody(head: Members)
    ensures head.Member? ==>
      "{" + DumpsMembers(head) + ",\"messages\":[" == "{" + DumpsMembers(head) + Comma(head) + "\"messages\":["
    ensures head.NoMembers? ==> "{\"messages\":[" == "{" + DumpsMembers(head) + Comma(head) + "\"messages\":["
  {
    assert ",\"messages\":[" == "," + "\"messages\":[";
  }

  lemma WireStep(before: string, messages: seq<Members>, files: string -> Scratch, i: nat)
    requires i < |messages|
    ensures before + WireFrom(messages, files, i) ==
      ((if i > 0 then before + "," else before) + Wire(messages[i], files)) + WireFrom(messages, files, i + 1)
  {
    hide Wire;
    var w, rest := Wire(messages[i], files), WireFrom(messages, files, i + 1);
    if i > 0 {
      assert before + ("," + (w + rest)) == ((before + ",") + w) + rest;
    } else {
      assert before + ("" + (w + rest)) == (before + w) + rest;
    }
  }

  lemma WireEnds(before: string, messages: seq<Members>, files: string -> Scratch)
    ensures before + WireFrom(messages, files, |messages|) == before
  {
  }

  lemma FramedBody(head: string, comma: string, all: string)
    ensures ("{" + head + comma + "\"messages\":[") + all + "]}" ==
      "{" + (head + (comma + ("\"messages\":" + ("[" + (all + "]}")))))
  {
  }

  /** A dumped value does not end in an opening brace. */
  lemma DumpsLast(v: Value)
    requires Proper(v)
    ensures Dumps(v) != "" && Dumps(v)[|Dumps(v)| - 1] != '{'
  {
    hide DumpsItems, DumpsMembers, Escape;
    if v.Number? {
      NumberEnds(v.lexeme);
    }
  }

  lemma {:induction false} MembersLast(ms: Members)
    requires ProperMembers(ms) && ms.Member?
    ensures DumpsMembers(ms) != "" && DumpsMembers(ms)[|DumpsMembers(ms)| - 1] != '{'
  {
    hide Dumps, Quoted;
    if ms.rest.NoMembers? {
      DumpsLast(ms.value);
    } else {
      MembersLast(ms.rest);
    }
  }

  lemma LastBrace(head: Members)
    requires ProperMembers(head)
    ensures var prefix := "{" + DumpsMembers(head); prefix[|prefix| - 1] != '{' <==> head.Member?
  {
    hide DumpsMembers;
    if head.Member? {
      MembersLast(head);
    } else {
      NoDumps();
    }
  }

  // ----- What the server reads -----

  /** A spliced last member, after the head's own members if there are any. */
  lemma SplicedReads(head: Members, key: string, body: string, v: Value, tail: string)
    requires ProperMembers(head)
    requires ReadValue(Rfc8259, body) == Some((v, "}" + tail))
    ensures ReadValue(Rfc8259, "{" + (DumpsMembers(head) + (Comma(head) + (Quoted(key) + (":" + body))))) ==
      Some((Object(AppendMembers(head, Member(key, v, NoMembers))), tail))
  {
    hide ReadValue, ReadMembers, MoreMembers, DumpsMembers, Stops, Quoted;
    var more := Quoted(key) + (":" + body);
    OneMember(Rfc8259, key, body, v, "}" + tail);
    MembersClose(Rfc8259, tail);
    MemberOnto(key, v, NoMembers);
    if head.NoMembers? {
      NoDumps();
      assert "" + ("" + more) == more;
      QuotedReads(key, ":" + body);
      MembersOpen(Rfc8259, more);
      assert AppendMembers(head, Member(key, v, NoMembers)) == Member(key, v, NoMembers);
    } else {
      MembersGoOn(Rfc8259, more);
      MembersBack(Rfc8259, head, "," + more);
      MembersStart(head, "," + more);
      MembersOpen(Rfc8259, DumpsMembers(head) + ("," + more));
    }
  }

  lemma {:induction false} WithoutIsProper(ms: Members, content: bool)
    requires ProperMembers(ms)
    ensures ProperMembers(Without(ms, content))
  {
    if ms.Member? {
      WithoutIsProper(ms.rest, content);
    }
  }

  /** Each message is read back as its public members, a file-backed content as the file's text. */
  lemma WireReads(msg: Members, files: string -> Scratch, rest: string)
    requires ProperMembers(msg)
    ensures ReadValue(Rfc8259, Wire(msg, files) + rest) == Some((Object(Sent(msg, files)), rest))
  {
    hide ReadValue, DumpsMembers, Without, Quoted, AppendMembers;
    var path := TextAt(msg, "_content_file");
    if path == "" {
      WithoutIsProper(msg, false);
      ObjectBack(Rfc8259, Without(msg, false), rest);
    } else {
      var head, text := Without(msg, true), FileText(msg, files(path));
      WithoutIsProper(msg, true);
      TextReads(Rfc8259, text, "}" + rest);
      KeysArePlain();
      SplicedReads(head, "content", Quoted(text) + ("}" + rest), Text(text), rest);
      WireTail(DumpsMembers(head), Comma(head), Quoted(text), rest);
    }
  }

  lemma WireTail(head: string, comma: string, text: string, rest: string)
    ensures ("{" + (head + (comma + ("\"content\":" + (text + "}"))))) + rest ==
      "{" + (head + (comma + ("\"content\"" + (":" + (text + ("}" + rest))))))
  {
    assert "\"content\":" == "\"content\"" + ":";
  }

  function SentFrom(messages: seq<Members>, files: string -> Scratch, i: nat): Items
    requires i <= |messages|
    decreases |messages| - i
  {
    if i == |messages| then NoItems else Item(Object(Sent(messages[i], files)), SentFrom(messages, files, i + 1))
  }

  predicate AllProper(messages: seq<Members>) {
    forall i :: 0 <= i < |messages| ==> ProperMembers(messages[i])
  }

  lemma {:induction false} MessagesRead(messages: seq<Members>, files: string -> Scratch, i: nat, tail: string)
    requires i < |messages| && AllProper(messages)
    ensures ReadItems(Rfc8259, Wire(messages[i], files) + (WireFrom(messages, files, i + 1) + ("]" + tail))) ==
      Some((SentFrom(messages, files, i), tail))
    decreases |messages| - i
  {
    hide ReadValue, ReadItems, MoreItems, Wire, Sent;
    var after := WireFrom(messages, files, i + 1) + ("]" + tail);
    var v := Object(Sent(messages[i], files));
    WireReads(messages[i], files, after);
    OneItem(Rfc8259, Wire(messages[i], files) + after, v, after);
    if i + 1 == |messages| {
      assert after == "]" + tail;
      ItemsClose(Rfc8259, tail);
      ItemOnto(v, NoItems);
    } else {
      var next := Wire(messages[i + 1], files) + (WireFrom(messages, files, i + 2) + ("]" + tail));
      NextMessage(Wire(messages[i + 1], files), WireFrom(messages, files, i + 2), "]" + tail);
      assert after == "," + next;
      ItemsGoOn(Rfc8259, next);
      MessagesRead(messages, files, i + 1, tail);
      ItemOnto(v, SentFrom(messages, files, i + 1));
    }
  }

  lemma NextMessage(a: string, b: string, c: string)
    ensures ("," + (a + b)) + c == "," + (a + (b + c))
  {
  }

  lemma WireStarts(msg: Members, files: string -> Scratch)
    ensures Wire(msg, files) != "" && Wire(msg, files)[0] == '{'
  {
    hide DumpsMembers, Without, Quoted, FileText;
  }

  lemma ListReads(messages: seq<Members>, files: string -> Scratch, tail: string)
    requires AllProper(messages)
    ensures ReadValue(Rfc8259, "[" + (WireFrom(messages, files, 0) + ("]" + tail))) == Some((Array(SentFrom(messages, files, 0)), tail))
  {
    hide ReadValue, ReadItems, Wire;
    if messages == [] {
      EmptyOnesRead(Rfc8259, tail);
      assert "" + ("]" + tail) == "]" + tail;
    } else {
      MessagesRead(messages, files, 0, tail);
      var first, more := Wire(messages[0], files), WireFrom(messages, files, 1);
      var s := first + (more + ("]" + tail));
      WireStarts(messages[0], files);
      assert s[0] == '{';
      ItemsOpen(Rfc8259, s);
      assert WireFrom(messages, files, 0) == first + more;
      Assoc(first, more, "]" + tail);
    }
  }

  /** One object for each message, in order. */
  predicate ItemsAre(items: Items, messages: seq<Members>, files: string -> Scratch) {
    match items
    case NoItems => messages == []
    case Item(v, r) => messages != [] && v == Object(Sent(messages[0], files)) && ItemsAre(r, messages[1..], files)
  }

  lemma {:induction false} SentInOrder(messages: seq<Members>, files: string -> Scratch, i: nat)
    requires i <= |messages|
    ensures ItemsAre(SentFrom(messages, files, i), messages[i..], files)
    decreases |messages| - i
  {
    hide Sent;
    if i < |messages| {
      SentInOrder(messages, files, i + 1);
      assert messages[i..][1..] == messages[i + 1..];
    }
  }

  /** The streamed body is one JSON text, and it reads as the request. */
  lemma BodyReads(head: Members, messages: seq<Members>, files: string -> Scratch)
    requires ProperMembers(head) && AllProper(messages)
    ensures Loads(Rfc8259, Body(head, messages, files)) ==
      Some(Object(AppendMembers(head, Member("messages", Array(SentFrom(messages, files, 0)), NoMembers))))
    ensures ItemsAre(SentFrom(messages, files, 0), messages, files)
  {
    hide ReadValue, DumpsMembers, Quoted, WireFrom, SentFrom, ItemsAre;
    SentInOrder(messages, files, 0);
    assert messages[0..] == messages;
    var all := WireFrom(messages, files, 0);
    var body := "[" + (all + ("]" + ("}" + "")));
    ListReads(messages, files, "}" + "");
    KeysArePlain();
    SplicedReads(head, "messages", body, Array(SentFrom(messages, files, 0)), "");
    BodyTail(DumpsMembers(head), Comma(head), all);
  }

  lemma BodyTail(head: string, comma: string, all: string)
    ensures "{" + (head + (comma + ("\"messages\":" + ("[" + (all + "]}"))))) ==
      "{" + (head + (comma + ("\"messages\"" + (":" + ("[" + (all + ("]" + ("}" + ""))))))))
  {
    assert "]}" == "]" + ("}" + "") && "\"messages\":" == "\"messages\"" + ":";
  }
}
