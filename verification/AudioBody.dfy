/** The streamed audio request body (exoclaw_tools_voice/streaming.py). */
module AudioBody {
  import opened Basics
  import opened Base64

  datatype State = Head | Prefix | Audio | Flush | Tail | Done

  /** The request's fixed texts, and what the body iterator keeps: its state, the encoder's carry, the audio to come. */
  datatype Request = Request(headJson: string, textJson: string, formatJson: string)
  datatype Body = Body(state: State, carry: seq<bv8>, audio: seq<seq<bv8>>)

  const TAIL := "\"}}]}]}"
  const MESSAGES := ",\"messages\":["
  const BEFORE_TEXT := "{\"role\":\"user\",\"content\":["
  const BEFORE_FORMAT := ",{\"type\":\"input_audio\",\"input_audio\":{\"format\":"
  const BEFORE_DATA := ",\"data\":\""

  /** The head object without its closing brace, then the start of the message list. */
  function HeadText(q: Request): string
    requires q.headJson != ""
  {
    q.headJson[..|q.headJson| - 1] + MESSAGES
  }

  function PrefixText(q: Request): string {
    BEFORE_TEXT + q.textJson + BEFORE_FORMAT + q.formatJson + BEFORE_DATA
  }

  /** Everything the body has still to yield. */
  function Remaining(q: Request, b: Body): string
    requires q.headJson != "" && |b.carry| < 3
  {
    match b.state
    case Head => HeadText(q) + (PrefixText(q) + (Encoding(b.carry + Concat(b.audio)) + TAIL))
    case Prefix => PrefixText(q) + (Encoding(b.carry + Concat(b.audio)) + TAIL)
    case Audio => Encoding(b.carry + Concat(b.audio)) + TAIL
    case Flush => Encoding(b.carry) + TAIL
    case Tail => TAIL
    case Done => ""
  }

  /** How many more pieces there can be at most. */
  function Budget(b: Body): nat {
    match b.state
    case Head => |b.audio| + 5
    case Prefix => |b.audio| + 4
    case Audio => |b.audio| + 3
    case Flush => 2
    case Tail => 1
    case Done => 0
  }

  class AudioBodyIter {
    const request: Request
    var state: State
    var encoder: B64StreamEncoder
    var audio: seq<seq<bv8>>

    ghost predicate Valid()
      reads this, encoder
    {
      request.headJson != "" && |encoder.carry| < 3
    }

    ghost function Abs(): Body
      reads this, encoder
    {
      Body(state, encoder.carry, audio)
    }

    constructor (request: Request, audio: seq<seq<bv8>>)
      requires request.headJson != ""
      ensures Valid() && fresh(encoder) && this.request == request && Abs() == Body(Head, [], audio)
    {
      this.request := request;
      this.audio := audio;
      state := Head;
      encoder := new B64StreamEncoder();
    }

    /** `__anext__`: `None` is `StopAsyncIteration`. */
    method Next() returns (r: Option<string>)
      requires Valid()
      modifies this`state, this`audio, encoder
      ensures Valid() && encoder == old(encoder)
      ensures r.None? <==> old(state) == Done
      ensures r.None? ==> Abs() == old(Abs())
      ensures r.Some? ==> r.value != "" && Budget(Abs()) < Budget(old(Abs()))
      ensures r.Some? ==> r.value + Remaining(request, Abs()) == Remaining(request, old(Abs()))
      decreases Budget(Abs())
    {
      hide Encoding, Full, Final, Aligned, Concat;
      if state == Head {
        state := Prefix;
        return Some(HeadText(request));
      }
      if state == Prefix {
        state := Audio;
        return Some(PrefixText(request));
      }
      if state == Audio {
        r := NextAudio();
        return;
      }
      if state == Flush {
        state := Tail;
        EncodingOfRemainder(encoder.carry);
        var rest := encoder.Flush();
        if rest != "" {
          return Some(rest);
        }
        r := Next();
        return;
      }
      if state == Tail {
        state := Done;
        return Some(TAIL);
      }
      return None;
    }

    /** The audio loop: pulls chunks until one of them fills a group, or goes on to the flush. */
    method NextAudio() returns (r: Option<string>)
      requires Valid() && state == Audio
      modifies this`state, this`audio, encoder
      ensures Valid() && encoder == old(encoder)
      ensures r.Some? && r.value != "" && Budget(Abs()) < Budget(old(Abs()))
      ensures r.value + Remaining(request, Abs()) == Remaining(request, old(Abs()))
      decreases Budget(Abs()), 0
    {
      hide Encoding, Full, Final, Aligned, Concat;
      ghost var before := Abs();
      while audio != []
        invariant Valid() && state == Audio && encoder == old(encoder)
        invariant |audio| <= |before.audio|
        invariant Encoding(encoder.carry + Concat(audio)) == Encoding(before.carry + Concat(before.audio))
        decreases |audio|
      {
        var pcm := audio[0];
        ChunkStep(encoder.carry, audio);
        audio := audio[1..];
        var encoded := encoder.Encode(pcm);
        if encoded != "" {
          assert (encoded + Encoding(encoder.carry + Concat(audio))) + TAIL == encoded + (Encoding(encoder.carry + Concat(audio)) + TAIL);
          return Some(encoded);
        }
        assert encoded + Encoding(encoder.carry + Concat(audio)) == Encoding(encoder.carry + Concat(audio));
      }
      AudioOver(encoder.carry, audio);
      state := Flush;
      r := Next();
    }
  }

  lemma AudioOver(carry: seq<bv8>, audio: seq<seq<bv8>>)
    requires audio == []
    ensures carry + Concat(audio) == carry
  {
  }

  /** Encoding one chunk takes exactly its characters off what remains. */
  lemma ChunkStep(carry: seq<bv8>, audio: seq<seq<bv8>>)
    requires |carry| < 3 && audio != []
    ensures var data := carry + audio[0];
      Encoding(carry + Concat(audio)) == Full(data[..Aligned(data)]) + Encoding(data[Aligned(data)..] + Concat(audio[1..]))
  {
    hide Encoding, Full, Aligned, Concat;
    var data, rest := carry + audio[0], Concat(audio[1..]);
    ConcatStep(carry, audio);
    CutData(data, Aligned(data), rest);
    EncodingSplits(data[..Aligned(data)], data[Aligned(data)..] + rest);
  }

  lemma ConcatStep(carry: seq<bv8>, audio: seq<seq<bv8>>)
    requires audio != []
    ensures carry + Concat(audio) == (carry + audio[0]) + Concat(audio[1..])
  {
  }

  lemma CutData(data: seq<bv8>, n: nat, rest: seq<bv8>)
    requires n <= |data|
    ensures data + rest == data[..n] + (data[n..] + rest)
  {
  }

  // ----- Whole bodies -----

  /**
   * What a client that iterates the body gets: the iteration ends, no piece is empty, and the pieces concatenate
   * to the head, the prefix, the one-shot base64 of all the audio and the tail.
   */
  method ReadBody(q: Request, audio: seq<seq<bv8>>) returns (pieces: seq<string>)
    requires q.headJson != ""
    ensures forall i :: 0 <= i < |pieces| ==> pieces[i] != ""
    ensures Concat(pieces) == HeadText(q) + (PrefixText(q) + (Encoding(Concat(audio)) + TAIL))
  {
    hide HeadText, PrefixText, Encoding, Concat;
    var body := new AudioBodyIter(q, audio);
    assert [] + Concat(audio) == Concat(audio);
    pieces := [];
    NothingYet(Remaining(q, body.Abs()));
    var more := true;
    while more
      invariant body.Valid() && fresh(body) && fresh(body.encoder) && body.request == q
      invariant !more ==> body.state == Done
      invariant forall i :: 0 <= i < |pieces| ==> pieces[i] != ""
      invariant Concat(pieces) + Remaining(q, body.Abs()) == HeadText(q) + (PrefixText(q) + (Encoding(Concat(audio)) + TAIL))
      decreases Budget(body.Abs()), more
    {
      ghost var left := Remaining(q, body.Abs());
      var piece := body.Next();
      if piece.None? {
        more := false;
      } else {
        OneMorePiece(pieces, piece.value, Remaining(q, body.Abs()));
        pieces := pieces + [piece.value];
      }
    }
    assert Concat(pieces) + "" == Concat(pieces);
  }

  lemma NothingYet(rest: string)
    ensures Concat([]) + rest == rest
  {
  }

  lemma OneMorePiece(pieces: seq<string>, piece: string, rest: string)
    ensures Concat(pieces) + (piece + rest) == Concat(pieces + [piece]) + rest
  {
    ConcatSnoc(pieces, piece);
  }
}
