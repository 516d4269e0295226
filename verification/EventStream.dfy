module EventStream {
  /** The event-stream reader of `ingestion/mcp.py` and its use as an early-stop test while a response
  body still arrives (a subset of section 9.2 of the WHATWG HTML Living Standard). */

  import opened Common

  newtype Byte = b: int | 0 <= b < 256

  const CR: Byte := 13
  const LF: Byte := 10
  const Space: Byte := 32
  const DataPrefix: seq<Byte> := [100, 97, 116, 97, 58]   // "data:"
  const MaxFrames: nat := 64

  /** Replacing every CR LF pair by LF, left to right. */
  function Normalize(raw: seq<Byte>): (r: seq<Byte>)
    ensures |r| <= |raw|
  {
    if raw == [] then []
    else if |raw| >= 2 && raw[0] == CR && raw[1] == LF then [LF] + Normalize(raw[2..])
    else [raw[0]] + Normalize(raw[1..])
  }

  /** The pieces in front of every LF LF separator; what follows the last one is incomplete and dropped. */
  function CompletePieces(text: seq<Byte>, open: seq<Byte>): seq<seq<Byte>>
    decreases |text|
  {
    if |text| < 2 then []
    else if text[0] == LF && text[1] == LF then [open] + CompletePieces(text[2..], [])
    else CompletePieces(text[1..], open + [text[0]])
  }

  function Frames(raw: seq<Byte>): seq<seq<Byte>> {
    CompletePieces(Normalize(raw), [])
  }

  lemma {:induction false} NormalizeSplits(a: seq<Byte>, b: seq<Byte>)
    requires a == [] || b == [] || !(a[|a| - 1] == CR && b[0] == LF)
    ensures Normalize(a + b) == Normalize(a) + Normalize(b)
    decreases |a|
  {
    if a == [] {
      assert a + b == b;
    } else if b == [] {
      assert a + b == a;
    } else if |a| >= 2 && a[0] == CR && a[1] == LF {
      assert (a + b)[2..] == a[2..] + b;
      NormalizeSplits(a[2..], b);
    } else {
      assert (a + b)[1..] == a[1..] + b;
      NormalizeSplits(a[1..], b);
    }
  }

  lemma {:induction false} PiecesGrow(text: seq<Byte>, more: seq<Byte>, open: seq<Byte>)
    ensures CompletePieces(text, open) <= CompletePieces(text + more, open)
    decreases |text|
  {
    if |text| >= 2 {
      if text[0] == LF && text[1] == LF {
        assert (text + more)[2..] == text[2..] + more;
        PiecesGrow(text[2..], more, []);
      } else {
        assert (text + more)[1..] == text[1..] + more;
        PiecesGrow(text[1..], more, open + [text[0]]);
      }
    }
  }

  /** A trailing CR can never complete a frame. */
  lemma {:induction false} TrailingCR(text: seq<Byte>, open: seq<Byte>)
    ensures CompletePieces(text + [CR], open) == CompletePieces(text, open)
    decreases |text|
  {
    var longer := text + [CR];
    if |text| >= 2 {
      if text[0] == LF && text[1] == LF {
        assert longer[2..] == text[2..] + [CR];
        TrailingCR(text[2..], []);
      } else {
        assert longer[1..] == text[1..] + [CR];
        TrailingCR(text[1..], open + [text[0]]);
      }
    } else if |text| == 1 {
      assert longer[1..] == [CR];
      assert CompletePieces([CR], open + [text[0]]) == [];
    }
  }

  /** The complete frames of a prefix are a prefix of the frames of the whole stream, also where the
      prefix ends between a CR and its LF. */
  lemma FramesGrow(prefix: seq<Byte>, rest: seq<Byte>)
    ensures Frames(prefix) <= Frames(prefix + rest)
  {
    if prefix != [] && rest != [] && prefix[|prefix| - 1] == CR && rest[0] == LF {
      var head := prefix[..|prefix| - 1];
      assert prefix == head + [CR];
      assert prefix + rest == head + ([CR] + rest);
      NormalizeSplits(head, [CR]);
      NormalizeSplits(head, [CR] + rest);
      assert Normalize([CR]) == [CR];
      TrailingCR(Normalize(head), []);
      PiecesGrow(Normalize(head), Normalize([CR] + rest), []);
    } else {
      NormalizeSplits(prefix, rest);
      PiecesGrow(Normalize(prefix), Normalize(rest), []);
    }
  }

  // ---- frames written by a server come back ----

  /** A frame that survives the wire: no CR, no empty line inside, no line break at its end. */
  predicate WellFramed(frame: seq<Byte>) {
    && CR !in frame
    && (forall i :: 0 <= i < |frame| - 1 ==> !(frame[i] == LF && frame[i + 1] == LF))
    && (frame != [] ==> frame[|frame| - 1] != LF)
  }

  function Encode(frames: seq<seq<Byte>>): seq<Byte> {
    if frames == [] then [] else frames[0] + [LF, LF] + Encode(frames[1..])
  }

  lemma {:induction false} NormalizeWithoutCR(text: seq<Byte>)
    requires CR !in text
    ensures Normalize(text) == text
    decreases |text|
  {
    if text != [] {
      assert text[0] != CR;
      NormalizeWithoutCR(text[1..]);
    }
  }

  lemma {:induction false} PieceUpTo(frame: seq<Byte>, rest: seq<Byte>, open: seq<Byte>)
    requires forall i :: 0 <= i < |frame| - 1 ==> !(frame[i] == LF && frame[i + 1] == LF)
    requires frame != [] ==> frame[|frame| - 1] != LF
    ensures CompletePieces(frame + [LF, LF] + rest, open) == [open + frame] + CompletePieces(rest, [])
    decreases |frame|
  {
    var text := frame + [LF, LF] + rest;
    if frame == [] {
      assert text[2..] == rest;
      assert open + frame == open;
    } else {
      assert text[0] == frame[0];
      assert !(text[0] == LF && text[1] == LF) by {
        if |frame| == 1 { assert text[0] != LF; } else { assert text[1] == frame[1]; }
      }
      assert text[1..] == frame[1..] + [LF, LF] + rest;
      forall i | 0 <= i < |frame[1..]| - 1 ensures !(frame[1..][i] == LF && frame[1..][i + 1] == LF) {
        assert !(frame[i + 1] == LF && frame[i + 1 + 1] == LF);
      }
      PieceUpTo(frame[1..], rest, open + [frame[0]]);
      assert open + [frame[0]] + frame[1..] == open + frame;
    }
  }

  lemma {:induction false} EncodeHasNoCR(frames: seq<seq<Byte>>)
    requires forall f :: f in frames ==> WellFramed(f)
    ensures CR !in Encode(frames)
  {
    if frames != [] {
      EncodeHasNoCR(frames[1..]);
      assert WellFramed(frames[0]);
    }
  }

  /** Round trip: whatever well-framed events a server writes, exactly those frames are read back. */
  lemma FramesOfEncode(frames: seq<seq<Byte>>)
    requires forall f :: f in frames ==> WellFramed(f)
    ensures Frames(Encode(frames)) == frames
  {
    EncodeHasNoCR(frames);
    NormalizeWithoutCR(Encode(frames));
    PiecesOfEncode(frames);
  }

  lemma {:induction false} PiecesOfEncode(frames: seq<seq<Byte>>)
    requires forall f :: f in frames ==> WellFramed(f)
    ensures CompletePieces(Encode(frames), []) == frames
  {
    if frames != [] {
      assert WellFramed(frames[0]);
      PieceUpTo(frames[0], Encode(frames[1..]), []);
      PiecesOfEncode(frames[1..]);
      assert [] + frames[0] == frames[0];
    }
  }

  // ---- one response among the frames ----

  /** What JSON decoding makes of one event's data. `Message` is an object with an integer id or none. */
  datatype Decoded =
    | NotJson
    | NotObject
    | ServerMethod(hasId: bool, allowed: bool)
    | Message(id: Option<int>, payload: string)

  type Decoder = seq<Byte> -> Decoded

  function StripSpaces(line: seq<Byte>): seq<Byte> {
    if line != [] && line[0] == Space then StripSpaces(line[1..]) else line
  }

  function Lines(frame: seq<Byte>, open: seq<Byte>): seq<seq<Byte>> {
    if frame == [] then [open]
    else if frame[0] == LF then [open] + Lines(frame[1..], [])
    else Lines(frame[1..], open + [frame[0]])
  }

  /** The payloads of the `data:` lines; the code drops every leading space, not only one. */
  function DataLines(lines: seq<seq<Byte>>): seq<seq<Byte>> {
    if lines == [] then []
    else if DataPrefix <= lines[0] then [StripSpaces(lines[0][5..])] + DataLines(lines[1..])
    else DataLines(lines[1..])
  }

  // ---- against the standard's reading of a data line ----

  /** Section 9.2 of the HTML Living Standard removes one leading space of a field's value. */
  function OneSpace(line: seq<Byte>): seq<Byte> { if line != [] && line[0] == Space then line[1..] else line }

  function StandardLines(lines: seq<seq<Byte>>): seq<seq<Byte>> {
    if lines == [] then []
    else if DataPrefix <= lines[0] then [OneSpace(lines[0][5..])] + StandardLines(lines[1..])
    else StandardLines(lines[1..])
  }

  predicate SecondSpace(line: seq<Byte>) { DataPrefix + [Space, Space] <= line }

  lemma {:induction false} StripShortens(line: seq<Byte>)
    ensures |StripSpaces(line)| <= |line| && (StripSpaces(line) == line <==> line == [] || line[0] != Space)
  {
    if line != [] && line[0] == Space { StripShortens(line[1..]); }
  }

  lemma StripIsOneSpace(line: seq<Byte>)
    requires DataPrefix <= line
    ensures StripSpaces(line[5..]) == OneSpace(line[5..]) <==> !SecondSpace(line)
  {
    var value := line[5..];
    assert line == DataPrefix + value;
    if value != [] && value[0] == Space {
      StripShortens(value[1..]);
      if |value| > 1 && value[1] == Space { assert line[..7] == DataPrefix + [Space, Space]; }
      if SecondSpace(line) { assert value[1] == line[6] == (DataPrefix + [Space, Space])[6]; }
    }
  }

  /** Exactly when the reader takes the data lines as the standard does: when none has a second leading space. */
  lemma {:induction false} ReadsAsStandard(lines: seq<seq<Byte>>)
    ensures DataLines(lines) == StandardLines(lines) <==> forall l :: l in lines ==> !SecondSpace(l)
  {
    if lines != [] {
      var first, rest := lines[0], lines[1..];
      ReadsAsStandard(rest);
      assert forall l :: l in lines <==> l == first || l in rest;
      if DataPrefix <= first {
        StripIsOneSpace(first);
        SameHead(StripSpaces(first[5..]), OneSpace(first[5..]), DataLines(rest), StandardLines(rest));
      } else {
        PrefixFirst(first);
      }
    }
  }

  lemma PrefixFirst(line: seq<Byte>)
    ensures SecondSpace(line) ==> DataPrefix <= line
  {
  }

  lemma SameHead(a: seq<Byte>, b: seq<Byte>, s: seq<seq<Byte>>, t: seq<seq<Byte>>)
    ensures [a] + s == [b] + t <==> a == b && s == t
  {
    if [a] + s == [b] + t {
      assert ([a] + s)[0] == a && ([b] + t)[0] == b && ([a] + s)[1..] == s && ([b] + t)[1..] == t;
    }
  }

  /** Such a line: two spaces and a letter. */
  lemma SecondSpaceDropped(letter: Byte)
    requires letter != Space
    ensures DataLines([DataPrefix + [Space, Space, letter]]) == [[letter]]
    ensures StandardLines([DataPrefix + [Space, Space, letter]]) == [[Space, letter]]
  {
    var line := DataPrefix + [Space, Space, letter];
    assert line[5..] == [Space, Space, letter] && [Space, Space, letter][1..] == [Space, letter] && [Space, letter][1..] == [letter];
    var none: seq<seq<Byte>> := [];
    assert [line][1..] == none && DataPrefix <= line;
    assert StripSpaces([letter]) == [letter] && StripSpaces([Space, letter]) == [letter];
  }

  function JoinLines(lines: seq<seq<Byte>>): seq<Byte> {
    if lines == [] then [] else if |lines| == 1 then lines[0] else lines[0] + [LF] + JoinLines(lines[1..])
  }

  datatype Step = Skip | Take(payload: string) | Reject

  /** One frame, given whether a response was already found. */
  function ReadFrame(decode: Decoder, frame: seq<Byte>, requestId: int, found: bool): Step {
    var lines := DataLines(Lines(frame, []));
    if forall l :: l in lines ==> l == [] then Skip
    else
      match decode(JoinLines(lines))
      case NotJson => Reject
      case NotObject => Reject
      case ServerMethod(hasId, allowed) => if hasId || !allowed then Reject else Skip
      case Message(id, payload) => if id != Some(requestId) || found then Reject else Take(payload)
  }

  function ReadFrames(decode: Decoder, frames: seq<seq<Byte>>, requestId: int, result: Option<string>)
    : (r: Result<Option<string>>)
    ensures r.Err? ==> r == Err(InvalidOutput)
  {
    if frames == [] then Ok(result)
    else
      match ReadFrame(decode, frames[0], requestId, result.Some?)
      case Skip => ReadFrames(decode, frames[1..], requestId, result)
      case Take(payload) => ReadFrames(decode, frames[1..], requestId, Some(payload))
      case Reject => Err(InvalidOutput)
  }

  function Response(decode: Decoder, raw: seq<Byte>, requestId: int): (r: Result<Option<string>>)
    ensures r.Err? ==> r == Err(InvalidOutput)
  {
    if |Frames(raw)| > MaxFrames then Err(InvalidOutput)
    else ReadFrames(decode, Frames(raw), requestId, None)
  }

  /** `sse_response`. */
  method SseResponse(decode: Decoder, raw: seq<Byte>, requestId: int) returns (r: Result<Option<string>>)
    ensures r == Response(decode, raw, requestId)
  {
    var frames := Frames(raw);
    if |frames| > MaxFrames {
      return Err(InvalidOutput);
    }
    var result: Option<string> := None;
    var i := 0;
    while i < |frames|
      invariant i <= |frames|
      invariant ReadFrames(decode, frames, requestId, None) == ReadFrames(decode, frames[i..], requestId, result)
    {
      assert frames[i..][0] == frames[i] && frames[i..][1..] == frames[i + 1..];
      match ReadFrame(decode, frames[i], requestId, result.Some?) {
        case Skip =>
        case Take(payload) => result := Some(payload);
        case Reject => return Err(InvalidOutput);
      }
      i := i + 1;
    }
    r := Ok(result);
  }

  lemma {:induction false} ReadContinues(
    decode: Decoder, frames: seq<seq<Byte>>, more: seq<seq<Byte>>, requestId: int, result: Option<string>)
    ensures var first := ReadFrames(decode, frames, requestId, result);
            ReadFrames(decode, frames + more, requestId, result)
              == if first.Ok? then ReadFrames(decode, more, requestId, first.value) else first
    decreases |frames|
  {
    if frames == [] {
      assert frames + more == more;
    } else {
      assert (frames + more)[1..] == frames[1..] + more;
      match ReadFrame(decode, frames[0], requestId, result.Some?) {
        case Skip => ReadContinues(decode, frames[1..], more, requestId, result);
        case Take(payload) => ReadContinues(decode, frames[1..], more, requestId, Some(payload));
        case Reject =>
      }
    }
  }

  lemma {:induction false} FoundStays(decode: Decoder, frames: seq<seq<Byte>>, requestId: int, payload: string)
    ensures var r := ReadFrames(decode, frames, requestId, Some(payload)); r.Err? || r == Ok(Some(payload))
  {
    if frames != [] {
      FoundStays(decode, frames[1..], requestId, payload);
    }
  }

  /** Early stop is sound: once a prefix yields the response, every longer stream yields that response
      or is rejected; and a rejected prefix stays rejected. */
  lemma EarlyStopSound(decode: Decoder, prefix: seq<Byte>, rest: seq<Byte>, requestId: int)
    ensures var early := Response(decode, prefix, requestId);
            var late := Response(decode, prefix + rest, requestId);
            && (early.Ok? && early.value.Some? ==> late == early || late == Err(InvalidOutput))
            && (early.Err? ==> late == Err(InvalidOutput))
  {
    FramesGrow(prefix, rest);
    var fewer, all := Frames(prefix), Frames(prefix + rest);
    var more := all[|fewer|..];
    assert all == fewer + more;
    ReadContinues(decode, fewer, more, requestId, None);
    var early := ReadFrames(decode, fewer, requestId, None);
    if early.Ok? && early.value.Some? {
      FoundStays(decode, more, requestId, early.value.value);
    }
  }

  function Concat(chunks: seq<seq<Byte>>): seq<Byte> {
    if chunks == [] then [] else chunks[0] + Concat(chunks[1..])
  }

  /** The receive loop of the pinned client with `complete` as its stop test: a test that raises, or a
      body above the bound, fails the request. */
  method Receive(decode: Decoder, chunks: seq<seq<Byte>>, requestId: int, maxBytes: nat)
    returns (r: Result<seq<Byte>>)
    ensures r.Ok? ==> r.value <= Concat(chunks) && |r.value| <= maxBytes
    ensures r.Ok? && r.value != [] ==> Response(decode, r.value, requestId).Ok?
    // What was read decides the same response as the whole stream, unless the whole stream is rejected.
    ensures r.Ok? && r.value != [] ==>
              || Response(decode, Concat(chunks), requestId) == Response(decode, r.value, requestId)
              || Response(decode, Concat(chunks), requestId) == Err(InvalidOutput)
    // Reading stops early only with the response in hand.
    ensures r.Ok? && r.value != Concat(chunks) ==> Response(decode, r.value, requestId).value.Some?
    // A stream that fits is refused only if its response is.
    ensures r.Err? && |Concat(chunks)| <= maxBytes ==> Response(decode, Concat(chunks), requestId).Err?
  {
    var body: seq<Byte> := [];
    var i := 0;
    assert chunks[0..] == chunks;
    while i < |chunks|
      invariant i <= |chunks|
      invariant body + Concat(chunks[i..]) == Concat(chunks)
      invariant |body| <= maxBytes
      invariant i > 0 ==> Response(decode, body, requestId) == Ok(None)
      invariant i == 0 ==> body == []
    {
      assert chunks[i..][0] == chunks[i] && chunks[i..][1..] == chunks[i + 1..];
      if |body| + |chunks[i]| > maxBytes {
        return Err(InvalidOutput);
      }
      assert body + (chunks[i] + Concat(chunks[i + 1..])) == (body + chunks[i]) + Concat(chunks[i + 1..]);
      body := body + chunks[i];
      var response := SseResponse(decode, body, requestId);
      EarlyStopSound(decode, body, Concat(chunks[i + 1..]), requestId);
      if response.Err? {
        return Err(InvalidOutput);
      }
      if response.value.Some? {
        return Ok(body);
      }
      i := i + 1;
    }
    assert body + [] == body;
    r := Ok(body);
  }
}
