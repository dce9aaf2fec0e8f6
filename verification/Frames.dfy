/** The frame format and its streaming decoder: four bytes of big-endian length, then the payload. */
module Frames {
  import opened TaskStates

  type Byte = b: int | 0 <= b < 256

  const HEADER := 4
  const MAX_UINT32 := 0xffff_ffff

  datatype FrameError =
    | InvalidMaxPayload
    | Oversized(declared: nat)
    | Truncated(received: nat)
    | Trailing(received: nat)

  datatype Decoded = Payload(bytes: seq<Byte>) | Error(error: FrameError)

  /** What has become of the bytes of a stream so far. */
  datatype Progress = NeedsHeader | NeedsBody | Complete(bytes: seq<Byte>) | Broken(error: FrameError)

  function ReadLength(header: seq<Byte>): nat
    requires |header| == HEADER
  {
    ((header[0] as int * 256 + header[1]) * 256 + header[2]) * 256 + header[3]
  }

  function LengthBytes(n: nat): seq<Byte> {
    [n / 256 / 256 / 256 % 256, n / 256 / 256 % 256, n / 256 % 256, n % 256]
  }

  /** What the bytes of a stream amount to before it ends. */
  function Examine(fed: seq<Byte>, max: nat): Progress {
    if |fed| < HEADER then NeedsHeader
    else
      var n := ReadLength(fed[..HEADER]);
      if n > max then Broken(Oversized(n))
      else if |fed| < HEADER + n then NeedsBody
      else if |fed| > HEADER + n then Broken(Trailing(HEADER + n))
      else Complete(fed[HEADER..])
  }

  /** The one-shot parser: what a whole stream decodes to. */
  function Parse(stream: seq<Byte>, max: nat): Decoded {
    match Examine(stream, max)
    case Complete(bytes) => Payload(bytes)
    case Broken(error) => Error(error)
    case _ => Error(Truncated(|stream|))
  }

  function Frame(payload: seq<Byte>): seq<Byte> {
    LengthBytes(|payload|) + payload
  }

  function Concat(chunks: seq<seq<Byte>>): seq<Byte> {
    if chunks == [] then [] else Concat(chunks[..|chunks| - 1]) + chunks[|chunks| - 1]
  }

  lemma LengthRoundTrip(n: nat)
    requires n <= MAX_UINT32
    ensures ReadLength(LengthBytes(n)) == n
  {
    var a := n / 256;
    var b := a / 256;
    var c := b / 256;
    assert c < 256;
    assert LengthBytes(n) == [c, b % 256, a % 256, n % 256];
  }

  /** The parser accepts exactly the frames, and gives back what was framed. */
  lemma ParsesExactlyFrames(stream: seq<Byte>, payload: seq<Byte>, max: nat)
    requires max <= MAX_UINT32
    ensures Parse(stream, max) == Payload(payload) <==> |payload| <= max && stream == Frame(payload)
  {
    if |payload| <= max {
      LengthRoundTrip(|payload|);
      var f := Frame(payload);
      assert f[..HEADER] == LengthBytes(|payload|) && f[HEADER..] == payload;
      assert stream == f ==> Parse(stream, max) == Payload(payload);
    }
    if Parse(stream, max) == Payload(payload) {
      ReadIsInjective(stream[..HEADER]);
      assert stream == stream[..HEADER] + stream[HEADER..];
    }
  }

  lemma ReadIsInjective(header: seq<Byte>)
    requires |header| == HEADER
    ensures LengthBytes(ReadLength(header)) == header
  {
    var n := ReadLength(header);
    var a: int := header[0] as int * 256 + header[1];
    var b: int := a * 256 + header[2];
    assert n == b * 256 + header[3];
    assert n / 256 == b && n % 256 == header[3];
    assert b / 256 == a && b % 256 == header[2];
    assert a / 256 == header[0] && a % 256 == header[1];
  }

  /** What has broken stays broken the same way, whatever is fed after it; what is complete takes no more. */
  lemma BrokenForGood(fed: seq<Byte>, more: seq<Byte>, max: nat)
    ensures Examine(fed, max).Broken? ==> Examine(fed + more, max) == Examine(fed, max)
    ensures Examine(fed, max).Complete? && more != [] ==> Examine(fed + more, max) == Broken(Trailing(|fed|))
  {
    if |fed| >= HEADER {
      assert (fed + more)[..HEADER] == fed[..HEADER];
    }
  }

  lemma Rejoin(start: seq<Byte>, chunk: seq<Byte>, offset: nat)
    requires offset <= |chunk|
    ensures start + chunk[..offset] + chunk[offset..] == start + chunk
  {
    assert chunk[..offset] + chunk[offset..] == chunk;
  }

  /** Encodes one bounded payload into a fresh buffer. */
  method EncodeFrame(payload: seq<Byte>, maxPayloadBytes: int) returns (r: Decoded)
    ensures r == if maxPayloadBytes < 0 || maxPayloadBytes > MAX_UINT32 then Error(InvalidMaxPayload)
                 else if |payload| > maxPayloadBytes then Error(Oversized(|payload|))
                 else Payload(Frame(payload))
  {
    if maxPayloadBytes < 0 || maxPayloadBytes > MAX_UINT32 {
      return Error(InvalidMaxPayload);
    }
    if |payload| > maxPayloadBytes {
      return Error(Oversized(|payload|));
    }
    var frame := new Byte[HEADER + |payload|](_ => 0);
    Set(frame, 0, LengthBytes(|payload|));
    Set(frame, HEADER, payload);
    assert frame[..] == frame[..HEADER] + frame[HEADER..];
    r := Payload(frame[..]);
  }

  /** Copies bytes into a buffer. */
  method Set(a: array<Byte>, at: nat, bytes: seq<Byte>)
    requires at + |bytes| <= a.Length
    modifies a
    ensures a[at..at + |bytes|] == bytes && a[..at] == old(a[..at])
    ensures forall i | at + |bytes| <= i < a.Length :: a[i] == old(a[i])
  {
    for i := 0 to |bytes|
      invariant forall j | 0 <= j < i :: a[at + j] == bytes[j]
      invariant forall j | 0 <= j < a.Length && !(at <= j < at + i) :: a[j] == old(a[j])
    {
      a[at + i] := bytes[i];
    }
  }

  class FrameDecoder {
    const maxPayloadBytes: nat
    const header: array<Byte>
    var headerBytes: nat
    var body: array?<Byte>
    var bodyBytes: nat
    var declaredLength: Option<nat>
    var completed: bool
    var failure: Option<FrameError>
    ghost var fed: seq<Byte>

    /** Header and body hold what was fed, and no body is ever larger than the maximum. */
    ghost predicate Buffers()
      reads this, header, body
    {
      && header.Length == HEADER && maxPayloadBytes <= MAX_UINT32
      && (body != null ==> body != header && body.Length <= maxPayloadBytes)
      && headerBytes == (if |fed| < HEADER then |fed| else HEADER)
      && header[..headerBytes] == fed[..headerBytes]
      && if |fed| < HEADER then body == null && declaredLength == None && bodyBytes == 0 && !completed
         else
           && declaredLength == Some(ReadLength(fed[..HEADER])) && body != null && body.Length == declaredLength.value
           && bodyBytes == |fed| - HEADER <= declaredLength.value && body[..bodyBytes] == fed[HEADER..]
           && (completed <==> bodyBytes == declaredLength.value)
    }

    ghost predicate Valid()
      reads this, header, body
    {
      && header.Length == HEADER && maxPayloadBytes <= MAX_UINT32
      && (body != null ==> body != header && body.Length <= maxPayloadBytes)
      && match failure
         case None => Buffers()
         case Some(Truncated(n)) => n == |fed| && !Examine(fed, maxPayloadBytes).Complete?
             && !Examine(fed, maxPayloadBytes).Broken?
         case Some(e) => Examine(fed, maxPayloadBytes) == Broken(e)
    }

    constructor (maxPayloadBytes: nat)
      requires maxPayloadBytes <= MAX_UINT32
      ensures Valid() && fed == [] && failure == None && this.maxPayloadBytes == maxPayloadBytes
      ensures fresh(header) && body == null
    {
      this.maxPayloadBytes := maxPayloadBytes;
      header := new Byte[HEADER](_ => 0);
      headerBytes, body, bodyBytes := 0, null, 0;
      declaredLength, completed, failure := None, false, None;
      fed := [];
    }

    /** Takes bytes for the header; with the fourth the length is checked, and only then a body allocated. */
    method TakeHeader(bytes: seq<Byte>)
      requires Valid() && failure == None && |fed| < HEADER && 0 < |bytes| <= HEADER - |fed|
      modifies this, header
      ensures Valid() && fed == old(fed) + bytes && (body == null || fresh(body))
      ensures failure == match Examine(fed, maxPayloadBytes) case Broken(e) => Some(e) case _ => None
    {
      ghost var was := fed;
      Set(header, headerBytes, bytes);
      headerBytes := headerBytes + |bytes|;
      fed := fed + bytes;
      assert header[..headerBytes] == fed;
      if headerBytes < HEADER {
        return;
      }
      assert header[..] == fed[..HEADER];
      var n := ReadLength(header[..]);
      declaredLength := Some(n);
      if n > maxPayloadBytes {
        failure := Some(Oversized(n));
        return;
      }
      body := new Byte[n](_ => 0);
      completed := n == 0;
    }

    /** Takes bytes for the body. */
    method TakeBody(bytes: seq<Byte>)
      requires Valid() && failure == None && |fed| >= HEADER && declaredLength.Some?
      requires |bytes| <= declaredLength.value - bodyBytes
      modifies this, body
      ensures Valid() && failure == None && fed == old(fed) + bytes && body == old(body)
      ensures declaredLength == old(declaredLength)
    {
      Set(body, bodyBytes, bytes);
      bodyBytes := bodyBytes + |bytes|;
      assert (fed + bytes)[..HEADER] == fed[..HEADER];
      assert (fed + bytes)[HEADER..] == fed[HEADER..] + bytes;
      assert body[..bodyBytes] == fed[HEADER..] + bytes;
      fed := fed + bytes;
      completed := bodyBytes == declaredLength.value;
    }

    /** The end of a frame: bytes beyond it are an error. */
    method Conclude(rest: seq<Byte>) returns (r: Decoded)
      requires Valid() && failure == None && completed
      modifies this
      ensures Valid() && fed == old(fed) + rest && body == old(body)
      ensures Answers(r)
    {
      Standing();
      BrokenForGood(fed, rest, maxPayloadBytes);
      assert fed + [] == fed;
      if |rest| != 0 {
        failure := Some(Trailing(headerBytes + bodyBytes));
        fed := fed + rest;
        return Error(failure.value);
      }
      r := Payload(body[..]);
    }

    /** The stream is decided, and `r` says how. */
    ghost predicate Answers(r: Decoded)
      reads this, header, body
    {
      match Examine(fed, maxPayloadBytes)
      case Broken(e) => r == Error(e) && failure == Some(e)
      case Complete(bytes) => r == Payload(bytes) && failure == None && completed
      case _ => false
    }

    /** As much of the header as the chunk holds; an error or an empty frame decides the stream. */
    method AdvanceHeader(rest: seq<Byte>) returns (taken: nat, r: Option<Decoded>)
      requires Valid() && failure == None && !completed && |fed| < HEADER && rest != []
      modifies this, header
      ensures Valid() && (body == null || fresh(body))
      ensures if r.Some? then fed == old(fed) + rest && Answers(r.value)
              else 0 < taken <= |rest| && fed == old(fed) + rest[..taken] && failure == None && !completed
      ensures r == None && |fed| < HEADER ==> taken == |rest|
    {
      taken := if HEADER - headerBytes < |rest| then HEADER - headerBytes else |rest|;
      ghost var more := rest[taken..];
      assert fed + rest == fed + rest[..taken] + more;
      TakeHeader(rest[..taken]);
      BrokenForGood(fed, more, maxPayloadBytes);
      r := None;
      if failure.Some? {
        fed := fed + more;
        r := Some(Error(failure.value));
      } else if completed {
        var answer := Conclude(rest[taken..]);
        r := Some(answer);
      }
    }

    /** As much of the body as the chunk holds; a full body decides the stream. */
    method AdvanceBody(rest: seq<Byte>) returns (taken: nat, r: Option<Decoded>)
      requires Valid() && failure == None && !completed && |fed| >= HEADER && rest != []
      modifies this, body
      ensures Valid() && body == old(body)
      ensures if r.Some? then fed == old(fed) + rest && Answers(r.value)
              else taken == |rest| && fed == old(fed) + rest && failure == None && !completed
    {
      taken := if declaredLength.value - bodyBytes < |rest| then declaredLength.value - bodyBytes else |rest|;
      assert fed + rest == fed + rest[..taken] + rest[taken..];
      TakeBody(rest[..taken]);
      r := None;
      if completed {
        var answer := Conclude(rest[taken..]);
        r := Some(answer);
      }
    }

    /** The chunk loop of a stream that is still open. */
    method Advance(chunk: seq<Byte>) returns (r: Option<Decoded>)
      requires Valid() && failure == None && !completed
      modifies this, header, body
      ensures Valid() && (body == old(body) || fresh(body)) && fed == old(fed) + chunk
      ensures if r.Some? then Answers(r.value) && chunk != [] else failure == None && !completed
    {
      r := None;
      ghost var start := fed;
      var offset := 0;
      while offset < |chunk| && r == None
        invariant offset <= |chunk| && Valid() && (body == old(body) || fresh(body))
        invariant if r.Some? then fed == start + chunk && Answers(r.value)
                  else fed == start + chunk[..offset] && failure == None && !completed
        decreases r == None, |chunk| - offset
      {
        var taken;
        var rest := chunk[offset..];
        Rejoin(start, chunk, offset);
        if headerBytes < HEADER {
          taken, r := AdvanceHeader(rest);
        } else {
          taken, r := AdvanceBody(rest);
        }
        if r == None {
          assert chunk[..offset] + rest[..taken] == chunk[..offset + taken];
          offset := offset + taken;
        }
      }
      assert chunk[..|chunk|] == chunk;
    }

    /** Consumes one chunk: nothing yet, the payload it completes, or the error that ends the stream. */
    method Push(chunk: seq<Byte>) returns (r: Option<Decoded>)
      requires Valid()
      modifies this, header, body
      ensures Valid() && (body == old(body) || fresh(body))
      ensures old(failure).Some? ==> r == Some(Error(old(failure).value)) && failure == old(failure) && fed == old(fed)
      ensures old(failure).None? ==>
                && fed == old(fed) + chunk
                && match Examine(fed, maxPayloadBytes)
                   case Broken(e) => r == Some(Error(e)) && failure == Some(e)
                   case Complete(bytes) => failure == None && r == if chunk == [] then None else Some(Payload(bytes))
                   case _ => failure == None && r == None
    {
      if failure.Some? {
        return Some(Error(failure.value));
      }
      Standing();
      if completed {
        var answer := Conclude(chunk);
        return if |chunk| == 0 then None else Some(answer);
      }
      r := Advance(chunk);
      if r == None {
        Standing();
      }
    }

    /** What the fields say about the bytes taken so far. */
    lemma Standing()
      requires Valid() && failure == None
      ensures completed ==>
                body != null && Examine(fed, maxPayloadBytes) == Complete(body[..]) && headerBytes + bodyBytes == |fed|
      ensures !completed ==> Examine(fed, maxPayloadBytes) in {NeedsHeader, NeedsBody}
    {
      if completed {
        assert body[..] == body[..bodyBytes];
      }
    }

    /** Ends the stream: what was fed is decoded as the one-shot parser would. */
    method Finish() returns (r: Decoded)
      requires Valid()
      modifies this
      ensures Valid() && fed == old(fed)
      ensures r == Parse(fed, maxPayloadBytes)
      ensures failure == match r case Payload(_) => None case Error(e) => Some(e)
    {
      if failure.Some? {
        return Error(failure.value);
      }
      Standing();
      if completed {
        return Payload(body[..]);
      }
      failure := Some(Truncated(headerBytes + bodyBytes));
      r := Error(failure.value);
    }
  }

  lemma ConcatTakes(chunks: seq<seq<Byte>>, i: nat)
    requires i < |chunks|
    ensures Concat(chunks[..i + 1]) == Concat(chunks[..i]) + chunks[i]
  {
    assert chunks[..i + 1][..i] == chunks[..i];
  }

  lemma {:induction false} ConcatSplits(chunks: seq<seq<Byte>>, i: nat)
    requires i <= |chunks|
    ensures exists rest :: Concat(chunks) == Concat(chunks[..i]) + rest
    decreases |chunks| - i
  {
    if i == |chunks| {
      assert chunks[..i] == chunks && Concat(chunks) == Concat(chunks[..i]) + [];
    } else {
      ConcatSplits(chunks, i + 1);
      ConcatTakes(chunks, i);
      var rest :| Concat(chunks) == Concat(chunks[..i + 1]) + rest;
      assert Concat(chunks) == Concat(chunks[..i]) + (chunks[i] + rest);
    }
  }

  /** Feeding a stream in any chunks, empty ones included, and finishing it gives what the one-shot
      parser gives for the whole stream. */
  method DecodeChunks(chunks: seq<seq<Byte>>, maxPayloadBytes: int) returns (r: Decoded)
    ensures r == if maxPayloadBytes < 0 || maxPayloadBytes > MAX_UINT32 then Error(InvalidMaxPayload)
        else Parse(Concat(chunks), maxPayloadBytes)
  {
    if maxPayloadBytes < 0 || maxPayloadBytes > MAX_UINT32 {
      return Error(InvalidMaxPayload);
    }
    var decoder := new FrameDecoder(maxPayloadBytes);
    for i := 0 to |chunks|
      invariant decoder.Valid() && decoder.failure == None && decoder.fed == Concat(chunks[..i])
      invariant decoder.maxPayloadBytes == maxPayloadBytes
      invariant fresh(decoder) && fresh(decoder.header) && (decoder.body == null || fresh(decoder.body))
    {
      ConcatTakes(chunks, i);
      var pushed := decoder.Push(chunks[i]);
      if pushed.Some? && pushed.value.Error? {
        ConcatSplits(chunks, i + 1);
        ghost var rest :| Concat(chunks) == Concat(chunks[..i + 1]) + rest;
        BrokenForGood(decoder.fed, rest, maxPayloadBytes);
        return pushed.value;
      }
    }
    assert chunks[..|chunks|] == chunks;
    r := decoder.Finish();
  }

  /** Whatever way the bytes of an encoded payload are cut, decoding gives the payload back. */
  lemma EveryChunkingDecodes(payload: seq<Byte>, chunks: seq<seq<Byte>>, max: nat)
    requires |payload| <= max <= MAX_UINT32 && Concat(chunks) == Frame(payload)
    ensures Parse(Concat(chunks), max) == Payload(payload)
  {
    ParsesExactlyFrames(Concat(chunks), payload, max);
  }

  /* ---------- byte by byte ---------- */

  /** The length of a frame stands in its first four bytes, the most significant first; the payload follows. */
  lemma HeaderIsBigEndian(payload: seq<Byte>)
    requires |payload| <= 4294967295
    ensures var f := Frame(payload);
            && |f| == 4 + |payload| && f[4..] == payload
            && f[0] as int * 16777216 + f[1] as int * 65536 + f[2] as int * 256 + f[3] as int == |payload|
  {
    LengthRoundTrip(|payload|);
  }

  /** What a whole stream decodes to: a header that is cut short, a length beyond the maximum, a payload that is cut
      short or followed by more, or exactly the payload. */
  lemma StreamTable(stream: seq<Byte>, max: nat)
    ensures Parse(stream, max) == (
              if |stream| < 4 then Error(Truncated(|stream|))
              else
                var n := stream[0] as int * 16777216 + stream[1] as int * 65536 + stream[2] as int * 256
                         + stream[3] as int;
                if n > max then Error(Oversized(n))
                else if |stream| < 4 + n then Error(Truncated(|stream|))
                else if |stream| > 4 + n then Error(Trailing(4 + n))
                else Payload(stream[4..]))
  {
  }
}
